/** Decoding a queue message body into a submission: base64, then ASCII text, then JSON,
    then the three field lookups (main.py:83-89). The base64 and JSON parsers are library
    code and are supplied as functions; the ASCII step is modelled exactly. */
module Codec {
  import opened Wrappers
  import opened Json

  newtype byte = x: int | 0 <= x < 256

  /** The library calls the decoder relies on: `base64.b64decode`, `json.loads`, and the
      repr formatting `str` uses for a list or a dict. None stands for a raised error. */
  datatype Library = Library(
    b64decode: string -> Option<seq<byte>>,
    loads: string -> Option<Json>,
    reprContainer: Json -> string)

  /** A decoded message body. The field values are whatever JSON values the body holds;
      nothing checks that they are strings or that `events` is a list. */
  datatype Submission = Submission(events: Json, deviceId: Json, submissionId: Json)

  predicate IsAscii(bytes: seq<byte>)
  {
    forall i :: 0 <= i < |bytes| ==> bytes[i] < 128
  }

  /** `bytes.decode('ascii')`: every byte below 128 becomes the character with that code;
      any other byte raises (UnicodeDecodeError), even where it would be valid UTF-8. */
  function AsciiDecode(bytes: seq<byte>): (r: Option<string>)
    ensures r.Some? <==> IsAscii(bytes)
    ensures r.Some? ==>
      |r.value| == |bytes| && forall i :: 0 <= i < |bytes| ==> r.value[i] as int == bytes[i] as int
  {
    if |bytes| == 0 then Some([])
    else if bytes[0] >= 128 then None
    else
      match AsciiDecode(bytes[1..])
      case None => None
      case Some(rest) => Some([bytes[0] as int as char] + rest)
  }

  /** The character codes of an ASCII string, as the sending side encodes them. */
  function AsciiEncode(s: string): (bytes: seq<byte>)
    requires forall i :: 0 <= i < |s| ==> s[i] as int < 128
    ensures |bytes| == |s|
  {
    seq(|s|, i requires 0 <= i < |s| => s[i] as int as byte)
  }

  /** Every ASCII string survives encoding and decoding. */
  lemma {:induction false} AsciiRoundTrip(s: string)
    requires forall i :: 0 <= i < |s| ==> s[i] as int < 128
    ensures AsciiDecode(AsciiEncode(s)) == Some(s)
  {
    var e := AsciiEncode(s);
    assert IsAscii(e);
    var d := AsciiDecode(e).value;
    assert forall i :: 0 <= i < |s| ==> d[i] == s[i];
    assert d == s;
  }

  /** Every ASCII byte string survives decoding and encoding. */
  lemma {:induction false} AsciiBytesRoundTrip(bytes: seq<byte>)
    requires IsAscii(bytes)
    ensures AsciiEncode(AsciiDecode(bytes).value) == bytes
  {
    var d := AsciiDecode(bytes).value;
    var e := AsciiEncode(d);
    assert forall i :: 0 <= i < |bytes| ==> e[i] == bytes[i];
  }

  /** Base64, ASCII and JSON in turn: the document the body holds, if every stage succeeds. */
  function ParseDocument(lib: Library, body: string): (r: Option<Json>)
    ensures r.Some? ==> lib.b64decode(body).Some? && IsAscii(lib.b64decode(body).value)
    ensures lib.b64decode(body).Some? && IsAscii(lib.b64decode(body).value) ==>
      r == lib.loads(AsciiDecode(lib.b64decode(body).value).value)
  {
    var bytes :- lib.b64decode(body);
    var text :- AsciiDecode(bytes);
    lib.loads(text)
  }

  /** The three fields the relay reads from the document. */
  predicate HasFields(doc: Json)
  {
    && Subscript(doc, "events").Some?
    && Subscript(doc, "device_id").Some?
    && Subscript(doc, "submission_id").Some?
  }

  /** The whole decode: it either yields all three fields of the document or nothing at
      all; there is no partially decoded submission. */
  function Decode(lib: Library, body: string): (r: Option<Submission>)
    ensures r.Some? <==> ParseDocument(lib, body).Some? && HasFields(ParseDocument(lib, body).value)
    ensures r.Some? ==>
      var doc := ParseDocument(lib, body).value;
      && Subscript(doc, "events") == Some(r.value.events)
      && Subscript(doc, "device_id") == Some(r.value.deviceId)
      && Subscript(doc, "submission_id") == Some(r.value.submissionId)
  {
    var doc :- ParseDocument(lib, body);
    var events :- Subscript(doc, "events");
    var deviceId :- Subscript(doc, "device_id");
    var submissionId :- Subscript(doc, "submission_id");
    Some(Submission(events, deviceId, submissionId))
  }

  /** True when `doc` is a dict none of whose members is named `key`. */
  predicate LacksKey(doc: Json, key: string)
  {
    doc.JObject? && forall i :: 0 <= i < |doc.members| ==> doc.members[i].0 != key
  }

  /** Each way the decode can fail: bad base64, a byte outside ASCII, bad JSON, a document
      that is not a dict, or a dict lacking any one of the three fields. */
  lemma {:induction false} DecodeFailures(lib: Library, body: string)
    ensures lib.b64decode(body).None? ==> Decode(lib, body).None?
    ensures lib.b64decode(body).Some? && !IsAscii(lib.b64decode(body).value) ==>
      Decode(lib, body).None?
    ensures (lib.b64decode(body).Some? && IsAscii(lib.b64decode(body).value) &&
      lib.loads(AsciiDecode(lib.b64decode(body).value).value).None?) ==>
      Decode(lib, body).None?
    ensures (ParseDocument(lib, body).Some? && !ParseDocument(lib, body).value.JObject?) ==>
      Decode(lib, body).None?
    ensures (ParseDocument(lib, body).Some? &&
      (LacksKey(ParseDocument(lib, body).value, "events") ||
       LacksKey(ParseDocument(lib, body).value, "device_id") ||
       LacksKey(ParseDocument(lib, body).value, "submission_id"))) ==>
      Decode(lib, body).None?
  {
  }
}
