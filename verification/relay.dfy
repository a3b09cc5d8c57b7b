/** One relay cycle: the body of the per-device loop of `run_preprocessor`
    (main.py:79-101). Given the queue's reply to the poll and the position of the first
    remote call that raises, a cycle is the sequence of puts and deletes it attempts.
    Every error is swallowed at the end of the cycle, so a cycle always returns. */
module Relay {
  import opened Wrappers
  import opened Json
  import opened Codec
  import opened Clients

  /** One entry of `response["Messages"]`; a key the reply lacks is None. */
  datatype Message = Message(body: Option<string>, receiptHandle: Option<string>)

  /** The queue's reply; `messages` is None when the reply has no "Messages" key. */
  datatype ReceiveResponse = ReceiveResponse(messages: Option<seq<Message>>)

  /** What the outside world contributes to one cycle: the reply to its poll, and the
      0-based position, among the puts and deletes of the cycle, of the first call that
      raises (None when none does). The put of event i is call 2i, its delete call 2i+1. */
  datatype Observation = Observation(response: ReceiveResponse, firstFailure: Option<nat>)

  /** Where the records of one submission go and which delivery they acknowledge. */
  datatype Target = Target(deviceId: Json, submissionId: Json, receiptHandle: string)

  /** Everything read before the first put: the events to publish and their target. */
  datatype Plan = Plan(items: seq<Json>, target: Target)

  /** `response["Messages"][0]`. */
  function FirstMessage(response: ReceiveResponse): (r: Option<Message>)
    ensures r.Some? <==> response.messages.Some? && |response.messages.value| > 0
    ensures r.Some? ==> r.value == response.messages.value[0]
  {
    var messages :- response.messages;
    if |messages| == 0 then None else Some(messages[0])
  }

  /** Nothing before the first put raises: message 0 exists with a body and a receipt
      handle, the body decodes, and its `events` can be iterated. */
  predicate Ready(lib: Library, response: ReceiveResponse)
  {
    && FirstMessage(response).Some?
    && FirstMessage(response).value.body.Some?
    && FirstMessage(response).value.receiptHandle.Some?
    && Decode(lib, FirstMessage(response).value.body.value).Some?
    && Iterate(Decode(lib, FirstMessage(response).value.body.value).value.events).Some?
  }

  /** Lines 82-92 up to the first put: the body of message 0, its decode, its receipt
      handle and the iteration of `events`. None when any of them raises. */
  function Prepare(lib: Library, response: ReceiveResponse): (r: Option<Plan>)
    ensures r.Some? ==>
      && FirstMessage(response).Some?
      && var m := FirstMessage(response).value;
      && m.body.Some? && m.receiptHandle.Some?
      && Decode(lib, m.body.value).Some?
      && var sub := Decode(lib, m.body.value).value;
      && Iterate(sub.events) == Some(r.value.items)
      && r.value.target == Target(sub.deviceId, sub.submissionId, m.receiptHandle.value)
    ensures Ready(lib, response) ==> r.Some?
  {
    var msg :- FirstMessage(response);
    var body :- msg.body;
    var sub :- Decode(lib, body);
    var handle :- msg.receiptHandle;
    var items :- Iterate(sub.events);
    Some(Plan(items, Target(sub.deviceId, sub.submissionId, handle)))
  }

  /** The put for one event (main.py:96). */
  function Publish(lib: Library, t: Target, event: Json): Effect
  {
    PutToStream(PyStr(event, lib.reprContainer), t.deviceId, t.submissionId)
  }

  /** The delete that follows every put (main.py:98). */
  function Acknowledge(endpoint: string, t: Target): Effect
  {
    DeleteMessage(endpoint, t.receiptHandle)
  }

  /** The calls of the `for event in events` loop when none of them raises. */
  function FanOut(lib: Library, endpoint: string, t: Target, items: seq<Json>): (calls: seq<Effect>)
    ensures |calls| == 2 * |items|
  {
    if |items| == 0 then []
    else [Publish(lib, t, items[0]), Acknowledge(endpoint, t)] + FanOut(lib, endpoint, t, items[1..])
  }

  /** The calls actually attempted: everything up to and including the first one that
      raises; the exception then ends the cycle. */
  function Attempted(calls: seq<Effect>, firstFailure: Option<nat>): (r: seq<Effect>)
    ensures r <= calls
    ensures firstFailure.Some? && firstFailure.value < |calls| ==> |r| == firstFailure.value + 1
    ensures firstFailure.None? || firstFailure.value >= |calls| ==> r == calls
  {
    match firstFailure
    case None => calls
    case Some(f) => if f < |calls| then calls[..f + 1] else calls
  }

  /** One relay cycle. */
  function Cycle(lib: Library, endpoint: string, obs: Observation): seq<Effect>
  {
    match Prepare(lib, obs.response)
    case None => []
    case Some(p) => Attempted(FanOut(lib, endpoint, p.target, p.items), obs.firstFailure)
  }

  /** The loop's call at position k: the put of event k / 2 when k is even, the delete
      that follows it when k is odd. */
  lemma {:induction false} FanOutCall(lib: Library, endpoint: string, t: Target, items: seq<Json>, k: nat)
    requires k < 2 * |items|
    ensures k / 2 < |items|
    ensures FanOut(lib, endpoint, t, items)[k]
         == if k % 2 == 0 then Publish(lib, t, items[k / 2]) else Acknowledge(endpoint, t)
  {
    var rest := FanOut(lib, endpoint, t, items[1..]);
    var all := FanOut(lib, endpoint, t, items);
    assert all == [Publish(lib, t, items[0]), Acknowledge(endpoint, t)] + rest;
    if k >= 2 {
      FanOutCall(lib, endpoint, t, items[1..], k - 2);
      assert all[k] == rest[k - 2];
      assert (k - 2) % 2 == k % 2 && (k - 2) / 2 == k / 2 - 1;
      assert items[1..][k / 2 - 1] == items[k / 2];
    }
  }

  /** The loop's calls, by position: put of event i at 2i, its delete right after. */
  lemma {:induction false} FanOutShape(lib: Library, endpoint: string, t: Target, items: seq<Json>)
    ensures |FanOut(lib, endpoint, t, items)| == 2 * |items|
    ensures forall i :: 0 <= i < |items| ==>
      && FanOut(lib, endpoint, t, items)[2 * i] == Publish(lib, t, items[i])
      && FanOut(lib, endpoint, t, items)[2 * i + 1] == Acknowledge(endpoint, t)
  {
    forall i | 0 <= i < |items|
      ensures FanOut(lib, endpoint, t, items)[2 * i] == Publish(lib, t, items[i])
      ensures FanOut(lib, endpoint, t, items)[2 * i + 1] == Acknowledge(endpoint, t)
    {
      assert (2 * i) / 2 == i && (2 * i) % 2 == 0;
      assert (2 * i + 1) / 2 == i && (2 * i + 1) % 2 == 1;
      FanOutCall(lib, endpoint, t, items, 2 * i);
      FanOutCall(lib, endpoint, t, items, 2 * i + 1);
    }
  }

  /** Publishing two runs of events one after the other is publishing their concatenation. */
  lemma {:induction false} FanOutAppend(lib: Library, endpoint: string, t: Target, a: seq<Json>, b: seq<Json>)
    ensures FanOut(lib, endpoint, t, a + b) == FanOut(lib, endpoint, t, a) + FanOut(lib, endpoint, t, b)
    decreases |a|
  {
    if |a| == 0 {
      assert a + b == b;
    } else {
      assert (a + b)[1..] == a[1..] + b;
      FanOutAppend(lib, endpoint, t, a[1..], b);
    }
  }

  /** Splitting the loop's calls at event i: those before it, its put and delete, the rest. */
  lemma {:induction false} FanOutAt(lib: Library, endpoint: string, t: Target, items: seq<Json>, i: nat)
    requires i < |items|
    ensures FanOut(lib, endpoint, t, items) ==
      FanOut(lib, endpoint, t, items[..i]) + [Publish(lib, t, items[i]), Acknowledge(endpoint, t)]
        + FanOut(lib, endpoint, t, items[i + 1..])
    ensures FanOut(lib, endpoint, t, items[..i + 1]) ==
      FanOut(lib, endpoint, t, items[..i]) + [Publish(lib, t, items[i]), Acknowledge(endpoint, t)]
  {
    FanOutAppend(lib, endpoint, t, items[..i], items[i..]);
    assert items[..i] + items[i..] == items;
    assert items[i..][1..] == items[i + 1..];
    FanOutAppend(lib, endpoint, t, items[..i], [items[i]]);
    assert items[..i + 1] == items[..i] + [items[i]];
    assert [items[i]][1..] == [];
  }

  /** The attempted calls when the put of event i raises. */
  lemma {:induction false} StopsAtPut(lib: Library, endpoint: string, t: Target, items: seq<Json>, i: nat)
    requires i < |items|
    ensures Attempted(FanOut(lib, endpoint, t, items), Some(2 * i)) ==
      FanOut(lib, endpoint, t, items[..i]) + [Publish(lib, t, items[i])]
  {
    FanOutAt(lib, endpoint, t, items, i);
    FanOutShape(lib, endpoint, t, items[..i]);
    FanOutShape(lib, endpoint, t, items);
  }

  /** The attempted calls when the delete after event i raises. */
  lemma {:induction false} StopsAtDelete(lib: Library, endpoint: string, t: Target, items: seq<Json>, i: nat)
    requires i < |items|
    ensures Attempted(FanOut(lib, endpoint, t, items), Some(2 * i + 1)) ==
      FanOut(lib, endpoint, t, items[..i + 1])
  {
    FanOutAt(lib, endpoint, t, items, i);
    FanOutShape(lib, endpoint, t, items[..i]);
    FanOutShape(lib, endpoint, t, items);
  }

  /** The attempted calls when no call of the loop raises. */
  lemma {:induction false} RunsToEnd(lib: Library, endpoint: string, t: Target, items: seq<Json>, f: Option<nat>)
    requires f.None? || f.value >= 2 * |items|
    ensures Attempted(FanOut(lib, endpoint, t, items), f) == FanOut(lib, endpoint, t, items[..|items|])
  {
    FanOutShape(lib, endpoint, t, items);
    assert items[..|items|] == items;
  }

  /** The `for event in events` loop as the source writes it: put, then delete, for each
      event in order, stopping at the first call that raises. */
  method PublishAll(lib: Library, endpoint: string, p: Plan, firstFailure: Option<nat>) returns (trace: seq<Effect>)
    ensures trace == Attempted(FanOut(lib, endpoint, p.target, p.items), firstFailure)
  {
    trace := [];
    var i := 0;
    while i < |p.items|
      invariant 0 <= i <= |p.items|
      invariant trace == FanOut(lib, endpoint, p.target, p.items[..i])
      invariant firstFailure.None? || firstFailure.value >= 2 * i
    {
      FanOutAt(lib, endpoint, p.target, p.items, i);
      trace := trace + [Publish(lib, p.target, p.items[i])];
      if firstFailure == Some(2 * i) {
        StopsAtPut(lib, endpoint, p.target, p.items, i);
        return;
      }
      trace := trace + [Acknowledge(endpoint, p.target)];
      if firstFailure == Some(2 * i + 1) {
        StopsAtDelete(lib, endpoint, p.target, p.items, i);
        return;
      }
      i := i + 1;
    }
    RunsToEnd(lib, endpoint, p.target, p.items, firstFailure);
  }

  /** The cycle as the source writes it: read everything up to the loop, then run the
      loop; an error before the loop ends the cycle without a call. */
  method RunCycle(lib: Library, endpoint: string, obs: Observation) returns (trace: seq<Effect>)
    ensures trace == Cycle(lib, endpoint, obs)
  {
    var prepared := Prepare(lib, obs.response);
    if prepared.None? {
      trace := [];
    } else {
      trace := PublishAll(lib, endpoint, prepared.value, obs.firstFailure);
    }
  }

  /** The attempted calls, by position: put of event k / 2 at even k, its delete at odd k. */
  lemma {:induction false} AttemptedShape(lib: Library, endpoint: string, t: Target, items: seq<Json>, f: Option<nat>)
    ensures var calls := Attempted(FanOut(lib, endpoint, t, items), f);
      forall k :: 0 <= k < |calls| ==>
        && k / 2 < |items|
        && (k % 2 == 0 ==> calls[k] == Publish(lib, t, items[k / 2]))
        && (k % 2 == 1 ==> calls[k] == Acknowledge(endpoint, t))
  {
    var all := FanOut(lib, endpoint, t, items);
    var calls := Attempted(all, f);
    forall k | 0 <= k < |calls|
      ensures k / 2 < |items|
      ensures k % 2 == 0 ==> calls[k] == Publish(lib, t, items[k / 2])
      ensures k % 2 == 1 ==> calls[k] == Acknowledge(endpoint, t)
    {
      FanOutCall(lib, endpoint, t, items, k);
      assert calls[k] == all[k];
    }
  }

  /** Counts in a prefix of a trace that alternates put, delete, put, delete, ... */
  lemma {:induction false} AlternatingCounts(calls: seq<Effect>, n: nat)
    requires n <= |calls|
    requires forall i :: 0 <= i < |calls| ==> KindOf(calls[i]) == (if i % 2 == 0 then PutCall else DeleteCall)
    ensures Count(calls[..n], PutCall) == (n + 1) / 2
    ensures Count(calls[..n], DeleteCall) == n / 2
    ensures Count(calls[..n], ReceiveCall) == 0
  {
    if n > 0 {
      AlternatingCounts(calls, n - 1);
      var cur := calls[..n];
      assert cur[..|cur| - 1] == calls[..n - 1];
      assert cur[|cur| - 1] == calls[n - 1];
    }
  }

  /** Counts of the calls in the first n positions of the loop's calls. */
  lemma {:induction false} FanOutPrefixCounts(lib: Library, endpoint: string, t: Target, items: seq<Json>, n: nat)
    requires n <= 2 * |items|
    ensures Count(FanOut(lib, endpoint, t, items)[..n], PutCall) == (n + 1) / 2
    ensures Count(FanOut(lib, endpoint, t, items)[..n], DeleteCall) == n / 2
    ensures Count(FanOut(lib, endpoint, t, items)[..n], ReceiveCall) == 0
  {
    var all := FanOut(lib, endpoint, t, items);
    AttemptedShape(lib, endpoint, t, items, None);
    assert Attempted(all, None) == all;
    AlternatingCounts(all, n);
  }

  /** A reply without a "Messages" key, or with an empty list, ends the cycle with no call. */
  lemma {:induction false} NoMessageNoEffects(lib: Library, endpoint: string, obs: Observation)
    requires obs.response.messages.None? || obs.response.messages == Some([])
    ensures Cycle(lib, endpoint, obs) == []
  {
  }

  /** Only message 0 of the reply matters: messages after it change nothing. */
  lemma {:induction false} OnlyFirstMessage(lib: Library, endpoint: string, m: Message, rest: seq<Message>, f: Option<nat>)
    ensures Cycle(lib, endpoint, Observation(ReceiveResponse(Some([m] + rest)), f))
         == Cycle(lib, endpoint, Observation(ReceiveResponse(Some([m])), f))
  {
  }

  /** A cycle issues no call at all exactly when something raises before the first put
      (no message, no body, a failed decode, no receipt handle, `events` not iterable), or
      when the message holds no events; in the latter case it is never deleted either. */
  lemma {:induction false} SilentCycle(lib: Library, endpoint: string, obs: Observation)
    ensures Cycle(lib, endpoint, obs) == [] <==>
      Prepare(lib, obs.response).None? || |Prepare(lib, obs.response).value.items| == 0
  {
    match Prepare(lib, obs.response)
    case None =>
    case Some(p) =>
      FanOutShape(lib, endpoint, p.target, p.items);
  }

  /** Any decode failure of message 0's body leaves the cycle without a call: bad base64,
      a non-ASCII byte, bad JSON, or a missing `events`, `device_id` or `submission_id`;
      so does a missing body or receipt handle. */
  lemma {:induction false} DecodeFailureNoEffects(lib: Library, endpoint: string, obs: Observation, m: Message)
    requires FirstMessage(obs.response) == Some(m)
    requires || m.body.None?
             || m.receiptHandle.None?
             || lib.b64decode(m.body.value).None?
             || !IsAscii(lib.b64decode(m.body.value).value)
             || lib.loads(AsciiDecode(lib.b64decode(m.body.value).value).value).None?
             || !HasFields(ParseDocument(lib, m.body.value).value)
    ensures Cycle(lib, endpoint, obs) == []
  {
    if m.body.Some? {
      DecodeFailures(lib, m.body.value);
    }
  }

  /** With no raising call, a submission with K events yields exactly
      [put e1, delete h, ..., put eK, delete h]: K puts and K deletes of the same handle. */
  lemma {:induction false} SuccessTrace(lib: Library, endpoint: string, obs: Observation, p: Plan)
    requires Prepare(lib, obs.response) == Some(p)
    requires obs.firstFailure.None? || obs.firstFailure.value >= 2 * |p.items|
    ensures var trace := Cycle(lib, endpoint, obs);
      && |trace| == 2 * |p.items|
      && (forall i :: 0 <= i < |p.items| ==>
            && trace[2 * i] == Put(STREAM_NAME, p.target.submissionId,
                                   Payload(PyStr(p.items[i], lib.reprContainer), p.target.deviceId))
            && trace[2 * i + 1] == Delete(endpoint, p.target.receiptHandle))
      && Count(trace, PutCall) == |p.items|
      && Count(trace, DeleteCall) == |p.items|
      && Count(trace, ReceiveCall) == 0
  {
    var all := FanOut(lib, endpoint, p.target, p.items);
    FanOutShape(lib, endpoint, p.target, p.items);
    FanOutPrefixCounts(lib, endpoint, p.target, p.items, |all|);
    assert all[..|all|] == all;
  }

  /** Every put carries `str(event)` for an event of the message, the device id and the
      submission id read from message 0's body (never the polling device's id), on
      STREAM_NAME; every delete targets message 0's receipt handle on the endpoint url. */
  lemma {:induction false} PutContents(lib: Library, endpoint: string, obs: Observation, m: Message, sub: Submission)
    requires FirstMessage(obs.response) == Some(m)
    requires m.body.Some? && Decode(lib, m.body.value) == Some(sub)
    ensures var trace := Cycle(lib, endpoint, obs);
      forall k :: 0 <= k < |trace| ==>
        && (trace[k].Put? ==>
              && trace[k].streamName == STREAM_NAME
              && trace[k].partitionKey == sub.submissionId
              && trace[k].payload.deviceId == sub.deviceId
              && Iterate(sub.events).Some? && k / 2 < |Iterate(sub.events).value|
              && trace[k].payload.eventType == PyStr(Iterate(sub.events).value[k / 2], lib.reprContainer))
        && (trace[k].Delete? ==>
              m.receiptHandle.Some? && trace[k] == Delete(endpoint, m.receiptHandle.value))
        && !trace[k].Receive?
  {
    match Prepare(lib, obs.response)
    case None =>
    case Some(p) =>
      AttemptedShape(lib, endpoint, p.target, p.items, obs.firstFailure);
  }

  /** A cycle never polls again; its puts all go to STREAM_NAME and its deletes all go to
      the endpoint url the relay passes to `delete_message_from_stream`. */
  lemma {:induction false} CycleCallTargets(lib: Library, endpoint: string, obs: Observation)
    ensures var trace := Cycle(lib, endpoint, obs);
      forall i :: 0 <= i < |trace| ==>
        && !trace[i].Receive?
        && (trace[i].Put? ==> trace[i].streamName == STREAM_NAME)
        && (trace[i].Delete? ==> trace[i].queueUrl == endpoint)
  {
    match Prepare(lib, obs.response)
    case None =>
    case Some(p) =>
      AttemptedShape(lib, endpoint, p.target, p.items, obs.firstFailure);
  }

  /** The scenario of a message whose body decodes to
      {"device_id": "d1", "submission_id": "s1", "events": ["a", "b"]}: two records with
      event types "a" and "b", both keyed "s1", each followed by a delete of the message. */
  lemma {:induction false} TwoEventScenario(lib: Library, endpoint: string, body: string, handle: string, rest: seq<Message>,
                         doc: Json)
    requires doc == JObject([("device_id", JString("d1")), ("submission_id", JString("s1")),
                             ("events", JArray([JString("a"), JString("b")]))])
    requires lib.b64decode(body).Some? && IsAscii(lib.b64decode(body).value)
    requires lib.loads(AsciiDecode(lib.b64decode(body).value).value) == Some(doc)
    ensures Cycle(lib, endpoint,
                  Observation(ReceiveResponse(Some([Message(Some(body), Some(handle))] + rest)), None))
         == [Put(STREAM_NAME, JString("s1"), Payload("a", JString("d1"))), Delete(endpoint, handle),
             Put(STREAM_NAME, JString("s1"), Payload("b", JString("d1"))), Delete(endpoint, handle)]
  {
    var sub := Submission(JArray([JString("a"), JString("b")]), JString("d1"), JString("s1"));
    var ms := doc.members;
    assert ms[..2][..1] == ms[..1];
    assert LastValue(ms[..1], "device_id") == Some(sub.deviceId);
    assert LastValue(ms[..2], "submission_id") == Some(sub.submissionId);
    assert LastValue(ms[..2], "device_id") == Some(sub.deviceId);
    assert Subscript(doc, "events") == Some(sub.events);
    assert Subscript(doc, "device_id") == Some(sub.deviceId);
    assert Subscript(doc, "submission_id") == Some(sub.submissionId);
    assert Decode(lib, body) == Some(sub);
    var t := Target(sub.deviceId, sub.submissionId, handle);
    var items := [JString("a"), JString("b")];
    assert Prepare(lib, ReceiveResponse(Some([Message(Some(body), Some(handle))] + rest))) == Some(Plan(items, t));
    assert items[1..][1..] == [];
    assert FanOut(lib, endpoint, t, items[1..]) == [Publish(lib, t, items[1]), Acknowledge(endpoint, t)];
  }

  /** When the call at position f raises, the trace is the loop's calls up to and including
      it: later events are never attempted and the error goes no further. From f = 2 on,
      the message has already been deleted when the failure happens. */
  lemma {:induction false} FailureTruncation(lib: Library, endpoint: string, obs: Observation, p: Plan, f: nat)
    requires Prepare(lib, obs.response) == Some(p)
    requires obs.firstFailure == Some(f) && f < 2 * |p.items|
    ensures var trace := Cycle(lib, endpoint, obs);
      && trace == FanOut(lib, endpoint, p.target, p.items)[..f + 1]
      && |trace| == f + 1
      && (f >= 2 ==> trace[1] == Delete(endpoint, p.target.receiptHandle))
  {
    if f >= 2 {
      FanOutCall(lib, endpoint, p.target, p.items, 1);
    }
  }

  /** When the call at position f raises, f / 2 + 1 puts and (f + 1) / 2 deletes were
      attempted, the last of them being the failing call. A failure in the first put or
      the first delete (f < 2) leaves the message undeleted, so it will be redelivered. From
      f = 2 on a delete has completed, so the message is gone while the events after the
      failing call were never published. */
  lemma {:induction false} FailureCounts(lib: Library, endpoint: string, obs: Observation, p: Plan, f: nat)
    requires Prepare(lib, obs.response) == Some(p)
    requires obs.firstFailure == Some(f) && f < 2 * |p.items|
    ensures Count(Cycle(lib, endpoint, obs), PutCall) == f / 2 + 1
    ensures Count(Cycle(lib, endpoint, obs), DeleteCall) == (f + 1) / 2
    ensures Count(Cycle(lib, endpoint, obs), PutCall) < |p.items| <==> f / 2 < |p.items| - 1
  {
    FailureTruncation(lib, endpoint, obs, p, f);
    FanOutPrefixCounts(lib, endpoint, p.target, p.items, f + 1);
  }
}
