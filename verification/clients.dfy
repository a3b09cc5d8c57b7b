/** The three client-call wrappers of main.py and the calls they issue. A call to the
    queue or the stream is not performed here: it is recorded as an `Effect`, and a run
    of the relay is the ordered sequence of the calls it attempts. */
module Clients {
  import opened Json

  /** Fixed configuration (main.py:12-15). The endpoint address comes from the environment
      and is a parameter wherever it is used. */
  const QUEUE_URL: string := "url"
  const STREAM_NAME: string := "stream_name"
  const MESSAGE_ATTRIBUTE_NAMES: string := "att_names"

  /** Defaults of `receive_message`, which the relay never overrides (main.py:29). */
  const DEFAULT_MAX_MESSAGES: int := 1
  const DEFAULT_VISIBILITY_TIMEOUT: int := 10

  /** The bounds the queue accepts for a message count (main.py:30). */
  const MIN_MESSAGES: int := 1
  const MAX_MESSAGES: int := 10

  /** The arguments of one `sqs_client.receive_message` call. */
  datatype ReceiveRequest = ReceiveRequest(
    queueUrl: string,
    attributeNames: seq<string>,
    messageAttributeNames: seq<string>,
    maxNumberOfMessages: int,
    visibilityTimeout: int)

  /** The record published for one event. Its `timestamp` and `uuid` fields come from the
      wall clock and a random generator and are not part of this model. */
  datatype Payload = Payload(eventType: string, deviceId: Json)

  /** One attempted call to a remote service. */
  datatype Effect =
    | Receive(request: ReceiveRequest)
    | Put(streamName: string, partitionKey: Json, payload: Payload)
    | Delete(queueUrl: string, receiptHandle: string)

  datatype Kind = ReceiveCall | PutCall | DeleteCall

  function KindOf(e: Effect): Kind
  {
    match e
    case Receive(_) => ReceiveCall
    case Put(_, _, _) => PutCall
    case Delete(_, _) => DeleteCall
  }

  /** A requested message count outside 1..10 is replaced by 1. */
  function ClampCount(requested: int): (n: int)
    ensures MIN_MESSAGES <= n <= MAX_MESSAGES
    ensures MIN_MESSAGES <= requested <= MAX_MESSAGES ==> n == requested
    ensures !(MIN_MESSAGES <= requested <= MAX_MESSAGES) ==> n == DEFAULT_MAX_MESSAGES
  {
    if requested < MIN_MESSAGES || requested > MAX_MESSAGES then DEFAULT_MAX_MESSAGES else requested
  }

  /** Clamping twice is clamping once. */
  lemma {:induction false} ClampIdempotent(requested: int)
    ensures ClampCount(ClampCount(requested)) == ClampCount(requested)
  {
  }

  /** `receive_message`: the request always targets QUEUE_URL, asks for all attributes and
      the configured message attribute, with a clamped count and the given timeout. The
      device id and the url argument are accepted and ignored. */
  function ReceiveMessage(dId: string, url: string, maxNumberOfMessages: int, visibilityTimeout: int): (r: Effect)
    ensures r.Receive?
    ensures r.request.queueUrl == QUEUE_URL
    ensures r.request.attributeNames == ["All"]
    ensures r.request.messageAttributeNames == [MESSAGE_ATTRIBUTE_NAMES]
    ensures MIN_MESSAGES <= r.request.maxNumberOfMessages <= MAX_MESSAGES
    ensures MIN_MESSAGES <= maxNumberOfMessages <= MAX_MESSAGES ==> r.request.maxNumberOfMessages == maxNumberOfMessages
    ensures !(MIN_MESSAGES <= maxNumberOfMessages <= MAX_MESSAGES) ==> r.request.maxNumberOfMessages == 1
    ensures r.request.visibilityTimeout == visibilityTimeout
  {
    Receive(ReceiveRequest(QUEUE_URL, ["All"], [MESSAGE_ATTRIBUTE_NAMES], ClampCount(maxNumberOfMessages), visibilityTimeout))
  }

  /** The request does not depend on which device polls or on the url it passes. */
  lemma {:induction false} ReceiveIgnoresDeviceAndUrl(d1: string, d2: string, u1: string, u2: string, n: int, v: int)
    ensures ReceiveMessage(d1, u1, n, v) == ReceiveMessage(d2, u2, n, v)
  {
  }

  /** The request every poll of the relay sends, the defaults being used. */
  const DEFAULT_REQUEST: ReceiveRequest :=
    ReceiveRequest(QUEUE_URL, ["All"], [MESSAGE_ATTRIBUTE_NAMES], 1, 10)

  /** `put_to_stream`: one record on STREAM_NAME, keyed by the submission id, whose event
      type is the given string and whose device id is the given value, unchanged. */
  function PutToStream(eventType: string, deviceId: Json, submissionId: Json): (r: Effect)
    ensures r.Put? && r.streamName == STREAM_NAME
    ensures r.partitionKey == submissionId
    ensures r.payload.eventType == eventType && r.payload.deviceId == deviceId
  {
    Put(STREAM_NAME, submissionId, Payload(eventType, deviceId))
  }

  /** `delete_message_from_stream`: delete by receipt handle on the given queue url. */
  function DeleteMessage(url: string, receiptHandle: string): (r: Effect)
    ensures r.Delete? && r.queueUrl == url && r.receiptHandle == receiptHandle
  {
    Delete(url, receiptHandle)
  }

  /** How many calls of kind `k` the trace `t` holds. */
  function Count(t: seq<Effect>, k: Kind): (n: nat)
    ensures n <= |t|
  {
    if |t| == 0 then 0
    else Count(t[..|t| - 1], k) + (if KindOf(t[|t| - 1]) == k then 1 else 0)
  }

  /** No call of kind `k` is counted exactly when none occurs, and every call is counted
      exactly when all are of kind `k`. */
  lemma {:induction false} CountExtremes(t: seq<Effect>, k: Kind)
    ensures Count(t, k) == 0 <==> forall i :: 0 <= i < |t| ==> KindOf(t[i]) != k
    ensures Count(t, k) == |t| <==> forall i :: 0 <= i < |t| ==> KindOf(t[i]) == k
  {
    if |t| > 0 {
      var init := t[..|t| - 1];
      CountExtremes(init, k);
      assert forall i :: 0 <= i < |init| ==> init[i] == t[i];
    }
  }

  /** Counting distributes over concatenation of traces. */
  lemma {:induction false} CountAppend(a: seq<Effect>, b: seq<Effect>, k: Kind)
    ensures Count(a + b, k) == Count(a, k) + Count(b, k)
    decreases |b|
  {
    if |b| > 0 {
      assert (a + b)[..|a + b| - 1] == a + b[..|b| - 1];
      CountAppend(a, b[..|b| - 1], k);
    } else {
      assert a + b == a;
    }
  }
}
