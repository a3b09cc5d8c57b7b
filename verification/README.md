# SQS-to-Kinesis relay, modelled in Dafny

This project models the relay loop of `main.py`. A fleet of simulated devices takes turns
polling one shared SQS queue. Each poll asks for at most one message. The relay decodes
message 0 of the reply (base64, then ASCII, then JSON). It reads the fields `events`,
`device_id` and `submission_id`, and the message's receipt handle. Then, for every event
in order, it puts one record on the Kinesis stream, keyed by the submission id, and right
after each put it deletes the message by its receipt handle. An error raised by the decode,
a put or a delete is caught at the end of the cycle and printed, and the next device polls.

The model is pure: a run is the ordered sequence of remote calls it attempts, a
`seq<Effect>` of `Receive(request)`, `Put(stream, partitionKey, payload)` and
`Delete(queueUrl, receiptHandle)`. The outside world enters as parameters:

- the queue's reply to each poll, indexed by the poll's position in the run (`env`),
  so the queue is shared and device ids do not select messages;
- the position of the first put or delete of a cycle that raises (`firstFailure`);
  the put of event i is call 2i and its delete is call 2i+1;
- the library calls `base64.b64decode` and `json.loads`, and the repr formatting that
  `str` uses for a list or a dict (`Codec.Library`).

`bytes.decode('ascii')`, dict subscript, iteration over a list, string or dict, and `str`
of None, booleans and strings are modelled exactly, for strings of Unicode scalar values.
A number is carried as its rendered text (both limits are under "Left out").

Modules, one per part of the program:

- `Wrappers` (wrappers.dfy): `Option`.
- `Json` (json.dfy): the Python values `json.loads` yields, and subscript, iteration and
  `str` on them.
- `Codec` (codec.dfy): ASCII decoding and the whole body decode.
- `Clients` (clients.dfy): the constants and the `receive_message`, `put_to_stream` and
  `delete_message_from_stream` wrappers, plus the `Effect` each one issues.
- `Relay` (relay.dfy): one cycle. It is written twice: as the function `Cycle`, and as
  the loop `RunCycle`/`PublishAll` that mirrors the source. The two are proved equal.
- `Fleet` (fleet.dfy): sweeps over the device ids and runs of finitely many sweeps. It is
  likewise written as a function `Run` and as the nested loop `RunFleet`.

Where the code's behaviour is easy to misread, the model follows the code:

- A submission with zero events causes no put and no delete, so its message is never
  deleted. The delete sits inside the event loop.
- The decoded bytes must be ASCII, not UTF-8. Any byte of 128 or more makes the decode fail.
- `receive_message` always targets the constant `QUEUE_URL` and ignores its `url`
  argument. The delete targets the url passed in, which is the endpoint address
  `LOCAL_ENDPOINT_URL`, not `QUEUE_URL`. `Relay.CycleCallTargets` and
  `Fleet.SweepReceives` state both targets.
- A failure in the put or delete for event i does not lead to a retry. If the failure is
  in the first put or in the first delete, the message stays undeleted. From the second
  put on, a delete has completed before the failure: the message is gone while the
  remaining events were never published.

## Model

| member | source | states |
|---|---|---|
| Clients.ClampCount | main.py:30-31 | the effective message count is always in 1..10; a count already in 1..10 is kept, any other becomes 1 |
| Clients.ClampIdempotent | main.py:30-31 | clamping an already clamped count changes nothing |
| Clients.ReceiveMessage | main.py:29-40 | the request targets QUEUE_URL, asks for all attributes and the configured message attribute, carries the clamped count and the given visibility timeout unchanged |
| Clients.ReceiveIgnoresDeviceAndUrl | main.py:29-40 | the receive request is the same whatever device id and url are passed |
| Clients.PutToStream | main.py:44-55 | a put goes to STREAM_NAME, is keyed by the submission id, and carries the event type and the device id as given |
| Clients.DeleteMessage | main.py:59-63 | a delete targets the given url and receipt handle |
| Json.LastValue | main.py:87-89 | a dict built from the parsed members answers a key iff some member has it, with the value of the last such member |
| Json.Subscript | main.py:87-89 | `doc[key]` succeeds only on a dict holding the key; any other value raises |
| Json.SubscriptLastWins | main.py:87-89 | when `doc[key]` answers, it is with the value of the last member named key, so a later duplicate key wins |
| Json.Keys | main.py:92 | iterating a dict yields every member key, nothing else, and no key twice |
| Json.PyStr | main.py:96 | `str(event)`: None, booleans, numbers and strings rendered as Python does; a list or a dict by the supplied repr formatting |
| Json.Iterate | main.py:92 | `for event in events` raises exactly when `events` is None, a boolean or a number; a list yields its items in order |
| Json.IterateStringRoundTrip | main.py:92-96 | iterating a string and applying `str` to each item gives the string back |
| Json.IterateObjectYieldsKeys | main.py:92 | iterating a dict yields each key exactly once, as a string |
| Codec.AsciiDecode | main.py:84 | decoding succeeds iff every byte is below 128, and then character i has the code of byte i |
| Codec.AsciiRoundTrip | main.py:84 | encoding ASCII text and decoding it gives the text back |
| Codec.AsciiBytesRoundTrip | main.py:84 | decoding ASCII bytes and encoding the text gives the bytes back |
| Codec.ParseDocument | main.py:83-86 | the document is parsed only when base64 succeeds and the bytes are ASCII, and is then `json.loads` of the decoded text |
| Codec.Decode | main.py:83-89 | a decode yields a submission iff base64, ASCII and JSON all succeed and the document has all three fields, whose values the submission then holds; nothing is partly decoded |
| Codec.DecodeFailures | main.py:83-89 | bad base64, a non-ASCII byte, bad JSON, a document that is not a dict, or a missing field each make the decode fail |
| Relay.FirstMessage | main.py:82 | a message is selected iff the reply has a non-empty "Messages" list, and it is message 0 |
| Relay.Prepare | main.py:82-92 | a plan exists exactly when message 0, its body and handle, the decode and the iteration of `events` all succeed; its events, device id, submission id and receipt handle then come from message 0 and its decoded body |
| Relay.Publish | main.py:96 | the put for one event: `str` of the event, with the target's device id and submission id |
| Relay.Acknowledge | main.py:98 | the delete after each put: the endpoint url and message 0's receipt handle |
| Relay.FanOut | main.py:92-98 | the loop's calls when none raises: a put and a delete per event, 2K calls for K events |
| Relay.Cycle | main.py:81-101 | no call when anything before the first put raises, else the loop's put/delete calls up to and including the first that raises |
| Relay.Attempted | main.py:92-101 | the calls attempted are a prefix of the loop's calls, ending at the first one that raises |
| Relay.FanOutShape | main.py:92-98 | without failures the loop issues 2K calls: the put of event i at position 2i and a delete of the handle right after |
| Relay.PublishAll | main.py:92-98 | the event loop, stopping at the first raising call, attempts exactly the calls `Attempted` describes |
| Relay.RunCycle | main.py:81-101 | the cycle as written, with every error caught at its end, issues exactly the calls of `Cycle` |
| Relay.NoMessageNoEffects | main.py:82 | a reply without "Messages", or with an empty list, yields no put and no delete |
| Relay.OnlyFirstMessage | main.py:82-90 | messages after message 0 in a reply change nothing |
| Relay.SilentCycle | main.py:82-101 | a cycle issues no call iff something raises before the first put or the message has no events |
| Relay.DecodeFailureNoEffects | main.py:82-90 | a missing body or receipt handle, bad base64, a non-ASCII byte, bad JSON or a missing field yields no put and no delete |
| Relay.SuccessTrace | main.py:92-98 | with no failure, K events yield exactly put e1, delete h, ..., put eK, delete h: K puts, K deletes, no receive |
| Relay.PutContents | main.py:86-98 | every put carries `str` of an event of message 0, that message's device id (not the polling device's) and its submission id as partition key; every delete targets message 0's handle |
| Relay.CycleCallTargets | main.py:92-98 | a cycle never receives; its puts go to STREAM_NAME and its deletes to the endpoint url |
| Relay.TwoEventScenario | main.py:82-98 | a body decoding to device "d1", submission "s1" and events ["a", "b"] yields put "a", delete, put "b", delete, both puts keyed "s1" |
| Relay.FailureTruncation | main.py:92-101 | when call f raises, the trace is the loop's calls up to and including f; from f = 2 on, the message was deleted before the failure |
| Relay.FailureCounts | main.py:92-101 | when call f raises, f / 2 + 1 puts and (f + 1) / 2 deletes were issued, and fewer than K puts unless f is in the last event |
| Fleet.Poll | main.py:79-101 | one device's turn: the default receive, then one cycle on the reply |
| Fleet.Sweep | main.py:77-101 | one pass over the device ids: each device's turn in list order, on consecutive poll numbers |
| Fleet.Run | main.py:76-101 | the first n iterations of `while True`: n sweeps, sweep i starting at poll number i times the fleet size |
| Fleet.SweepOrder | main.py:77-79 | devices take their turns in list order, device k on poll number start + k |
| Fleet.SweepIgnoresDeviceIds | main.py:73-79 | a sweep depends on how many device ids there are, never on their values |
| Fleet.SweepReceives | main.py:77-79 | a sweep issues exactly one receive per device, each the default request (QUEUE_URL, count 1, timeout 10); its puts go to STREAM_NAME and its deletes to the endpoint |
| Fleet.PollsBeforeIsProduct | main.py:76-79 | the polls before sweep n number n times the fleet size, so sweep n starts at poll n * size |
| Fleet.RunReceives | main.py:76-79 | n sweeps issue n receives per device, n times the fleet size in all |
| Fleet.RunTargets | main.py:76-101 | every call of a run of any length goes to the sweep's targets: receives are the default request, puts go to STREAM_NAME, deletes to the endpoint |
| Fleet.IdleQueueIsQuiet | main.py:77-101 | a sweep over a queue that never returns a message never puts and never deletes |
| Fleet.IdleRunIsQuiet | main.py:76-101 | repeated polling of a queue that never returns a message, for any number of sweeps, never puts and never deletes |
| Fleet.RunFleet | main.py:76-101 | the nested loop over sweeps and devices issues exactly the calls of `Run` |

## Left out

- The `timestamp` and `uuid` fields of a record (main.py:47, 49, 94) are left out. They
  come from the wall clock and a random generator, so `Clients.Payload` has no such
  fields. Distinct ids and ordered timestamps are not stated.
- The JSON serialisation of the payload (main.py:54) is left out. A put carries the
  payload fields, not the serialised text.
- `print` logging (main.py:51, 100) is left out, and the model assumes `print` never raises.
  If `print(payload)` raised, the put after it would not be sent, though the model records
  it. If `print(e)` in the handler raised, the exception would end `run_preprocessor`.
- JSON strings are limited to Unicode scalar values. `json.loads` can yield a string with a
  lone surrogate (`"\ud800"`), which a Dafny `string` cannot hold.
- Client construction, the endpoint, credentials, environment variables and `FLEET_SIZE`
  parsing (main.py:10-23, 68-71) are left out as configuration. The endpoint and the device
  ids are parameters. The ids are generated by `uuid4` (main.py:73), so they are arbitrary
  strings here.
- boto3's retry policy (main.py:19-22) lives inside the client. A call that fails in the
  model is one whose last attempt raised.
- boto3's client-side parameter validation is not modelled; a non-string partition key
  is one example. It counts as one of the failures the failure position stands for.
- The internals of `base64.b64decode` and `json.loads` are library code and are passed
  in as functions. So is the repr formatting `str` uses for a list or a dict.
- A JSON number is carried as the text `str` renders it as. Python's float formatting is
  not modelled.
- Exceptions raised by the receive call (main.py:79) would escape the loop, since the
  call is outside the `try`. Receive is modelled as total.
- The unbounded `while True` (main.py:76) is modelled by runs of any finite number of
  sweeps.
- `maxNumberOfMessages` is modelled as an integer. Python would also accept a float.
- Json.Keys: states that every member key is yielded, nothing else is, and no key twice.
  It does not state that keys come in order of first occurrence, although the definition
  produces that order.
