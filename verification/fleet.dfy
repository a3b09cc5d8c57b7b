/** The fleet driver of `run_preprocessor` (main.py:73-79): every sweep polls once per
    device id, in list order, then runs one relay cycle on the reply. The queue is
    shared: which reply a poll receives is given by `env` from the poll's position in the
    whole run, never from the device id. The unbounded `while True` is modelled by runs
    of any finite number of sweeps. */
module Fleet {
  import opened Wrappers
  import opened Codec
  import opened Clients
  import opened Relay

  /** The turns of one pass over `deviceIds`, the first turn being poll number `start`;
      `turn(d, k)` is what device d does on poll number k. */
  function Turns(deviceIds: seq<string>, start: nat, turn: (string, nat) -> seq<Effect>): seq<Effect>
    decreases |deviceIds|
  {
    if |deviceIds| == 0 then []
    else
      var n := |deviceIds| - 1;
      Turns(deviceIds[..n], start, turn) + turn(deviceIds[n], start + n)
  }

  /** One device's turn: the poll with the default count and timeout, then the cycle. */
  function Poll(lib: Library, endpoint: string, dId: string, obs: Observation): (t: seq<Effect>)
    ensures |t| >= 1 && t[0] == Receive(DEFAULT_REQUEST)
    ensures t[1..] == Cycle(lib, endpoint, obs)
  {
    [ReceiveMessage(dId, endpoint, DEFAULT_MAX_MESSAGES, DEFAULT_VISIBILITY_TIMEOUT)] + Cycle(lib, endpoint, obs)
  }

  /** One pass of `for d_id in device_ids`, the first poll being number `start`. */
  function Sweep(lib: Library, endpoint: string, deviceIds: seq<string>, env: nat -> Observation, start: nat): seq<Effect>
  {
    Turns(deviceIds, start, (d: string, k: nat) => Poll(lib, endpoint, d, env(k)))
  }

  /** The number of polls made by the first `sweeps` sweeps over a fleet of `fleetSize`. */
  function PollsBefore(sweeps: nat, fleetSize: nat): nat
  {
    if sweeps == 0 then 0 else PollsBefore(sweeps - 1, fleetSize) + fleetSize
  }

  /** Each sweep polls once per device, so `sweeps` sweeps make sweeps * fleetSize polls. */
  lemma {:induction false} PollsBeforeIsProduct(sweeps: nat, fleetSize: nat)
    ensures PollsBefore(sweeps, fleetSize) == sweeps * fleetSize
  {
    if sweeps > 0 {
      PollsBeforeIsProduct(sweeps - 1, fleetSize);
      MulStep(fleetSize, sweeps - 1);
      assert fleetSize * sweeps == sweeps * fleetSize;
      assert fleetSize * (sweeps - 1) == (sweeps - 1) * fleetSize;
    }
  }

  /** `sweeps` rounds one after the other over a fleet of `fleetSize`; `round(k)` is what
      the round whose first poll is number k does. */
  function Rounds(sweeps: nat, fleetSize: nat, round: nat -> seq<Effect>): seq<Effect>
  {
    if sweeps == 0 then []
    else Rounds(sweeps - 1, fleetSize, round) + round(PollsBefore(sweeps - 1, fleetSize))
  }

  /** The first `sweeps` iterations of `while True`. */
  function Run(lib: Library, endpoint: string, deviceIds: seq<string>, env: nat -> Observation, sweeps: nat): seq<Effect>
  {
    Rounds(sweeps, |deviceIds|, (start: nat) => Sweep(lib, endpoint, deviceIds, env, start))
  }

  /** The number of calls of kind `kind` in the rounds, when every round issues c of them. */
  lemma {:induction false} RoundsCount(sweeps: nat, fleetSize: nat, round: nat -> seq<Effect>, kind: Kind, c: nat)
    requires forall k :: Count(round(k), kind) == c
    ensures Count(Rounds(sweeps, fleetSize, round), kind) == PollsBefore(sweeps, c)
  {
    if sweeps > 0 {
      RoundsCount(sweeps - 1, fleetSize, round, kind, c);
      CountAppend(Rounds(sweeps - 1, fleetSize, round), round(PollsBefore(sweeps - 1, fleetSize)), kind);
    }
  }

  /** Every call in the rounds goes where `CallTargets` says, when every round's calls do. */
  lemma {:induction false} RoundsCallTargets(sweeps: nat, fleetSize: nat, round: nat -> seq<Effect>, endpoint: string)
    requires forall k :: CallTargets(round(k), endpoint)
    ensures CallTargets(Rounds(sweeps, fleetSize, round), endpoint)
  {
    if sweeps > 0 {
      RoundsCallTargets(sweeps - 1, fleetSize, round, endpoint);
      CallTargetsAppend(Rounds(sweeps - 1, fleetSize, round), round(PollsBefore(sweeps - 1, fleetSize)), endpoint);
    }
  }

  /** Turns over two lists one after the other are the turns over their concatenation. */
  lemma {:induction false} TurnsAppend(a: seq<string>, b: seq<string>, start: nat, turn: (string, nat) -> seq<Effect>)
    ensures Turns(a + b, start, turn) == Turns(a, start, turn) + Turns(b, start + |a|, turn)
    decreases |b|
  {
    if |b| == 0 {
      assert a + b == a;
    } else {
      var n := |b| - 1;
      assert (a + b)[..|a + b| - 1] == a + b[..n];
      assert (a + b)[|a + b| - 1] == b[n];
      TurnsAppend(a, b[..n], start, turn);
    }
  }

  /** Turns with equal counts of devices are equal when a turn ignores the device. */
  lemma {:induction false} TurnsIgnoreIds(a: seq<string>, b: seq<string>, start: nat, turn: (string, nat) -> seq<Effect>)
    requires |a| == |b|
    requires forall d1, d2, k :: turn(d1, k) == turn(d2, k)
    ensures Turns(a, start, turn) == Turns(b, start, turn)
    decreases |a|
  {
    if |a| > 0 {
      TurnsIgnoreIds(a[..|a| - 1], b[..|b| - 1], start, turn);
    }
  }

  /** The number of calls of kind `kind` in the turns, when every turn issues c of them. */
  lemma {:induction false} TurnsCount(deviceIds: seq<string>, start: nat, turn: (string, nat) -> seq<Effect>,
                                      kind: Kind, c: nat)
    requires forall d, k :: Count(turn(d, k), kind) == c
    ensures Count(Turns(deviceIds, start, turn), kind) == c * |deviceIds|
    decreases |deviceIds|
  {
    if |deviceIds| > 0 {
      var n := |deviceIds| - 1;
      TurnsCount(deviceIds[..n], start, turn, kind, c);
      CountAppend(Turns(deviceIds[..n], start, turn), turn(deviceIds[n], start + n), kind);
      MulStep(c, n);
    }
  }

  lemma {:induction false} MulStep(c: nat, n: nat)
    ensures c * (n + 1) == c * n + c
  {
  }

  /** Every call in the turns goes where `CallTargets` says, when every turn's calls do. */
  lemma {:induction false} TurnsCallTargets(deviceIds: seq<string>, start: nat, turn: (string, nat) -> seq<Effect>,
                                            endpoint: string)
    requires forall d, k :: CallTargets(turn(d, k), endpoint)
    ensures CallTargets(Turns(deviceIds, start, turn), endpoint)
    decreases |deviceIds|
  {
    if |deviceIds| > 0 {
      var n := |deviceIds| - 1;
      TurnsCallTargets(deviceIds[..n], start, turn, endpoint);
      CallTargetsAppend(Turns(deviceIds[..n], start, turn), turn(deviceIds[n], start + n), endpoint);
    }
  }

  /** Where each call of a trace goes: every receive is the default request (QUEUE_URL,
      count 1, visibility timeout 10), every put goes to STREAM_NAME and every delete to the
      endpoint url, which need not be QUEUE_URL. */
  predicate CallTargets(t: seq<Effect>, endpoint: string)
  {
    forall i :: 0 <= i < |t| ==>
      && (t[i].Receive? ==> t[i].request == DEFAULT_REQUEST)
      && (t[i].Put? ==> t[i].streamName == STREAM_NAME)
      && (t[i].Delete? ==> t[i].queueUrl == endpoint)
  }

  lemma {:induction false} CallTargetsAppend(a: seq<Effect>, b: seq<Effect>, endpoint: string)
    requires CallTargets(a, endpoint) && CallTargets(b, endpoint)
    ensures CallTargets(a + b, endpoint)
  {
    var t := a + b;
    forall i | 0 <= i < |t|
      ensures t[i] == (if i < |a| then a[i] else b[i - |a|])
    {
    }
  }

  /** A turn polls exactly once. */
  lemma {:induction false} PollShape(lib: Library, endpoint: string, dId: string, obs: Observation)
    ensures Count(Poll(lib, endpoint, dId, obs), ReceiveCall) == 1
  {
    var cycle := Cycle(lib, endpoint, obs);
    var head := [Receive(DEFAULT_REQUEST)];
    assert Poll(lib, endpoint, dId, obs) == head + cycle;
    CycleCallTargets(lib, endpoint, obs);
    CountExtremes(cycle, ReceiveCall);
    CountAppend(head, cycle, ReceiveCall);
    assert head[..0] == [];
  }

  /** All calls of a turn go where `CallTargets` says. */
  lemma {:induction false} PollTargets(lib: Library, endpoint: string, dId: string, obs: Observation)
    ensures CallTargets(Poll(lib, endpoint, dId, obs), endpoint)
  {
    var cycle := Cycle(lib, endpoint, obs);
    var head := [Receive(DEFAULT_REQUEST)];
    assert Poll(lib, endpoint, dId, obs) == head + cycle;
    CycleCallTargets(lib, endpoint, obs);
    assert CallTargets(head, endpoint);
    CallTargetsAppend(head, cycle, endpoint);
  }

  /** Turns are taken in list order: those before device k, device k's on poll
      start + k, then those after it. */
  lemma {:induction false} TurnsOrder(deviceIds: seq<string>, start: nat, turn: (string, nat) -> seq<Effect>, k: nat)
    requires k < |deviceIds|
    ensures Turns(deviceIds, start, turn)
         == Turns(deviceIds[..k], start, turn) + turn(deviceIds[k], start + k)
          + Turns(deviceIds[k + 1..], start + k + 1, turn)
  {
    var before := deviceIds[..k];
    var after := deviceIds[k + 1..];
    assert deviceIds == (before + [deviceIds[k]]) + after;
    TurnsAppend(before + [deviceIds[k]], after, start, turn);
    TurnsAppend(before, [deviceIds[k]], start, turn);
    assert [deviceIds[k]][..0] == [];
  }

  /** Devices take their turns in list order: the sweep is the turns of the devices before
      k, then device k's poll and cycle on poll number start + k, then the turns of the
      devices after it. */
  lemma {:induction false} SweepOrder(lib: Library, endpoint: string, deviceIds: seq<string>, env: nat -> Observation,
                   start: nat, k: nat)
    requires k < |deviceIds|
    ensures Sweep(lib, endpoint, deviceIds, env, start)
         == Sweep(lib, endpoint, deviceIds[..k], env, start)
          + Poll(lib, endpoint, deviceIds[k], env(start + k))
          + Sweep(lib, endpoint, deviceIds[k + 1..], env, start + k + 1)
  {
    var turn := (d: string, j: nat) => Poll(lib, endpoint, d, env(j));
    TurnsOrder(deviceIds, start, turn, k);
  }

  /** The device ids themselves never affect what a sweep does, only how many there are. */
  lemma {:induction false} SweepIgnoresDeviceIds(lib: Library, endpoint: string, a: seq<string>, b: seq<string>,
                              env: nat -> Observation, start: nat)
    requires |a| == |b|
    ensures Sweep(lib, endpoint, a, env, start) == Sweep(lib, endpoint, b, env, start)
  {
    var turn := (d: string, j: nat) => Poll(lib, endpoint, d, env(j));
    forall d1, d2, j
      ensures turn(d1, j) == turn(d2, j)
    {
      ReceiveIgnoresDeviceAndUrl(d1, d2, endpoint, endpoint, DEFAULT_MAX_MESSAGES, DEFAULT_VISIBILITY_TIMEOUT);
      assert Poll(lib, endpoint, d1, env(j)) == Poll(lib, endpoint, d2, env(j));
    }
    TurnsIgnoreIds(a, b, start, turn);
  }

  /** A sweep issues exactly one receive per device, every one of them the default request
      to QUEUE_URL with count 1 and visibility timeout 10; its deletes go to the endpoint. */
  lemma {:induction false} SweepReceives(lib: Library, endpoint: string, deviceIds: seq<string>, env: nat -> Observation, start: nat)
    ensures Count(Sweep(lib, endpoint, deviceIds, env, start), ReceiveCall) == |deviceIds|
    ensures CallTargets(Sweep(lib, endpoint, deviceIds, env, start), endpoint)
  {
    var turn := (d: string, j: nat) => Poll(lib, endpoint, d, env(j));
    forall d, j
      ensures Count(turn(d, j), ReceiveCall) == 1
      ensures CallTargets(turn(d, j), endpoint)
    {
      PollShape(lib, endpoint, d, env(j));
      PollTargets(lib, endpoint, d, env(j));
    }
    TurnsCount(deviceIds, start, turn, ReceiveCall, 1);
    TurnsCallTargets(deviceIds, start, turn, endpoint);
  }

  /** n sweeps poll n times per device. */
  lemma {:induction false} RunReceives(lib: Library, endpoint: string, deviceIds: seq<string>,
                                       env: nat -> Observation, sweeps: nat)
    ensures Count(Run(lib, endpoint, deviceIds, env, sweeps), ReceiveCall) == sweeps * |deviceIds|
  {
    var round := (start: nat) => Sweep(lib, endpoint, deviceIds, env, start);
    forall k: nat
      ensures Count(round(k), ReceiveCall) == |deviceIds|
    {
      SweepReceives(lib, endpoint, deviceIds, env, k);
    }
    RoundsCount(sweeps, |deviceIds|, round, ReceiveCall, |deviceIds|);
    PollsBeforeIsProduct(sweeps, |deviceIds|);
  }

  /** Every call of a run goes where `CallTargets` says, however many sweeps it lasts. */
  lemma {:induction false} RunTargets(lib: Library, endpoint: string, deviceIds: seq<string>,
                                      env: nat -> Observation, sweeps: nat)
    ensures CallTargets(Run(lib, endpoint, deviceIds, env, sweeps), endpoint)
  {
    var round := (start: nat) => Sweep(lib, endpoint, deviceIds, env, start);
    forall k: nat
      ensures CallTargets(round(k), endpoint)
    {
      SweepReceives(lib, endpoint, deviceIds, env, k);
    }
    RoundsCallTargets(sweeps, |deviceIds|, round, endpoint);
  }

  /** Polling a queue that never returns a message never puts and never deletes. */
  lemma {:induction false} IdleQueueIsQuiet(lib: Library, endpoint: string, deviceIds: seq<string>,
                         env: nat -> Observation, start: nat)
    requires forall k :: env(k).response.messages.None? || env(k).response.messages == Some([])
    ensures Count(Sweep(lib, endpoint, deviceIds, env, start), PutCall) == 0
    ensures Count(Sweep(lib, endpoint, deviceIds, env, start), DeleteCall) == 0
  {
    var turn := (d: string, j: nat) => Poll(lib, endpoint, d, env(j));
    forall d, j
      ensures Count(turn(d, j), PutCall) == 0
      ensures Count(turn(d, j), DeleteCall) == 0
    {
      NoMessageNoEffects(lib, endpoint, env(j));
      var t := turn(d, j);
      assert t == [Receive(DEFAULT_REQUEST)];
      assert t[..0] == [];
    }
    TurnsCount(deviceIds, start, turn, PutCall, 0);
    TurnsCount(deviceIds, start, turn, DeleteCall, 0);
  }

  /** Polling a queue that never returns a message, however many sweeps long, never puts
      and never deletes. */
  lemma {:induction false} IdleRunIsQuiet(lib: Library, endpoint: string, deviceIds: seq<string>,
                                          env: nat -> Observation, sweeps: nat)
    requires forall k :: env(k).response.messages.None? || env(k).response.messages == Some([])
    ensures Count(Run(lib, endpoint, deviceIds, env, sweeps), PutCall) == 0
    ensures Count(Run(lib, endpoint, deviceIds, env, sweeps), DeleteCall) == 0
  {
    var round := (start: nat) => Sweep(lib, endpoint, deviceIds, env, start);
    forall k: nat
      ensures Count(round(k), PutCall) == 0
      ensures Count(round(k), DeleteCall) == 0
    {
      IdleQueueIsQuiet(lib, endpoint, deviceIds, env, k);
    }
    RoundsCount(sweeps, |deviceIds|, round, PutCall, 0);
    RoundsCount(sweeps, |deviceIds|, round, DeleteCall, 0);
    PollsBeforeIsProduct(sweeps, 0);
  }

  /** A sweep over one more device ends with that device's turn. */
  lemma {:induction false} SweepSnoc(lib: Library, endpoint: string, deviceIds: seq<string>, env: nat -> Observation,
                  start: nat, j: nat)
    requires j < |deviceIds|
    ensures Sweep(lib, endpoint, deviceIds[..j + 1], env, start)
         == Sweep(lib, endpoint, deviceIds[..j], env, start) + Poll(lib, endpoint, deviceIds[j], env(start + j))
  {
    var turn := (d: string, k: nat) => Poll(lib, endpoint, d, env(k));
    var ids := deviceIds[..j + 1];
    assert ids[..|ids| - 1] == deviceIds[..j];
    assert ids[|ids| - 1] == deviceIds[j];
    assert Turns(ids, start, turn) == Turns(deviceIds[..j], start, turn) + turn(deviceIds[j], start + j);
  }

  /** The fleet driver as the source writes it: an outer loop of sweeps around an inner
      loop over the device ids, each turn polling and then running one cycle. */
  method RunFleet(lib: Library, endpoint: string, deviceIds: seq<string>, env: nat -> Observation, sweeps: nat)
    returns (trace: seq<Effect>)
    ensures trace == Run(lib, endpoint, deviceIds, env, sweeps)
  {
    trace := [];
    var s := 0;
    var polls := 0;
    while s < sweeps
      invariant 0 <= s <= sweeps
      invariant polls == PollsBefore(s, |deviceIds|)
      invariant trace == Run(lib, endpoint, deviceIds, env, s)
    {
      var sweep := [];
      var j := 0;
      while j < |deviceIds|
        invariant 0 <= j <= |deviceIds|
        invariant sweep == Sweep(lib, endpoint, deviceIds[..j], env, polls)
      {
        var poll := ReceiveMessage(deviceIds[j], endpoint, DEFAULT_MAX_MESSAGES, DEFAULT_VISIBILITY_TIMEOUT);
        var cycle := RunCycle(lib, endpoint, env(polls + j));
        SweepSnoc(lib, endpoint, deviceIds, env, polls, j);
        sweep := sweep + ([poll] + cycle);
        j := j + 1;
      }
      assert deviceIds[..j] == deviceIds;
      assert Run(lib, endpoint, deviceIds, env, s + 1) == Run(lib, endpoint, deviceIds, env, s) + sweep;
      trace := trace + sweep;
      polls := polls + |deviceIds|;
      s := s + 1;
    }
  }
}
