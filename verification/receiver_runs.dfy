/**
 * Sequences of receiver operations in any interleaving: registrations,
 * supervisor ticks, loop iterations and loop crashes. The invariants here
 * hold in every state reachable from construction.
 */
module ReceiverRuns {
  import opened Receiver

  /** What every reachable state satisfies: the gate holds permits exactly
      when a listener is registered; before that no loop thread exists and
      nothing was called or acked; the retry ledger stays empty when retry
      is disabled. */
  predicate Valid(s: State) {
    && (s.permits > 0 <==> s.listeners != {})
    && (s.listeners == {} ==> s.thread == NoThread && s.log == [])
    && (!s.allowRetry ==> s.failedTags == {})
  }

  /** One step of the environment or of the engine. A loop iteration is
      enabled only while the loop thread runs; its `order` must be an
      iteration order of the current listener set. */
  datatype Op =
    | Register(listener: ListenerId)
    | Tick
    | Receive(fetch: Fetch, order: seq<ListenerId>, failing: set<ListenerId>, notifyThrows: set<ListenerId>)
    | CrashLoop

  function Apply(s: State, op: Op): State {
    match op
    case Register(l) => AddListener(s, l).state
    case Tick => SupervisorTick(s)
    case Receive(f, o, fl, nt) =>
      if s.thread == Running && IsEnumeration(o, s.listeners) then LoopIteration(s, f, o, fl, nt) else s
    case CrashLoop => Crash(s)
  }

  function Run(s: State, ops: seq<Op>): State
    decreases |ops|
  {
    if |ops| == 0 then s else Run(Apply(s, ops[0]), ops[1..])
  }

  /** Nothing is ever taken away: listeners, failed tags and log entries
      only accumulate, and the retry flag is fixed. */
  predicate Grows(s: State, t: State) {
    && s.listeners <= t.listeners
    && s.failedTags <= t.failedTags
    && s.allowRetry == t.allowRetry
    && |s.log| <= |t.log| && t.log[..|s.log|] == s.log
  }

  /** A single step, from any state, only grows it. */
  lemma ApplyGrows(s: State, op: Op)
    ensures Grows(s, Apply(s, op))
  {
    assert s.log[..|s.log|] == s.log;
  }

  /** Each single step keeps the invariant and only grows the state. */
  lemma ApplyValid(s: State, op: Op)
    requires Valid(s)
    ensures Valid(Apply(s, op)) && Grows(s, Apply(s, op))
  {
    ApplyGrows(s, op);
    match op
    case Register(l) =>
    case Tick =>
    case Receive(f, o, fl, nt) =>
      if s.thread == Running && IsEnumeration(o, s.listeners) {
        match f
        case Delivered(tag) =>
        case FetchFailed(e) => NotifySpec(s, e, o, nt);
      }
    case CrashLoop =>
  }

  /** Any sequence of steps, from any state, only grows it. */
  lemma {:induction false} RunGrows(s: State, ops: seq<Op>)
    ensures Grows(s, Run(s, ops))
    decreases |ops|
  {
    if |ops| == 0 {
      assert s.log[..|s.log|] == s.log;
    } else {
      var t := Apply(s, ops[0]);
      ApplyGrows(s, ops[0]);
      RunGrows(t, ops[1..]);
      var u := Run(t, ops[1..]);
      assert u.log[..|s.log|] == u.log[..|t.log|][..|s.log|];
    }
  }

  /** Any sequence of steps keeps the invariant and only grows the state. */
  lemma {:induction false} RunValid(s: State, ops: seq<Op>)
    requires Valid(s)
    ensures Valid(Run(s, ops)) && Grows(s, Run(s, ops))
    decreases |ops|
  {
    if |ops| == 0 {
      assert s.log[..|s.log|] == s.log;
    } else {
      var t := Apply(s, ops[0]);
      ApplyValid(s, ops[0]);
      RunValid(t, ops[1..]);
      var u := Run(t, ops[1..]);
      assert u.log[..|s.log|] == u.log[..|t.log|][..|s.log|];
    }
  }

  /** No consumption before activation: as long as no listener has been
      registered, no loop thread was started and no listener call or ack
      happened, whatever else occurred. */
  lemma NoConsumptionBeforeActivation(allowRetry: bool, ops: seq<Op>)
    ensures var t := Run(Init(allowRetry), ops);
            t.listeners == {} ==> t.thread == NoThread && t.log == []
  {
    RunValid(Init(allowRetry), ops);
  }

  /** With retry disabled no tag is ever recorded as failed, so every
      failure is acked at once. */
  lemma RetryDisabledLedgerEmpty(ops: seq<Op>)
    ensures Run(Init(false), ops).failedTags == {}
  {
    RunValid(Init(false), ops);
  }

  /** The retry ledger never shrinks and registered listeners are never
      removed, across any run. */
  lemma LedgerNeverShrinks(s: State, ops: seq<Op>)
    ensures s.failedTags <= Run(s, ops).failedTags
    ensures s.listeners <= Run(s, ops).listeners
  {
    RunGrows(s, ops);
  }

  /* ---------- The permit counter's Java `int` bound ---------- */

  /** `addListener(l)` called n times in a row. */
  function RegisterRepeatedly(s: State, l: ListenerId, n: nat): State
    decreases n
  {
    if n == 0 then s else RegisterRepeatedly(AddListener(s, l).state, l, n - 1)
  }

  /** Each registration adds 100000 permits while they fit in an `int`. */
  lemma {:induction false} PermitsAfterRegistrations(s: State, l: ListenerId, n: nat)
    requires s.permits + n * PermitsPerRegistration <= MaxPermits
    ensures RegisterRepeatedly(s, l, n).permits == s.permits + n * PermitsPerRegistration
    decreases n
  {
    if n > 0 {
      PermitsAfterRegistrations(AddListener(s, l).state, l, n - 1);
    }
  }

  /** After 21474 registrations the gate holds 2147400000 permits, and the
      21475th `release(100000)` exceeds `Integer.MAX_VALUE` and throws,
      even when the same listener is registered every time. */
  lemma PermitOverflowReachable(l: ListenerId)
    ensures var s := RegisterRepeatedly(Init(true), l, 21474);
            && s.permits == 2147400000
            && s.listeners == {l}
            && AddListener(s, l).permitOverflow
  {
    PermitsAfterRegistrations(Init(true), l, 21474);
    RegisteredOnce(Init(true), l, 21474);
  }

  /** Registering one listener repeatedly registers it once. */
  lemma {:induction false} RegisteredOnce(s: State, l: ListenerId, n: nat)
    requires n > 0
    ensures RegisterRepeatedly(s, l, n).listeners == s.listeners + {l}
    decreases n
  {
    if n > 1 {
      RegisteredOnce(AddListener(s, l).state, l, n - 1);
    }
  }

  /** The retry scenario end to end: retry enabled, listener 7 registered,
      a supervisor tick starts the loop, and two deliveries of tag 42 both
      make the listener throw. The first sends no ack and records the tag;
      the second sends exactly one ack. */
  lemma RetryScenario()
    ensures var s0 := Run(Init(true), [Register(7), Tick]);
            var s1 := Apply(s0, Receive(Delivered(42), [7], {7}, {}));
            var s2 := Apply(s1, Receive(Delivered(42), [7], {7}, {}));
            && s0.thread == Running
            && Acks(s1.log) == [] && s1.failedTags == {42}
            && Acks(s2.log) == [42]
  {
  }
}
