/**
 * The delivery engine of `DefaultRabbitMQReceiver` as a sequential state
 * machine. Threads become a flag, the semaphore becomes a permit counter with
 * a guard, the broker's `nextDelivery` becomes an input, and `basicAck`,
 * `completed` and `failed` calls become entries of an event log.
 */
module Receiver {
  import opened Wrappers
  import opened Settings
  import opened HostParsing

  /** A Java `long`: the broker's delivery tag. */
  newtype int64 = x: int | -0x8000_0000_0000_0000 <= x < 0x8000_0000_0000_0000
  type DeliveryTag = int64

  /** A registered listener: one id per listener that is distinct under
      `equals` / `hashCode`, as the listener sets see them. */
  type ListenerId = nat

  /** An exception thrown by `nextDelivery`, passed on opaquely. */
  type ErrorId = nat

  /** The largest permit count a `java.util.concurrent.Semaphore` can hold. */
  const MaxPermits: int := 0x7FFF_FFFF

  /** What every `addListener` releases on the gate. */
  const PermitsPerRegistration: int := 100000

  type Permits = n: int | 0 <= n <= MaxPermits

  /** `listenerThread`: never started, alive, or dead. */
  datatype LoopThread = NoThread | Running | Terminated

  /** What the engine does to the outside world: call a listener's
      `completed`, call `basicAck`, or call a listener's `failed`. */
  datatype Event =
    | Invoked(listener: ListenerId, deliveryTag: DeliveryTag)
    | Acked(ackedTag: DeliveryTag)
    | Notified(notifiedListener: ListenerId, error: ErrorId)

  datatype State = State(
    listeners: set<ListenerId>,
    permits: Permits,
    failedTags: set<DeliveryTag>,
    allowRetry: bool,
    thread: LoopThread,
    log: seq<Event>)

  /** What `nextDelivery` hands the loop: a delivery (only its tag matters)
      or an exception. */
  datatype Fetch = Delivered(tag: DeliveryTag) | FetchFailed(error: ErrorId)

  /** The state right after construction: no listener, a closed gate, an
      empty retry ledger, no loop thread, nothing done yet. */
  function Init(allowRetry: bool): (r: State)
    ensures r.listeners == {} && r.permits == 0 && r.failedTags == {}
    ensures r.thread.NoThread? && r.log == [] && r.allowRetry == allowRetry
  {
    State({}, 0, {}, allowRetry, NoThread, [])
  }

  /* ---------- Projections of the event log ---------- */

  /** The tags acknowledged, in order. */
  function Acks(log: seq<Event>): seq<DeliveryTag> {
    if |log| == 0 then []
    else Acks(log[..|log| - 1]) + (if log[|log| - 1].Acked? then [log[|log| - 1].ackedTag] else [])
  }

  /** The listeners whose `completed` was called, in order. */
  function Invocations(log: seq<Event>): seq<ListenerId> {
    if |log| == 0 then []
    else Invocations(log[..|log| - 1]) + (if log[|log| - 1].Invoked? then [log[|log| - 1].listener] else [])
  }

  /** The `failed` notifications, in order. */
  function Notifications(log: seq<Event>): seq<Event> {
    if |log| == 0 then []
    else Notifications(log[..|log| - 1]) + (if log[|log| - 1].Notified? then [log[|log| - 1]] else [])
  }

  /** Appending one event extends exactly one projection by that event. */
  lemma ProjectAppend(log: seq<Event>, e: Event)
    ensures Acks(log + [e]) == Acks(log) + (if e.Acked? then [e.ackedTag] else [])
    ensures Invocations(log + [e]) == Invocations(log) + (if e.Invoked? then [e.listener] else [])
    ensures Notifications(log + [e]) == Notifications(log) + (if e.Notified? then [e] else [])
  {
    assert (log + [e])[..|log|] == log;
  }

  /** n copies of one tag. */
  function Repeat(tag: DeliveryTag, n: nat): (r: seq<DeliveryTag>)
    ensures |r| == n
  {
    seq(n, _ => tag)
  }

  lemma RepeatAdd(tag: DeliveryTag, a: nat, b: nat)
    ensures Repeat(tag, a) + Repeat(tag, b) == Repeat(tag, a + b)
  {
    assert Repeat(tag, a) + Repeat(tag, b) == Repeat(tag, a + b);
  }

  /** Two batches of acks of one tag make one batch. */
  lemma CombineAcks(a0: seq<DeliveryTag>, a1: seq<DeliveryTag>, a2: seq<DeliveryTag>,
                    tag: DeliveryTag, first: nat, rest: nat)
    requires a1 == a0 + Repeat(tag, first)
    requires a2 == a1 + Repeat(tag, rest)
    ensures a2 == a0 + Repeat(tag, first + rest)
  {
    RepeatAdd(tag, first, rest);
  }

  /* ---------- Registration and the gate ---------- */

  /** The state after `addListener`, and whether `release(100000)` threw
      `java.lang.Error("Maximum permit count exceeded")` because the permit
      count would pass `Integer.MAX_VALUE`. The listener is added before the
      release, so it stays registered either way. */
  datatype Registration = Registration(state: State, permitOverflow: bool)

  function AddListener(s: State, l: ListenerId): (r: Registration)
    ensures r.state.listeners == s.listeners + {l}
    ensures l in s.listeners ==> r.state.listeners == s.listeners
    ensures r.state.permits > 0
    ensures r.permitOverflow <==> s.permits + PermitsPerRegistration > MaxPermits
    ensures r.state.permits == if r.permitOverflow then s.permits else s.permits + PermitsPerRegistration
    ensures r.state.failedTags == s.failedTags && r.state.allowRetry == s.allowRetry
    ensures r.state.thread == s.thread && r.state.log == s.log
  {
    var s1 := s.(listeners := s.listeners + {l});
    if s.permits + PermitsPerRegistration > MaxPermits then Registration(s1, true)
    else Registration(s1.(permits := s.permits + PermitsPerRegistration), false)
  }

  /** Registering the same listener twice leaves the same listener set as
      registering it once. */
  lemma AddListenerIdempotent(s: State, l: ListenerId)
    ensures AddListener(AddListener(s, l).state, l).state.listeners == AddListener(s, l).state.listeners
  {
  }

  /** `planListener`: the synchronized start of a new loop thread. The
      `acquire()` blocks while no permit is available (`None`); once it can
      pass, the matching `release()` gives the permit back. */
  function PlanListener(s: State): (r: Option<State>)
    ensures r.Some? <==> s.permits > 0
    ensures r.Some? ==> r.value.permits == s.permits
    ensures r.Some? ==> r.value == s.(thread := Running)
  {
    if s.permits > 0 then
      var acquired := s.(permits := s.permits - 1);
      Some(acquired.(permits := acquired.permits + 1, thread := Running))
    else None
  }

  /** One run of the scheduled supervisor: (re)start the loop when there is
      no thread or it is dead. A start attempt that would block leaves the
      state as it was; a later tick tries again. */
  function SupervisorTick(s: State): (r: State)
    ensures s.thread.Running? ==> r == s
    ensures !s.thread.Running? && s.permits > 0 ==> r == s.(thread := Running)
    ensures s.permits == 0 ==> r == s
  {
    if s.thread.NoThread? || s.thread.Terminated? then
      var planned := PlanListener(s);
      if planned.Some? then planned.value else s
    else s
  }

  /** The loop thread dies of an exception nothing catches. */
  function Crash(s: State): (r: State)
    ensures r.thread != Running
    ensures r.(thread := s.thread) == s
  {
    if s.thread == Running then s.(thread := Terminated) else s
  }

  /* ---------- One delivery ---------- */

  /** `ack(tag)`: one `basicAck` call; an `IOException` from it is only
      logged, so the call is all that is observable. */
  function Ack(s: State, tag: DeliveryTag): (r: State)
    ensures Acks(r.log) == Acks(s.log) + [tag]
    ensures Invocations(r.log) == Invocations(s.log)
    ensures Notifications(r.log) == Notifications(s.log)
    ensures |r.log| == |s.log| + 1 && r.log[..|s.log|] == s.log
    ensures r.(log := s.log) == s
  {
    ProjectAppend(s.log, Acked(tag));
    assert (s.log + [Acked(tag)])[..|s.log|] == s.log;
    s.(log := s.log + [Acked(tag)])
  }

  /** One pass of the per-listener loop: call `completed`; when it throws,
      decide on the spot whether to ack or to remember the tag for a retry. */
  function OnListener(s: State, tag: DeliveryTag, l: ListenerId, throws: bool): (r: State)
    ensures Invocations(r.log) == Invocations(s.log) + [l]
    ensures Notifications(r.log) == Notifications(s.log)
    ensures Acks(r.log) == Acks(s.log) +
              (if throws && (!s.allowRetry || tag in s.failedTags) then [tag] else [])
    ensures r.failedTags == if throws && s.allowRetry then s.failedTags + {tag} else s.failedTags
    ensures |r.log| > |s.log| && r.log[..|s.log|] == s.log
    ensures r.listeners == s.listeners && r.permits == s.permits
    ensures r.allowRetry == s.allowRetry && r.thread == s.thread
  {
    ProjectAppend(s.log, Invoked(l, tag));
    assert (s.log + [Invoked(l, tag)])[..|s.log|] == s.log;
    var called := s.(log := s.log + [Invoked(l, tag)]);
    if !throws then called
    else if s.allowRetry then
      if tag in s.failedTags then Ack(called, tag)
      else called.(failedTags := s.failedTags + {tag})
    else Ack(called, tag)
  }

  /** The state carried through the per-listener loop and its `error` flag. */
  datatype Progress = Progress(state: State, error: bool)

  /** The `for` loop over the snapshot, in the iteration order `order`;
      `failing` holds the listeners whose `completed` throws for this delivery. */
  function Dispatch(p: Progress, tag: DeliveryTag, order: seq<ListenerId>, failing: set<ListenerId>): (r: Progress)
    ensures |r.state.log| >= |p.state.log| && r.state.log[..|p.state.log|] == p.state.log
    ensures r.state.listeners == p.state.listeners && r.state.permits == p.state.permits
    ensures r.state.allowRetry == p.state.allowRetry && r.state.thread == p.state.thread
    decreases |order|
  {
    if |order| == 0 then
      assert p.state.log[..|p.state.log|] == p.state.log;
      p
    else
      var throws := order[0] in failing;
      var p1 := Progress(OnListener(p.state, tag, order[0], throws), p.error || throws);
      var r := Dispatch(p1, tag, order[1..], failing);
      assert r.state.log[..|p.state.log|] == r.state.log[..|p1.state.log|][..|p.state.log|];
      r
  }

  /** One iteration of the loop body for a delivery: dispatch, then the
      single success ack when no listener threw. In closed form, with k
      throwing listeners: every listener of `order` is called once, in order;
      the tag is acked `ExpectedAcks(k, ...)` times; the retry ledger gains
      the tag exactly when retry is enabled and k > 0; nothing but the log
      and the ledger changes. */
  function Deliver(s: State, tag: DeliveryTag, order: seq<ListenerId>, failing: set<ListenerId>): (r: State)
    ensures Acks(r.log) == Acks(s.log) + Repeat(tag, ExpectedAcks(CountFailing(order, failing), s.allowRetry, tag in s.failedTags))
    ensures Invocations(r.log) == Invocations(s.log) + order
    ensures Notifications(r.log) == Notifications(s.log)
    ensures r.failedTags == if s.allowRetry && CountFailing(order, failing) > 0 then s.failedTags + {tag} else s.failedTags
    ensures |r.log| >= |s.log| && r.log[..|s.log|] == s.log
    ensures r.listeners == s.listeners && r.permits == s.permits
    ensures r.allowRetry == s.allowRetry && r.thread == s.thread
  {
    var p := Dispatch(Progress(s, false), tag, order, failing);
    DispatchCalls(Progress(s, false), tag, order, failing);
    DispatchLedger(Progress(s, false), tag, order, failing);
    DispatchAcks(Progress(s, false), tag, order, failing);
    FinalAck(s, p.state, tag, CountFailing(order, failing), p.error);
    if !p.error then Ack(p.state, tag) else p.state
  }

  /** The success ack after the loop turns the in-loop count `RetryAcks`
      into the per-delivery count `ExpectedAcks`. */
  lemma FinalAck(s: State, q: State, tag: DeliveryTag, k: nat, error: bool)
    requires error == (k > 0)
    requires Acks(q.log) == Acks(s.log) + Repeat(tag, RetryAcks(k, s.allowRetry, tag in s.failedTags))
    requires |q.log| >= |s.log| && q.log[..|s.log|] == s.log
    ensures var r := if !error then Ack(q, tag) else q;
            && Acks(r.log) == Acks(s.log) + Repeat(tag, ExpectedAcks(k, s.allowRetry, tag in s.failedTags))
            && |r.log| >= |s.log| && r.log[..|s.log|] == s.log
  {
    if !error {
      assert Repeat(tag, 0) == [] && [tag] == Repeat(tag, 1);
      var r := Ack(q, tag);
      assert r.log[..|s.log|] == r.log[..|q.log|][..|s.log|];
    }
  }

  /** The `catch` branch: every listener in the snapshot gets `failed(e)`.
      A listener whose `failed` throws ends the loop (the exception leaves
      the `catch` block and the thread's `run`); later listeners are not
      notified. */
  function NotifyAll(s: State, e: ErrorId, order: seq<ListenerId>, throwing: set<ListenerId>): (r: State)
    ensures Acks(r.log) == Acks(s.log) && Invocations(r.log) == Invocations(s.log)
    ensures r.failedTags == s.failedTags && r.listeners == s.listeners
    ensures r.permits == s.permits && r.allowRetry == s.allowRetry
    ensures |r.log| >= |s.log| && r.log[..|s.log|] == s.log
    decreases |order|
  {
    if |order| == 0 then
      assert s.log[..|s.log|] == s.log;
      s
    else
      var ev := Notified(order[0], e);
      var notified := s.(log := s.log + [ev]);
      ProjectAppend(s.log, ev);
      assert notified.log[..|s.log|] == s.log;
      if order[0] in throwing then notified.(thread := Terminated)
      else
        var r := NotifyAll(notified, e, order[1..], throwing);
        assert r.log[..|s.log|] == r.log[..|notified.log|][..|s.log|];
        r
  }

  /** `order` lists every element of `snapshot` exactly once: an iteration
      order of the `HashSet` copy. */
  predicate IsEnumeration(order: seq<ListenerId>, snapshot: set<ListenerId>) {
    && (forall i, j :: 0 <= i < j < |order| ==> order[i] != order[j])
    && (forall i :: 0 <= i < |order| ==> order[i] in snapshot)
    && (forall x :: x in snapshot ==> x in order)
  }

  /** One iteration of the `while (true)` loop of the listener thread. */
  function LoopIteration(s: State, fetch: Fetch, order: seq<ListenerId>,
                         failing: set<ListenerId>, notifyThrows: set<ListenerId>): (r: State)
    requires s.thread == Running
    requires IsEnumeration(order, s.listeners)
    ensures r.listeners == s.listeners && r.permits == s.permits && r.allowRetry == s.allowRetry
    ensures s.failedTags <= r.failedTags
    ensures |r.log| >= |s.log| && r.log[..|s.log|] == s.log
    ensures fetch.Delivered? ==> Invocations(r.log) == Invocations(s.log) + order
    ensures fetch.FetchFailed? ==> Acks(r.log) == Acks(s.log) && r.failedTags == s.failedTags
  {
    match fetch
    case Delivered(tag) =>
      Deliver(s, tag, order, failing)
    case FetchFailed(e) =>
      NotifySpec(s, e, order, notifyThrows);
      NotifyAll(s, e, order, notifyThrows)
  }

  /* ---------- The ack/retry decision in closed form ---------- */

  /** How many listeners in `order` throw. */
  function CountFailing(order: seq<ListenerId>, failing: set<ListenerId>): nat {
    if |order| == 0 then 0
    else (if order[0] in failing then 1 else 0) + CountFailing(order[1..], failing)
  }

  /** Acks sent inside the per-listener loop when k listeners throw. */
  function RetryAcks(k: nat, allowRetry: bool, alreadyFailed: bool): nat {
    if allowRetry && !alreadyFailed && k > 0 then k - 1 else k
  }

  /** The ack count of one delivery with k throwing listeners, case by case:
      none throws -> one ack; retry disabled -> k; retry enabled and the tag
      failed before -> k; retry enabled and a new tag -> k - 1. */
  function ExpectedAcks(k: nat, allowRetry: bool, alreadyFailed: bool): nat {
    if k == 0 then 1
    else if !allowRetry then k
    else if alreadyFailed then k
    else k - 1
  }

  lemma AppendHeadTail(before: seq<ListenerId>, order: seq<ListenerId>)
    requires |order| > 0
    ensures before + [order[0]] + order[1..] == before + order
  {
    assert [order[0]] + order[1..] == order;
  }

  /** The per-listener loop calls every listener of `order` once, in order,
      sends no `failed` notification, and sets `error` exactly when one of
      them throws. */
  lemma {:induction false} DispatchCalls(p: Progress, tag: DeliveryTag, order: seq<ListenerId>, failing: set<ListenerId>)
    ensures var r := Dispatch(p, tag, order, failing);
            && r.error == (p.error || CountFailing(order, failing) > 0)
            && Invocations(r.state.log) == Invocations(p.state.log) + order
            && Notifications(r.state.log) == Notifications(p.state.log)
    decreases |order|
  {
    if |order| > 0 {
      var throws := order[0] in failing;
      var p1 := Progress(OnListener(p.state, tag, order[0], throws), p.error || throws);
      DispatchCalls(p1, tag, order[1..], failing);
      var r := Dispatch(p1, tag, order[1..], failing);
      assert Dispatch(p, tag, order, failing) == r;
      var before := Invocations(p.state.log);
      assert Invocations(p1.state.log) == before + [order[0]];
      assert Invocations(r.state.log) == before + [order[0]] + order[1..];
      AppendHeadTail(before, order);
    }
  }

  /** The retry ledger after the per-listener loop: the tag is added
      exactly when retry is enabled and some listener throws. */
  lemma {:induction false} DispatchLedger(p: Progress, tag: DeliveryTag, order: seq<ListenerId>, failing: set<ListenerId>)
    ensures Dispatch(p, tag, order, failing).state.failedTags ==
              if p.state.allowRetry && CountFailing(order, failing) > 0
              then p.state.failedTags + {tag} else p.state.failedTags
    decreases |order|
  {
    if |order| > 0 {
      var throws := order[0] in failing;
      var p1 := Progress(OnListener(p.state, tag, order[0], throws), p.error || throws);
      DispatchLedger(p1, tag, order[1..], failing);
    }
  }

  /** The acks of the per-listener loop depend only on how many listeners
      throw, on the retry flag and on whether the tag failed before. */
  lemma {:induction false} DispatchAcks(p: Progress, tag: DeliveryTag, order: seq<ListenerId>, failing: set<ListenerId>)
    ensures Acks(Dispatch(p, tag, order, failing).state.log) ==
              Acks(p.state.log) + Repeat(tag, RetryAcks(CountFailing(order, failing), p.state.allowRetry, tag in p.state.failedTags))
    decreases |order|
  {
    var s := p.state;
    if |order| == 0 {
      assert Repeat(tag, 0) == [];
    } else {
      var throws := order[0] in failing;
      var s1 := OnListener(s, tag, order[0], throws);
      var p1 := Progress(s1, p.error || throws);
      var first := OnListenerAcks(s, tag, order[0], throws);
      DispatchAcks(p1, tag, order[1..], failing);
      var k1 := CountFailing(order[1..], failing);
      var rest := RetryAcks(k1, s.allowRetry, tag in s1.failedTags);
      RetryAcksStep(throws, s.allowRetry, tag in s.failedTags, k1);
      assert CountFailing(order, failing) == (if throws then 1 else 0) + k1;
      CombineAcks(Acks(s.log), Acks(s1.log), Acks(Dispatch(p1, tag, order[1..], failing).state.log), tag, first, rest);
    }
  }

  /** The acks of one listener's pass, as a count, and what it leaves in the
      ledger for the next listener to see. */
  lemma OnListenerAcks(s: State, tag: DeliveryTag, l: ListenerId, throws: bool) returns (first: nat)
    ensures first == if throws && (!s.allowRetry || tag in s.failedTags) then 1 else 0
    ensures Acks(OnListener(s, tag, l, throws).log) == Acks(s.log) + Repeat(tag, first)
    ensures OnListener(s, tag, l, throws).allowRetry == s.allowRetry
    ensures (tag in OnListener(s, tag, l, throws).failedTags) == (tag in s.failedTags || (throws && s.allowRetry))
  {
    first := if throws && (!s.allowRetry || tag in s.failedTags) then 1 else 0;
    assert Repeat(tag, 0) == [] && Repeat(tag, 1) == [tag];
  }

  /** The retry arithmetic of one listener's pass followed by the rest. */
  lemma RetryAcksStep(throws: bool, retry: bool, seen: bool, k1: nat)
    ensures (if throws && (!retry || seen) then 1 else 0) + RetryAcks(k1, retry, seen || (throws && retry))
            == RetryAcks((if throws then 1 else 0) + k1, retry, seen)
  {
  }

  /** The retry scenario: with retry enabled, a new tag whose delivery makes
      k1 >= 1 listeners throw is recorded and acked k1 - 1 times; when the
      same tag is delivered again and k2 >= 1 listeners throw, it is acked
      k2 times. With a single listener: no ack, then one ack. */
  lemma RetryThenAck(s: State, tag: DeliveryTag, o1: seq<ListenerId>, f1: set<ListenerId>,
                     o2: seq<ListenerId>, f2: set<ListenerId>)
    requires s.allowRetry && tag !in s.failedTags
    requires CountFailing(o1, f1) >= 1 && CountFailing(o2, f2) >= 1
    ensures var s1 := Deliver(s, tag, o1, f1);
            var s2 := Deliver(s1, tag, o2, f2);
            && tag in s1.failedTags
            && Acks(s1.log) == Acks(s.log) + Repeat(tag, CountFailing(o1, f1) - 1)
            && Acks(s2.log) == Acks(s1.log) + Repeat(tag, CountFailing(o2, f2))
  {
  }

  /** The ack is sent inside the per-listener loop, right after the call
      that threw and before the next listener runs: with retry off, listener
      1 throws and listener 2 does not. */
  lemma AckBetweenListeners(s: State, t: DeliveryTag)
    requires !s.allowRetry
    ensures Deliver(s, t, [1, 2], {1}).log == s.log + [Invoked(1, t), Acked(t), Invoked(2, t)]
  {
  }

  /* ---------- Independence of the iteration order ---------- */

  predicate Distinct(order: seq<ListenerId>) {
    forall i, j :: 0 <= i < j < |order| ==> order[i] != order[j]
  }

  function Elements(order: seq<ListenerId>): set<ListenerId> {
    set x | x in order
  }

  /** The tail of a repetition-free order is repetition-free and does not
      contain the head. */
  lemma DistinctTail(order: seq<ListenerId>)
    requires Distinct(order) && |order| > 0
    ensures Distinct(order[1..]) && order[0] !in order[1..]
  {
    var rest := order[1..];
    forall i, j | 0 <= i < j < |rest| ensures rest[i] != rest[j] {
      assert rest[i] == order[i + 1] && rest[j] == order[j + 1];
    }
  }

  /** For a repetition-free order, the number of throwing listeners is the
      size of the throwing part of the snapshot. */
  lemma {:induction false} CountIsCardinality(order: seq<ListenerId>, failing: set<ListenerId>)
    requires Distinct(order)
    ensures CountFailing(order, failing) == |Elements(order) * failing|
    decreases |order|
  {
    if |order| == 0 {
      assert Elements(order) == {};
    } else {
      var x := order[0];
      var rest := order[1..];
      DistinctTail(order);
      CountIsCardinality(rest, failing);
      var tailPart := Elements(rest) * failing;
      assert x !in tailPart;
      assert Elements(order) == {x} + Elements(rest) by {
        assert order == [x] + rest;
      }
      if x in failing {
        assert Elements(order) * failing == tailPart + {x};
        assert |tailPart + {x}| == |tailPart| + 1;
      } else {
        assert Elements(order) * failing == tailPart;
      }
    }
  }

  /** In a repetition-free order every element occurs exactly once. */
  lemma {:induction false} DistinctOccurrences(order: seq<ListenerId>)
    requires Distinct(order)
    ensures forall x :: multiset(order)[x] == if x in order then 1 else 0
    decreases |order|
  {
    if |order| > 0 {
      var rest := order[1..];
      DistinctTail(order);
      DistinctOccurrences(rest);
      assert order == [order[0]] + rest;
      assert multiset(order) == multiset{order[0]} + multiset(rest);
    }
  }

  /** Every listener of the snapshot is called exactly once per delivery,
      whether or not others throw, and no one else is called. */
  lemma EachListenerOnce(s: State, tag: DeliveryTag, order: seq<ListenerId>, failing: set<ListenerId>)
    requires IsEnumeration(order, s.listeners)
    ensures var r := Deliver(s, tag, order, failing);
            forall l :: multiset(Invocations(r.log))[l] ==
                          multiset(Invocations(s.log))[l] + (if l in s.listeners then 1 else 0)
  {
    var r := Deliver(s, tag, order, failing);
    assert Distinct(order);
    DistinctOccurrences(order);
    assert multiset(Invocations(r.log)) == multiset(Invocations(s.log)) + multiset(order);
  }

  /** Two iteration orders of one snapshot meet the same number of
      throwing listeners. */
  lemma EnumerationsCountAlike(o1: seq<ListenerId>, o2: seq<ListenerId>, snapshot: set<ListenerId>, failing: set<ListenerId>)
    requires IsEnumeration(o1, snapshot) && IsEnumeration(o2, snapshot)
    ensures CountFailing(o1, failing) == CountFailing(o2, failing)
  {
    assert Distinct(o1) && Distinct(o2);
    CountIsCardinality(o1, failing);
    CountIsCardinality(o2, failing);
    assert Elements(o1) == snapshot == Elements(o2);
  }

  /** Deliveries with the same number of throwing listeners ack alike and
      leave the same retry ledger. */
  lemma SameCountAlike(s: State, tag: DeliveryTag, o1: seq<ListenerId>, o2: seq<ListenerId>, failing: set<ListenerId>)
    requires CountFailing(o1, failing) == CountFailing(o2, failing)
    ensures Acks(Deliver(s, tag, o1, failing).log) == Acks(Deliver(s, tag, o2, failing).log)
    ensures Deliver(s, tag, o1, failing).failedTags == Deliver(s, tag, o2, failing).failedTags
  {
  }

  /** The outcome of a delivery does not depend on the order in which the
      snapshot is iterated: same acks, same retry ledger, same calls. */
  lemma OrderIndependent(s: State, tag: DeliveryTag, o1: seq<ListenerId>, o2: seq<ListenerId>, failing: set<ListenerId>)
    requires IsEnumeration(o1, s.listeners) && IsEnumeration(o2, s.listeners)
    ensures var r1 := Deliver(s, tag, o1, failing);
            var r2 := Deliver(s, tag, o2, failing);
            && Acks(r1.log) == Acks(r2.log)
            && r1.failedTags == r2.failedTags
            && multiset(Invocations(r1.log)) == multiset(Invocations(r2.log))
  {
    EnumerationsCountAlike(o1, o2, s.listeners, failing);
    SameCountAlike(s, tag, o1, o2, failing);
    var m1 := multiset(Invocations(Deliver(s, tag, o1, failing).log));
    var m2 := multiset(Invocations(Deliver(s, tag, o2, failing).log));
    EachListenerOnce(s, tag, o1, failing);
    EachListenerOnce(s, tag, o2, failing);
    assert forall l :: m1[l] == m2[l];
    assert m1 == m2;
  }

  /* ---------- The fetch-error path ---------- */

  /** `failed(e)` notifications for `order`, in order. */
  function NotificationsFor(order: seq<ListenerId>, e: ErrorId): (r: seq<Event>)
    ensures |r| == |order|
  {
    if |order| == 0 then [] else [Notified(order[0], e)] + NotificationsFor(order[1..], e)
  }

  /** If no `failed` throws, every listener is notified once, in order. */
  lemma {:induction false} NotifyAllListeners(s: State, e: ErrorId, order: seq<ListenerId>, throwing: set<ListenerId>)
    requires CountFailing(order, throwing) == 0
    ensures Notifications(NotifyAll(s, e, order, throwing).log) == Notifications(s.log) + NotificationsFor(order, e)
    decreases |order|
  {
    if |order| > 0 {
      var ev := Notified(order[0], e);
      var n := s.(log := s.log + [ev]);
      ProjectAppend(s.log, ev);
      NotifyAllListeners(n, e, order[1..], throwing);
    }
  }

  /** The loop thread survives the fetch-error path exactly when no
      `failed` throws. */
  lemma {:induction false} NotifyThread(s: State, e: ErrorId, order: seq<ListenerId>, throwing: set<ListenerId>)
    ensures CountFailing(order, throwing) == 0 ==> NotifyAll(s, e, order, throwing).thread == s.thread
    ensures CountFailing(order, throwing) > 0 ==> NotifyAll(s, e, order, throwing).thread == Terminated
    decreases |order|
  {
    if |order| > 0 && order[0] !in throwing {
      NotifyThread(s.(log := s.log + [Notified(order[0], e)]), e, order[1..], throwing);
    }
  }

  /** The whole fetch-error path: no ack, no `completed` call, the ledger
      untouched; every listener notified once and the loop alive when no
      `failed` throws, the loop ended otherwise. */
  lemma NotifySpec(s: State, e: ErrorId, order: seq<ListenerId>, throwing: set<ListenerId>)
    ensures var r := NotifyAll(s, e, order, throwing);
            && Acks(r.log) == Acks(s.log)
            && Invocations(r.log) == Invocations(s.log)
            && (CountFailing(order, throwing) == 0 ==>
                  Notifications(r.log) == Notifications(s.log) + NotificationsFor(order, e)
                  && r.thread == s.thread)
            && (CountFailing(order, throwing) > 0 ==> r.thread == Terminated)
            && r.failedTags == s.failedTags && r.listeners == s.listeners
            && r.permits == s.permits && r.allowRetry == s.allowRetry
            && |r.log| >= |s.log| && r.log[..|s.log|] == s.log
  {
    NotifyThread(s, e, order, throwing);
    if CountFailing(order, throwing) == 0 {
      NotifyAllListeners(s, e, order, throwing);
    }
  }

  /* ---------- Construction ---------- */

  /** A receiver as the full constructor leaves it (before the connection is
      made): where to connect, which credentials to pass, the effective
      connection timeout, and the initial engine state. */
  datatype Receiver = Receiver(
    endpoint: HostSpec,
    queue: string,
    username: Option<string>,
    password: Option<string>,
    connectionTimeout: int32,
    state: State)

  /** The full constructor: host parsing, timeout defaulting and credentials.
      A malformed host is the exception the constructor throws. */
  function NewReceiver(host: string, username: string, password: string, queue: string,
                       allowRetry: bool, connectionTimeout: int32): (r: Result<Receiver, HostError>)
    ensures r.Success? <==> ParseHost(host).Success?
    ensures r.Failure? ==> r.error == ParseHost(host).error
    ensures r.Success? ==> r.value.endpoint == ParseHost(host).value
    ensures r.Success? ==> r.value.connectionTimeout > 0
    ensures r.Success? && connectionTimeout > 0 ==> r.value.connectionTimeout == connectionTimeout
    ensures r.Success? && connectionTimeout <= 0 ==> r.value.connectionTimeout == DefaultMillis
    ensures r.Success? ==> r.value.username == Credential(username) && r.value.password == Credential(password)
    ensures r.Success? ==> r.value.state == Init(allowRetry) && r.value.queue == queue
  {
    match ParseHost(host)
    case Failure(err) => Failure(err)
    case Success(spec) =>
      Success(Receiver(spec, queue, Credential(username), Credential(password),
                       EffectiveMillis(connectionTimeout), Init(allowRetry)))
  }

  /** The three-argument constructor: retry enabled, no credentials, and
      the given connection timeout (defaulted when not positive). */
  function NewShortReceiver(host: string, queue: string, timeout: int32): (r: Result<Receiver, HostError>)
    ensures r.Success? <==> ParseHost(host).Success?
    ensures r.Success? ==> && r.value.state.allowRetry
                           && r.value.username.None? && r.value.password.None?
                           && r.value.queue == queue
    ensures r.Success? && timeout > 0 ==> r.value.connectionTimeout == timeout
    ensures r.Success? && timeout <= 0 ==> r.value.connectionTimeout == DefaultMillis
  {
    NewReceiver(host, "", "", queue, true, timeout)
  }

  /** The two-argument constructor: the three-argument one with timeout 0,
      which the full constructor turns into the default. */
  function NewDefaultReceiver(host: string, queue: string): (r: Result<Receiver, HostError>)
    ensures r.Success? <==> ParseHost(host).Success?
    ensures r.Success? ==> && r.value.state.allowRetry
                           && r.value.connectionTimeout == DefaultMillis
                           && r.value.username.None? && r.value.password.None?
  {
    NewShortReceiver(host, queue, 0)
  }
}
