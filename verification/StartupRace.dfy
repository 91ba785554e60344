/**
 The startup race (`ready_or_defer`, `defer_request`, `set_ready`): request threads and the
 starting thread as interleaved atomic steps. The mutex is explicit; the drain loop runs without
 it, and each of its two statements is a step of its own.
 */
module StartupRace {
  import opened Common

  /** Where a request thread is. */
  datatype Pc =
    | Arrived      // about to read `ready` in ready_or_defer
    | Deferring    // ready_or_defer threw; wants the mutex in defer_request
    | Holding      // has the mutex, about to test `ready`
    | Enqueueing   // found it not ready, about to append and release
    | Queued       // its request sits in deferred_
    | Finished     // its body has run

  /** Where the starting thread is. */
  datatype MainPc =
    | Starting     // before the lock in set_ready
    | Locked       // has the mutex, about to set ready
    | Unlocking    // has set ready, about to release
    | Draining     // at the loop test
    | Popping      // has run the front request, about to pop it
    | Drained

  datatype Owner = Nobody | Main | Request(i: nat)

  datatype Actor = Starter | Thread(i: nat)

  /** `ran` lists request bodies in the order they ran; `enqueued` and `served` are its queue part. */
  datatype State = State(
    ready: bool, owner: Owner, deferred: seq<nat>, pcs: seq<Pc>, main: MainPc,
    ran: seq<nat>, enqueued: seq<nat>, served: seq<nat>)

  function Init(n: nat): State {
    State(false, Nobody, [], seq(n, _ => Arrived), Starting, [], [], [])
  }

  predicate Enabled(s: State, a: Actor) {
    match a
    case Starter => s.main != Drained && (s.main == Starting ==> s.owner == Nobody)
    case Thread(i) =>
      i < |s.pcs| && s.pcs[i] != Queued && s.pcs[i] != Finished && (s.pcs[i] == Deferring ==> s.owner == Nobody)
  }

  function Move(s: State, i: nat, pc: Pc): State
    requires i < |s.pcs|
  {
    s.(pcs := s.pcs[i := pc])
  }

  /** A request body runs to its end. */
  function RunBody(s: State, i: nat): State
    requires i < |s.pcs|
  {
    Move(s, i, Finished).(ran := s.ran + [i])
  }

  function ThreadStep(s: State, i: nat): State
    requires Enabled(s, Thread(i))
  {
    match s.pcs[i]
    case Arrived => if s.ready then RunBody(s, i) else Move(s, i, Deferring)
    case Deferring => Move(s, i, Holding).(owner := Request(i))
    // flipped between the check and now: release the mutex and call again
    case Holding => if s.ready then Move(s, i, Arrived).(owner := Nobody) else Move(s, i, Enqueueing)
    case Enqueueing => Move(s, i, Queued).(owner := Nobody, deferred := s.deferred + [i], enqueued := s.enqueued + [i])
    case _ => s
  }

  function MainStep(s: State): State
    requires Enabled(s, Starter)
  {
    match s.main
    case Starting => s.(main := Locked, owner := Main)
    case Locked => s.(main := Unlocking, ready := true)
    case Unlocking => s.(main := Draining, owner := Nobody)
    case Draining =>
      if s.deferred == [] then s.(main := Drained)
      else
        var i := s.deferred[0];
        // the callback consults ready_or_defer as well
        if s.ready && i < |s.pcs| then RunBody(s, i).(main := Popping, served := s.served + [i]) else s
    case Popping => s.(main := Draining, deferred := if s.deferred == [] then [] else s.deferred[1..])
    case _ => s
  }

  function Step(s: State, a: Actor): State
    requires Enabled(s, a)
  {
    match a
    case Starter => MainStep(s)
    case Thread(i) => ThreadStep(s, i)
  }

  // ----- the invariant -----

  /** The requests that are in the queue and have not run. */
  function Waiting(s: State): seq<nat> {
    if s.main == Popping && s.deferred != [] then s.deferred[1..] else s.deferred
  }

  ghost predicate MutexInv(s: State) {
    && (s.owner == Main <==> s.main == Locked || s.main == Unlocking)
    && (forall i: nat :: s.owner == Request(i) ==> i < |s.pcs|)
    && (forall i: nat :: i < |s.pcs| ==> (s.owner == Request(i) <==> s.pcs[i] == Holding || s.pcs[i] == Enqueueing))
    && (s.ready <==> s.main != Starting && s.main != Locked)
    && (forall i: nat :: i < |s.pcs| && s.pcs[i] == Enqueueing ==> !s.ready)
  }

  ghost predicate QueueInv(s: State) {
    && (forall i: nat :: i < |s.pcs| && s.pcs[i] == Queued <==> i in Waiting(s))
    && (forall i, j :: 0 <= i < j < |Waiting(s)| ==> Waiting(s)[i] != Waiting(s)[j])
    && s.served + Waiting(s) == s.enqueued
    && (s.main == Popping ==> s.deferred != [])
    && (s.main == Drained ==> s.deferred == [])
    && (!s.ready ==> s.ran == [])
  }

  ghost predicate RanInv(s: State) {
    forall i: nat :: multiset(s.ran)[i] == if i < |s.pcs| && s.pcs[i] == Finished then 1 else 0
  }

  ghost predicate Inv(s: State) {
    MutexInv(s) && QueueInv(s) && RanInv(s)
  }

  lemma InitInv(n: nat)
    ensures Inv(Init(n))
  {
  }

  lemma MutexThread(s: State, i: nat)
    requires MutexInv(s) && Enabled(s, Thread(i))
    ensures MutexInv(ThreadStep(s, i))
  {
  }

  lemma MutexMain(s: State)
    requires MutexInv(s) && QueueInv(s) && Enabled(s, Starter)
    ensures MutexInv(MainStep(s))
  {
    if s.main == Draining && s.deferred != [] {
      assert s.deferred[0] in Waiting(s);
    }
  }

  lemma MutexStep(s: State, a: Actor)
    requires Inv(s) && Enabled(s, a)
    ensures MutexInv(Step(s, a))
  {
    if a.Thread? {
      MutexThread(s, a.i);
    } else {
      MutexMain(s);
    }
  }

  lemma BodyKeepsRan(s: State, i: nat)
    requires RanInv(s) && i < |s.pcs| && s.pcs[i] != Finished
    ensures RanInv(RunBody(s, i))
  {
    assert multiset(s.ran + [i]) == multiset(s.ran) + multiset{i};
  }

  lemma ThreadKeepsRan(s: State, i: nat)
    requires RanInv(s) && Enabled(s, Thread(i))
    ensures RanInv(ThreadStep(s, i))
  {
    if s.pcs[i] == Arrived && s.ready {
      BodyKeepsRan(s, i);
    }
  }

  lemma MainKeepsRan(s: State)
    requires QueueInv(s) && RanInv(s) && Enabled(s, Starter)
    ensures RanInv(MainStep(s))
  {
    if s.main == Draining && s.deferred != [] {
      assert s.deferred[0] in Waiting(s);
      BodyKeepsRan(s, s.deferred[0]);
    }
  }

  lemma RanStep(s: State, a: Actor)
    requires Inv(s) && Enabled(s, a)
    ensures RanInv(Step(s, a))
  {
    if a.Thread? {
      ThreadKeepsRan(s, a.i);
    } else {
      MainKeepsRan(s);
    }
  }

  /** Running the front request. */
  lemma ServeKeepsQueue(s: State)
    requires Inv(s) && s.main == Draining && s.deferred != []
    ensures QueueInv(MainStep(s))
  {
    var s', i, tail := MainStep(s), s.deferred[0], s.deferred[1..];
    assert s.deferred == [i] + tail && Waiting(s) == s.deferred;
    assert i in Waiting(s) && s.ready;
    assert Waiting(s') == tail;
    assert forall x :: x in s.deferred <==> x == i || x in tail;
    assert i !in tail by {
      assert forall j :: 0 <= j < |tail| ==> tail[j] == s.deferred[j + 1];
    }
    assert s'.served + tail == s.served + s.deferred;
  }

  lemma EnqueueKeepsQueue(s: State, i: nat)
    requires Inv(s) && i < |s.pcs| && s.pcs[i] == Enqueueing
    ensures QueueInv(ThreadStep(s, i))
  {
    var s' := ThreadStep(s, i);
    assert s.main == Starting;
    assert Waiting(s) == s.deferred && Waiting(s') == s.deferred + [i];
    assert i !in Waiting(s);
    assert s'.served + Waiting(s') == s.served + Waiting(s) + [i];
  }

  lemma OtherMainStepsKeepQueue(s: State)
    requires Inv(s) && Enabled(s, Starter) && !(s.main == Draining && s.deferred != [])
    ensures QueueInv(MainStep(s))
  {
    assert Waiting(MainStep(s)) == Waiting(s);
  }

  lemma OtherThreadStepsKeepQueue(s: State, i: nat)
    requires MutexInv(s) && QueueInv(s) && Enabled(s, Thread(i)) && s.pcs[i] != Enqueueing
    ensures QueueInv(ThreadStep(s, i))
  {
    assert Waiting(ThreadStep(s, i)) == Waiting(s);
  }

  lemma QueueStep(s: State, a: Actor)
    requires Inv(s) && Enabled(s, a)
    ensures QueueInv(Step(s, a))
  {
    if a.Starter? && s.main == Draining && s.deferred != [] {
      ServeKeepsQueue(s);
    } else if a.Thread? && s.pcs[a.i] == Enqueueing {
      EnqueueKeepsQueue(s, a.i);
    } else if a.Thread? {
      OtherThreadStepsKeepQueue(s, a.i);
    } else {
      OtherMainStepsKeepQueue(s);
    }
  }

  lemma StepKeepsInv(s: State, a: Actor)
    requires Inv(s) && Enabled(s, a)
    ensures Inv(Step(s, a)) && |Step(s, a).pcs| == |s.pcs|
  {
    MutexStep(s, a);
    QueueStep(s, a);
    RanStep(s, a);
  }

  // ----- every run ends -----

  /** Steps a request still owes by itself, and its share of the drain. */
  function Debt(pc: Pc, ready: bool): nat {
    match pc
    case Arrived => if ready then 1 else 5
    case Deferring => 4
    case Holding => 3
    case Enqueueing => 2
    case Queued => 1
    case Finished => 0
  }

  function Owing(ready: bool): Pc -> nat {
    pc => Debt(pc, ready)
  }

  function Debts(pcs: seq<Pc>, ready: bool): nat {
    Sum(pcs, Owing(ready))
  }

  function MainDebt(m: MainPc): nat {
    match m
    case Starting => 5
    case Locked => 4
    case Unlocking => 3
    case Popping => 2
    case Draining => 1
    case Drained => 0
  }

  function Measure(s: State): nat {
    3 * Debts(s.pcs, s.ready) + MainDebt(s.main) + |s.deferred|
  }

  lemma ThreadPays(s: State, i: nat)
    requires MutexInv(s) && Enabled(s, Thread(i))
    ensures Measure(ThreadStep(s, i)) < Measure(s)
  {
    SumUpdate(s.pcs, Owing(s.ready), i, ThreadStep(s, i).pcs[i]);
  }

  lemma ServePays(s: State)
    requires Inv(s) && s.main == Draining && s.deferred != []
    ensures Measure(MainStep(s)) < Measure(s)
  {
    assert s.deferred[0] in Waiting(s);
    SumUpdate(s.pcs, Owing(s.ready), s.deferred[0], Finished);
  }

  lemma MainPays(s: State)
    requires Inv(s) && Enabled(s, Starter)
    ensures Measure(MainStep(s)) < Measure(s)
  {
    if s.main == Draining && s.deferred != [] {
      ServePays(s);
    } else if s.main == Locked {
      SumMono(s.pcs, Owing(true), Owing(false));
    }
  }

  /** No step is free: every run is at most `Measure` steps long, drain loop included. */
  lemma StepPays(s: State, a: Actor)
    requires Inv(s) && Enabled(s, a)
    ensures Measure(Step(s, a)) < Measure(s)
  {
    if a.Thread? {
      ThreadPays(s, a.i);
    } else {
      MainPays(s);
    }
  }

  /** No deadlock: while a request has not run, or the drain is not over, somebody can move. */
  lemma NoDeadlock(s: State)
    requires Inv(s) && (forall a :: !Enabled(s, a))
    ensures s.main == Drained && forall i :: 0 <= i < |s.pcs| ==> s.pcs[i] == Finished
  {
    if s.owner.Request? {
      assert Enabled(s, Thread(s.owner.i));
    }
    assert s.main == Drained || Enabled(s, Starter);
    forall i: nat | i < |s.pcs| ensures s.pcs[i] == Finished {
      assert Enabled(s, Thread(i)) || s.pcs[i] == Queued || s.pcs[i] == Finished;
      assert s.pcs[i] == Queued ==> i in Waiting(s);
    }
  }

  // ----- runs -----

  ghost predicate Run(ss: seq<State>, acts: seq<Actor>, n: nat) {
    && |ss| == |acts| + 1 && ss[0] == Init(n)
    && forall t :: 0 <= t < |acts| ==> Enabled(ss[t], acts[t]) && ss[t + 1] == Step(ss[t], acts[t])
  }

  lemma {:induction false} RunKeepsInv(ss: seq<State>, acts: seq<Actor>, n: nat, t: nat)
    requires Run(ss, acts, n) && t < |ss|
    ensures Inv(ss[t]) && |ss[t].pcs| == n && Measure(ss[t]) + t <= Measure(ss[0])
  {
    if t == 0 {
      InitInv(n);
    } else {
      RunKeepsInv(ss, acts, n, t - 1);
      StepKeepsInv(ss[t - 1], acts[t - 1]);
      StepPays(ss[t - 1], acts[t - 1]);
    }
  }

  /** Safety: no body before `ready`, none twice, and nothing enters the queue after `ready`. */
  lemma Safety(ss: seq<State>, acts: seq<Actor>, n: nat, t: nat)
    requires Run(ss, acts, n) && t < |acts|
    ensures !ss[t].ready ==> ss[t].ran == []
    ensures forall i: nat :: multiset(ss[t].ran)[i] <= 1
    ensures ss[t].ready ==> ss[t + 1].ready && ss[t + 1].enqueued == ss[t].enqueued
  {
    RunKeepsInv(ss, acts, n, t);
  }

  /** The queue is served first in, first out. */
  lemma DrainsInOrder(ss: seq<State>, acts: seq<Actor>, n: nat, t: nat)
    requires Run(ss, acts, n) && t < |ss|
    ensures ss[t].served <= ss[t].enqueued
    ensures ss[t].main == Drained ==> ss[t].served == ss[t].enqueued
  {
    RunKeepsInv(ss, acts, n, t);
    assert ss[t].enqueued[..|ss[t].served|] == ss[t].served;
  }

  /** Every run that cannot continue has run every request exactly once; and every run gets there. */
  lemma EveryRequestRunsOnce(ss: seq<State>, acts: seq<Actor>, n: nat)
    requires Run(ss, acts, n)
    ensures |acts| <= Measure(Init(n))
    ensures (forall a :: !Enabled(ss[|acts|], a)) ==>
              ss[|acts|].main == Drained && forall i: nat :: multiset(ss[|acts|].ran)[i] == (if i < n then 1 else 0)
  {
    RunKeepsInv(ss, acts, n, |acts|);
    if forall a :: !Enabled(ss[|acts|], a) {
      NoDeadlock(ss[|acts|]);
    }
  }
}
