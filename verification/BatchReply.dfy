/**
 The fan-out/fan-in of a (un)subscribe request (`on_sub_unsub_impl`, `on_notifier_validation`,
 `sub_json_set_one_response`): a dispatch loop that either fails an item on the spot or hands it to
 a notifier, and notifier callbacks that fill their slot from any thread, at any later time.
 */
module BatchReply {
  import opened Common

  /** A JSON reply; opaque here. */
  type Json = string

  /** What becomes of an item: an immediate error, or a notifier request and its outcome. */
  datatype Item = Fails(response: Json) | Asks(response: Json)

  datatype Pc =
    | Undispatched
    | Waiting      // notifier request sent
    | Stored       // response[i] is set, `remaining` not yet decremented
    | Done

  datatype Sent = One(response: Option<Json>) | Many(responses: seq<Option<Json>>) | BadInput

  /** `next` is the dispatch loop's index; an unset slot is still the empty object. */
  datatype State = State(
    items: seq<Item>, multi: bool, next: nat, pcs: seq<Pc>,
    slots: seq<Option<Json>>, remaining: int, sent: seq<Sent>)

  /** A single object becomes a one-element list; an empty list is answered at once. */
  function Init(items: seq<Item>, multi: bool): State {
    var n := |items|;
    State(items, multi, 0, seq(n, _ => Undispatched), seq(n, _ => None),
          if multi then n else 1, if n == 0 then [BadInput] else [])
  }

  datatype Actor = Dispatcher | Callback(i: nat)

  predicate Shaped(s: State) {
    |s.pcs| == |s.slots| == |s.items|
  }

  predicate Enabled(s: State, a: Actor)
    requires Shaped(s)
  {
    match a
    case Dispatcher => s.next < |s.items|
    case Callback(i) => i < |s.items| && s.items[i].Asks? && (s.pcs[i] == Waiting || s.pcs[i] == Stored)
  }

  /** The first statement: set the slot. */
  function Store(s: State, i: nat): State
    requires Shaped(s) && i < |s.items|
  {
    s.(slots := s.slots[i := Some(s.items[i].response)], pcs := s.pcs[i := Stored])
  }

  /** The second: count down, and reply when the count reaches zero. */
  function CountDown(s: State, i: nat): State
    requires Shaped(s) && i < |s.items|
  {
    var s' := s.(remaining := s.remaining - 1, pcs := s.pcs[i := Done]);
    if s'.remaining != 0 then s'
    else s'.(sent := s.sent + [if s.multi then Many(s.slots) else One(s.slots[0])])
  }

  function Step(s: State, a: Actor): State
    requires Shaped(s) && Enabled(s, a)
  {
    match a
    case Dispatcher =>
      var i := s.next;
      if s.items[i].Asks? then s.(pcs := s.pcs[i := Waiting], next := i + 1)
      else if s.pcs[i] == Stored then CountDown(s, i).(next := i + 1)
      else Store(s, i)
    case Callback(i) => if s.pcs[i] == Waiting then Store(s, i) else CountDown(s, i)
  }

  // ----- the invariant -----

  function Counts(pc: Pc): nat {
    if pc == Done then 1 else 0
  }

  function DoneCount(pcs: seq<Pc>): nat {
    Sum(pcs, Counts)
  }

  function Answer(items: seq<Item>, multi: bool): Sent
    requires items != []
  {
    if multi then Many(seq(|items|, i requires 0 <= i < |items| => Some(items[i].response)))
    else One(Some(items[0].response))
  }

  ghost predicate PcInv(s: State) {
    && Shaped(s) && s.next <= |s.items|
    && (forall i :: s.next < i < |s.items| ==> s.pcs[i] == Undispatched)
    && (s.next < |s.items| ==> s.pcs[s.next] == Undispatched || (s.items[s.next].Fails? && s.pcs[s.next] == Stored))
    && (forall i :: 0 <= i < s.next ==> s.pcs[i] != Undispatched && (s.items[i].Fails? ==> s.pcs[i] == Done))
    && (forall i :: 0 <= i < |s.items| ==>
          s.slots[i] == if s.pcs[i] == Stored || s.pcs[i] == Done then Some(s.items[i].response) else None)
  }

  ghost predicate Inv(s: State) {
    && PcInv(s) && s.items != [] && (!s.multi ==> |s.items| == 1)
    && s.remaining == |s.items| - DoneCount(s.pcs)
    && s.sent == if s.remaining == 0 then [Answer(s.items, s.multi)] else []
  }

  lemma {:induction false} DoneCountFull(pcs: seq<Pc>)
    ensures DoneCount(pcs) <= |pcs|
    ensures DoneCount(pcs) == |pcs| <==> forall i :: 0 <= i < |pcs| ==> pcs[i] == Done
  {
    if pcs != [] {
      var last := |pcs| - 1;
      DoneCountFull(pcs[..last]);
      assert forall i :: 0 <= i < last ==> pcs[..last][i] == pcs[i];
    }
  }

  lemma {:induction false} NoneDone(n: nat)
    ensures DoneCount(seq(n, _ => Undispatched)) == 0
  {
    if n > 0 {
      NoneDone(n - 1);
      assert seq(n, _ => Undispatched)[..n - 1] == seq(n - 1, _ => Undispatched);
    }
  }

  lemma InitInv(items: seq<Item>, multi: bool)
    requires items != [] && (!multi ==> |items| == 1)
    ensures Inv(Init(items, multi))
  {
    NoneDone(|items|);
  }

  lemma StoreKeepsInv(s: State, i: nat)
    requires Inv(s) && i < |s.items| && s.pcs[i] != Stored && s.pcs[i] != Done
    requires (i == s.next && s.items[i].Fails?) || i < s.next
    ensures Inv(Store(s, i))
  {
    SumUpdate(s.pcs, Counts, i, Stored);
  }

  /** When the last stored item is counted down every slot is set. */
  lemma LastOneCompletes(s: State, i: nat)
    requires PcInv(s) && s.items != [] && i < |s.items| && s.pcs[i] == Stored && DoneCount(s.pcs[i := Done]) == |s.items|
    ensures s.multi ==> Answer(s.items, s.multi) == Many(s.slots)
    ensures !s.multi ==> Answer(s.items, s.multi) == One(s.slots[0])
  {
    DoneCountFull(s.pcs[i := Done]);
    forall j | 0 <= j < |s.items| ensures s.slots[j] == Some(s.items[j].response) {
      assert s.pcs[i := Done][j] == Done;
    }
    assert s.slots == seq(|s.items|, j requires 0 <= j < |s.items| => Some(s.items[j].response));
  }

  /** The countdown that reaches zero is the last one, and sends the full answer. */
  lemma CountDownKeepsCount(s: State, i: nat)
    requires Inv(s) && i < |s.items| && s.pcs[i] == Stored
    ensures var s' := CountDown(s, i);
            && s'.remaining == |s.items| - DoneCount(s'.pcs)
            && s'.sent == if s'.remaining == 0 then [Answer(s.items, s.multi)] else []
  {
    SumUpdate(s.pcs, Counts, i, Done);
    DoneCountFull(s.pcs[i := Done]);
    if s.remaining == 1 {
      LastOneCompletes(s, i);
    }
  }

  lemma AskKeepsInv(s: State)
    requires Inv(s) && Enabled(s, Dispatcher) && s.items[s.next].Asks?
    ensures Inv(Step(s, Dispatcher))
  {
    SumUpdate(s.pcs, Counts, s.next, Waiting);
  }

  lemma CountDownKeepsPcs(s: State, i: nat)
    requires PcInv(s) && i < |s.items| && s.pcs[i] == Stored
    ensures i == s.next ==> PcInv(CountDown(s, i).(next := i + 1))
    ensures i != s.next && !s.items[i].Fails? ==> PcInv(CountDown(s, i))
  {
  }

  lemma DispatchKeepsInv(s: State)
    requires Inv(s) && Enabled(s, Dispatcher)
    ensures Inv(Step(s, Dispatcher))
  {
    var i := s.next;
    if s.items[i].Asks? {
      AskKeepsInv(s);
    } else if s.pcs[i] == Stored {
      CountDownKeepsCount(s, i);
      CountDownKeepsPcs(s, i);
    } else {
      StoreKeepsInv(s, i);
    }
  }

  lemma CallbackKeepsInv(s: State, i: nat)
    requires Inv(s) && Enabled(s, Callback(i))
    ensures Inv(Step(s, Callback(i)))
  {
    if s.pcs[i] == Waiting {
      StoreKeepsInv(s, i);
    } else {
      CountDownKeepsCount(s, i);
      CountDownKeepsPcs(s, i);
    }
  }

  lemma StepKeepsInv(s: State, a: Actor)
    requires Inv(s) && Enabled(s, a)
    ensures Inv(Step(s, a)) && Step(s, a).items == s.items && Step(s, a).multi == s.multi
  {
    match a
    case Dispatcher => DispatchKeepsInv(s);
    case Callback(i) => CallbackKeepsInv(s, i);
  }

  // ----- every run ends with one reply -----

  function Debt(pc: Pc): nat {
    match pc
    case Undispatched => 3
    case Waiting => 2
    case Stored => 1
    case Done => 0
  }

  function Debts(pcs: seq<Pc>): nat {
    Sum(pcs, Debt)
  }

  lemma StepPays(s: State, a: Actor)
    requires Inv(s) && Enabled(s, a)
    ensures Debts(Step(s, a).pcs) < Debts(s.pcs)
  {
    var i := if a.Dispatcher? then s.next else a.i;
    SumUpdate(s.pcs, Debt, i, Step(s, a).pcs[i]);
  }

  ghost predicate Run(ss: seq<State>, acts: seq<Actor>, items: seq<Item>, multi: bool) {
    && |ss| == |acts| + 1 && ss[0] == Init(items, multi)
    && forall t :: 0 <= t < |acts| ==> Shaped(ss[t]) && Enabled(ss[t], acts[t]) && ss[t + 1] == Step(ss[t], acts[t])
  }

  lemma {:induction false} RunKeepsInv(ss: seq<State>, acts: seq<Actor>, items: seq<Item>, multi: bool, t: nat)
    requires Run(ss, acts, items, multi) && t < |ss| && items != [] && (!multi ==> |items| == 1)
    ensures Inv(ss[t]) && ss[t].items == items && ss[t].multi == multi
    ensures Debts(ss[t].pcs) + t <= Debts(ss[0].pcs)
  {
    if t == 0 {
      InitInv(items, multi);
    } else {
      RunKeepsInv(ss, acts, items, multi, t - 1);
      StepKeepsInv(ss[t - 1], acts[t - 1]);
      StepPays(ss[t - 1], acts[t - 1]);
    }
  }

  /** A list request is answered by the list of all responses, in order; a single one by its response. */
  predicate Answers(reply: Sent, items: seq<Item>, multi: bool)
    requires items != []
  {
    if multi then reply.Many? && |reply.responses| == |items| && forall i :: 0 <= i < |items| ==> reply.responses[i] == Some(items[i].response)
    else reply == One(Some(items[0].response))
  }

  /** At any moment: at most one reply, none before every item is done, and it answers slot by slot. */
  lemma OneReplyWhenAllDone(ss: seq<State>, acts: seq<Actor>, items: seq<Item>, multi: bool, t: nat)
    requires Run(ss, acts, items, multi) && t < |ss| && items != [] && (!multi ==> |items| == 1)
    ensures ss[t].sent == [] || (|ss[t].sent| == 1 && Answers(ss[t].sent[0], items, multi))
    ensures ss[t].sent != [] <==> |ss[t].pcs| == |items| && forall i :: 0 <= i < |items| ==> ss[t].pcs[i] == Done
  {
    RunKeepsInv(ss, acts, items, multi, t);
    DoneCountFull(ss[t].pcs);
  }

  lemma NothingToDispatch(s: State)
    requires Shaped(s) && s.items == []
    ensures forall a :: !Enabled(s, a)
  {
  }

  /** Every interleaving ends, and where it ends the reply has been sent. */
  lemma EveryBatchIsAnswered(ss: seq<State>, acts: seq<Actor>, items: seq<Item>, multi: bool)
    requires Run(ss, acts, items, multi) && (!multi ==> |items| == 1)
    ensures |acts| <= Debts(ss[0].pcs)
    ensures Shaped(ss[|acts|]) && (forall a :: !Enabled(ss[|acts|], a)) ==>
              var sent := ss[|acts|].sent;
              |sent| == 1 && if items == [] then sent[0] == BadInput else Answers(sent[0], items, multi)
  {
    var s := ss[|acts|];
    if items == [] {
      assert acts == [] || Enabled(ss[0], acts[0]);
      NothingToDispatch(ss[0]);
    } else {
      RunKeepsInv(ss, acts, items, multi, |acts|);
      if forall a :: !Enabled(s, a) {
        assert !Enabled(s, Dispatcher);
        forall i: nat | i < |items| ensures s.pcs[i] == Done {
          assert !Enabled(s, Callback(i));
        }
        DoneCountFull(s.pcs);
      }
    }
  }
}
