/** The mutable service node object (`class SNode`), proved against the queue laws. */
module ServiceNode {
  import opened Common
  import opened SwarmSpace
  import opened Subscriptions
  import opened Queue
  import opened Drain

  lemma {:induction false} KillAt(q: seq<Slot>, a: Account, i: nat)
    requires i <= |q| && forall j :: 0 <= j < i ==> !Holds(q[j], a)
    requires i < |q| ==> Holds(q[i], a)
    ensures Kill(q, a) == if i < |q| then q[i := q[i].(acct := None)] else q
  {
    if q != [] && i > 0 {
      KillAt(q[1..], a, i - 1);
      assert q == [q[0]] + q[1..];
    }
  }

  lemma InsertedIsSorted(q: seq<Slot>, s: Slot, p: nat)
    requires Sorted(q) && p <= |q| && (forall i :: 0 <= i < p ==> q[i].due < s.due) && (p < |q| ==> q[p].due >= s.due)
    ensures Sorted(q[..p] + [s] + q[p..])
  {
    var r := q[..p] + [s] + q[p..];
    forall i, j | 0 <= i < j < |r| ensures r[i].due <= r[j].due {
      assert r[i] == if i < p then q[i] else if i == p then s else q[i - 1];
      assert r[j] == if j < p then q[j] else if j == p then s else q[j - 1];
      assert j > p ==> q[p].due <= q[j - 1].due;
    }
  }

  lemma InsertedSlots(q: seq<Slot>, s: Slot, p: nat)
    requires p <= |q|
    ensures multiset(q[..p] + [s] + q[p..]) == multiset(q) + multiset{s}
  {
    assert q == q[..p] + q[p..];
    Swap(multiset(q[..p]), multiset{s}, multiset(q[p..]));
  }

  /** Inserting into a sorted run. */
  function InsertByDue(q: seq<Slot>, s: Slot): (r: seq<Slot>)
    requires Sorted(q)
    ensures Sorted(r) && multiset(r) == multiset(q) + multiset{s}
  {
    var p := PartitionPoint(q, s.due);
    InsertedIsSorted(q, s, p);
    InsertedSlots(q, s, p);
    q[..p] + [s] + q[p..]
  }

  /** Stands for `std::sort` by due time; callers learn only that the result is a sorted permutation. */
  method SortByDue(q: seq<Slot>) returns (r: seq<Slot>)
    ensures Sorted(r) && multiset(r) == multiset(q)
  {
    r := [];
    for i := 0 to |q|
      invariant Sorted(r) && multiset(r) == multiset(q[..i])
    {
      assert q[..i + 1] == q[..i] + [q[i]];
      r := InsertByDue(r, q[i]);
    }
    assert q[..|q|] == q;
  }

  class SNode {
    var swarm: u64
    var subs: map<Account, u64>
    var next: seq<Slot>

    ghost function State(): Node
      reads this
    {
      Node(swarm, subs, next)
    }

    constructor (sw: u64)
      ensures State() == Node(sw, map[], []) && NodeInv(State())
    {
      swarm, subs, next := sw, map[], [];
    }

    /** `add_account`. */
    method AddAccount(account: SwarmPubkey, forceNow: bool)
      modifies this
      ensures State() == AddedAccount(old(State()), account, forceNow)
    {
      if account.acct !in subs {
        subs := subs[account.acct := account.swarm];
        next := [Slot(Some(account), SYSTEM_EPOCH)] + next;
      } else if forceNow {
        var i := 0;
        while i < |next| && !Holds(next[i], account.acct)
          invariant 0 <= i <= |next| && forall j :: 0 <= j < i ==> !Holds(next[j], account.acct)
        {
          i := i + 1;
        }
        KillAt(next, account.acct, i);
        if i < |next| {
          next := next[i := next[i].(acct := None)];
        }
        next := [Slot(Some(account), SYSTEM_EPOCH)] + next;
      }
    }

    /** `reset_swarm`. */
    method ResetSwarm(sw: u64)
      modifies this
      ensures State() == Queue.ResetSwarm(old(State()), sw) && NodeInv(State())
    {
      next := [];
      subs := map[];
      swarm := sw;
    }

    /** The queue part of `on_connected`. */
    method ForceAll()
      modifies this`next
      ensures State() == Reconnected(old(State()))
    {
      var i := 0;
      while i < |next|
        invariant 0 <= i <= |next| == |old(next)|
        invariant forall j :: 0 <= j < |next| ==> next[j] == if j < i then old(next)[j].(due := SYSTEM_EPOCH) else old(next)[j]
      {
        next := next[i := next[i].(due := SYSTEM_EPOCH)];
        i := i + 1;
      }
    }

    /** `remove_stale_swarm_members`. */
    method RemoveStaleSwarmMembers(ids: seq<u64>)
      requires Increasing(ids)
      modifies this
      ensures State() == RemovedStale(old(State()), ids)
    {
      RefreshCopies(ids);
      EjectStaleCopies();
    }

    /** The loop over `next_`: it tests the queue's own copies. */
    method EjectStaleCopies()
      modifies this`subs, this`next
      ensures next == KillStale(old(next), swarm)
      ensures subs == old(subs) - StaleAccounts(old(next), swarm)
    {
      ghost var q := next;
      var i := 0;
      while i < |next|
        invariant 0 <= i <= |next| == |q|
        invariant forall j :: 0 <= j < i ==> next[j] == KillStale(q, swarm)[j]
        invariant next[i..] == q[i..]
        invariant subs == old(subs) - StaleAccounts(q[..i], swarm)
      {
        StaleAccountsNext(q, swarm, i);
        assert next[i] == next[i..][0] == q[i];
        if StaleCopy(next[i], swarm) {
          subs := subs - {next[i].acct.value.acct};
          next := next[i := next[i].(acct := None)];
        }
        assert next[i + 1..] == q[i..][1..];
        i := i + 1;
      }
      assert q[..|q|] == q;
    }

    static lemma StaleAccountsNext(q: seq<Slot>, sw: u64, i: nat)
      requires i < |q|
      ensures StaleAccounts(q[..i + 1], sw) == StaleAccounts(q[..i], sw) + if StaleCopy(q[i], sw) then {q[i].acct.value.acct} else {}
    {
      assert q[..i + 1] == q[..i] + [q[i]];
    }

    /** The loop of `update_swarm` calls over `subs_`. */
    method RefreshCopies(ids: seq<u64>)
      requires Increasing(ids)
      modifies this`subs
      ensures subs == map a | a in old(subs) :: Home(ids, a)
    {
      var todo := subs.Keys;
      while todo != {}
        invariant todo <= subs.Keys == old(subs).Keys
        invariant forall a :: a in subs && a !in todo ==> subs[a] == Home(ids, a)
        decreases todo
      {
        var a :| a in todo;
        subs := subs[a := UpdateSwarm(SwarmPubkey(a, subs[a]), ids).0.swarm];
        todo := todo - {a};
      }
    }

    /**
     `check_subs` on a connected node. `now` is one reading of the system clock; `added` are the
     entries put back with their random delays. An empty request means that nothing was sent.
     */
    method CheckSubs(all: Subscribers, now: Time) returns (request: seq<Monitor>, limited: bool, ghost added: seq<Slot>)
      requires Sorted(next)
      modifies this`next
      ensures CheckStep(old(next), all, now, added, next) && Sorted(next)
      ensures request == Submitted(old(next), all, now)
      ensures limited == RateLimited(old(next), all, now)
    {
      var nextAdded: nat;
      request, limited, nextAdded, added := DrainLoop(all, now);
      ghost var kept := old(next)[Popped(old(next), all, now, 0)..];
      assert next[..|next| - nextAdded] == kept;
      var p := PartitionPoint(next[..|next| - nextAdded], now + RESUBSCRIBE_MIN * SECOND);
      var tail := SortByDue(next[p..]);
      next := next[..p] + tail;
      ResortedByParts(kept, added, now + RESUBSCRIBE_MIN * SECOND, tail);
    }

    static lemma ResortedByParts(kept: seq<Slot>, added: seq<Slot>, bound: Time, tail: seq<Slot>)
      requires Sorted(kept) && forall i :: 0 <= i < |added| ==> added[i].due >= bound
      requires Sorted(tail) && multiset(tail) == multiset((kept + added)[PartitionPoint(kept, bound)..])
      ensures var q' := (kept + added)[..PartitionPoint(kept, bound)] + tail;
              Resorted(kept, added, bound, q') && Sorted(q')
    {
      var p := PartitionPoint(kept, bound);
      assert (kept + added)[p..] == kept[p..] + added;
      assert (kept + added)[..p] == kept[..p];
      assert (kept[..p] + tail)[p..] == tail;
      TailResortSortsAll(kept, added, bound, kept[..p] + tail);
    }

    /** The front of the queue is an entry that the call found, or one that it added and that is not due. */
    static lemma FrontOf(q: seq<Slot>, k: nat, added: seq<Slot>, pks: seq<SwarmPubkey>, now: Time)
      requires k <= |q| && Requeued(added, pks, now)
      ensures k == |q| ==> q[k..] + added == added && (added != [] ==> added[0].due > now)
      ensures k < |q| ==> q[k..] + added == [q[k]] + (q[k + 1..] + added)
    {
      assert k == |q| ==> q[k..] + added == added;
      assert k < |q| ==> q[k..] == [q[k]] + q[k + 1..];
    }

    /** The loop that pops due entries, fills the request and re-queues. */
    method DrainLoop(all: Subscribers, now: Time)
      returns (request: seq<Monitor>, limited: bool, nextAdded: nat, ghost added: seq<Slot>)
      modifies this`next
      ensures var k := Popped(old(next), all, now, 0);
              && next == old(next)[k..] + added && |added| == nextAdded
              && Finished(old(next), k, all, now, added, request, limited)
    {
      request, limited, nextAdded, added := [], false, 0, [];
      ghost var q, k := next, 0;
      assert q[..0] == [] && q[0..] == q;
      while next != []
        invariant Progress(q, k, all, now, added, request) && |request| < SUBS_REQUEST_LIMIT && !limited
        invariant next == q[k..] + added && |added| == nextAdded
        decreases |q| - k
      {
        var front := next[0];
        FrontOf(q, k, added, Survivors(q[..k], all), now);
        if front.due > now {
          break;
        }
        if !front.acct.Some? || front.acct.value.acct !in all {
          SkipFront(q, k, all, now, added, request);
          k := k + 1;
          continue;
        }
        ghost var slot: Slot;
        request, slot := ServeFront(q, k, all, now, added, request);
        nextAdded := nextAdded + 1;
        added := added + [slot];
        k := k + 1;
        if |request| >= SUBS_REQUEST_LIMIT {
          limited := true;
          break;
        }
      }
      if !limited {
        StopStep(q, k, all, now, added, request);
      }
    }

    /** Discards a deleted or unknown front entry. */
    method SkipFront(ghost q: seq<Slot>, ghost k: nat, all: Subscribers, now: Time, ghost added: seq<Slot>, ghost request: seq<Monitor>)
      requires Progress(q, k, all, now, added, request)
      requires k < |q| && next == [q[k]] + (q[k + 1..] + added) && q[k].due <= now && !Serves(q[k], all)
      modifies this`next
      ensures next == q[k + 1..] + added && Progress(q, k + 1, all, now, added, request)
    {
      next := next[1..];
      SkipStep(q, k, all, now, added, request);
    }

    /** Appends the front account's subscriptions to the request and re-queues it. */
    method ServeFront(ghost q: seq<Slot>, ghost k: nat, all: Subscribers, now: Time, ghost added: seq<Slot>, request: seq<Monitor>)
      returns (request': seq<Monitor>, slot: Slot)
      requires Progress(q, k, all, now, added, request)
      requires k < |q| && next == q[k..] + added && q[k].due <= now && Serves(q[k], all)
      modifies this`next
      ensures next == q[k + 1..] + (added + [slot])
      ensures if |request'| >= SUBS_REQUEST_LIMIT then Finished(q, k + 1, all, now, added + [slot], request', true)
              else Progress(q, k + 1, all, now, added + [slot], request')
    {
      assert next == [q[k]] + (q[k + 1..] + added);
      var acct := next[0].acct.value;
      var entries := CollectEntries(acct.acct, all[acct.acct].subs, now);
      var delay :| RESUBSCRIBE_MIN <= delay <= RESUBSCRIBE_MAX;
      slot := Slot(Some(acct), now + delay * SECOND);
      ServeStep(q, k, all, now, added, request, slot);
      request' := request + entries;
      next := next + [slot];
      next := next[1..];
    }

    /** The drain loop has stopped after `k` entries. */
    static ghost predicate Finished(
        q: seq<Slot>, k: nat, all: Subscribers, now: Time, added: seq<Slot>, request: seq<Monitor>, limited: bool) {
      && k == Popped(q, all, now, 0)
      && Requeued(added, Survivors(q[..k], all), now)
      && request == Submitted(q, all, now)
      && limited == RateLimited(q, all, now)
    }

    /** The drain loop has popped `k` entries of `q` and has not reached the limit. */
    static ghost predicate Progress(
        q: seq<Slot>, k: nat, all: Subscribers, now: Time, added: seq<Slot>, request: seq<Monitor>) {
      && k <= |q|
      && Requeued(added, Survivors(q[..k], all), now)
      && request == Request(q[..k], all, now)
      && Popped(q, all, now, 0) == k + Popped(q[k..], all, now, |request|)
    }

    static lemma Unfold(q: seq<Slot>, k: nat, all: Subscribers, now: Time)
      requires k < |q|
      ensures Request(q[..k + 1], all, now) == Request(q[..k], all, now) + SlotRequest(q[k], all, now)
      ensures Survivors(q[..k + 1], all) == Survivors(q[..k], all) + if Serves(q[k], all) then [q[k].acct.value] else []
      ensures q[k..][1..] == q[k + 1..]
    {
      assert q[..k + 1][..k] == q[..k];
    }

    static lemma SkipStep(q: seq<Slot>, k: nat, all: Subscribers, now: Time, added: seq<Slot>, request: seq<Monitor>)
      requires Progress(q, k, all, now, added, request)
      requires k < |q| && q[k].due <= now && !Serves(q[k], all)
      ensures Progress(q, k + 1, all, now, added, request)
    {
      Unfold(q, k, all, now);
    }

    static lemma StopStep(q: seq<Slot>, k: nat, all: Subscribers, now: Time, added: seq<Slot>, request: seq<Monitor>)
      requires Progress(q, k, all, now, added, request) && |request| < SUBS_REQUEST_LIMIT
      requires k == |q| || q[k].due > now
      ensures Finished(q, k, all, now, added, request, false)
    {
    }

    static lemma RequeuedNext(added: seq<Slot>, pks: seq<SwarmPubkey>, slot: Slot, pk: SwarmPubkey, now: Time)
      requires Requeued(added, pks, now) && slot.acct == Some(pk)
      requires now + RESUBSCRIBE_MIN * SECOND <= slot.due <= now + RESUBSCRIBE_MAX * SECOND
      ensures Requeued(added + [slot], pks + [pk], now)
    {
    }

    static lemma PoppedServes(q: seq<Slot>, all: Subscribers, now: Time, sent: nat)
      requires q != [] && q[0].due <= now && Serves(q[0], all)
      ensures var sent' := sent + |SlotRequest(q[0], all, now)|;
              Popped(q, all, now, sent) == if sent' >= SUBS_REQUEST_LIMIT then 1 else 1 + Popped(q[1..], all, now, sent')
    {
    }

    static lemma ServeStep(q: seq<Slot>, k: nat, all: Subscribers, now: Time, added: seq<Slot>, request: seq<Monitor>, slot: Slot)
      requires Progress(q, k, all, now, added, request)
      requires k < |q| && q[k].due <= now && Serves(q[k], all)
      requires slot.acct == q[k].acct && now + RESUBSCRIBE_MIN * SECOND <= slot.due <= now + RESUBSCRIBE_MAX * SECOND
      ensures var request' := request + SlotRequest(q[k], all, now);
              if |request'| >= SUBS_REQUEST_LIMIT then Finished(q, k + 1, all, now, added + [slot], request', true)
              else Progress(q, k + 1, all, now, added + [slot], request')
    {
      Unfold(q, k, all, now);
      RequeuedNext(added, Survivors(q[..k], all), slot, q[k].acct.value, now);
      PoppedServes(q[k..], all, now, |request|);
    }

    /** The inner loop over an account's subscriptions. */
    static method CollectEntries(a: Account, subs: seq<Subscription>, now: Time) returns (entries: seq<Monitor>)
      ensures entries == Entries(a, subs, now)
    {
      entries := [];
      for i := 0 to |subs|
        invariant entries == Entries(a, subs[..i], now)
      {
        assert subs[..i + 1][..i] == subs[..i];
        if InWindow(subs[i], now) {
          entries := entries + [Monitor(a, subs[i])];
        }
      }
      assert subs[..|subs|] == subs;
    }
  }
}
