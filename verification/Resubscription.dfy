/**
 How often a node is asked to monitor an account: between 45 and 55 minutes after the last time,
 in every run. A queue entry is due in that window when it is made, and nothing but a forced
 addition or a reconnection brings it forward.
 */
module Resubscription {
  import opened Common
  import opened SwarmSpace
  import opened Queue
  import opened Drain
  import opened HiveState
  import opened HiveProofs
  import opened HiveRuns

  /** 45 and 55 minutes. */
  const EARLIEST: int := 45 * 60 * 1_000_000_000
  const LATEST: int := 55 * 60 * 1_000_000_000

  ghost predicate NotBefore(q: seq<Slot>, a: Account, time: Time) {
    forall s :: s in q && Holds(s, a) ==> s.due >= time
  }

  ghost predicate NotAfter(q: seq<Slot>, a: Account, time: Time) {
    forall s :: s in q && Holds(s, a) ==> s.due <= time
  }

  /** The account's live entries in `q'` were in `q` already, or, if `urgent`, are due at once. */
  ghost predicate Carried(q: seq<Slot>, q': seq<Slot>, a: Account, urgent: bool) {
    forall s :: s in q' && Holds(s, a) ==> s in q || (urgent && s.due == SYSTEM_EPOCH)
  }

  // ----- one call of check_subs -----

  /** The call pops a live entry of an account that the hive knows. */
  ghost predicate Asked(q: seq<Slot>, all: Subscribers, now: Time, a: Account) {
    a in all && Waits(q[..Popped(q, all, now, 0)], a)
  }

  lemma OneEntryAtMost(n: Node, p: nat, a: Account)
    requires NodeInv(n) && p <= |n.next|
    ensures LiveIds(n.next[..p])[a] + LiveIds(n.next[p..])[a] <= 1
  {
    assert n.next == n.next[..p] + n.next[p..];
    LiveIdsConcat(n.next[..p], n.next[p..]);
    assert LiveIds(n.next)[a] <= 1;
  }

  /** An account is asked for with all of its in-window subscriptions, or not at all. */
  lemma AskedForAccount(n: Node, all: Subscribers, now: Time, a: Account)
    requires NodeInv(n)
    ensures ForAccount(Submitted(n.next, all, now), a) ==
            if Asked(n.next, all, now, a) then Entries(a, all[a].subs, now) else []
  {
    var p := Popped(n.next, all, now, 0);
    OneEntryAtMost(n, p, a);
    RequestForAccount(n.next[..p], all, now, a);
  }

  lemma AskedIsDue(q: seq<Slot>, all: Subscribers, now: Time, a: Account, time: Time)
    requires Asked(q, all, now, a) && NotBefore(q, a, time)
    ensures time <= now
  {
    PoppedAreDue(q, all, now, 0);
    var popped := q[..Popped(q, all, now, 0)];
    var i :| 0 <= i < |popped| && Holds(popped[i], a);
    assert q[i] in q && q[i] == popped[i];
  }

  lemma UnlimitedAsks(q: seq<Slot>, all: Subscribers, now: Time, a: Account)
    requires Sorted(q) && !RateLimited(q, all, now)
    requires a in all && Waits(q, a) && NotAfter(q, a, now)
    ensures Asked(q, all, now, a)
  {
    PoppedStops(q, all, now, 0);
    var i :| 0 <= i < |q| && Holds(q[i], a);
    assert q[i] in q;
    assert IsDue(q, now, a);
    DueIsWaiting(q, now, a);
  }

  lemma RequeuedInTime(added: seq<Slot>, pks: seq<SwarmPubkey>, now: Time, s: Slot)
    requires Requeued(added, pks, now) && s in added
    ensures now + EARLIEST <= s.due <= now + LATEST
  {
  }

  lemma EntryOfCheck(q: seq<Slot>, all: Subscribers, now: Time, added: seq<Slot>, q': seq<Slot>, s: Slot)
    requires Sorted(q) && CheckStep(q, all, now, added, q') && s in q'
    ensures s in q[Popped(q, all, now, 0)..] || s in added
  {
    var kept := q[Popped(q, all, now, 0)..];
    TailResortSortsAll(kept, added, now + RESUBSCRIBE_MIN * SECOND, q');
    assert s in multiset(q') && s in kept + added;
  }

  lemma HeldIsWaiting(q: seq<Slot>, s: Slot, a: Account)
    requires s in q && Holds(s, a)
    ensures Waits(q, a) && LiveIds(q)[a] > 0
  {
    var i :| 0 <= i < |q| && q[i] == s;
    WaitsIsLive(q, a);
  }

  /** An account that was asked for comes back between 45 and 55 minutes later. */
  lemma AskedReturns(n: Node, all: Subscribers, now: Time, added: seq<Slot>, q': seq<Slot>, a: Account)
    requires NodeInv(n) && CheckStep(n.next, all, now, added, q') && Asked(n.next, all, now, a)
    ensures NotBefore(q', a, now + EARLIEST) && NotAfter(q', a, now + LATEST)
  {
    var p := Popped(n.next, all, now, 0);
    OneEntryAtMost(n, p, a);
    WaitsIsLive(n.next[..p], a);
    forall s | s in q' && Holds(s, a) ensures now + EARLIEST <= s.due <= now + LATEST {
      EntryOfCheck(n.next, all, now, added, q', s);
      if s in n.next[p..] {
        HeldIsWaiting(n.next[p..], s, a);
      } else {
        RequeuedInTime(added, Survivors(n.next[..p], all), now, s);
      }
    }
  }

  /** Whoever comes back was popped. */
  lemma ReturnedWasPopped(popped: seq<Slot>, all: Subscribers, now: Time, added: seq<Slot>, s: Slot, a: Account)
    requires Requeued(added, Survivors(popped, all), now) && s in added && Holds(s, a)
    ensures Waits(popped, a)
  {
    SurvivorsCameFrom(popped, all);
    var i :| 0 <= i < |added| && added[i] == s;
    assert Survivors(popped, all)[i] in Survivors(popped, all);
    var r :| r in popped && r.acct == s.acct;
    HeldIsWaiting(popped, r, a);
  }

  /** The entries of an account that was not asked for are left alone. */
  lemma UnaskedIsCarried(q: seq<Slot>, all: Subscribers, now: Time, added: seq<Slot>, q': seq<Slot>, a: Account)
    requires Sorted(q) && CheckStep(q, all, now, added, q') && a in all && !Asked(q, all, now, a)
    ensures Carried(q, q', a, false)
  {
    var p := Popped(q, all, now, 0);
    forall s | s in q' && Holds(s, a) ensures s in q {
      EntryOfCheck(q, all, now, added, q', s);
      if s !in q[p..] {
        ReturnedWasPopped(q[..p], all, now, added, s, a);
      }
    }
  }

  // ----- the other operations -----

  lemma KilledIsCarried(q: seq<Slot>, b: Account, a: Account)
    ensures Carried(q, Kill(q, b), a, false)
  {
    var r := Kill(q, b);
    forall s | s in r && Holds(s, a) ensures s in q {
      var i :| 0 <= i < |r| && r[i] == s;
      assert q[i] in q;
    }
  }

  lemma AddedIsCarried(n: Node, pk: SwarmPubkey, forceNow: bool, a: Account)
    requires a in n.subs
    ensures Carried(n.next, AddedAccount(n, pk, forceNow).next, a, forceNow && pk.acct == a)
  {
    KilledIsCarried(n.next, pk.acct, a);
  }

  lemma {:induction false} AddAllIsCarried(n: Node, order: seq<Account>, members: Subscribers, a: Account)
    requires a in n.subs && forall b :: b in order ==> b in members && members[b].pk.acct == b
    ensures Carried(n.next, AddAll(n, order, members).next, a, false)
  {
    if order != [] {
      var front, last := order[..|order| - 1], order[|order| - 1];
      assert order == front + [last];
      AddAllIsCarried(n, front, members, a);
      AddAllKeys(n, front, members);
      AddedIsCarried(AddAll(n, front, members), members[last].pk, false, a);
    }
  }

  /** As long as the node stays in its swarm, its entries for the account are carried over. */
  ghost predicate KeepsTimes(nodes: map<Key, Node>, nodes': map<Key, Node>, k: Key, a: Account, urgent: bool) {
    k in nodes && a in nodes[k].subs && k in nodes' && nodes'[k].swarm == nodes[k].swarm ==>
      Carried(nodes[k].next, nodes'[k].next, a, urgent)
  }

  lemma RecheckKeepsTimes(nodes: map<Key, Node>, usable: map<Key, u64>, ids: seq<u64>, order: seq<Account>,
                          members: Subscribers, k: Key, a: Account)
    requires Increasing(ids) && (k in nodes ==> NodeInv(nodes[k]))
    requires forall b :: b in order ==> b in members && members[b].pk.acct == b
    ensures KeepsTimes(nodes, Rechecked(BaseNodes(nodes, usable), ids, order, members), k, a, false)
  {
    if k in nodes && k in usable && a in nodes[k].subs {
      var n := BaseNode(nodes, k, usable[k]);
      AddAllKeys(RemovedStale(n, ids), order, members);
      if n == nodes[k] {
        NothingIsEjected(n, ids);
        AddAllIsCarried(RemovedStale(n, ids), order, members, a);
      }
    }
  }

  lemma WithNodesKeepsTimes(h: Hive, idsChanged: bool, usable: map<Key, u64>, order: seq<Account>, k: Key, a: Account)
    requires Increasing(h.ids) && NodesInv(h.nodes, h.members) && Keyed(h.members) && Enumerates(order, h.members)
    ensures KeepsTimes(h.nodes, WithNodes(h, idsChanged, usable, order).nodes, k, a, false)
  {
    RecheckKeepsTimes(h.nodes, usable, h.ids, order, Refreshed(h.members, h.ids), k, a);
  }

  lemma WithSomeKeepsTimes(h: Hive, usable: map<Key, u64>, placed: set<Key>, k: Key, a: Account)
    ensures KeepsTimes(h.nodes, WithSome(h, usable, placed).nodes, k, a, false)
  {
  }

  lemma ReplyKeepsTimes(h: Hive, r: Reply, order: seq<Account>, stop: Option<set<Key>>, k: Key, a: Account)
    requires CoreInv(h) && Enumerates(order, h.members)
    ensures KeepsTimes(h.nodes, AfterReply(h, r, order, stop).nodes, k, a, false)
  {
    if Passes(h, r) && AllReadable(r.entries) {
      var h1, usable := WithIds(h, r), Usable(r.entries);
      if stop.Some? {
        WithSomeKeepsTimes(h1, usable, stop.value, k, a);
      } else {
        WithNodesKeepsTimes(h1, h1.ids != h.ids, usable, order, k, a);
      }
    }
  }

  lemma ApplyKeepsTimes(h: Hive, i: nat, k: Key, a: Account)
    requires Increasing(h.ids) && i < |h.pending|
    ensures KeepsTimes(h.nodes, Apply(h, i).nodes, k, a, h.pending[i].isNew && h.pending[i].acct == a)
  {
    if k in h.nodes && a in h.nodes[k].subs {
      AddedIsCarried(h.nodes[k], SwarmPubkey(h.pending[i].acct, Home(h.ids, h.pending[i].acct)), true, a);
    }
  }

  lemma CheckKeepsTimes(nodes: map<Key, Node>, all: Subscribers, j: Key, now: Time, added: seq<Slot>, q': seq<Slot>, k: Key, a: Account)
    requires j in nodes && Sorted(nodes[j].next) && CheckStep(nodes[j].next, all, now, added, q')
    requires nodes[j].subs.Keys <= all.Keys && !(j == k && Asked(nodes[j].next, all, now, a))
    ensures KeepsTimes(nodes, nodes[j := nodes[j].(next := q')], k, a, false)
  {
    if j == k && a in nodes[j].subs {
      UnaskedIsCarried(nodes[j].next, all, now, added, q', a);
    }
  }

  lemma ReconnectKeepsTimes(nodes: map<Key, Node>, j: Key, k: Key, a: Account)
    requires j in nodes
    ensures KeepsTimes(nodes, nodes[j := Reconnected(nodes[j])], k, a, j == k)
  {
  }

  // ----- runs -----

  /** The event asks the node `k` to monitor the account. */
  ghost predicate Asks(h: Hive, e: Event, k: Key, a: Account) {
    e.DoCheck? && e.k == k && k in h.nodes && Asked(h.nodes[k].next, h.members, e.time, a)
  }

  /** The event makes the account due at once: the node reconnects, or a new row of the account is applied. */
  predicate Urges(h: Hive, e: Event, k: Key, a: Account) {
    e == DoReconnect(k) || (e.DoApply? && e.i < |h.pending| && h.pending[e.i].isNew && h.pending[e.i].acct == a)
  }

  lemma StepKeepsTimes(h: Hive, e: Event, k: Key, a: Account)
    requires CoreInv(h) && Enabled(h, e) && !Asks(h, e, k, a)
    ensures KeepsTimes(h.nodes, Step(h, e).nodes, k, a, Urges(h, e, k, a))
  {
    match e
    case DoApply(i) => ApplyKeepsTimes(h, i, k, a);
    case DoReply(r, order, stop) => ReplyKeepsTimes(h, r, order, stop, k, a);
    case DoCheck(j, time, added, q') => CheckKeepsTimes(h.nodes, h.members, j, time, added, q', k, a);
    case DoReconnect(j) => ReconnectKeepsTimes(h.nodes, j, k, a);
    case _ =>
  }

  /** The node stays in one swarm from the state `m` to the state `n`. */
  ghost predicate InPlace(t: History, m: nat, n: nat, k: Key, sw: u64)
    requires m <= n < |t.hs|
  {
    forall i :: m <= i <= n ==> k in t.hs[i].nodes && t.hs[i].nodes[k].swarm == sw
  }

  lemma StepAtKeepsTimes(t: History, n: nat, k: Key, a: Account, sw: u64)
    requires Run(t) && n < |t.es| && InPlace(t, n, n + 1, k, sw)
    requires a in t.hs[n].nodes[k].subs && !Asks(t.hs[n], t.es[n], k, a)
    ensures a in t.hs[n + 1].nodes[k].subs
    ensures Carried(t.hs[n].nodes[k].next, t.hs[n + 1].nodes[k].next, a, Urges(t.hs[n], t.es[n], k, a))
  {
    RunKeepsCore(t, n);
    assert StepAt(t, n);
    StepKeepsTimes(t.hs[n], t.es[n], k, a);
    StepAtLetsNobodyGo(t, n, k);
  }

  /** An account asked for is one of the node's, and comes back in the window. */
  lemma AskingSetsTimes(t: History, n: nat, k: Key, a: Account)
    requires Run(t) && n < |t.es| && Asks(t.hs[n], t.es[n], k, a)
    ensures k in t.hs[n + 1].nodes && a in t.hs[n + 1].nodes[k].subs
    ensures NotBefore(t.hs[n + 1].nodes[k].next, a, t.es[n].time + EARLIEST)
    ensures NotAfter(t.hs[n + 1].nodes[k].next, a, t.es[n].time + LATEST)
    ensures t.es[n].time >= SYSTEM_EPOCH
  {
    RunKeepsCore(t, n);
    assert StepAt(t, n);
    var node, all, e := t.hs[n].nodes[k], t.hs[n].members, t.es[n];
    AskedReturns(node, all, e.time, e.added, e.q', a);
    AskedIsMonitored(node, all, e.time, a);
  }

  lemma AskedIsMonitored(n: Node, all: Subscribers, now: Time, a: Account)
    requires NodeInv(n) && Asked(n.next, all, now, a)
    ensures a in n.subs
  {
    var popped := n.next[..Popped(n.next, all, now, 0)];
    var i :| 0 <= i < |popped| && Holds(popped[i], a);
    HeldIsWaiting(n.next, n.next[i], a);
    assert a in multiset(n.subs.Keys);
  }

  lemma AskingWasDue(t: History, n: nat, k: Key, a: Account, time: Time)
    requires Run(t) && n < |t.es| && Asks(t.hs[n], t.es[n], k, a) && NotBefore(t.hs[n].nodes[k].next, a, time)
    ensures time <= t.es[n].time
  {
    AskedIsDue(t.hs[n].nodes[k].next, t.hs[n].members, t.es[n].time, a, time);
  }

  /** Nothing between the events `m` and `n` makes the account due at once. */
  ghost predicate Unhurried(t: History, m: nat, n: nat, k: Key, a: Account)
    requires m <= n <= |t.es| < |t.hs|
  {
    forall i :: m < i < n ==> !Urges(t.hs[i], t.es[i], k, a)
  }

  lemma {:induction false} LateUntil(t: History, m: nat, n: nat, k: Key, sw: u64, a: Account)
    requires Run(t) && m < n < |t.hs| && InPlace(t, m, n, k, sw) && Asks(t.hs[m], t.es[m], k, a) && Unhurried(t, m, n, k, a)
    ensures a in t.hs[n].nodes[k].subs && NotBefore(t.hs[n].nodes[k].next, a, t.es[m].time + EARLIEST)
  {
    if n == m + 1 {
      AskingSetsTimes(t, m, k, a);
    } else {
      LateUntil(t, m, n - 1, k, sw, a);
      if Asks(t.hs[n - 1], t.es[n - 1], k, a) {
        AskingWasDue(t, n - 1, k, a, t.es[m].time + EARLIEST);
        AskingSetsTimes(t, n - 1, k, a);
      } else {
        StepAtKeepsTimes(t, n - 1, k, a, sw);
      }
    }
  }

  /**
   Not too soon: a node that is asked for an account twice is asked 45 minutes apart or more, unless
   in between it moved, it reconnected, or a new row of the account was applied. The clock need not
   be monotone.
   */
  lemma NotTooSoon(t: History, m: nat, n: nat, k: Key, sw: u64, a: Account)
    requires Run(t) && m < n < |t.es| && InPlace(t, m, n, k, sw) && Unhurried(t, m, n, k, a)
    requires Asks(t.hs[m], t.es[m], k, a) && Asks(t.hs[n], t.es[n], k, a)
    ensures t.es[n].time >= t.es[m].time + EARLIEST
  {
    LateUntil(t, m, n, k, sw, a);
    AskingWasDue(t, n, k, a, t.es[m].time + EARLIEST);
  }

  lemma {:induction false} SoonUntil(t: History, m: nat, n: nat, k: Key, sw: u64, a: Account, time: Time)
    requires Run(t) && m <= n < |t.hs| && InPlace(t, m, n, k, sw) && time >= SYSTEM_EPOCH
    requires a in t.hs[m].nodes[k].subs && NotAfter(t.hs[m].nodes[k].next, a, time)
    requires forall i :: m <= i < n ==> !Asks(t.hs[i], t.es[i], k, a)
    ensures a in t.hs[n].nodes[k].subs && NotAfter(t.hs[n].nodes[k].next, a, time)
  {
    if m < n {
      SoonUntil(t, m, n - 1, k, sw, a, time);
      StepAtKeepsTimes(t, n - 1, k, a, sw);
    }
  }

  lemma DueIsAsked(t: History, n: nat, k: Key, a: Account)
    requires Run(t) && n < |t.es| && k in t.hs[n].nodes && a in t.hs[n].nodes[k].subs
    requires t.es[n].DoCheck? && t.es[n].k == k && NotAfter(t.hs[n].nodes[k].next, a, t.es[n].time)
    requires !RateLimited(t.hs[n].nodes[k].next, t.hs[n].members, t.es[n].time)
    ensures Asks(t.hs[n], t.es[n], k, a)
  {
    RunKeepsCore(t, n);
    var node := t.hs[n].nodes[k];
    assert a in LiveIds(node.next);
    WaitsIsLive(node.next, a);
    UnlimitedAsks(node.next, t.hs[n].members, t.es[n].time, a);
  }

  /**
   Not too late: when the node's entries for an account are due by `time`, it is asked for the
   account at the latest by the first unlimited call at or after `time`, reconnections, additions and
   replies in between notwithstanding.
   */
  lemma NotTooLate(t: History, m: nat, n: nat, k: Key, sw: u64, a: Account, time: Time)
    requires Run(t) && m <= n < |t.es| && InPlace(t, m, n, k, sw) && time >= SYSTEM_EPOCH
    requires a in t.hs[m].nodes[k].subs && NotAfter(t.hs[m].nodes[k].next, a, time)
    requires t.es[n].DoCheck? && t.es[n].k == k && t.es[n].time >= time
    requires !RateLimited(t.hs[n].nodes[k].next, t.hs[n].members, t.es[n].time)
    ensures exists j :: m <= j <= n && Asks(t.hs[j], t.es[j], k, a)
  {
    if forall j :: m <= j < n ==> !Asks(t.hs[j], t.es[j], k, a) {
      SoonUntil(t, m, n, k, sw, a, time);
      DueIsAsked(t, n, k, a);
    }
  }

  /** Again within 55 minutes: after each asking, the first unlimited call 55 minutes later comes no sooner than the next one. */
  lemma AskedAgain(t: History, m: nat, n: nat, k: Key, sw: u64, a: Account)
    requires Run(t) && m < n < |t.es| && InPlace(t, m, n, k, sw) && Asks(t.hs[m], t.es[m], k, a)
    requires t.es[n].DoCheck? && t.es[n].k == k && t.es[n].time >= t.es[m].time + LATEST
    requires !RateLimited(t.hs[n].nodes[k].next, t.hs[n].members, t.es[n].time)
    ensures exists j :: m < j <= n && Asks(t.hs[j], t.es[j], k, a)
  {
    AskingSetsTimes(t, m, k, a);
    NotTooLate(t, m + 1, n, k, sw, a, t.es[m].time + LATEST);
  }

  /** What asking means: the request holds the account's in-window subscriptions, and no other call's does. */
  lemma AskingSubmits(t: History, n: nat, k: Key, a: Account)
    requires Run(t) && n < |t.es| && t.es[n].DoCheck? && t.es[n].k == k && k in t.hs[n].nodes
    ensures ForAccount(Submitted(t.hs[n].nodes[k].next, t.hs[n].members, t.es[n].time), a) ==
            if Asks(t.hs[n], t.es[n], k, a) then Entries(a, t.hs[n].members[a].subs, t.es[n].time) else []
  {
    RunKeepsCore(t, n);
    AskedForAccount(t.hs[n].nodes[k], t.hs[n].members, t.es[n].time, a);
  }
}
