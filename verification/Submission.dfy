/**
 What a client gets for its subscription: the call of `check_subs` in which it is submitted, from
 the addition or the recheck that brings its account to a node.
 */
module Submission {
  import opened Common
  import opened SwarmSpace
  import opened Subscriptions
  import opened Queue
  import opened Drain
  import opened HiveState
  import opened HiveProofs
  import opened HiveRuns
  import opened Resubscription
  import opened Signatures

  // ----- what asking for an account submits -----

  /** Exactly what is submitted: neither within ten seconds of fourteen days old, nor more than a day ahead. */
  lemma AskedSubmits(n: Node, all: Subscribers, now: Time, a: Account, s: Subscription)
    requires NodeInv(n) && Asked(n.next, all, now, a)
    ensures Monitor(a, s) in Submitted(n.next, all, now) <==>
            && s in all[a].subs
            && now - (14 * 24 * 3600 - 10) * 1_000_000_000 <= s.sigTs * 1_000_000_000 <= now + 24 * 3600 * 1_000_000_000
  {
    AskedForAccount(n, all, now, a);
    ForAccountMember(Submitted(n.next, all, now), Monitor(a, s));
    EntriesMember(a, all[a].subs, now, Monitor(a, s));
  }

  /**
   A subscription that the constructor accepted at the clock reading `c` is part of every request
   that asks for its account from then until ten seconds before it is fourteen days old.
   */
  lemma AcceptedIsSubmitted(n: Node, all: Subscribers, now: Time, a: Account, s: Subscription, c: int)
    requires NodeInv(n) && Asked(n.next, all, now, a) && s in all[a].subs
    requires Acceptable(s.namespaces, s.sigTs, c)
    requires c * 1_000_000_000 <= now <= (s.sigTs + 14 * 24 * 3600 - 10) * 1_000_000_000
    ensures Monitor(a, s) in Submitted(n.next, all, now)
  {
    AskedSubmits(n, all, now, a, s);
  }

  /** `m` has the swarm deliver to `a` what the subscription `r` asks for, on a signature no older. */
  predicate Delivers(m: Monitor, a: Account, r: Subscription) {
    && m.acct == a
    && m.sub.subaccount.Some? == r.subaccount.Some?
    && (r.subaccount.Some? ==> m.sub.subaccount.value.tag == r.subaccount.value.tag)
    && m.sub.namespaces == r.namespaces && m.sub.wantData == r.wantData && m.sub.sigTs >= r.sigTs
  }

  /** An entry dated no more than a day ahead. */
  predicate Dated(s: Subscription, now: Time) {
    s.sigTs * 1_000_000_000 <= now + 24 * 3600 * 1_000_000_000
  }

  /** Asking for an account serves every subscription that its entries represent. */
  lemma RepresentedIsSubmitted(n: Node, all: Subscribers, now: Time, a: Account, r: Subscription)
    requires NodeInv(n) && Asked(n.next, all, now, a) && InMemory(all[a].subs, r)
    requires forall s :: s in all[a].subs ==> Dated(s, now)
    requires now <= (r.sigTs + 14 * 24 * 3600 - 10) * 1_000_000_000
    ensures exists m :: m in Submitted(n.next, all, now) && Delivers(m, a, r)
  {
    var i :| 0 <= i < |all[a].subs| && Represents(all[a].subs[i], r);
    var s := all[a].subs[i];
    assert s in all[a].subs && Dated(s, now);
    AskedSubmits(n, all, now, a, s);
    assert Monitor(a, s) in Submitted(n.next, all, now) && Delivers(Monitor(a, s), a, r);
  }

  // ----- when an account is asked for -----

  lemma FrontIsAsked(q: seq<Slot>, all: Subscribers, now: Time, a: Account)
    requires q != [] && Holds(q[0], a) && q[0].due <= now && a in all
    ensures Asked(q, all, now, a)
  {
    var popped := q[..Popped(q, all, now, 0)];
    assert |popped| > 0 && Holds(popped[0], a);
  }

  /** An account new to the node is asked for in the next call, rate limited or not. */
  lemma NewAccountIsAsked(n: Node, pk: SwarmPubkey, forceNow: bool, all: Subscribers, now: Time)
    requires pk.acct !in n.subs && pk.acct in all && now >= 0
    ensures Asked(AddedAccount(n, pk, forceNow).next, all, now, pk.acct)
  {
    FrontIsAsked(AddedAccount(n, pk, forceNow).next, all, now, pk.acct);
  }

  /** So is a forced account, new or not. */
  lemma ForcedAccountIsAsked(n: Node, pk: SwarmPubkey, all: Subscribers, now: Time)
    requires pk.acct in all && now >= 0
    ensures Asked(AddedAccount(n, pk, true).next, all, now, pk.acct)
  {
    FrontIsAsked(AddedAccount(n, pk, true).next, all, now, pk.acct);
  }

  /** After a new row is applied, every node of the account's home swarm asks for it in its next call. */
  lemma NewRowIsAsked(h: Hive, i: nat, k: Key, now: Time)
    requires CoreInv(h) && i < |h.pending| && h.pending[i].isNew && now >= 0
    requires k in Apply(h, i).nodes && Apply(h, i).nodes[k].swarm == Home(h.ids, h.pending[i].acct)
    ensures Asked(Apply(h, i).nodes[k].next, Apply(h, i).members, now, h.pending[i].acct)
  {
    var pk := SwarmPubkey(h.pending[i].acct, Home(h.ids, h.pending[i].acct));
    ForcedIndex(h.nodes, h.swarms, pk);
    assert k in SwarmOf(h.swarms, pk.swarm);
    ForcedAccountIsAsked(h.nodes[k], pk, Apply(h, i).members, now);
  }

  /**
   A new row, from the event loop to the swarm: once it is applied, the next call of every node of
   the account's home swarm submits it, or an entry that stands for it.
   */
  lemma NewRowIsSubmitted(h: Hive, i: nat, k: Key, now: Time)
    requires CoreInv(h) && i < |h.pending| && h.pending[i].isNew && now >= 0
    requires k in Apply(h, i).nodes && Apply(h, i).nodes[k].swarm == Home(h.ids, h.pending[i].acct)
    requires Dated(h.pending[i].sub, now) && forall s :: s in SubsOf(h.members, h.pending[i].acct) ==> Dated(s, now)
    requires now <= (h.pending[i].sub.sigTs + 14 * 24 * 3600 - 10) * 1_000_000_000
    ensures var h' := Apply(h, i);
            exists m :: m in Submitted(h'.nodes[k].next, h'.members, now) && Delivers(m, h.pending[i].acct, h.pending[i].sub)
  {
    var p, h' := h.pending[i], Apply(h, i);
    NewRowIsAsked(h, i, k, now);
    ApplyKeepsCore(h, i);
    MergeKeeps(SubsOf(h.members, p.acct), p.sub, p.sub);
    MergedAreDated(SubsOf(h.members, p.acct), p.sub, now);
    RepresentedIsSubmitted(h'.nodes[k], h'.members, now, p.acct, p.sub);
  }

  lemma {:induction false} MergedAreDated(subs: seq<Subscription>, s: Subscription, now: Time)
    requires Dated(s, now) && forall e :: e in subs ==> Dated(e, now)
    ensures forall e :: e in Merge(subs, s) ==> Dated(e, now)
  {
    if subs != [] {
      assert subs[0] in subs && forall e :: e in subs[1..] ==> e in subs;
      if !IsSame(subs[0], s) {
        MergedAreDated(subs[1..], s, now);
      }
    }
  }

  // ----- over runs -----

  /** In a run: every node of the home swarm is asked by the first unlimited call after the new row is applied. */
  lemma NewRowIsAskedSoon(t: History, m: nat, n: nat, k: Key, sw: u64, i: nat, a: Account)
    requires Run(t) && m < n < |t.es| && t.es[m] == DoApply(i) && Increasing(t.hs[m].ids)
    requires i < |t.hs[m].pending| && t.hs[m].pending[i].isNew && t.hs[m].pending[i].acct == a && sw == Home(t.hs[m].ids, a)
    requires InPlace(t, m + 1, n, k, sw)
    requires t.es[n].DoCheck? && t.es[n].k == k
    requires n == m + 1 || !RateLimited(t.hs[n].nodes[k].next, t.hs[n].members, t.es[n].time)
    ensures exists j :: m < j <= n && Asks(t.hs[j], t.es[j], k, a)
  {
    RunKeepsCore(t, m);
    assert StepAt(t, m) && StepAt(t, n);
    if n == m + 1 {
      NewRowIsAsked(t.hs[m], i, k, t.es[n].time);
      assert Asks(t.hs[n], t.es[n], k, a);
    } else {
      NewRowIsDue(t.hs[m], i, k);
      NotTooLate(t, m + 1, n, k, sw, a, SYSTEM_EPOCH);
    }
  }

  lemma NewRowIsDue(h: Hive, i: nat, k: Key)
    requires CoreInv(h) && i < |h.pending| && h.pending[i].isNew
    requires k in Apply(h, i).nodes && Apply(h, i).nodes[k].swarm == Home(h.ids, h.pending[i].acct)
    ensures h.pending[i].acct in Apply(h, i).nodes[k].subs
    ensures NotAfter(Apply(h, i).nodes[k].next, h.pending[i].acct, SYSTEM_EPOCH)
  {
    var pk := SwarmPubkey(h.pending[i].acct, Home(h.ids, h.pending[i].acct));
    ForcedIndex(h.nodes, h.swarms, pk);
    assert k in SwarmOf(h.swarms, pk.swarm);
    ForcedIsDue(h.nodes[k], pk);
  }

  lemma ForcedIsDue(n: Node, pk: SwarmPubkey)
    requires NodeInv(n)
    ensures NotAfter(AddedAccount(n, pk, true).next, pk.acct, SYSTEM_EPOCH) && pk.acct in AddedAccount(n, pk, true).subs
  {
    if pk.acct in n.subs {
      KillLiveIds(n.next, pk.acct);
      NoneLive(Kill(n.next, pk.acct), pk.acct);
    } else {
      NoneLive(n.next, pk.acct);
    }
  }

  lemma NoneLive(q: seq<Slot>, a: Account)
    requires LiveIds(q)[a] == 0
    ensures forall s :: s in q ==> !Holds(s, a)
  {
    forall s | s in q ensures !Holds(s, a) {
      if Holds(s, a) {
        HeldIsWaiting(q, s, a);
      }
    }
  }

  /** The node does not yet monitor the account in its swarm `sw`. */
  predicate NewTo(nodes: map<Key, Node>, k: Key, sw: u64, a: Account) {
    k in nodes && nodes[k].swarm == sw ==> a !in nodes[k].subs
  }

  lemma {:induction false} AddAllIsDue(n: Node, order: seq<Account>, members: Subscribers, a: Account)
    requires NotAfter(n.next, a, SYSTEM_EPOCH) && forall b :: b in order ==> b in members && members[b].pk.acct == b
    ensures NotAfter(AddAll(n, order, members).next, a, SYSTEM_EPOCH)
  {
    if order != [] {
      var front, last := order[..|order| - 1], order[|order| - 1];
      assert order == front + [last];
      AddAllIsDue(n, front, members, a);
    }
  }

  lemma RecheckIsDue(nodes: map<Key, Node>, usable: map<Key, u64>, ids: seq<u64>, order: seq<Account>,
                     members: Subscribers, k: Key, a: Account)
    requires Increasing(ids) && (k in nodes ==> NodeInv(nodes[k])) && k in usable && NewTo(nodes, k, usable[k], a)
    requires forall b :: b in order ==> b in members && members[b].pk.acct == b
    ensures NotAfter(Rechecked(BaseNodes(nodes, usable), ids, order, members)[k].next, a, SYSTEM_EPOCH)
  {
    var n := BaseNode(nodes, k, usable[k]);
    if k in nodes && nodes[k].swarm == usable[k] {
      NothingIsEjected(n, ids);
      NoneLive(n.next, a);
    }
    AddAllIsDue(RemovedStale(n, ids), order, members, a);
  }

  /** After a recheck every subscriber that is new to a node of its swarm is due there at once. */
  lemma RecheckMakesDue(h: Hive, r: Reply, order: seq<Account>, stop: Option<set<Key>>, k: Key, a: Account)
    requires CoreInv(h) && Enumerates(order, h.members) && Rechecks(h, r, stop) && a in h.members
    requires var h' := AfterReply(h, r, order, stop);
             && k in h'.nodes && a in h'.members && h'.nodes[k].swarm == h'.members[a].pk.swarm
             && NewTo(h.nodes, k, h'.nodes[k].swarm, a)
    ensures var h' := AfterReply(h, r, order, stop);
            a in h'.nodes[k].subs && NotAfter(h'.nodes[k].next, a, SYSTEM_EPOCH)
  {
    var h1, usable := WithIds(h, r), Usable(r.entries);
    RecheckSettles(h, r, order, stop, a);
    CompletedReplyIndex(h, r, order, stop);
    RecheckIsDue(h1.nodes, usable, h1.ids, order, Refreshed(h1.members, h1.ids), k, a);
  }

  /** In a run: such a subscriber is asked for by the first unlimited call after the recheck. */
  lemma RecheckedIsAskedSoon(t: History, m: nat, n: nat, k: Key, sw: u64, a: Account)
    requires Run(t) && m < n < |t.es| && t.es[m].DoReply? && Increasing(t.hs[m].ids)
    requires Rechecks(t.hs[m], t.es[m].reply, t.es[m].stop) && a in t.hs[m].members
    requires InPlace(t, m + 1, n, k, sw) && a in t.hs[m + 1].members && t.hs[m + 1].members[a].pk.swarm == sw
    requires NewTo(t.hs[m].nodes, k, sw, a)
    requires t.es[n].DoCheck? && t.es[n].k == k && !RateLimited(t.hs[n].nodes[k].next, t.hs[n].members, t.es[n].time)
    ensures exists j :: m < j <= n && Asks(t.hs[j], t.es[j], k, a)
  {
    RunKeepsCore(t, m);
    assert StepAt(t, m) && StepAt(t, n);
    RecheckMakesDue(t.hs[m], t.es[m].reply, t.es[m].order, t.es[m].stop, k, a);
    NotTooLate(t, m + 1, n, k, sw, a, SYSTEM_EPOCH);
  }

  /** No signature of the run's inputs so far is dated more than a day ahead of `now`. */
  ghost predicate AllDated(t: History, now: Time) {
    ValidInputs(t, (c: Claim) => c.sigTs * 1_000_000_000 <= now + 24 * 3600 * 1_000_000_000)
  }

  lemma HeldAreDated(t: History, n: nat, a: Account, now: Time)
    requires Run(t) && n < |t.hs| && a in t.hs[n].members && AllDated(t, now)
    ensures forall s :: s in t.hs[n].members[a].subs ==> Dated(s, now)
  {
    var valid, subs := (c: Claim) => c.sigTs * 1_000_000_000 <= now + 24 * 3600 * 1_000_000_000, t.hs[n].members[a].subs;
    RunIsAuthentic(t, valid, n);
    forall s | s in subs ensures Dated(s, now) {
      var i :| 0 <= i < |subs| && subs[i] == s;
      assert valid(ClaimOf(a, subs[i]));
    }
  }

  /**
   A database row, from its load or its commit to the swarm: whenever a node asks for the account,
   with nothing in flight and less than fourteen days (and ten seconds to spare) after the row was
   signed, what it submits delivers what the row asks for.
   */
  lemma RowIsSubmitted(t: History, n: nat, k: Key, rk: RowKey)
    requires Run(t) && n < |t.es| && rk in t.hs[n].db && t.hs[n].pending == [] && Asks(t.hs[n], t.es[n], k, rk.acct)
    requires LoadedRow(t, rk) || exists j :: 0 <= j < n && Commits(t.es[j], rk)
    requires AllDated(t, t.es[n].time)
    requires t.es[n].time <= (t.hs[n].db[rk].sigTs + 14 * 24 * 3600 - 10) * 1_000_000_000
    ensures exists m :: m in Submitted(t.hs[n].nodes[k].next, t.hs[n].members, t.es[n].time)
                        && Delivers(m, rk.acct, t.hs[n].db[rk])
  {
    RunKeepsCore(t, n);
    RowsRepresented(t, n, rk);
    HeldAreDated(t, n, rk.acct, t.es[n].time);
    RepresentedIsSubmitted(t.hs[n].nodes[k], t.hs[n].members, t.es[n].time, rk.acct, t.hs[n].db[rk]);
  }
}
