/**
 Whole runs of the hive: any completed startup load, then any events in any order, replies of every
 kind included. What holds in each state of each run.
 */
module HiveRuns {
  import opened Common
  import opened SwarmSpace
  import opened Subscriptions
  import opened Queue
  import opened Drain
  import opened HiveState
  import opened HiveProofs

  datatype Event =
    | DoCommit(rk: RowKey, sub: Subscription)
    | DoApply(i: nat)
    | DoRemove(rk: RowKey)
    | DoDrop(service: string, svcids: seq<string>)
    | DoCleanup(now: int)
    | DoReply(reply: Reply, order: seq<Account>, stop: Option<set<Key>>)
    | DoCheck(k: Key, time: Time, added: seq<Slot>, q': seq<Slot>)
    | DoReconnect(k: Key)

  /** What the environment may do next; `order` lists the subscribers, each once. */
  ghost predicate Enabled(h: Hive, e: Event) {
    match e
    case DoApply(i) => i < |h.pending|
    case DoReply(r, order, stop) => Enumerates(order, h.members)
    case DoCheck(k, time, added, q') =>
      k in h.nodes && time >= SYSTEM_EPOCH && CheckStep(h.nodes[k].next, h.members, time, added, q')
    case DoReconnect(k) => k in h.nodes
    case _ => true
  }

  function Step(h: Hive, e: Event): Hive
    requires Increasing(h.ids) && Enabled(h, e)
  {
    match e
    case DoCommit(rk, sub) => Commit(h, rk, sub)
    case DoApply(i) => Apply(h, i)
    case DoRemove(rk) => Remove(h, rk)
    case DoDrop(service, svcids) => Drop(h, service, svcids)
    case DoCleanup(now) => Cleanup(h, now)
    case DoReply(r, order, stop) => AfterReply(h, r, order, stop)
    case DoCheck(k, time, added, q') => h.(nodes := h.nodes[k := h.nodes[k].(next := q')])
    case DoReconnect(k) => h.(nodes := h.nodes[k := Reconnected(h.nodes[k])])
  }

  ghost predicate Leads(h: Hive, e: Event, h': Hive) {
    Increasing(h.ids) && Enabled(h, e) && h' == Step(h, e)
  }

  // ----- one step -----

  lemma StepKeepsCore(h: Hive, e: Event)
    requires CoreInv(h) && Enabled(h, e)
    ensures CoreInv(Step(h, e))
  {
    match e
    case DoApply(i) => ApplyKeepsCore(h, i);
    case DoReply(r, order, stop) => ReplyKeepsCore(h, r, order, stop);
    case DoCheck(k, time, added, q') =>
      CheckKeepsInv(h.nodes[k], h.members, time, added, q');
      NodeChangeKeepsCore(h, k, h.nodes[k].(next := q'));
    case DoReconnect(k) =>
      ReconnectKeepsInv(h.nodes[k]);
      NodeChangeKeepsCore(h, k, Reconnected(h.nodes[k]));
    case _ =>
  }

  /** An event keeps an account's invariant if and only if it is not a reply that harms the account. */
  lemma StepKeepsAccountIff(h: Hive, e: Event, a: Account)
    requires CoreInv(h) && Enabled(h, e) && AccountInv(h, a)
    ensures AccountInv(Step(h, e), a) <==> (e.DoReply? ==> Harmless(h, e.reply, e.stop, a))
  {
    match e
    case DoCommit(rk, sub) => CommitKeepsAccount(h, rk, sub, a);
    case DoApply(i) => ApplyKeepsAccount(h, i, a);
    case DoRemove(rk) => DeleteKeeps(h, Remove(h, rk).db, a, rk);
    case DoDrop(service, svcids) => DeleteKeeps(h, Drop(h, service, svcids).db, a, RowKey(a, service, ""));
    case DoCleanup(now) => DeleteKeeps(h, Cleanup(h, now).db, a, RowKey(a, "", ""));
    case DoReply(r, order, stop) => ReplyKeepsAccountIffHarmless(h, r, order, stop, a);
    case DoCheck(k, time, added, q') => NodeChangeKeepsAccount(h, k, h.nodes[k].(next := q'), a);
    case DoReconnect(k) => NodeChangeKeepsAccount(h, k, Reconnected(h.nodes[k]), a);
  }

  /** An event keeps a settled account settled if and only if it is not a reply that fails to spare it. */
  lemma StepKeepsSettledIff(h: Hive, e: Event, a: Account)
    requires CoreInv(h) && Enabled(h, e) && Settled(h, a)
    ensures Settled(Step(h, e), a) <==> (e.DoReply? ==> Spares(h, e.reply, e.stop, a))
  {
    match e
    case DoApply(i) => ApplySettles(h, i, a);
    case DoReply(r, order, stop) => ReplyKeepsSettledIffSpared(h, r, order, stop, a);
    case DoCheck(k, time, added, q') => NodeChangeKeepsAccount(h, k, h.nodes[k].(next := q'), a);
    case DoReconnect(k) => NodeChangeKeepsAccount(h, k, Reconnected(h.nodes[k]), a);
    case _ =>
  }

  /** What it takes for an event to leave the account settled. */
  ghost predicate Settles(h: Hive, e: Event, a: Account)
    requires Increasing(h.ids) && Enabled(h, e)
  {
    match e
    case DoApply(i) => Settled(h, a) || Introduced(h, i, a)
    case DoReply(r, order, stop) => a in h.members && (Rechecks(h, r, stop) || Suits(h, r, stop, a))
    case _ => Settled(h, a)
  }

  lemma ReplySettlesMembersOnly(h: Hive, r: Reply, order: seq<Account>, stop: Option<set<Key>>, a: Account)
    requires Increasing(h.ids) && Keyed(h.members) && Enumerates(order, h.members)
    ensures Settled(AfterReply(h, r, order, stop), a) <==> a in h.members && (Rechecks(h, r, stop) || Suits(h, r, stop, a))
  {
    if a in h.members {
      ReplySettlesIff(h, r, order, stop, a);
    } else {
      ReplyKeepsSubscriptions(h, r, order, stop);
    }
  }

  /**
   The whole truth about settling: for any account, in any state, which events leave it settled. An
   unsettled subscriber is mended by a recheck, by a new row of its own if its swarm is right, and by
   a reply after which its swarm is right and every node left in it happens to monitor it.
   */
  lemma StepSettlesIff(h: Hive, e: Event, a: Account)
    requires CoreInv(h) && Enabled(h, e)
    ensures Settled(Step(h, e), a) <==> Settles(h, e, a)
  {
    match e
    case DoApply(i) => ApplySettlesIff(h, i, a);
    case DoReply(r, order, stop) => ReplySettlesMembersOnly(h, r, order, stop, a);
    case DoCheck(k, time, added, q') => NodeChangeKeepsAccount(h, k, h.nodes[k].(next := q'), a);
    case DoReconnect(k) => NodeChangeKeepsAccount(h, k, Reconnected(h.nodes[k]), a);
    case _ =>
  }

  /**
   The table after each event, row by row: a commit writes its row, a removal deletes its row, a
   dropped registration the rows of its service and the given ids, a cleanup the rows that are
   fourteen days old; nothing else touches it.
   */
  lemma TableAfter(h: Hive, e: Event, rk: RowKey)
    requires Increasing(h.ids) && Enabled(h, e)
    ensures rk in Step(h, e).db <==>
            match e {
              case DoCommit(r, sub) => rk == r || rk in h.db
              case DoRemove(r) => rk in h.db && rk != r
              case DoDrop(service, svcids) => rk in h.db && (rk.service != service || forall i :: 0 <= i < |svcids| ==> rk.svcid != svcids[i])
              case DoCleanup(now) => rk in h.db && h.db[rk].sigTs > now - 14 * 24 * 3600
              case _ => rk in h.db
            }
    ensures rk in Step(h, e).db ==> Step(h, e).db[rk] == if Commits(e, rk) then e.sub else h.db[rk]
  {
    if e.DoReply? {
      ReplyKeepsSubscriptions(h, e.reply, e.order, e.stop);
    }
  }

  predicate Commits(e: Event, rk: RowKey) {
    e.DoCommit? && e.rk == rk
  }

  /** A row in the database was just committed, or it was there before with the same contents. */
  lemma StepHoldsRow(h: Hive, e: Event, rk: RowKey)
    requires Increasing(h.ids) && Enabled(h, e) && rk in Step(h, e).db
    requires !Commits(e, rk) && rk in h.db ==> RowHeld(h, rk)
    ensures RowHeld(Step(h, e), rk) && (Commits(e, rk) || rk in h.db)
  {
    match e
    case DoCommit(r, sub) => CommitHoldsRow(h, r, sub, rk);
    case DoApply(i) => ApplyHoldsRow(h, i, rk);
    case DoReply(r, order, stop) => ReplyKeepsSubscriptions(h, r, order, stop);
    case _ =>
  }

  ghost predicate Frugal(h: Hive) {
    forall a :: a in h.members ==> NoTwins(h.members[a].subs)
  }

  lemma ApplyKeepsFrugal(h: Hive, i: nat)
    requires Increasing(h.ids) && i < |h.pending| && Frugal(h)
    ensures Frugal(Apply(h, i))
  {
    MergeKeepsNoTwins(SubsOf(h.members, h.pending[i].acct), h.pending[i].sub);
  }

  lemma SameSubscriptionsFrugal(h: Hive, h': Hive)
    requires SameSubscriptions(h, h') && Frugal(h)
    ensures Frugal(h')
  {
  }

  lemma StepKeepsFrugal(h: Hive, e: Event)
    requires Increasing(h.ids) && Enabled(h, e) && Frugal(h)
    ensures Frugal(Step(h, e))
  {
    match e
    case DoApply(i) => ApplyKeepsFrugal(h, i);
    case DoReply(r, order, stop) =>
      ReplyKeepsSubscriptions(h, r, order, stop);
      SameSubscriptionsFrugal(h, Step(h, e));
    case _ =>
  }

  // ----- runs -----

  /** The rows loaded at startup with the loader's clock readings, the states, and the events between them. */
  datatype History = History(rows: seq<(RowKey, Subscription)>, clocks: seq<int>, hs: seq<Hive>, es: seq<Event>)

  ghost predicate StepAt(t: History, i: nat) {
    i < |t.es| && i + 1 < |t.hs| && Leads(t.hs[i], t.es[i], t.hs[i + 1])
  }

  /** A completed load, whatever it skipped, and then any enabled events. */
  ghost predicate Run(t: History) {
    && |t.rows| == |t.clocks| && |t.hs| == |t.es| + 1
    && Lists(t.rows, t.hs[0].db) && Load(t.rows, t.clocks).Some?
    && t.hs[0] == Started(t.hs[0].db, Load(t.rows, t.clocks).value)
    && forall i: nat :: i < |t.es| ==> StepAt(t, i)
  }

  lemma {:induction false} RunKeepsCore(t: History, n: nat)
    requires Run(t) && n < |t.hs|
    ensures CoreInv(t.hs[n])
  {
    if n == 0 {
      StartKeepsCore(t.hs[0].db, t.rows, t.clocks);
    } else {
      RunKeepsCore(t, n - 1);
      assert StepAt(t, n - 1);
      StepKeepsCore(t.hs[n - 1], t.es[n - 1]);
    }
  }

  /** No reply between the states `m` and `n` harms the account. */
  ghost predicate HarmlessBetween(t: History, m: nat, n: nat, a: Account)
    requires m <= n <= |t.es| < |t.hs|
  {
    forall i :: m <= i < n && t.es[i].DoReply? && Increasing(t.hs[i].ids) ==> Harmless(t.hs[i], t.es[i].reply, t.es[i].stop, a)
  }

  /** Every reply between the states `m` and `n` spares the account. */
  ghost predicate SparedBetween(t: History, m: nat, n: nat, a: Account)
    requires m <= n <= |t.es| < |t.hs|
  {
    forall i :: m <= i < n && t.es[i].DoReply? && Increasing(t.hs[i].ids) ==> Spares(t.hs[i], t.es[i].reply, t.es[i].stop, a)
  }

  lemma StepAtKeepsAccount(t: History, n: nat, a: Account)
    requires Run(t) && n < |t.es| && AccountInv(t.hs[n], a)
    requires t.es[n].DoReply? ==> Harmless(t.hs[n], t.es[n].reply, t.es[n].stop, a)
    ensures AccountInv(t.hs[n + 1], a)
  {
    RunKeepsCore(t, n);
    assert StepAt(t, n);
    StepKeepsAccountIff(t.hs[n], t.es[n], a);
  }

  lemma StepAtKeepsSettled(t: History, n: nat, a: Account)
    requires Run(t) && n < |t.es| && Settled(t.hs[n], a)
    requires t.es[n].DoReply? ==> Spares(t.hs[n], t.es[n].reply, t.es[n].stop, a)
    ensures Settled(t.hs[n + 1], a)
  {
    RunKeepsCore(t, n);
    assert StepAt(t, n);
    StepKeepsSettledIff(t.hs[n], t.es[n], a);
  }

  /** From any state in which it holds, an account's invariant lasts until a reply harms the account. */
  lemma {:induction false} RunKeepsAccount(t: History, m: nat, n: nat, a: Account)
    requires Run(t) && m <= n < |t.hs|
    requires AccountInv(t.hs[m], a) && HarmlessBetween(t, m, n, a)
    ensures AccountInv(t.hs[n], a)
  {
    if m < n {
      RunKeepsAccount(t, m, n - 1, a);
      StepAtKeepsAccount(t, n - 1, a);
    }
  }

  lemma {:induction false} RunKeepsSettled(t: History, m: nat, n: nat, a: Account)
    requires Run(t) && m <= n < |t.hs|
    requires Settled(t.hs[m], a) && SparedBetween(t, m, n, a)
    ensures Settled(t.hs[n], a)
  {
    if m < n {
      RunKeepsSettled(t, m, n - 1, a);
      StepAtKeepsSettled(t, n - 1, a);
    }
  }

  // ----- coverage -----

  /** The number of live queue entries of an account. */
  function LiveCount(q: seq<Slot>, a: Account): nat {
    LiveIds(q)[a]
  }

  /** The account has no row at startup, or some row of it was loaded. */
  ghost predicate StartsWell(t: History, a: Account)
    requires Run(t)
  {
    (forall rk :: rk in t.hs[0].db ==> rk.acct != a) || SomeLoaded(t.rows, t.clocks, a)
  }

  /** A subscriber that its whole swarm monitors, or that has no new row in flight. */
  ghost predicate Reached(h: Hive, a: Account) {
    a in h.members && (Covered(h.nodes, h.members[a].pk) || !PendingNew(h.pending, a))
  }

  /**
   Coverage: take any account that startup did not skip altogether, and any state `m` in which it
   is a subscriber and monitored by its whole swarm, or has no new row in flight. Unless a reply
   breaks off to its harm, then in every later state the cached swarm is the nearest id, and every
   node of that swarm monitors the account through exactly one live queue entry. Not `Reached` is a
   subscriber that has a new row in flight while some node of its swarm does not monitor it, as when a
   renewal overtakes its first addition, or a reply breaks off and bares its swarm.
   */
  lemma Coverage(t: History, m: nat, n: nat, a: Account, k: Key)
    requires Run(t) && m <= n < |t.hs|
    requires StartsWell(t, a) && HarmlessBetween(t, 0, m, a)
    requires Reached(t.hs[m], a) && SparedBetween(t, m, n, a)
    ensures Settled(t.hs[n], a)
    ensures t.hs[n].ids != [] ==> Nearest(IdSet(t.hs[n].ids), a.space, t.hs[n].members[a].pk.swarm)
    ensures k in t.hs[n].nodes && t.hs[n].nodes[k].swarm == t.hs[n].members[a].pk.swarm ==>
              Monitored(t.hs[n].nodes[k], a)
  {
    AccountInvAtStart(t.hs[0].db, t.rows, t.clocks, a);
    RunKeepsAccount(t, 0, m, a);
    SettledIsMonitored(t, m, n, a, k);
  }

  /** The node knows the account and has exactly one live entry for it in a sorted queue. */
  ghost predicate Monitored(n: Node, a: Account) {
    a in n.subs && LiveCount(n.next, a) == 1 && Sorted(n.next)
  }

  lemma SettledIsMonitored(t: History, m: nat, n: nat, a: Account, k: Key)
    requires Run(t) && m <= n < |t.hs| && Settled(t.hs[m], a) && SparedBetween(t, m, n, a)
    ensures Settled(t.hs[n], a)
    ensures t.hs[n].ids != [] ==> Nearest(IdSet(t.hs[n].ids), a.space, t.hs[n].members[a].pk.swarm)
    ensures k in t.hs[n].nodes && t.hs[n].nodes[k].swarm == t.hs[n].members[a].pk.swarm ==>
              Monitored(t.hs[n].nodes[k], a)
  {
    RunKeepsSettled(t, m, n, a);
    RunKeepsCore(t, n);
    if t.hs[n].ids != [] {
      ClosestIsNearest(t.hs[n].ids, a.space);
    }
  }

  /**
   Recovery: whatever was skipped or broken off before, one reply that triggers a recheck settles
   every subscriber of that moment, and from then on coverage holds as above.
   */
  lemma CoverageAfterRecheck(t: History, m: nat, n: nat, a: Account, k: Key)
    requires Run(t) && m < n < |t.hs| && a in t.hs[m].members
    requires t.es[m].DoReply? && Increasing(t.hs[m].ids) && Rechecks(t.hs[m], t.es[m].reply, t.es[m].stop)
    requires SparedBetween(t, m + 1, n, a)
    ensures Settled(t.hs[n], a)
    ensures t.hs[n].ids != [] ==> Nearest(IdSet(t.hs[n].ids), a.space, t.hs[n].members[a].pk.swarm)
    ensures k in t.hs[n].nodes && t.hs[n].nodes[k].swarm == t.hs[n].members[a].pk.swarm ==>
              Monitored(t.hs[n].nodes[k], a)
  {
    RunKeepsCore(t, m);
    assert StepAt(t, m);
    RecheckSettles(t.hs[m], t.es[m].reply, t.es[m].order, t.es[m].stop, a);
    SettledIsMonitored(t, m + 1, n, a, k);
  }

  // ----- rows and their merging -----

  predicate LoadedRow(t: History, rk: RowKey)
    requires |t.rows| == |t.clocks|
  {
    exists i :: 0 <= i < |t.rows| && t.rows[i].0 == rk && InDate(t.rows[i].1, t.clocks[i])
  }

  lemma StepAtHoldsRow(t: History, n: nat, rk: RowKey)
    requires Run(t) && n < |t.es| && rk in t.hs[n + 1].db
    requires !Commits(t.es[n], rk) && rk in t.hs[n].db ==> RowHeld(t.hs[n], rk)
    ensures RowHeld(t.hs[n + 1], rk) && (Commits(t.es[n], rk) || rk in t.hs[n].db)
  {
    assert StepAt(t, n);
    StepHoldsRow(t.hs[n], t.es[n], rk);
  }

  lemma LoadedRowIsHeld(t: History, rk: RowKey)
    requires Run(t) && rk in t.hs[0].db && LoadedRow(t, rk)
    ensures RowHeld(t.hs[0], rk)
  {
    var i :| 0 <= i < |t.rows| && t.rows[i].0 == rk && InDate(t.rows[i].1, t.clocks[i]);
    LoadHoldsRow(t.rows, t.clocks, i);
  }

  /**
   Every row still in the database that was loaded, or committed since, is represented by an entry
   in memory or one about to be merged; nothing else is needed, whatever other rows were skipped.
   */
  lemma {:induction false} RowsRepresented(t: History, n: nat, rk: RowKey)
    requires Run(t) && n < |t.hs| && rk in t.hs[n].db
    requires LoadedRow(t, rk) || exists j :: 0 <= j < n && Commits(t.es[j], rk)
    ensures RowHeld(t.hs[n], rk)
    ensures t.hs[n].pending == [] ==> InMemory(SubsOf(t.hs[n].members, rk.acct), t.hs[n].db[rk])
  {
    if n == 0 {
      LoadedRowIsHeld(t, rk);
    } else {
      if !Commits(t.es[n - 1], rk) && rk in t.hs[n - 1].db {
        RowsRepresented(t, n - 1, rk);
      }
      StepAtHoldsRow(t, n - 1, rk);
    }
  }

  lemma StartsFrugal(t: History)
    requires Run(t)
    ensures Frugal(t.hs[0])
  {
    forall a | a in t.hs[0].members ensures NoTwins(t.hs[0].members[a].subs) {
      LoadedAccounts(t.rows, t.clocks, a);
    }
  }

  lemma {:induction false} RunKeepsFrugal(t: History, n: nat)
    requires Run(t) && n < |t.hs|
    ensures Frugal(t.hs[n])
  {
    if n == 0 {
      StartsFrugal(t);
    } else {
      RunKeepsFrugal(t, n - 1);
      assert StepAt(t, n - 1);
      StepKeepsFrugal(t.hs[n - 1], t.es[n - 1]);
    }
  }

  /**
   De-duplication in every reachable state: two entries of one account may ask for the same thing
   (tag, namespaces, data flag) only if both are plain.
   */
  lemma OnlyPlainRepeats(t: History, n: nat, a: Account, i: nat, j: nat)
    requires Run(t) && n < |t.hs| && a in t.hs[n].members && i < j < |t.hs[n].members[a].subs|
    requires var e, f := t.hs[n].members[a].subs[i], t.hs[n].members[a].subs[j];
             SameTag(e.subaccount, f.subaccount) && e.namespaces == f.namespaces && e.wantData == f.wantData
    ensures t.hs[n].members[a].subs[i].subaccount == None == t.hs[n].members[a].subs[j].subaccount
  {
    RunKeepsFrugal(t, n);
    RepeatsArePlain(t.hs[n].members[a].subs, i, j);
  }

  // ----- indexes and queues -----

  /** The swarm sets are disjoint and together hold exactly the known nodes. */
  lemma NodeIndex(t: History, n: nat)
    requires Run(t) && n < |t.hs|
    ensures var h := t.hs[n];
            && (forall r, s :: r in h.swarms && s in h.swarms && r != s ==> h.swarms[r] !! h.swarms[s])
            && (forall k :: k in h.nodes <==> exists s :: s in h.swarms && k in h.swarms[s])
            && (forall s, k :: s in h.swarms && k in h.swarms[s] ==> k in h.nodes && h.nodes[k].swarm == s)
  {
    RunKeepsCore(t, n);
    IndexFacts(t.hs[n].nodes, t.hs[n].swarms);
  }

  lemma IndexFacts(nodes: map<Key, Node>, swarms: map<u64, set<Key>>)
    requires IndexInv(nodes, swarms)
    ensures forall s, t :: s in swarms && t in swarms && s != t ==> swarms[s] !! swarms[t]
    ensures forall k :: k in nodes <==> exists s :: s in swarms && k in swarms[s]
  {
    forall s, t | s in swarms && t in swarms && s != t ensures swarms[s] !! swarms[t] {
      assert forall k :: k in swarms[s] ==> nodes[k].swarm == s;
      assert forall k :: k in swarms[t] ==> nodes[k].swarm == t;
    }
    forall k | k in nodes ensures exists s :: s in swarms && k in swarms[s] {
      assert k in swarms[nodes[k].swarm];
    }
  }

  lemma NodeChangeLetsNobodyGo(nodes: map<Key, Node>, j: Key, n: Node, k: Key)
    requires j in nodes && n.subs == nodes[j].subs
    ensures LetsNobodyGo(nodes, nodes[j := n], k)
  {
  }

  lemma StepLetsNobodyGo(h: Hive, e: Event, k: Key)
    requires CoreInv(h) && Enabled(h, e)
    ensures LetsNobodyGo(h.nodes, Step(h, e).nodes, k)
  {
    match e
    case DoApply(i) => ApplyLetsNobodyGo(h, i, k);
    case DoReply(r, order, stop) => ReplyLetsNobodyGo(h, r, order, stop, k);
    case DoCheck(j, time, added, q') => NodeChangeLetsNobodyGo(h.nodes, j, h.nodes[j].(next := q'), k);
    case DoReconnect(j) => NodeChangeLetsNobodyGo(h.nodes, j, Reconnected(h.nodes[j]), k);
    case _ =>
  }

  lemma StepAtLetsNobodyGo(t: History, n: nat, k: Key)
    requires Run(t) && n < |t.es|
    ensures LetsNobodyGo(t.hs[n].nodes, t.hs[n + 1].nodes, k)
  {
    RunKeepsCore(t, n);
    assert StepAt(t, n);
    StepLetsNobodyGo(t.hs[n], t.es[n], k);
  }

  /**
   A node goes on monitoring every account it ever monitored for as long as it stays in its swarm,
   wherever the accounts' own swarms move meanwhile.
   */
  lemma {:induction false} NobodyIsLetGo(t: History, m: nat, n: nat, k: Key, sw: u64)
    requires Run(t) && m <= n < |t.hs|
    requires forall i :: m <= i <= n ==> k in t.hs[i].nodes && t.hs[i].nodes[k].swarm == sw
    ensures t.hs[m].nodes[k].subs.Keys <= t.hs[n].nodes[k].subs.Keys
  {
    if m < n {
      NobodyIsLetGo(t, m, n - 1, k, sw);
      StepAtLetsNobodyGo(t, n - 1, k);
    }
  }

  /** Every node of every reachable state has one live entry for each account it monitors, in time order. */
  lemma QueuesAreSound(t: History, n: nat, k: Key, a: Account)
    requires Run(t) && n < |t.hs| && k in t.hs[n].nodes
    ensures Sorted(t.hs[n].nodes[k].next) && t.hs[n].nodes[k].subs.Keys <= t.hs[n].members.Keys
    ensures LiveCount(t.hs[n].nodes[k].next, a) == if a in t.hs[n].nodes[k].subs then 1 else 0
  {
    RunKeepsCore(t, n);
  }
}
