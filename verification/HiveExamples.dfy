/**
 Concrete runs: the premises of the coverage theorem are met, and each way in which the hive falls
 short of what it promises is reached.
 */
module HiveExamples {
  import opened Common
  import opened SwarmSpace
  import opened Subscriptions
  import opened Queue
  import opened HiveMindObject
  import opened HiveState
  import opened HiveProofs
  import opened HiveRuns

  // ----- building runs -----

  function Last(t: History): Hive
    requires t.hs != []
  {
    t.hs[|t.hs| - 1]
  }

  lemma ExtendRun(t: History, e: Event, h: Hive)
    requires Run(t) && Leads(Last(t), e, h)
    ensures Run(t.(hs := t.hs + [h], es := t.es + [e]))
  {
    var t' := t.(hs := t.hs + [h], es := t.es + [e]);
    forall i: nat | i < |t'.es| ensures StepAt(t', i) {
      if i < |t.es| {
        assert StepAt(t, i);
      }
    }
  }

  /** One more event at the end of a run. */
  lemma Then(t: History, e: Event) returns (t': History)
    requires Run(t) && CoreInv(Last(t)) && Enabled(Last(t), e)
    ensures Run(t') && CoreInv(Last(t')) && Last(t') == Step(Last(t), e)
    ensures t'.rows == t.rows && t'.clocks == t.clocks && t'.es == t.es + [e] && t'.hs == t.hs + [Last(t')]
  {
    var h := Step(Last(t), e);
    ExtendRun(t, e, h);
    StepKeepsCore(Last(t), e);
    t' := t.(hs := t.hs + [h], es := t.es + [e]);
  }

  /** A reply entry with every detail. */
  function Entry(k: Key, sw: u64): SnEntry {
    SnEntry(Some(64), Some(k), Some("1.2.3.4"), Some(22021), Some(sw))
  }

  function OneNode(hash: string, k: Key, sw: u64): Reply {
    Reply(Some(hash), [Entry(k, sw)])
  }

  function TwoNodes(hash: string, k: Key, sw: u64, k': Key, sw': u64): Reply {
    Reply(Some(hash), [Entry(k, sw), Entry(k', sw')])
  }

  lemma OneNodeRead(hash: string, k: Key, sw: u64)
    requires sw != INVALID_SWARM_ID
    ensures var es := OneNode(hash, k, sw).entries;
            AllReadable(es) && AllHaveSwarm(es) && IdsOf(es) == [sw] && Usable(es) == map[k := sw]
  {
    var es := OneNode(hash, k, sw).entries;
    assert es[..0] == [] && AllHaveSwarm(es) && Readable(es[0]);
    assert IdsOf(es[..0]) == [] && InsertId([], sw) == [sw];
    assert Usable(es[..0]) == map[];
  }

  lemma ReadsOne(es: seq<SnEntry>, k: Key, sw: u64)
    requires sw != INVALID_SWARM_ID && AllReadable(es) && AllHaveSwarm(es)
    ensures AllReadable(es + [Entry(k, sw)]) && AllHaveSwarm(es + [Entry(k, sw)])
    ensures IdsOf(es + [Entry(k, sw)]) == InsertId(IdsOf(es), sw)
    ensures k !in Usable(es) ==> Usable(es + [Entry(k, sw)]) == Usable(es)[k := sw]
  {
    assert Readable(Entry(k, sw));
    assert (es + [Entry(k, sw)])[..|es|] == es;
  }

  lemma TwoNodesRead(hash: string, k: Key, sw: u64, k': Key, sw': u64)
    requires k != k' && sw != INVALID_SWARM_ID && sw' != INVALID_SWARM_ID
    ensures var es := TwoNodes(hash, k, sw, k', sw').entries;
            AllReadable(es) && AllHaveSwarm(es) && IdsOf(es) == InsertId([sw], sw') && Usable(es) == map[k := sw, k' := sw']
  {
    OneNodeRead(hash, k, sw);
    ReadsOne(OneNode(hash, k, sw).entries, k', sw');
    assert TwoNodes(hash, k, sw, k', sw').entries == OneNode(hash, k, sw).entries + [Entry(k', sw')];
  }

  // ----- one node, one subscriber -----

  /** The node `k` of the swarm `sw` is the only one, the account `a` the only subscriber, and settled. */
  ghost predicate Quiet(h: Hive, k: Key, sw: u64, a: Account, subs: seq<Subscription>) {
    && h.ids == [sw] && h.lastHash == "block" && h.pending == []
    && h.nodes.Keys == {k} && h.nodes[k].swarm == sw
    && h.members == map[a := Member(SwarmPubkey(a, sw), subs)] && Settled(h, a)
  }

  /** The hive before its first subscriber: it knows one node. */
  ghost predicate Opened(h: Hive, k: Key, sw: u64) {
    && h.ids == [sw] && h.lastHash == "block" && h.pending == [] && h.members == map[]
    && h.nodes.Keys == {k} && h.nodes[k].swarm == sw
  }

  lemma FirstReplyOpens(h: Hive, k: Key, sw: u64)
    requires CoreInv(h) && h.ids == [] && h.lastHash == "" && h.members == map[] && h.pending == []
    requires sw != INVALID_SWARM_ID
    ensures Enumerates([], h.members)
    ensures var h' := AfterReply(h, OneNode("block", k, sw), [], None); Opened(h', k, sw) && h'.db == h.db
  {
    var r := OneNode("block", k, sw);
    OneNodeRead("block", k, sw);
    CompletedReplyIndex(h, r, [], None);
    ReplyKeepsSubscriptions(h, r, [], None);
    assert AfterReply(h, r, [], None).members.Keys == {};
  }

  /** A run from the given rows, all of them skipped, to the point where one node is known. */
  lemma OpeningRun(db: map<RowKey, Subscription>, rows: seq<(RowKey, Subscription)>, clocks: seq<int>, k: Key, sw: u64)
    returns (t: History)
    requires |rows| == |clocks| && Lists(rows, db) && Load(rows, clocks) == Some(map[]) && sw != INVALID_SWARM_ID
    ensures Run(t) && CoreInv(Last(t)) && Opened(Last(t), k, sw) && Last(t).db == db
    ensures t.rows == rows && t.clocks == clocks && |t.es| == 1 && t.hs[0] == Started(db, map[])
  {
    var h := Started(db, map[]);
    t := History(rows, clocks, [h], []);
    StartKeepsCore(db, rows, clocks);
    FirstReplyOpens(h, k, sw);
    t := Then(t, DoReply(OneNode("block", k, sw), [], None));
  }

  /** A committed row, applied before anything else happens. */
  lemma AddRow(t: History, rk: RowKey, sub: Subscription) returns (t': History)
    requires Run(t) && CoreInv(Last(t)) && Last(t).pending == []
    ensures Run(t') && CoreInv(Last(t'))
    ensures Last(t') == Apply(Commit(Last(t), rk, sub), 0)
    ensures t'.rows == t.rows && t'.clocks == t.clocks && t'.es == t.es + [DoCommit(rk, sub)] + [DoApply(0)]
    ensures t'.hs[..|t.hs|] == t.hs
  {
    var t1 := Then(t, DoCommit(rk, sub));
    t' := Then(t1, DoApply(0));
  }

  lemma FirstAdditionSettles(h: Hive, k: Key, sw: u64, rk: RowKey, sub: Subscription)
    requires CoreInv(h) && Opened(h, k, sw) && h.db == map[]
    ensures var h' := Apply(Commit(h, rk, sub), 0); Quiet(h', k, sw, rk.acct, [sub]) && h'.db == map[rk := sub]
  {
    assert Home([sw], rk.acct) == sw;
    assert CoreInv(Commit(h, rk, sub));
    ApplySettles(Commit(h, rk, sub), 0, rk.acct);
  }

  lemma HarmlessToStranger(h: Hive, r: Reply, stop: Option<set<Key>>, a: Account)
    requires Increasing(h.ids) && a !in h.members
    ensures Harmless(h, r, stop, a)
  {
  }

  lemma NoSubscriberNoHarm(t: History, a: Account)
    requires Run(t) && t.hs[0] == Started(map[], map[]) && |t.es| == 3 && t.es[1].DoCommit? && t.es[2].DoApply?
    ensures StartsWell(t, a) && HarmlessBetween(t, 0, 3, a)
  {
    forall i | 0 <= i < 3 && t.es[i].DoReply? ensures Harmless(t.hs[i], t.es[i].reply, t.es[i].stop, a) {
      HarmlessToStranger(t.hs[0], t.es[0].reply, t.es[0].stop, a);
    }
  }

  lemma SubscribedRun(k: Key, sw: u64, rk: RowKey, sub: Subscription) returns (t: History, h: Hive)
    requires sw != INVALID_SWARM_ID
    ensures Run(t) && CoreInv(h) && Opened(h, k, sw) && h.db == map[]
    ensures CoreInv(Last(t)) && Last(t) == Apply(Commit(h, rk, sub), 0)
    ensures t.hs[0] == Started(map[], map[]) && |t.es| == 3 && t.es[1].DoCommit? && t.es[2].DoApply?
  {
    var t0 := OpeningRun(map[], [], [], k, sw);
    h := Last(t0);
    t := AddRow(t0, rk, sub);
    assert t.hs[..|t0.hs|][0] == t0.hs[0];
  }

  lemma QuietIsReached(h: Hive, k: Key, sw: u64, a: Account, subs: seq<Subscription>)
    requires Quiet(h, k, sw, a, subs)
    ensures Reached(h, a)
  {
  }

  /** A node appears, a client subscribes: the premises of `Coverage` can all be met. */
  lemma CoverageIsReached(k: Key, sw: u64, rk: RowKey, sub: Subscription) returns (t: History)
    requires sw != INVALID_SWARM_ID
    ensures Run(t) && CoreInv(Last(t)) && Quiet(Last(t), k, sw, rk.acct, [sub]) && Last(t).db == map[rk := sub]
    ensures StartsWell(t, rk.acct) && HarmlessBetween(t, 0, |t.es|, rk.acct) && Reached(Last(t), rk.acct)
  {
    var h;
    t, h := SubscribedRun(k, sw, rk, sub);
    FirstAdditionSettles(h, k, sw, rk, sub);
    NoSubscriberNoHarm(t, rk.acct);
    QuietIsReached(Last(t), k, sw, rk.acct, [sub]);
  }

  // ----- a reply that breaks off while it reads its entries -----

  /** An entry that has nothing but a swarm id. */
  function Unreadable(hash: string, sw: u64): Reply {
    Reply(Some(hash), [SnEntry(None, None, None, None, Some(sw))])
  }

  lemma UnreadableRenewal(h: Hive, k: Key, sw: u64, sw': u64, a: Account, subs: seq<Subscription>)
    requires Quiet(h, k, sw, a, subs) && sw' != INVALID_SWARM_ID
    ensures Enumerates([a], h.members)
    ensures var h' := AfterReply(h, Unreadable("next", sw'), [a], None); h'.ids == [sw'] && h'.members == h.members
  {
    var r := Unreadable("next", sw');
    assert r.entries[..0] == [] && AllHaveSwarm(r.entries) && !Readable(r.entries[0]);
    assert IdsOf(r.entries[..0]) == [] && InsertId([], sw') == [sw'];
    assert h.members.Keys == {a};
  }

  /** The swarm list is replaced, then an entry cannot be read: the subscriber keeps a swarm that no longer exists. */
  lemma SwarmGoesStale(k: Key, sw: u64, sw': u64, rk: RowKey, sub: Subscription) returns (t: History)
    requires sw != INVALID_SWARM_ID && sw' != INVALID_SWARM_ID && sw != sw'
    ensures Run(t) && rk.acct in Last(t).members && Last(t).pending == []
    ensures Last(t).ids == [sw'] && Last(t).members[rk.acct].pk.swarm == sw
  {
    t := CoverageIsReached(k, sw, rk, sub);
    UnreadableRenewal(Last(t), k, sw, sw', rk.acct, [sub]);
    t := Then(t, DoReply(Unreadable("next", sw'), [rk.acct], None));
  }

  // ----- a reply that breaks off while it places its nodes -----

  /** One node, one subscriber of its swarm; whatever additions are in flight. */
  ghost predicate Lone(h: Hive, k: Key, sw: u64, a: Account) {
    && h.ids == [sw] && h.lastHash == "block"
    && h.nodes.Keys == {k} && h.nodes[k].swarm == sw
    && h.members.Keys == {a} && h.members[a].pk.swarm == sw
  }

  /** The subscriber `a` is not monitored by the node `k'` of its swarm. */
  ghost predicate Bare(h: Hive, k: Key, sw: u64, k': Key, a: Account) {
    && h.ids == [sw] && h.lastHash == "block"
    && h.nodes.Keys == {k, k'} && h.nodes[k].swarm == sw == h.nodes[k'].swarm
    && h.members.Keys == {a} && h.members[a].pk.swarm == sw && a !in h.nodes[k'].subs
  }

  lemma JoinsBare(nodes: map<Key, Node>, k: Key, sw: u64, k': Key)
    requires nodes.Keys == {k} && nodes[k].swarm == sw && k != k'
    ensures var nodes' := PartialNodes(nodes, map[k := sw, k' := sw], {k'});
            nodes'.Keys == {k, k'} && nodes'[k].swarm == sw && nodes'[k'] == Node(sw, map[], [])
  {
  }

  /** The turns of a placing loop: `k'` is placed, and then the address of `k` turns out to be none. */
  function BadTurn(k: Key, k': Key): seq<Visit> {
    [Visit(k', Fine), Visit(k, BadAddress)]
  }

  lemma BadTurnStops(nodes: map<Key, Node>, k: Key, sw: u64, k': Key)
    requires k != k'
    ensures Visits(BadTurn(k, k'), map[k := sw, k' := sw]) && StopAt(nodes, BadTurn(k, k')) == Some({k'})
  {
    var visits := BadTurn(k, k');
    assert visits[..1] == [Visit(k', Fine)] && visits[..1][..0] == [];
    assert KeysOf(visits[..1]) == {k'} by {
      assert visits[..1][0].key == k';
    }
    assert visits[0].key in KeysOf(visits) && visits[1].key in KeysOf(visits);
    assert StopAt(nodes, visits[..1][..0]) == None;
    assert StopAt(nodes, visits[..1]) == None;
  }

  /** A second node joins the swarm, and then the loop breaks off. */
  lemma BreaksOff(h: Hive, k: Key, sw: u64, k': Key, a: Account)
    requires Lone(h, k, sw, a) && k != k' && sw != INVALID_SWARM_ID
    ensures Enumerates([a], h.members)
    ensures var h' := AfterReply(h, TwoNodes("block", k, sw, k', sw), [a], StopAt(h.nodes, BadTurn(k, k')));
            Bare(h', k, sw, k', a) && h'.pending == h.pending
  {
    TwoNodesRead("block", k, sw, k', sw);
    BadTurnStops(h.nodes, k, sw, k');
    JoinsBare(h.nodes, k, sw, k');
    assert h.members.Keys == {a};
  }

  /** The same reply again, now processed to its end. */
  lemma RepeatsQuietly(h: Hive, k: Key, sw: u64, k': Key, a: Account)
    requires Bare(h, k, sw, k', a) && k != k' && sw != INVALID_SWARM_ID
    ensures Enumerates([a], h.members) && Completed(h, TwoNodes("block", k, sw, k', sw), None)
    ensures var h' := AfterReply(h, TwoNodes("block", k, sw, k', sw), [a], None);
            Bare(h', k, sw, k', a) && h'.pending == h.pending
  {
    TwoNodesRead("block", k, sw, k', sw);
    QuietReplyOnlyForgets(h, TwoNodes("block", k, sw, k', sw), [a], None);
  }

  lemma SwarmIsBared(k: Key, sw: u64, k': Key, rk: RowKey, sub: Subscription) returns (t: History)
    requires sw != INVALID_SWARM_ID && k != k'
    ensures Run(t) && CoreInv(Last(t)) && Bare(Last(t), k, sw, k', rk.acct) && Last(t).pending == []
  {
    t := CoverageIsReached(k, sw, rk, sub);
    var stop := StopAt(Last(t).nodes, BadTurn(k, k'));
    BreaksOff(Last(t), k, sw, k', rk.acct);
    t := Then(t, DoReply(TwoNodes("block", k, sw, k', sw), [rk.acct], stop));
  }

  /**
   After a placing loop that broke off on an address, a completed reply about the same nodes repairs
   nothing: the node that joined is not new to it, so the account stays without that node.
   */
  lemma BaredSwarmStaysBare(k: Key, sw: u64, k': Key, rk: RowKey, sub: Subscription) returns (t: History, r: Reply, h: Hive)
    requires sw != INVALID_SWARM_ID && k != k'
    ensures Run(t) && |t.hs| >= 2 && h == t.hs[|t.hs| - 2] && t.es[|t.es| - 1] == DoReply(r, [rk.acct], None)
    ensures Completed(h, r, None) && Bare(h, k, sw, k', rk.acct)
    ensures Bare(Last(t), k, sw, k', rk.acct) && Last(t).pending == []
  {
    var t1 := SwarmIsBared(k, sw, k', rk, sub);
    h, r := Last(t1), TwoNodes("block", k, sw, k', sw);
    RepeatsQuietly(h, k, sw, k', rk.acct);
    t := Then(t1, DoReply(r, [rk.acct], None));
  }

  // ----- a swarm bared while a new row is in flight -----

  lemma HarmlessSoFar(t: History, t': History, e: Event, a: Account)
    requires Run(t) && Run(t') && StartsWell(t, a) && HarmlessBetween(t, 0, |t.es|, a)
    requires t'.rows == t.rows && t'.clocks == t.clocks && t'.es == t.es + [e] && t'.hs[..|t.hs|] == t.hs
    requires e.DoReply? && Increasing(Last(t).ids) ==> Harmless(Last(t), e.reply, e.stop, a)
    ensures StartsWell(t', a) && HarmlessBetween(t', 0, |t'.es|, a)
  {
    assert forall i :: 0 <= i < |t.hs| ==> t'.hs[i] == t.hs[i];
  }

  lemma HarmlessWhilePending(h: Hive, k: Key, sw: u64, k': Key, stop: Option<set<Key>>, a: Account)
    requires Increasing(h.ids) && h.lastHash == "block" && PendingNew(h.pending, a)
    ensures Harmless(h, TwoNodes("block", k, sw, k', sw), stop, a)
  {
  }

  lemma SecondRow(t: History, rk: RowKey, sub: Subscription, a: Account) returns (t': History)
    requires Run(t) && CoreInv(Last(t)) && StartsWell(t, a) && HarmlessBetween(t, 0, |t.es|, a)
    requires rk.acct == a && rk !in Last(t).db
    ensures Run(t') && CoreInv(Last(t')) && StartsWell(t', a) && HarmlessBetween(t', 0, |t'.es|, a)
    ensures Last(t') == Commit(Last(t), rk, sub) && PendingNew(Last(t').pending, a)
  {
    t' := Then(t, DoCommit(rk, sub));
    HarmlessSoFar(t, t', DoCommit(rk, sub), a);
    assert Last(t').pending[|Last(t).pending|] == Pending(a, sub, true);
  }

  /**
   A settled account with a second device's row in flight when a reply breaks off: no harm is done,
   since the row will be applied, but until then the account is not `Reached`.
   */
  lemma BaredInFlight(k: Key, sw: u64, k': Key, rk: RowKey, rk': RowKey, sub: Subscription) returns (t: History)
    requires sw != INVALID_SWARM_ID && k != k' && rk' != rk && rk'.acct == rk.acct
    ensures Run(t) && StartsWell(t, rk.acct) && HarmlessBetween(t, 0, |t.es|, rk.acct)
    ensures rk.acct in Last(t).members && !Reached(Last(t), rk.acct)
  {
    var t1 := CoverageIsReached(k, sw, rk, sub);
    var t2 := SecondRow(t1, rk', sub, rk.acct);
    var stop, r := StopAt(Last(t2).nodes, BadTurn(k, k')), TwoNodes("block", k, sw, k', sw);
    BreaksOff(Last(t2), k, sw, k', rk.acct);
    HarmlessWhilePending(Last(t2), k, sw, k', stop, rk.acct);
    t := Then(t2, DoReply(r, [rk.acct], stop));
    HarmlessSoFar(t2, t, DoReply(r, [rk.acct], stop), rk.acct);
    BareIsNotReached(Last(t), k, sw, k', rk.acct);
  }

  lemma BareIsNotReached(h: Hive, k: Key, sw: u64, k': Key, a: Account)
    requires Bare(h, k, sw, k', a) && Keyed(h.members) && PendingNew(h.pending, a)
    ensures !Reached(h, a)
  {
  }

  // ----- a renewed row that startup had skipped -----

  lemma OneRowSkipped(rk: RowKey, row: Subscription)
    ensures var rows, clocks := [(rk, row)], [row.sigTs + SIGNATURE_EXPIRY];
            Lists(rows, map[rk := row]) && Load(rows, clocks) == Some(map[]) && !SomeLoaded(rows, clocks, rk.acct)
  {
    var rows, clocks := [(rk, row)], [row.sigTs + SIGNATURE_EXPIRY];
    assert rows[..0] == [] && clocks[..0] == [];
    assert rows[0] == (rk, map[rk := row][rk]);
  }

  lemma RenewalLeavesBare(h: Hive, k: Key, sw: u64, rk: RowKey, sub: Subscription)
    requires CoreInv(h) && Opened(h, k, sw) && rk in h.db
    ensures var h' := Apply(Commit(h, rk, sub), 0);
            rk.acct in h'.members && !Covered(h'.nodes, h'.members[rk.acct].pk) && h'.pending == []
  {
    var p := Commit(h, rk, sub);
    assert CoreInv(p) && Home([sw], rk.acct) == sw;
    assert k in SwarmOf(h.swarms, sw);
    RenewalOfSkippedRow(p, 0);
  }

  /** Startup skips an old row, its owner renews it, and no node is told. */
  lemma RenewalGoesUnnoticed(k: Key, sw: u64, rk: RowKey, row: Subscription, sub: Subscription) returns (t: History)
    requires sw != INVALID_SWARM_ID
    ensures Run(t) && rk.acct in Last(t).members && Last(t).pending == []
    ensures !Covered(Last(t).nodes, Last(t).members[rk.acct].pk)
  {
    OneRowSkipped(rk, row);
    t := OpeningRun(map[rk := row], [(rk, row)], [row.sigTs + SIGNATURE_EXPIRY], k, sw);
    RenewalLeavesBare(Last(t), k, sw, rk, sub);
    t := AddRow(t, rk, sub);
  }

  // ----- a renewal that overtakes the first addition -----

  lemma OvertakingLeavesBare(p: Hive, a: Account, first: Subscription, second: Subscription)
    requires CoreInv(p) && p.pending == [Pending(a, first, true), Pending(a, second, false)]
    requires a !in p.members && SwarmOf(p.swarms, Home(p.ids, a)) != {}
    ensures a in Apply(p, 1).members && !Covered(Apply(p, 1).nodes, Apply(p, 1).members[a].pk)
    ensures PendingNew(Apply(p, 1).pending, a)
  {
    RenewalOfSkippedRow(p, 1);
    assert p.pending[0].isNew;
    ApplyKeepsPendingNew(p, 1, a);
  }

  lemma CommittedTwice(h: Hive, k: Key, sw: u64, rk: RowKey, first: Subscription, second: Subscription)
    requires CoreInv(h) && Opened(h, k, sw) && h.db == map[]
    ensures var p := Commit(Commit(h, rk, first), rk, second);
            && p.pending == [Pending(rk.acct, first, true), Pending(rk.acct, second, false)]
            && rk.acct !in p.members && SwarmOf(p.swarms, Home(p.ids, rk.acct)) != {}
  {
    assert Home([sw], rk.acct) == sw;
    assert k in SwarmOf(h.swarms, sw);
  }

  /** A subscriber that is not `Reached`: until its first addition is applied, nobody is told of it. */
  lemma RenewalOvertakes(k: Key, sw: u64, rk: RowKey, first: Subscription, second: Subscription) returns (t: History)
    requires sw != INVALID_SWARM_ID
    ensures Run(t) && rk.acct in Last(t).members
    ensures !Covered(Last(t).nodes, Last(t).members[rk.acct].pk) && PendingNew(Last(t).pending, rk.acct)
  {
    t := OpeningRun(map[], [], [], k, sw);
    CommittedTwice(Last(t), k, sw, rk, first, second);
    t := Then(t, DoCommit(rk, first));
    t := Then(t, DoCommit(rk, second));
    OvertakingLeavesBare(Last(t), rk.acct, first, second);
    t := Then(t, DoApply(1));
  }

  // ----- an account that left its swarm -----

  /** A swarm whose id is the account's own point is the account's home. */
  lemma HomeAtOwnPoint(ids: seq<u64>, a: Account)
    requires Increasing(ids) && a.space in IdSet(ids)
    ensures Home(ids, a) == a.space
  {
    assert ids != [];
    ClosestIsNearest(ids, a.space);
    assert Score(a.space, a.space) == 0;
    ScoreInjective(a.space, Home(ids, a), a.space);
  }

  lemma SecondSwarmRechecks(h: Hive, k: Key, sw: u64, k': Key, sw': u64)
    requires Increasing(h.ids) && h.nodes.Keys == {k} && h.lastHash == "block"
    requires k != k' && sw != INVALID_SWARM_ID && sw' != INVALID_SWARM_ID
    ensures var r := TwoNodes("next", k, sw, k', sw');
            && Rechecks(h, r, None) && WithIds(h, r).ids == InsertId([sw], sw')
            && Usable(r.entries) == map[k := sw, k' := sw']
  {
    TwoNodesRead("next", k, sw, k', sw');
    var usable := Usable(TwoNodes("next", k, sw, k', sw').entries);
    assert k' in usable && Moves(h.nodes, k', usable[k']);
  }

  lemma ReplyInstallsIds(h: Hive, r: Reply, order: seq<Account>)
    requires Increasing(h.ids) && Enumerates(order, h.members)
    ensures AfterReply(h, r, order, None).ids == WithIds(h, r).ids
  {
  }

  lemma HomeMovesAway(h: Hive, k: Key, sw: u64, k': Key, a: Account)
    requires CoreInv(h) && h.lastHash == "block" && h.nodes.Keys == {k} && h.members.Keys == {a}
    requires k != k' && sw != INVALID_SWARM_ID && a.space != INVALID_SWARM_ID
    ensures Enumerates([a], h.members)
    ensures var h' := AfterReply(h, TwoNodes("next", k, sw, k', a.space), [a], None);
            Settled(h', a) && h'.members[a].pk.swarm == a.space
  {
    var r := TwoNodes("next", k, sw, k', a.space);
    SecondSwarmRechecks(h, k, sw, k', a.space);
    RecheckSettles(h, r, [a], None, a);
    HomeAtOwnPoint(InsertId([sw], a.space), a);
    ReplyInstallsIds(h, r, [a]);
  }

  lemma UsableNodeStays(h: Hive, r: Reply, order: seq<Account>, k: Key)
    requires CoreInv(h) && Enumerates(order, h.members) && Completed(h, r, None)
    requires k in h.nodes && k in Usable(r.entries) && Usable(r.entries)[k] == h.nodes[k].swarm
    ensures var h' := AfterReply(h, r, order, None);
            k in h'.nodes && h'.nodes[k].swarm == h.nodes[k].swarm && h.nodes[k].subs.Keys <= h'.nodes[k].subs.Keys
  {
    CompletedReplyIndex(h, r, order, None);
    ReplyLetsNobodyGo(h, r, order, None, k);
  }

  lemma OldNodeStays(h: Hive, k: Key, sw: u64, k': Key, sw': u64, order: seq<Account>)
    requires CoreInv(h) && h.lastHash == "block" && h.nodes.Keys == {k} && h.nodes[k].swarm == sw
    requires Enumerates(order, h.members) && k != k' && sw != INVALID_SWARM_ID && sw' != INVALID_SWARM_ID
    ensures var h' := AfterReply(h, TwoNodes("next", k, sw, k', sw'), order, None);
            k in h'.nodes && h'.nodes[k].swarm == sw && h.nodes[k].subs.Keys <= h'.nodes[k].subs.Keys
  {
    SecondSwarmRechecks(h, k, sw, k', sw');
    UsableNodeStays(h, TwoNodes("next", k, sw, k', sw'), order, k);
  }

  /** The account's home moves to another swarm, and its old node goes on monitoring it. */
  lemma DepartedAccountStays(k: Key, sw: u64, k': Key, rk: RowKey, sub: Subscription) returns (t: History)
    requires sw != INVALID_SWARM_ID && k != k' && rk.acct.space != INVALID_SWARM_ID && rk.acct.space != sw
    ensures Run(t) && Settled(Last(t), rk.acct) && k in Last(t).nodes
    ensures rk.acct in Last(t).nodes[k].subs && Last(t).nodes[k].swarm != Last(t).members[rk.acct].pk.swarm
  {
    t := CoverageIsReached(k, sw, rk, sub);
    HomeMovesAway(Last(t), k, sw, k', rk.acct);
    OldNodeStays(Last(t), k, sw, k', rk.acct.space, [rk.acct]);
    t := Then(t, DoReply(TwoNodes("next", k, sw, k', rk.acct.space), [rk.acct], None));
  }

  // ----- a plain subscription that is renewed -----

  lemma RenewalRepeats(h: Hive, rk: RowKey, sub: Subscription)
    requires Increasing(h.ids) && h.pending == [] && rk.acct in h.members
    requires h.members[rk.acct].subs == [sub] && h.db == map[rk := sub] && sub.subaccount == None
    ensures var h' := Apply(Commit(h, rk, sub), 0);
            rk.acct in h'.members && h'.members[rk.acct].subs == [sub, sub] && h'.db == map[rk := sub]
  {
    PlainIsAppended([sub], sub);
  }

  /** A renewed plain subscription is held twice, and so submitted twice each time. */
  lemma PlainRenewalRepeats(k: Key, sw: u64, rk: RowKey, sub: Subscription) returns (t: History)
    requires sw != INVALID_SWARM_ID && sub.subaccount == None
    ensures Run(t) && rk.acct in Last(t).members && Last(t).members[rk.acct].subs == [sub, sub]
    ensures Last(t).db == map[rk := sub]
  {
    t := CoverageIsReached(k, sw, rk, sub);
    RenewalRepeats(Last(t), rk, sub);
    t := AddRow(t, rk, sub);
  }
}
