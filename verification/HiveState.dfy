/**
 The hive's shared state (spns/hivemind.hpp) as a value, and what each operation of
 spns/hivemind.cpp does to it. Database rows are a map under the table's uniqueness constraint;
 an addition is two atomic steps, a committed transaction and a later update of the in-memory
 indexes, with any other operation possibly in between.
 */
module HiveState {
  import opened Common
  import opened SwarmSpace
  import opened Subscriptions
  import opened Queue

  /** UNIQUE(account, service, svcid). */
  datatype RowKey = RowKey(acct: Account, service: string, svcid: string)

  /** An addition whose row is committed and whose in-memory half has not run yet. */
  datatype Pending = Pending(acct: Account, sub: Subscription, isNew: bool)

  datatype Hive = Hive(
    nodes: map<Key, Node>,        // sns_
    swarms: map<u64, set<Key>>,   // swarms_
    ids: seq<u64>,                // swarm_ids_
    lastHash: string,             // last_block_
    members: Subscribers,         // subscribers_
    db: map<RowKey, Subscription>,
    pending: seq<Pending>)

  // ----- merging a subscription into an account's list -----

  /** The loop shared by `add_subscription` and `load_saved_subscriptions`. */
  function Merge(subs: seq<Subscription>, s: Subscription): seq<Subscription> {
    if subs == [] then [s]
    else if IsSame(subs[0], s) then
      [if s.sigTs > subs[0].sigTs then subs[0].(sigTs := s.sigTs, sig := s.sig) else subs[0]] + subs[1..]
    else [subs[0]] + Merge(subs[1..], s)
  }

  predicate SameTag(a: Option<Subaccount>, b: Option<Subaccount>) {
    a.Some? == b.Some? && (a.Some? ==> a.value.tag == b.value.tag)
  }

  /** `e` keeps the swarm subscribed on behalf of the row `r`. */
  predicate Represents(e: Subscription, r: Subscription) {
    SameTag(e.subaccount, r.subaccount) && e.namespaces == r.namespaces && e.wantData == r.wantData && e.sigTs >= r.sigTs
  }

  ghost predicate InMemory(subs: seq<Subscription>, r: Subscription) {
    exists i :: 0 <= i < |subs| && Represents(subs[i], r)
  }

  function SubsOf(members: Subscribers, a: Account): seq<Subscription> {
    if a in members then members[a].subs else []
  }

  // ----- startup: load_saved_subscriptions -----

  /** A row too close to its expiry, or too far in the future, at the loader's clock. */
  predicate Skipped(row: Subscription, now: int) {
    row.sigTs <= now - SIGNATURE_EXPIRY + 5 || row.sigTs >= now + SIGNATURE_EARLY
  }

  predicate HasSame(subs: seq<Subscription>, s: Subscription) {
    exists i :: 0 <= i < |subs| && IsSame(subs[i], s)
  }

  /** One row of the load; `None` when the Subscription constructor throws, which aborts startup. */
  function LoadRow(members: Subscribers, a: Account, row: Subscription, now: int): Option<Subscribers> {
    if Skipped(row, now) then Some(members)
    else
      var subs := SubsOf(members, a);
      if !HasSame(subs, row) && !Acceptable(row.namespaces, row.sigTs, now) then None
      else
        var pk := if a in members then members[a].pk else SwarmPubkey(a, INVALID_SWARM_ID);
        Some(members[a := Member(pk, Merge(subs, row))])
  }

  /** The load of a row list; `clocks` are the loader's clock readings, one per row. */
  function Load(rows: seq<(RowKey, Subscription)>, clocks: seq<int>): Option<Subscribers>
    requires |rows| == |clocks|
  {
    if rows == [] then Some(map[])
    else
      var last := |rows| - 1;
      match Load(rows[..last], clocks[..last])
      case None => None
      case Some(members) => LoadRow(members, rows[last].0.acct, rows[last].1, clocks[last])
  }

  function Started(db: map<RowKey, Subscription>, members: Subscribers): Hive {
    Hive(map[], map[], [], "", members, db, [])
  }

  // ----- add_subscription, remove_subscription, drop_registrations, db_cleanup -----

  function Commit(h: Hive, rk: RowKey, sub: Subscription): Hive {
    h.(db := h.db[rk := sub], pending := h.pending + [Pending(rk.acct, sub, rk !in h.db)])
  }

  /** The nodes a forced account is pushed to. */
  function Forced(nodes: map<Key, Node>, keys: set<Key>, pk: SwarmPubkey): map<Key, Node> {
    map k | k in nodes :: if k in keys then AddedAccount(nodes[k], pk, true) else nodes[k]
  }

  function SwarmOf(swarms: map<u64, set<Key>>, sw: u64): set<Key> {
    if sw in swarms then swarms[sw] else {}
  }

  /** The in-memory half of the i-th pending addition. */
  function Apply(h: Hive, i: nat): Hive
    requires Increasing(h.ids) && i < |h.pending|
  {
    var p := h.pending[i];
    var pk := SwarmPubkey(p.acct, Home(h.ids, p.acct));
    var key := if p.acct in h.members then h.members[p.acct].pk else pk;
    var h1 := h.(members := h.members[p.acct := Member(key, Merge(SubsOf(h.members, p.acct), p.sub))],
                 pending := h.pending[..i] + h.pending[i + 1..]);
    if !p.isNew then h1
    else
      var keys := SwarmOf(h.swarms, pk.swarm);
      h1.(swarms := h.swarms[pk.swarm := keys], nodes := Forced(h.nodes, keys, pk))
  }

  function Remove(h: Hive, rk: RowKey): Hive {
    h.(db := h.db - {rk})
  }

  function Drop(h: Hive, service: string, svcids: seq<string>): Hive {
    h.(db := map rk | rk in h.db && !(rk.service == service && rk.svcid in svcids) :: h.db[rk])
  }

  function Cleanup(h: Hive, now: int): Hive {
    h.(db := map rk | rk in h.db && !(h.db[rk].sigTs <= now - SIGNATURE_EXPIRY) :: h.db[rk])
  }

  // ----- the service node reply -----

  /**
   One service node state. A field is `None` when reading it throws; `key` is the decoded
   `pubkey_ed25519`, `None` when the text does not decode.
   */
  datatype SnEntry = SnEntry(keyLen: Option<nat>, key: Option<Key>, ip: Option<string>, port: Option<nat>, swarm: Option<u64>)

  /** `Rejected`: wrong part count, status, JSON or type; `hash` is `None` when reading the block throws. */
  datatype Reply = Rejected | Reply(hash: Option<string>, entries: seq<SnEntry>)

  predicate HasDetails(e: SnEntry) {
    e.keyLen == Some(64) && e.ip.Some? && e.ip.value != "" && e.ip.value != "0.0.0.0"
    && e.port.Some? && e.port.value > 0 && e.swarm.Some? && e.swarm.value != INVALID_SWARM_ID
  }

  /** Processing the entry in the second pass does not throw. */
  predicate Readable(e: SnEntry) {
    e.keyLen.Some? && e.ip.Some? && e.port.Some? && e.swarm.Some? && (HasDetails(e) ==> e.key.Some?)
  }

  predicate AllReadable(entries: seq<SnEntry>) {
    forall i :: 0 <= i < |entries| ==> Readable(entries[i])
  }

  predicate AllHaveSwarm(entries: seq<SnEntry>) {
    forall i :: 0 <= i < |entries| ==> entries[i].swarm.Some?
  }

  lemma InsertedInOrder(ids: seq<u64>, x: u64, p: nat)
    requires Increasing(ids) && p <= |ids| && (forall i :: 0 <= i < p ==> ids[i] < x) && (forall i :: p <= i < |ids| ==> x < ids[i])
    ensures var r := ids[..p] + [x] + ids[p..]; Increasing(r) && IdSet(r) == IdSet(ids) + {x}
  {
    var r := ids[..p] + [x] + ids[p..];
    forall i, j | 0 <= i < j < |r| ensures r[i] < r[j] {
      assert r[i] == if i < p then ids[i] else if i == p then x else ids[i - 1];
      assert r[j] == if j < p then ids[j] else if j == p then x else ids[j - 1];
    }
    assert ids == ids[..p] + ids[p..];
    assert forall y :: y in r <==> y in ids[..p] || y == x || y in ids[p..];
  }

  /** Insertion into a `std::set`, seen as its ascending listing. */
  function InsertId(ids: seq<u64>, x: u64): (r: seq<u64>)
    requires Increasing(ids)
    ensures Increasing(r) && IdSet(r) == IdSet(ids) + {x}
  {
    var p := LowerBound(ids, x, 0, |ids|);
    if p < |ids| && ids[p] == x then ids
    else
      InsertedInOrder(ids, x, p);
      ids[..p] + [x] + ids[p..]
  }

  /** All valid swarm ids of a reply, ascending. */
  function IdsOf(entries: seq<SnEntry>): (r: seq<u64>)
    requires AllHaveSwarm(entries)
    ensures Increasing(r)
  {
    if entries == [] then []
    else
      var last := |entries| - 1;
      assert AllHaveSwarm(entries[..last]);
      var sw := entries[last].swarm.value;
      if sw != INVALID_SWARM_ID then InsertId(IdsOf(entries[..last]), sw) else IdsOf(entries[..last])
  }

  /** The usable nodes of a reply with their swarms; the first entry of a key wins. */
  function Usable(entries: seq<SnEntry>): map<Key, u64>
    requires AllReadable(entries)
  {
    if entries == [] then map[]
    else
      var last := |entries| - 1;
      assert AllReadable(entries[..last]);
      var m := Usable(entries[..last]);
      var e := entries[last];
      assert Readable(e);
      if HasDetails(e) && e.key.value !in m then m[e.key.value := e.swarm.value] else m
  }

  function SwarmIndex(usable: map<Key, u64>): map<u64, set<Key>> {
    map sw | sw in usable.Values :: set k | k in usable && usable[k] == sw
  }

  /** A node that stays in its swarm keeps its state; every other usable node starts empty. */
  function BaseNode(nodes: map<Key, Node>, k: Key, sw: u64): Node {
    if k in nodes && nodes[k].swarm == sw then nodes[k] else Node(sw, map[], [])
  }

  function BaseNodes(nodes: map<Key, Node>, usable: map<Key, u64>): map<Key, Node> {
    map k | k in usable :: BaseNode(nodes, k, usable[k])
  }

  /** The node is new, or reported in another swarm than before. */
  predicate Moves(nodes: map<Key, Node>, k: Key, sw: u64) {
    k !in nodes || nodes[k].swarm != sw
  }

  predicate Touched(nodes: map<Key, Node>, usable: map<Key, u64>) {
    exists k :: k in usable && Moves(nodes, k, usable[k])
  }

  /** The nodes when the placing loop breaks off: the missing are dropped, those in `placed` are placed. */
  function PartialNodes(nodes: map<Key, Node>, usable: map<Key, u64>, placed: set<Key>): map<Key, Node> {
    map k | k in usable && (k in placed || k in nodes) :: if k in placed then BaseNode(nodes, k, usable[k]) else nodes[k]
  }

  /** The nodes of each of the given swarms. */
  function IndexUnder(sws: set<u64>, nodes: map<Key, Node>): map<u64, set<Key>> {
    map sw | sw in sws :: set k | k in nodes && nodes[k].swarm == sw
  }

  function Refreshed(members: Subscribers, ids: seq<u64>): Subscribers
    requires Increasing(ids)
  {
    map a | a in members :: Member(UpdateSwarm(members[a].pk, ids).0, members[a].subs)
  }

  function AddIfHome(n: Node, pk: SwarmPubkey): Node {
    if pk.swarm == n.swarm then AddedAccount(n, pk, false) else n
  }

  /** One node's share of the recheck, subscribers visited in the hash container's `order`. */
  function AddAll(n: Node, order: seq<Account>, members: Subscribers): Node
    requires forall a :: a in order ==> a in members
  {
    if order == [] then n
    else
      var last := |order| - 1;
      assert order[last] in order;
      AddIfHome(AddAll(n, order[..last], members), members[order[last]].pk)
  }

  function Rechecked(base: map<Key, Node>, ids: seq<u64>, order: seq<Account>, members: Subscribers): map<Key, Node>
    requires Increasing(ids) && forall a :: a in order ==> a in members
  {
    map k | k in base :: AddAll(RemovedStale(base[k], ids), order, members)
  }

  /** The block is new and every swarm id is readable: the swarm list is replaced. */
  predicate Renews(h: Hive, r: Reply) {
    r.Reply? && r.hash.Some? && r.hash.value != h.lastHash && AllHaveSwarm(r.entries)
  }

  /** The hive once a reply's id list is installed, before its nodes are looked at. */
  function WithIds(h: Hive, r: Reply): (h1: Hive)
    requires Increasing(h.ids)
    ensures Increasing(h1.ids)
  {
    if Renews(h, r) then h.(ids := IdsOf(r.entries), lastHash := r.hash.value) else h
  }

  /** The second half of a reply: the node indexes, and the recheck if anything changed. */
  function WithNodes(h: Hive, idsChanged: bool, usable: map<Key, u64>, order: seq<Account>): Hive
    requires Increasing(h.ids) && forall a :: a in order ==> a in h.members
  {
    var base := BaseNodes(h.nodes, usable);
    var h' := h.(nodes := base, swarms := SwarmIndex(usable));
    if idsChanged || Touched(h.nodes, usable) then
      var members := Refreshed(h.members, h.ids);
      h'.(members := members, nodes := Rechecked(base, h.ids, order, members))
    else h'
  }

  /** The hive when the placing loop breaks off: no swarm set is erased, nothing is rechecked. */
  function WithSome(h: Hive, usable: map<Key, u64>, placed: set<Key>): Hive {
    var nodes := PartialNodes(h.nodes, usable, placed);
    h.(nodes := nodes, swarms := IndexUnder(h.swarms.Keys + (set k | k in placed && k in usable :: usable[k]), nodes))
  }

  /** The reply survives the first pass over its entries. */
  predicate Passes(h: Hive, r: Reply) {
    r.Reply? && r.hash.Some? && (r.hash.value != h.lastHash ==> AllHaveSwarm(r.entries))
  }

  /**
   `on_sns_response` up to its trailing `check_subs`, exceptions included. `stop` is `None` when
   the placing loop runs to its end; otherwise building an address or connecting threw, and it
   holds the nodes placed by then.
   */
  function AfterReply(h: Hive, r: Reply, order: seq<Account>, stop: Option<set<Key>>): Hive
    requires Increasing(h.ids) && forall a :: a in order ==> a in h.members
  {
    if !Passes(h, r) then h
    else
      var h1 := WithIds(h, r);
      if !AllReadable(r.entries) then h1
      else if stop.Some? then WithSome(h1, Usable(r.entries), stop.value)
      else WithNodes(h1, h1.ids != h.ids, Usable(r.entries), order)
  }

  // ----- what always holds -----

  /** Each node sits in exactly the set of its own swarm. */
  ghost predicate IndexInv(nodes: map<Key, Node>, swarms: map<u64, set<Key>>) {
    && (forall sw, k :: sw in swarms && k in swarms[sw] ==> k in nodes && nodes[k].swarm == sw)
    && (forall k :: k in nodes ==> nodes[k].swarm in swarms && k in swarms[nodes[k].swarm])
  }

  ghost predicate NodesInv(nodes: map<Key, Node>, members: Subscribers) {
    forall k :: k in nodes ==> NodeInv(nodes[k]) && nodes[k].subs.Keys <= members.Keys
  }

  /** Every subscriber is listed under its own account. */
  ghost predicate Keyed(members: Subscribers) {
    forall a :: a in members ==> members[a].pk.acct == a
  }

  /** Holds in every reachable state, whatever was loaded and whatever replies came. */
  ghost predicate CoreInv(h: Hive) {
    Increasing(h.ids) && IndexInv(h.nodes, h.swarms) && NodesInv(h.nodes, h.members) && Keyed(h.members)
  }

  // ----- what holds for one account -----

  ghost predicate PendingNew(pending: seq<Pending>, a: Account) {
    exists i :: 0 <= i < |pending| && pending[i].isNew && pending[i].acct == a
  }

  /** Every node of the account's swarm monitors it. */
  ghost predicate Covered(nodes: map<Key, Node>, pk: SwarmPubkey) {
    forall k :: k in nodes && nodes[k].swarm == pk.swarm ==> pk.acct in nodes[k].subs
  }

  /** The cached swarm of a subscriber is the closest one. */
  ghost predicate Assigned(h: Hive, a: Account)
    requires Increasing(h.ids) && a in h.members
  {
    h.members[a].pk == SwarmPubkey(a, Home(h.ids, a))
  }

  /** A subscriber with the right swarm, monitored by all of that swarm. */
  ghost predicate Settled(h: Hive, a: Account) {
    Increasing(h.ids) && a in h.members && Assigned(h, a) && Covered(h.nodes, h.members[a].pk)
  }

  ghost predicate Known(h: Hive, a: Account) {
    a in h.members || PendingNew(h.pending, a)
  }

  /** The account occurs in the database or among the waiting additions. */
  ghost predicate Named(h: Hive, a: Account) {
    (exists rk :: rk in h.db && rk.acct == a) || exists i :: 0 <= i < |h.pending| && h.pending[i].acct == a
  }

  /**
   A subscriber is settled, or its swarm is about to be told of a new row; and an account that
   occurs anywhere is a subscriber or about to be told of.
   */
  ghost predicate AccountInv(h: Hive, a: Account) {
    && Increasing(h.ids)
    && (a in h.members ==> Assigned(h, a) && (Covered(h.nodes, h.members[a].pk) || PendingNew(h.pending, a)))
    && (Named(h, a) ==> Known(h, a))
  }

  // ----- what holds for one row -----

  ghost predicate AwaitingMerge(pending: seq<Pending>, a: Account, row: Subscription) {
    exists i :: 0 <= i < |pending| && pending[i].acct == a && Represents(pending[i].sub, row)
  }

  /** Some entry, in memory or about to be merged, represents the row. */
  ghost predicate RowHeld(h: Hive, rk: RowKey)
    requires rk in h.db
  {
    InMemory(SubsOf(h.members, rk.acct), h.db[rk]) || AwaitingMerge(h.pending, rk.acct, h.db[rk])
  }
}
