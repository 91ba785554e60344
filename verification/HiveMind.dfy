/** The mutable hive object (`class HiveMind`): its loops, proved against the state functions. */
module HiveMindObject {
  import opened Common
  import opened SwarmSpace
  import opened Subscriptions
  import opened Queue
  import opened HiveState
  import opened HiveProofs

  const UNSUBSCRIBE_GRACE: int := 24 * 3600

  // ----- facts about one turn of a loop -----

  lemma {:induction false} MergeAt(subs: seq<Subscription>, s: Subscription, i: nat)
    requires i <= |subs| && forall j :: 0 <= j < i ==> !IsSame(subs[j], s)
    requires i < |subs| ==> IsSame(subs[i], s)
    ensures Merge(subs, s) ==
            if i == |subs| then subs + [s]
            else if s.sigTs > subs[i].sigTs then subs[i := subs[i].(sigTs := s.sigTs, sig := s.sig)] else subs
  {
    if i > 0 {
      MergeAt(subs[1..], s, i - 1);
      assert subs == [subs[0]] + subs[1..];
    } else if subs != [] {
      assert subs == [subs[0]] + subs[1..];
    }
  }

  /** Forgetting a node together with its index entry. */
  lemma ForgetKeepsIndex(nodes: map<Key, Node>, swarms: map<u64, set<Key>>, k: Key)
    requires IndexInv(nodes, swarms) && k in nodes
    ensures var sw := nodes[k].swarm; IndexInv(nodes - {k}, swarms[sw := swarms[sw] - {k}])
  {
  }

  /** Entering an unindexed node. */
  lemma EnterKeepsIndex(nodes: map<Key, Node>, swarms: map<u64, set<Key>>, k: Key, n: Node)
    requires IndexInv(nodes, swarms) && k !in nodes
    ensures IndexInv(nodes[k := n], swarms[n.swarm := SwarmOf(swarms, n.swarm) + {k}])
  {
  }

  lemma MoveKeepsIndex(nodes: map<Key, Node>, swarms: map<u64, set<Key>>, k: Key, n: Node)
    requires IndexInv(nodes, swarms) && k in nodes && n.swarm != nodes[k].swarm
    ensures var left := swarms[nodes[k].swarm := swarms[nodes[k].swarm] - {k}];
            IndexInv(nodes[k := n], left[n.swarm := SwarmOf(left, n.swarm) + {k}])
  {
    var left := swarms[nodes[k].swarm := swarms[nodes[k].swarm] - {k}];
    ForgetKeepsIndex(nodes, swarms, k);
    EnterKeepsIndex(nodes - {k}, left, k, n);
    assert (nodes - {k})[k := n] == nodes[k := n];
  }

  /** A pruned index is determined by where the nodes are. */
  lemma PrunedIndexIs(nodes: map<Key, Node>, swarms: map<u64, set<Key>>, usable: map<Key, u64>)
    requires IndexInv(nodes, swarms) && nodes.Keys == usable.Keys
    requires forall k :: k in nodes ==> nodes[k].swarm == usable[k]
    requires forall sw :: sw in swarms ==> swarms[sw] != {}
    ensures swarms == SwarmIndex(usable)
  {
    var index := SwarmIndex(usable);
    forall sw | sw in swarms ensures sw in index {
      var k :| k in swarms[sw];
      assert usable[k] == sw;
    }
    forall sw | sw in index ensures sw in swarms && swarms[sw] == index[sw] {
      var k :| k in usable && usable[k] == sw;
      assert nodes[k].swarm in swarms;
    }
  }

  /** The nodes while the recheck runs: those of the swarms in `todo` are still to come. */
  ghost function SharedOut(base: map<Key, Node>, todo: set<u64>, ids: seq<u64>, order: seq<Account>,
                           members: Subscribers): map<Key, Node>
    requires Increasing(ids) && forall a :: a in order ==> a in members
  {
    map k | k in base :: if base[k].swarm in todo then base[k] else AddAll(RemovedStale(base[k], ids), order, members)
  }

  lemma SharedOutIndex(base: map<Key, Node>, swarms: map<u64, set<Key>>, todo: set<u64>, sw: u64, ids: seq<u64>,
                       order: seq<Account>, members: Subscribers)
    requires Increasing(ids) && (forall a :: a in order ==> a in members) && IndexInv(base, swarms)
    requires sw in todo && sw in swarms
    ensures var nodes := SharedOut(base, todo, ids, order, members);
            forall k :: k in swarms[sw] ==> k in nodes && nodes[k].swarm == sw
  {
  }

  lemma SharedOutNext(base: map<Key, Node>, swarms: map<u64, set<Key>>, todo: set<u64>, sw: u64, ids: seq<u64>,
                      order: seq<Account>, members: Subscribers, nodes': map<Key, Node>)
    requires Increasing(ids) && (forall a :: a in order ==> a in members) && IndexInv(base, swarms)
    requires sw in todo && sw in swarms && nodes'.Keys == base.Keys
    requires var nodes := SharedOut(base, todo, ids, order, members);
             forall k :: k in nodes' ==>
               nodes'[k] == if k in swarms[sw] then AddAll(RemovedStale(nodes[k], ids), order, members) else nodes[k]
    ensures nodes' == SharedOut(base, todo - {sw}, ids, order, members)
  {
    assert forall k :: k in base ==> (k in swarms[sw] <==> base[k].swarm == sw);
  }

  /** The nodes whose keys are in `keep`. */
  ghost function Kept(nodes: map<Key, Node>, keep: set<Key>): map<Key, Node> {
    map k | k in nodes && k in keep :: nodes[k]
  }

  /** How one turn of the placing loop ends: normally, or by an exception from foreign code. */
  datatype Outcome = Fine | BadAddress | NoConnection

  /** A turn of the placing loop, in the hash container's order. */
  datatype Visit = Visit(key: Key, outcome: Outcome)

  /** The loop visits every usable node once. */
  ghost predicate Visits(visits: seq<Visit>, usable: map<Key, u64>) {
    && (forall i, j :: 0 <= i < j < |visits| ==> visits[i].key != visits[j].key)
    && KeysOf(visits) == usable.Keys
  }

  function KeysOf(visits: seq<Visit>): set<Key> {
    set v | v in visits :: v.key
  }

  lemma KeysOfNext(visits: seq<Visit>, i: nat)
    requires i < |visits|
    ensures KeysOf(visits[..i + 1]) == KeysOf(visits[..i]) + {visits[i].key}
  {
    assert visits[..i + 1] == visits[..i] + [visits[i]];
  }

  /**
   The turn puts its node in place: an address is built before anything else; connecting comes
   after a known node was moved, but before a new one is entered.
   */
  predicate Places(nodes: map<Key, Node>, v: Visit) {
    v.outcome.Fine? || (v.outcome.NoConnection? && v.key in nodes)
  }

  /** The nodes placed when the loop breaks off, `None` if it does not. */
  function StopAt(nodes: map<Key, Node>, visits: seq<Visit>): Option<set<Key>> {
    if visits == [] then None
    else
      var last := visits[|visits| - 1];
      match StopAt(nodes, visits[..|visits| - 1])
      case Some(placed) => Some(placed)
      case None =>
        if last.outcome.Fine? then None
        else if Places(nodes, last) then Some(KeysOf(visits))
        else Some(KeysOf(visits[..|visits| - 1]))
  }

  lemma {:induction false} StopStays(nodes: map<Key, Node>, visits: seq<Visit>, i: nat)
    requires i <= |visits| && StopAt(nodes, visits[..i]).Some?
    ensures StopAt(nodes, visits) == StopAt(nodes, visits[..i])
  {
    if i < |visits| {
      assert visits[..|visits| - 1][..i] == visits[..i];
      StopStays(nodes, visits[..|visits| - 1], i);
    } else {
      assert visits[..i] == visits;
    }
  }

  /** Placing one more node. */
  lemma PlacedNext(before: map<Key, Node>, usable: map<Key, u64>, placed: set<Key>, k: Key)
    requires k in usable && k !in placed
    ensures var nodes := PartialNodes(before, usable, placed);
            && (k in nodes <==> k in before) && (k in nodes ==> nodes[k] == before[k])
            && PartialNodes(before, usable, placed + {k}) == nodes[k := BaseNode(nodes, k, usable[k])]
  {
  }

  /** The placed nodes that are new or moved. */
  function MovedOf(before: map<Key, Node>, usable: map<Key, u64>, placed: set<Key>): set<Key> {
    set k | k in placed && k in usable && Moves(before, k, usable[k])
  }

  lemma MovedNext(before: map<Key, Node>, usable: map<Key, u64>, placed: set<Key>, k: Key)
    requires k in usable
    ensures MovedOf(before, usable, placed + {k}) ==
            if Moves(before, k, usable[k]) then MovedOf(before, usable, placed) + {k} else MovedOf(before, usable, placed)
  {
  }

  lemma AllPlaced(before: map<Key, Node>, usable: map<Key, u64>)
    ensures PartialNodes(before, usable, usable.Keys) == BaseNodes(before, usable)
    ensures MovedOf(before, usable, usable.Keys) != {} <==> Touched(before, usable)
  {
    if k :| k in usable && Moves(before, k, usable[k]) {
      assert k in MovedOf(before, usable, usable.Keys);
    }
  }

  /** An index with a known set of swarms is determined by where the nodes are. */
  lemma IndexIs(nodes: map<Key, Node>, swarms: map<u64, set<Key>>, sws: set<u64>)
    requires IndexInv(nodes, swarms) && swarms.Keys == sws
    ensures swarms == IndexUnder(sws, nodes)
  {
    forall sw | sw in sws ensures swarms[sw] == IndexUnder(sws, nodes)[sw] {
      assert forall k :: k in swarms[sw] <==> k in nodes && nodes[k].swarm == sw;
    }
  }

  class HiveMind {
    var sns: map<Key, Node>
    var swarms: map<u64, set<Key>>
    var swarmIds: seq<u64>
    var lastHash: string
    var subscribers: Subscribers
    var table: map<RowKey, Subscription>
    var pending: seq<Pending>

    ghost function State(): Hive
      reads this
    {
      Hive(sns, swarms, swarmIds, lastHash, subscribers, table, pending)
    }

    constructor (rows: map<RowKey, Subscription>)
      ensures State() == Started(rows, map[])
    {
      sns, swarms, swarmIds, lastHash, subscribers, table, pending := map[], map[], [], "", map[], rows, [];
    }

    // ----- subscriptions -----

    /** The scan for an equivalent subscription. */
    static method MergeInto(subs: seq<Subscription>, sub: Subscription) returns (r: seq<Subscription>)
      ensures r == Merge(subs, sub)
    {
      r := subs;
      var i := 0;
      while i < |subs|
        invariant 0 <= i <= |subs| && r == subs
        invariant forall j :: 0 <= j < i ==> !IsSame(subs[j], sub)
      {
        if IsSame(subs[i], sub) {
          MergeAt(subs, sub, i);
          if sub.sigTs > subs[i].sigTs {
            r := subs[i := subs[i].(sigTs := sub.sigTs, sig := sub.sig)];
          }
          return;
        }
        i := i + 1;
      }
      MergeAt(subs, sub, i);
      r := subs + [sub];
    }

    /** `load_saved_subscriptions`: false when a row's constructor throws, which aborts startup. */
    method LoadSavedSubscriptions(rows: seq<(RowKey, Subscription)>, clocks: seq<int>) returns (ok: bool)
      requires |rows| == |clocks| && subscribers == map[]
      modifies this`subscribers
      ensures ok <==> Load(rows, clocks).Some?
      ensures ok ==> subscribers == Load(rows, clocks).value
    {
      for i := 0 to |rows|
        invariant Load(rows[..i], clocks[..i]) == Some(subscribers)
      {
        assert rows[..i + 1][..i] == rows[..i] && clocks[..i + 1][..i] == clocks[..i];
        var acct, row := rows[i].0.acct, rows[i].1;
        if row.sigTs <= clocks[i] - SIGNATURE_EXPIRY + 5 || row.sigTs >= clocks[i] + SIGNATURE_EARLY {
          continue;
        }
        var pk := if acct in subscribers then subscribers[acct].pk else SwarmPubkey(acct, INVALID_SWARM_ID);
        var subs := SubsOf(subscribers, acct);
        if !HasSame(subs, row) && !Acceptable(row.namespaces, row.sigTs, clocks[i]) {
          LoadFails(rows, clocks, i + 1);
          return false;
        }
        var merged := MergeInto(subs, row);
        subscribers := subscribers[acct := Member(pk, merged)];
      }
      assert rows[..|rows|] == rows && clocks[..|rows|] == clocks;
      return true;
    }

    static lemma {:induction false} LoadFails(rows: seq<(RowKey, Subscription)>, clocks: seq<int>, i: nat)
      requires |rows| == |clocks| && i <= |rows| && Load(rows[..i], clocks[..i]) == None
      ensures Load(rows, clocks) == None
    {
      if i < |rows| {
        var last := |rows| - 1;
        assert rows[..last][..i] == rows[..i] && clocks[..last][..i] == clocks[..i];
        LoadFails(rows[..last], clocks[..last], i);
      } else {
        assert rows[..i] == rows && clocks[..i] == clocks;
      }
    }

    /** The transaction of `add_subscription`. */
    method CommitSubscription(rk: RowKey, sub: Subscription) returns (isNew: bool)
      modifies this`table, this`pending
      ensures State() == Commit(old(State()), rk, sub) && isNew == (rk !in old(table))
    {
      isNew := rk !in table;
      table := table[rk := sub];
      pending := pending + [Pending(rk.acct, sub, isNew)];
    }

    /** The part of `add_subscription` that runs on the event loop, for the i-th waiting addition. */
    method ApplySubscription(i: nat)
      requires i < |pending| && Increasing(swarmIds) && IndexInv(sns, swarms)
      modifies this
      ensures State() == Apply(old(State()), i)
    {
      var p := pending[i];
      pending := pending[..i] + pending[i + 1..];
      var pk := UpdateSwarm(SwarmPubkey(p.acct, INVALID_SWARM_ID), swarmIds).0;
      assert pk == SwarmPubkey(p.acct, Home(swarmIds, p.acct));
      MergeSubscriber(pk, p.sub);
      if p.isNew {
        ForceOnSwarm(pk);
      }
    }

    /** Creates the account's entry if need be, and merges the subscription into it. */
    method MergeSubscriber(pk: SwarmPubkey, sub: Subscription)
      modifies this`subscribers
      ensures var all := old(subscribers);
              subscribers == all[pk.acct := Member(if pk.acct in all then all[pk.acct].pk else pk, Merge(SubsOf(all, pk.acct), sub))]
    {
      var key := if pk.acct in subscribers then subscribers[pk.acct].pk else pk;
      var merged := MergeInto(SubsOf(subscribers, pk.acct), sub);
      subscribers := subscribers[pk.acct := Member(key, merged)];
    }

    /** Forces the account on every node of its swarm. */
    method ForceOnSwarm(pk: SwarmPubkey)
      requires forall k :: k in SwarmOf(swarms, pk.swarm) ==> k in sns
      modifies this`sns, this`swarms
      ensures swarms == old(swarms)[pk.swarm := SwarmOf(old(swarms), pk.swarm)]
      ensures sns == Forced(old(sns), SwarmOf(old(swarms), pk.swarm), pk)
    {
      if pk.swarm !in swarms {
        swarms := swarms[pk.swarm := {}];
      }
      ghost var indexed := swarms;
      var todo := swarms[pk.swarm];
      while todo != {}
        invariant swarms == indexed && pk.swarm in swarms && todo <= swarms[pk.swarm]
        invariant sns == Forced(old(sns), swarms[pk.swarm] - todo, pk)
        decreases todo
      {
        var k :| k in todo;
        sns := sns[k := AddedAccount(sns[k], pk, true)];
        todo := todo - {k};
      }
      assert swarms[pk.swarm] - todo == swarms[pk.swarm];
    }

    /** `remove_subscription`; `verified` tells whether the signature check passes. */
    method RemoveSubscription(rk: RowKey, sigTs: int, verified: bool, now: int) returns (r: Result<bool>)
      modifies this`table
      ensures r.Ok? <==> now - 24 * 3600 <= sigTs <= now + 24 * 3600 && verified
      ensures r.Ok? ==> State() == Remove(old(State()), rk) && r.value == (rk in old(table))
      ensures r.Err? ==> State() == old(State())
    {
      if sigTs < now - UNSUBSCRIBE_GRACE || sigTs > now + UNSUBSCRIBE_GRACE {
        return Err("sig_ts is too far from current time");
      }
      if !verified {
        return Err("signature verification failed");
      }
      var removed := rk in table;
      table := table - {rk};
      return Ok(removed);
    }

    /**
     `on_drop_registrations` on the two-part message (service, token list); a token that is not a
     string is `None` and abandons the whole transaction.
     */
    method DropRegistrations(service: string, tokens: seq<Option<string>>) returns (done: bool)
      modifies this`table
      ensures done <==> service != "" && tokens != [] && forall i :: 0 <= i < |tokens| ==> tokens[i].Some?
      ensures done ==> State() == Drop(old(State()), service, seq(|tokens|, i requires 0 <= i < |tokens| => tokens[i].GetOr("")))
      ensures !done ==> State() == old(State())
    {
      if service == "" || tokens == [] {
        return false;
      }
      var tx, names := table, [];
      for i := 0 to |tokens|
        invariant |names| == i && forall j :: 0 <= j < i ==> tokens[j].Some? && names[j] == tokens[j].GetOr("")
        invariant tx == Drop(old(State()), service, names).db
      {
        if tokens[i].None? {
          return false;
        }
        names := names + [tokens[i].value];
        tx := map rk | rk in tx && !(rk.service == service && rk.svcid == tokens[i].value) :: tx[rk];
      }
      assert names == seq(|tokens|, i requires 0 <= i < |tokens| => tokens[i].GetOr(""));
      table := tx;
      return true;
    }

    /** `db_cleanup`. */
    method DbCleanup(now: int)
      modifies this`table
      ensures State() == Cleanup(old(State()), now)
    {
      table := map rk | rk in table && !(table[rk].sigTs <= now - SIGNATURE_EXPIRY) :: table[rk];
    }

    // ----- the service node reply -----

    /** `on_sns_response` up to its trailing `check_subs`; `visits` are the turns of the placing loop. */
    method OnSnsResponse(reply: Reply, order: seq<Account>, visits: seq<Visit>)
      requires Increasing(swarmIds) && IndexInv(sns, swarms)
      requires Enumerates(order, subscribers) && Keyed(subscribers)
      requires reply.Reply? && AllReadable(reply.entries) ==> Visits(visits, Usable(reply.entries))
      modifies this
      ensures State() == AfterReply(old(State()), reply, order, StopAt(old(sns), visits))
    {
      if reply.Rejected? || reply.hash.None? {
        return;
      }
      var readable, swarmsChanged := InstallIds(reply);
      if !readable {
        return;
      }
      var complete, usable := CollectUsable(reply.entries);
      if !complete {
        return;
      }
      InstallNodes(swarmsChanged, usable, order, visits);
    }

    /** On a new block, replaces the swarm list; unreadable ids abandon the reply first. */
    method InstallIds(reply: Reply) returns (readable: bool, swarmsChanged: bool)
      requires reply.Reply? && reply.hash.Some? && Increasing(swarmIds)
      modifies this`swarmIds, this`lastHash
      ensures readable <==> reply.hash.value == old(lastHash) || AllHaveSwarm(reply.entries)
      ensures State() == WithIds(old(State()), reply)
      ensures readable ==> swarmsChanged == (swarmIds != old(swarmIds))
    {
      readable, swarmsChanged := true, false;
      if reply.hash.value != lastHash {
        var ids: seq<u64>;
        readable, ids := CollectIds(reply.entries);
        if !readable {
          return;
        }
        if ids != swarmIds {
          swarmsChanged := true;
          swarmIds := ids;
        }
        lastHash := reply.hash.value;
      }
    }

    /** Brings the node indexes in line with the usable nodes and rechecks membership on a change. */
    method InstallNodes(swarmsChanged: bool, usable: map<Key, u64>, order: seq<Account>, visits: seq<Visit>)
      requires Increasing(swarmIds) && IndexInv(sns, swarms)
      requires Enumerates(order, subscribers) && Keyed(subscribers) && Visits(visits, usable)
      modifies this`sns, this`swarms, this`subscribers
      ensures var stop := StopAt(old(sns), visits);
              State() == if stop.Some? then WithSome(old(State()), usable, stop.value)
                         else WithNodes(old(State()), swarmsChanged, usable, order)
    {
      var finished, anyMoved := InstallIndexes(usable, visits);
      if finished && (swarmsChanged || anyMoved) {
        Recheck(order);
      }
    }

    /** `sns_` and `swarms_` after the reply; tells whether the loop finished, and if a node is new or moved. */
    method InstallIndexes(usable: map<Key, u64>, visits: seq<Visit>) returns (finished: bool, anyMoved: bool)
      requires IndexInv(sns, swarms) && Visits(visits, usable)
      modifies this`sns, this`swarms
      ensures IndexInv(sns, swarms) && finished == StopAt(old(sns), visits).None?
      ensures finished ==>
                && sns == BaseNodes(old(sns), usable) && swarms == SwarmIndex(usable)
                && anyMoved == Touched(old(sns), usable)
      ensures !finished ==>
                var h := WithSome(old(State()), usable, StopAt(old(sns), visits).value);
                sns == h.nodes && swarms == h.swarms
    {
      DropMissing(usable);
      var newOrChanged;
      finished, newOrChanged := MergeNodes(usable, visits, old(sns), old(swarms).Keys);
      anyMoved := newOrChanged != {};
      if finished {
        AllPlaced(old(sns), usable);
        PruneSwarms();
        PrunedIndexIs(sns, swarms, usable);
      } else {
        IndexIs(sns, swarms, swarms.Keys);
      }
    }

    /** The first pass: every swarm id that is not the invalid one. */
    static method CollectIds(entries: seq<SnEntry>) returns (readable: bool, ids: seq<u64>)
      ensures readable <==> AllHaveSwarm(entries)
      ensures readable ==> ids == IdsOf(entries)
    {
      ids := [];
      for i := 0 to |entries|
        invariant AllHaveSwarm(entries[..i]) && ids == IdsOf(entries[..i])
      {
        if entries[i].swarm.None? {
          return false, [];
        }
        IdsOfTurn(entries, i);
        if entries[i].swarm.value != INVALID_SWARM_ID {
          ids := InsertId(ids, entries[i].swarm.value);
        }
      }
      assert entries[..|entries|] == entries;
      return true, ids;
    }

    static lemma IdsOfTurn(entries: seq<SnEntry>, i: nat)
      requires i < |entries| && AllHaveSwarm(entries[..i]) && entries[i].swarm.Some?
      ensures AllHaveSwarm(entries[..i + 1])
      ensures var sw := entries[i].swarm.value;
              IdsOf(entries[..i + 1]) == if sw != INVALID_SWARM_ID then InsertId(IdsOf(entries[..i]), sw) else IdsOf(entries[..i])
    {
      assert entries[..i + 1] == entries[..i] + [entries[i]];
      IdsOfSnoc(entries[..i], entries[i]);
    }

    /** The second pass: the nodes we have details for. */
    static method CollectUsable(entries: seq<SnEntry>) returns (complete: bool, usable: map<Key, u64>)
      ensures complete <==> AllReadable(entries)
      ensures complete ==> usable == Usable(entries)
    {
      usable := map[];
      for i := 0 to |entries|
        invariant AllReadable(entries[..i]) && usable == Usable(entries[..i])
      {
        assert entries[..i + 1][..i] == entries[..i];
        var e := entries[i];
        if !Readable(e) {
          return false, map[];
        }
        assert forall j :: 0 <= j < i ==> entries[..i][j] == entries[j];
        if HasDetails(e) && e.key.value !in usable {
          usable := usable[e.key.value := e.swarm.value];
        }
      }
      assert entries[..|entries|] == entries;
      return true, usable;
    }

    /** Forgets the nodes that are no longer usable; their swarm sets stay, perhaps empty. */
    method DropMissing(usable: map<Key, u64>)
      requires IndexInv(sns, swarms)
      modifies this`sns, this`swarms
      ensures IndexInv(sns, swarms) && swarms.Keys == old(swarms).Keys
      ensures sns == Kept(old(sns), usable.Keys)
    {
      var todo := sns.Keys;
      while todo != {}
        invariant todo <= old(sns).Keys && IndexInv(sns, swarms) && swarms.Keys == old(swarms).Keys
        invariant sns == Kept(old(sns), usable.Keys + todo)
        decreases todo
      {
        var k :| k in todo;
        KeptNext(old(sns), usable.Keys, todo, k);
        if k !in usable {
          ForgetNode(k);
        }
        todo := todo - {k};
      }
      assert usable.Keys + todo == usable.Keys;
    }

    static lemma KeptNext(nodes: map<Key, Node>, keep: set<Key>, todo: set<Key>, k: Key)
      requires k in todo && k in nodes
      ensures k in Kept(nodes, keep + todo)
      ensures Kept(nodes, keep + (todo - {k})) == if k in keep then Kept(nodes, keep + todo) else Kept(nodes, keep + todo) - {k}
    {
      assert k in keep ==> keep + (todo - {k}) == keep + todo;
    }

    method ForgetNode(k: Key)
      requires IndexInv(sns, swarms) && k in sns
      modifies this`sns, this`swarms
      ensures IndexInv(sns, swarms) && swarms.Keys == old(swarms).Keys && sns == old(sns) - {k}
    {
      ForgetKeepsIndex(sns, swarms, k);
      var sw := sns[k].swarm;
      swarms := swarms[sw := swarms[sw] - {k}];
      sns := sns - {k};
    }

    /**
     The placing loop: adds the new nodes and moves those that changed swarm, until foreign code
     throws. `before` and `sws` are the nodes and the swarm sets' ids before the reply.
     */
    method MergeNodes(usable: map<Key, u64>, visits: seq<Visit>, ghost before: map<Key, Node>, ghost sws: set<u64>)
      returns (finished: bool, newOrChanged: set<Key>)
      requires IndexInv(sns, swarms) && swarms.Keys == sws && Visits(visits, usable)
      requires sns == Kept(before, usable.Keys)
      modifies this`sns, this`swarms
      ensures IndexInv(sns, swarms) && finished == StopAt(before, visits).None?
      ensures finished ==> sns == BaseNodes(before, usable) && newOrChanged == MovedOf(before, usable, usable.Keys)
      ensures !finished ==> PlacedOnly(before, usable, StopAt(before, visits).value, sws)
    {
      newOrChanged := {};
      for i := 0 to |visits|
        invariant IndexInv(sns, swarms) && StopAt(before, visits[..i]).None?
        invariant PlacedOnly(before, usable, KeysOf(visits[..i]), sws)
        invariant newOrChanged == MovedOf(before, usable, KeysOf(visits[..i]))
      {
        NextVisit(before, usable, visits, i);
        var goesOn, moved := PlaceNext(visits[i], usable, before, KeysOf(visits[..i]), sws);
        if !goesOn {
          StopStays(before, visits, i + 1);
          return false, newOrChanged;
        }
        MovedNext(before, usable, KeysOf(visits[..i]), visits[i].key);
        newOrChanged := if moved then newOrChanged + {visits[i].key} else newOrChanged;
      }
      assert visits[..|visits|] == visits;
      AllPlaced(before, usable);
      finished := true;
    }

    /** The indexes while the placing loop runs. */
    ghost predicate PlacedOnly(before: map<Key, Node>, usable: map<Key, u64>, placed: set<Key>, sws: set<u64>)
      reads this
    {
      && sns == PartialNodes(before, usable, placed)
      && swarms.Keys == sws + set k | k in placed && k in usable :: usable[k]
    }

    static lemma NextVisit(before: map<Key, Node>, usable: map<Key, u64>, visits: seq<Visit>, i: nat)
      requires i < |visits| && Visits(visits, usable) && StopAt(before, visits[..i]).None?
      ensures visits[i].key in usable && visits[i].key !in KeysOf(visits[..i])
      ensures KeysOf(visits[..i + 1]) == KeysOf(visits[..i]) + {visits[i].key}
      ensures StopAt(before, visits[..i + 1]) ==
              if visits[i].outcome.Fine? then None
              else if Places(before, visits[i]) then Some(KeysOf(visits[..i + 1]))
              else Some(KeysOf(visits[..i]))
    {
      KeysOfNext(visits, i);
      assert visits[i] in visits;
      assert visits[..i + 1][..i] == visits[..i];
    }

    /** One turn of the placing loop. */
    method PlaceNext(v: Visit, usable: map<Key, u64>, ghost before: map<Key, Node>, ghost placed: set<Key>, ghost sws: set<u64>)
      returns (goesOn: bool, moved: bool)
      requires v.key in usable && v.key !in placed && IndexInv(sns, swarms) && PlacedOnly(before, usable, placed, sws)
      modifies this`sns, this`swarms
      ensures IndexInv(sns, swarms) && goesOn == v.outcome.Fine?
      ensures PlacedOnly(before, usable, if Places(before, v) then placed + {v.key} else placed, sws)
      ensures goesOn ==> moved == Moves(before, v.key, usable[v.key])
    {
      PlacedNext(before, usable, placed, v.key);
      if v.outcome.BadAddress? || (v.outcome.NoConnection? && v.key !in sns) {
        return false, false;
      }
      moved := PlaceNode(v.key, usable[v.key]);
      goesOn := v.outcome.Fine?;
    }

    /** Puts one usable node under its swarm; one that moved or is new starts with no accounts. */
    method PlaceNode(k: Key, sw: u64) returns (moved: bool)
      requires IndexInv(sns, swarms)
      modifies this`sns, this`swarms
      ensures IndexInv(sns, swarms) && swarms.Keys == old(swarms).Keys + {sw}
      ensures sns == old(sns)[k := BaseNode(old(sns), k, sw)]
      ensures moved == Moves(old(sns), k, sw)
    {
      var n := Node(sw, map[], []);
      moved := Moves(sns, k, sw);
      if k !in sns {
        EnterKeepsIndex(sns, swarms, k, n);
        sns := sns[k := n];
        swarms := swarms[sw := SwarmOf(swarms, sw) + {k}];
      } else if moved {
        MoveKeepsIndex(sns, swarms, k, n);
        swarms := swarms[sns[k].swarm := swarms[sns[k].swarm] - {k}];
        sns := sns[k := ResetSwarm(sns[k], sw)];
        swarms := swarms[sw := SwarmOf(swarms, sw) + {k}];
      }
    }

    /** Erases the empty swarm sets. */
    method PruneSwarms()
      requires IndexInv(sns, swarms)
      modifies this`swarms
      ensures IndexInv(sns, swarms)
      ensures forall sw :: sw in swarms ==> swarms[sw] != {}
    {
      var todo := swarms.Keys;
      while todo != {}
        invariant IndexInv(sns, swarms) && todo <= swarms.Keys
        invariant forall sw :: sw in swarms && sw !in todo ==> swarms[sw] != {}
        decreases todo
      {
        var sw :| sw in todo;
        if swarms[sw] == {} {
          swarms := swarms - {sw};
        }
        todo := todo - {sw};
      }
    }

    /** The full recheck of swarm membership. */
    method Recheck(order: seq<Account>)
      requires Increasing(swarmIds) && IndexInv(sns, swarms)
      requires Enumerates(order, subscribers) && Keyed(subscribers)
      modifies this`sns, this`subscribers
      ensures subscribers == Refreshed(old(subscribers), swarmIds)
      ensures sns == Rechecked(old(sns), swarmIds, order, subscribers)
    {
      RefreshSubscribers();
      ghost var base, members := sns, subscribers;
      var todo := swarms.Keys;
      while todo != {}
        invariant todo <= swarms.Keys && subscribers == members
        invariant sns == SharedOut(base, todo, swarmIds, order, members)
        decreases todo
      {
        var sw :| sw in todo;
        SharedOutIndex(base, swarms, todo, sw, swarmIds, order, members);
        RecheckSwarm(sw, order);
        SharedOutNext(base, swarms, todo, sw, swarmIds, order, members, sns);
        todo := todo - {sw};
      }
    }

    method RefreshSubscribers()
      requires Increasing(swarmIds)
      modifies this`subscribers
      ensures subscribers == Refreshed(old(subscribers), swarmIds) && subscribers.Keys == old(subscribers).Keys
    {
      var todo := subscribers.Keys;
      while todo != {}
        invariant todo <= subscribers.Keys == old(subscribers).Keys
        invariant forall a :: a in subscribers ==>
          subscribers[a] == (if a in todo then old(subscribers)[a] else Member(UpdateSwarm(old(subscribers)[a].pk, swarmIds).0, old(subscribers)[a].subs))
        decreases todo
      {
        var a :| a in todo;
        subscribers := subscribers[a := subscribers[a].(pk := UpdateSwarm(subscribers[a].pk, swarmIds).0)];
        todo := todo - {a};
      }
    }

    /** One batch job: the nodes of one swarm. */
    method RecheckSwarm(sw: u64, order: seq<Account>)
      requires Increasing(swarmIds) && sw in swarms
      requires forall k :: k in swarms[sw] ==> k in sns && sns[k].swarm == sw
      requires forall a :: a in order ==> a in subscribers
      modifies this`sns
      ensures sns.Keys == old(sns).Keys
      ensures forall k :: k in sns ==>
        sns[k] == (if k in swarms[sw] then AddAll(RemovedStale(old(sns)[k], swarmIds), order, subscribers) else old(sns)[k])
    {
      EjectOnSwarm(sw);
      ghost var ejected := sns;
      for i := 0 to |order|
        invariant sns.Keys == ejected.Keys
        invariant forall k :: k in sns ==>
          sns[k] == (if k in swarms[sw] then AddAll(ejected[k], order[..i], subscribers) else ejected[k])
        invariant forall k :: k in swarms[sw] ==> sns[k].swarm == sw
      {
        assert order[i] in order && order[..i + 1][..i] == order[..i];
        AddOnSwarm(sw, subscribers[order[i]].pk);
      }
      assert order[..|order|] == order;
    }

    method EjectOnSwarm(sw: u64)
      requires Increasing(swarmIds) && sw in swarms && forall k :: k in swarms[sw] ==> k in sns
      modifies this`sns
      ensures sns.Keys == old(sns).Keys
      ensures forall k :: k in sns ==> sns[k] == if k in swarms[sw] then RemovedStale(old(sns)[k], swarmIds) else old(sns)[k]
    {
      var todo := swarms[sw];
      while todo != {}
        invariant todo <= swarms[sw] && sns.Keys == old(sns).Keys
        invariant forall k :: k in sns ==>
          sns[k] == (if k in swarms[sw] && k !in todo then RemovedStale(old(sns)[k], swarmIds) else old(sns)[k])
        decreases todo
      {
        var k :| k in todo;
        sns := sns[k := RemovedStale(sns[k], swarmIds)];
        todo := todo - {k};
      }
    }

    /** Adds one subscriber to the nodes of the swarm, if it is the subscriber's. */
    method AddOnSwarm(sw: u64, pk: SwarmPubkey)
      requires sw in swarms && forall k :: k in swarms[sw] ==> k in sns && sns[k].swarm == sw
      modifies this`sns
      ensures sns.Keys == old(sns).Keys
      ensures forall k :: k in sns ==> sns[k] == if k in swarms[sw] then AddIfHome(old(sns)[k], pk) else old(sns)[k]
      ensures forall k :: k in swarms[sw] ==> sns[k].swarm == sw
    {
      if pk.swarm == sw {
        var todo := swarms[sw];
        while todo != {}
          invariant todo <= swarms[sw] && sns.Keys == old(sns).Keys
          invariant forall k :: k in sns ==>
            sns[k] == (if k in swarms[sw] && k !in todo then AddIfHome(old(sns)[k], pk) else old(sns)[k])
          decreases todo
        {
          var k :| k in todo;
          sns := sns[k := AddedAccount(sns[k], pk, false)];
          todo := todo - {k};
        }
      }
    }
  }
}
