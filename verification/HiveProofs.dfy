/**
 What each operation of the hive keeps: the indexes and queues always (`CoreInv`), one account's
 coverage with its exact exceptions (`AccountInv`, `Settled`), one row's representation (`RowHeld`).
 */
module HiveProofs {
  import opened Common
  import opened SwarmSpace
  import opened Subscriptions
  import opened Queue
  import opened Drain
  import opened HiveState

  // ----- merging -----

  /** A merge never loses a representation and always represents the merged subscription. */
  lemma {:induction false} MergeKeeps(subs: seq<Subscription>, s: Subscription, r: Subscription)
    requires InMemory(subs, r) || Represents(s, r)
    ensures InMemory(Merge(subs, s), r)
  {
    var m := Merge(subs, s);
    if subs == [] {
      assert Represents(m[0], r);
    } else if Represents(subs[0], r) {
      assert Represents(m[0], r);
    } else if IsSame(subs[0], s) {
      if i :| 0 <= i < |subs| && Represents(subs[i], r) {
        assert m[i] == subs[i];
      } else {
        assert Represents(m[0], r);
      }
    } else {
      if i :| 0 <= i < |subs| && Represents(subs[i], r) {
        assert subs[1..][i - 1] == subs[i];
      }
      MergeKeeps(subs[1..], s, r);
      var j :| 0 <= j < |Merge(subs[1..], s)| && Represents(Merge(subs[1..], s)[j], r);
      assert m[j + 1] == Merge(subs[1..], s)[j];
    }
  }

  /** A plain subscription is never merged with anything: it is always appended. */
  lemma {:induction false} PlainIsAppended(subs: seq<Subscription>, s: Subscription)
    requires s.subaccount == None
    ensures Merge(subs, s) == subs + [s]
  {
    if subs != [] {
      PlainIsAppended(subs[1..], s);
      assert subs == [subs[0]] + subs[1..];
    }
  }

  /** No two entries ask the swarm for the same thing. */
  ghost predicate NoTwins(subs: seq<Subscription>) {
    forall i, j :: 0 <= i < j < |subs| ==> !IsSame(subs[i], subs[j])
  }

  /** Equal in everything but timestamp and signature. */
  predicate SameRequest(a: Subscription, b: Subscription) {
    a.subaccount == b.subaccount && a.namespaces == b.namespaces && a.wantData == b.wantData
  }

  /** Every entry of a merged list asks for what an old entry or the new one asks for. */
  lemma {:induction false} MergedFrom(subs: seq<Subscription>, s: Subscription, i: nat)
    requires i < |Merge(subs, s)|
    ensures if i < |subs| then SameRequest(Merge(subs, s)[i], subs[i]) else !HasSame(subs, s) && Merge(subs, s)[i] == s
  {
    if subs != [] && !IsSame(subs[0], s) && i > 0 {
      MergedFrom(subs[1..], s, i - 1);
    }
  }

  lemma MergeKeepsNoTwins(subs: seq<Subscription>, s: Subscription)
    requires NoTwins(subs)
    ensures NoTwins(Merge(subs, s))
  {
    var m := Merge(subs, s);
    forall i, j | 0 <= i < j < |m| ensures !IsSame(m[i], m[j]) {
      MergedFrom(subs, s, i);
      MergedFrom(subs, s, j);
    }
  }

  /** Without twins, only plain entries can ask for the same thing. */
  lemma RepeatsArePlain(subs: seq<Subscription>, i: nat, j: nat)
    requires NoTwins(subs) && i < j < |subs|
    requires SameTag(subs[i].subaccount, subs[j].subaccount)
    requires subs[i].namespaces == subs[j].namespaces && subs[i].wantData == subs[j].wantData
    ensures subs[i].subaccount == None == subs[j].subaccount
  {
    assert !IsSame(subs[i], subs[j]);
  }

  // ----- startup -----

  /** More than five seconds of the fourteen days are left, and the row is dated less than a day ahead. */
  predicate InDate(row: Subscription, clock: int) {
    clock - 14 * 24 * 3600 + 5 < row.sigTs < clock + 24 * 3600
  }

  /** Some row of the account was in date when the loader came to it. */
  predicate SomeLoaded(rows: seq<(RowKey, Subscription)>, clocks: seq<int>, a: Account)
    requires |rows| == |clocks|
  {
    exists i :: 0 <= i < |rows| && rows[i].0.acct == a && InDate(rows[i].1, clocks[i])
  }

  /** The subscribers after a load: exactly the accounts with a row in date, none assigned a swarm. */
  lemma {:induction false} LoadedAccounts(rows: seq<(RowKey, Subscription)>, clocks: seq<int>, a: Account)
    requires |rows| == |clocks| && Load(rows, clocks).Some?
    ensures var m := Load(rows, clocks).value;
            && (a in m <==> SomeLoaded(rows, clocks, a))
            && (a in m ==> m[a].pk == SwarmPubkey(a, INVALID_SWARM_ID) && NoTwins(m[a].subs))
  {
    if rows != [] {
      var last := |rows| - 1;
      var rows', clocks' := rows[..last], clocks[..last];
      LoadedAccounts(rows', clocks', a);
      var before := Load(rows', clocks').value;
      if i :| 0 <= i < last && rows'[i].0.acct == a && InDate(rows'[i].1, clocks'[i]) {
        assert rows[i] == rows'[i] && clocks[i] == clocks'[i];
      }
      if i :| 0 <= i < |rows| && rows[i].0.acct == a && InDate(rows[i].1, clocks[i]) {
        if i < last {
          assert rows[i] == rows'[i] && clocks[i] == clocks'[i];
        }
      }
      if rows[last].0.acct == a {
        MergeKeepsNoTwins(SubsOf(before, a), rows[last].1);
      }
    }
  }

  /** Each row that was not skipped is represented, whatever happened to the others. */
  lemma {:induction false} LoadHoldsRow(rows: seq<(RowKey, Subscription)>, clocks: seq<int>, i: nat)
    requires |rows| == |clocks| && Load(rows, clocks).Some? && i < |rows| && InDate(rows[i].1, clocks[i])
    ensures InMemory(SubsOf(Load(rows, clocks).value, rows[i].0.acct), rows[i].1)
  {
    var last := |rows| - 1;
    var before := Load(rows[..last], clocks[..last]).value;
    if i < last {
      assert rows[..last][i] == rows[i] && clocks[..last][i] == clocks[i];
      LoadHoldsRow(rows[..last], clocks[..last], i);
    }
    if rows[i].0.acct == rows[last].0.acct {
      MergeKeeps(SubsOf(before, rows[i].0.acct), rows[last].1, rows[i].1);
    }
  }

  lemma {:induction false} MergedHasSame(subs: seq<Subscription>, s: Subscription, r: Subscription)
    ensures HasSame(Merge(subs, s), r) <==> HasSame(subs, r) || IsSame(s, r)
  {
    var m := Merge(subs, s);
    if subs == [] {
      assert m[0] == s;
      assert IsSame(s, r) ==> IsSame(m[0], r);
    } else if IsSame(subs[0], s) {
      HasSameFront(subs, r);
      HasSameFront(m, r);
      assert m[1..] == subs[1..];
    } else {
      MergedHasSame(subs[1..], s, r);
      HasSameFront(subs, r);
      HasSameFront(m, r);
      assert m[1..] == Merge(subs[1..], s);
    }
  }

  lemma HasSameFront(subs: seq<Subscription>, r: Subscription)
    requires subs != []
    ensures HasSame(subs, r) <==> IsSame(subs[0], r) || HasSame(subs[1..], r)
  {
    var rest := subs[1..];
    if i :| 0 <= i < |subs| && IsSame(subs[i], r) && i > 0 {
      assert rest[i - 1] == subs[i];
    }
    if i :| 0 <= i < |rest| && IsSame(rest[i], r) {
      assert subs[i + 1] == rest[i];
    }
  }

  /** A row before the i-th is in date and would be merged with `r` of the account `a`. */
  predicate Precedes(rows: seq<(RowKey, Subscription)>, clocks: seq<int>, i: nat, a: Account, r: Subscription)
    requires i <= |rows| == |clocks|
  {
    exists j :: 0 <= j < i && rows[j].0.acct == a && InDate(rows[j].1, clocks[j]) && IsSame(rows[j].1, r)
  }

  lemma PrecedesNext(rows: seq<(RowKey, Subscription)>, clocks: seq<int>, i: nat, a: Account, r: Subscription)
    requires i < |rows| == |clocks|
    ensures Precedes(rows, clocks, i + 1, a, r) <==>
            || Precedes(rows, clocks, i, a, r)
            || (rows[i].0.acct == a && InDate(rows[i].1, clocks[i]) && IsSame(rows[i].1, r))
  {
  }

  lemma PrecedesInPrefix(rows: seq<(RowKey, Subscription)>, clocks: seq<int>, i: nat, n: nat, a: Account, r: Subscription)
    requires i <= n <= |rows| == |clocks|
    ensures Precedes(rows[..n], clocks[..n], i, a, r) <==> Precedes(rows, clocks, i, a, r)
  {
    var rows', clocks' := rows[..n], clocks[..n];
    assert forall j :: 0 <= j < i ==> rows'[j] == rows[j] && clocks'[j] == clocks[j];
  }

  /** What the loader holds for an account: exactly what its rows in date ask for. */
  lemma {:induction false} LoadedSame(rows: seq<(RowKey, Subscription)>, clocks: seq<int>, a: Account, r: Subscription)
    requires |rows| == |clocks| && Load(rows, clocks).Some?
    ensures HasSame(SubsOf(Load(rows, clocks).value, a), r) <==> Precedes(rows, clocks, |rows|, a, r)
  {
    if rows != [] {
      var last := |rows| - 1;
      var before := Load(rows[..last], clocks[..last]).value;
      LoadedSame(rows[..last], clocks[..last], a, r);
      PrecedesInPrefix(rows, clocks, last, last, a, r);
      PrecedesNext(rows, clocks, last, a, r);
      if rows[last].0.acct == a {
        MergedHasSame(SubsOf(before, a), rows[last].1, r);
      }
    }
  }

  /** The i-th row is constructed rather than skipped or merged, and its data is not acceptable. */
  predicate Spoils(rows: seq<(RowKey, Subscription)>, clocks: seq<int>, i: nat)
    requires i < |rows| == |clocks|
  {
    var row := rows[i].1;
    && InDate(row, clocks[i])
    && !Precedes(rows, clocks, i, rows[i].0.acct, row)
    && (row.sigTs == 0 || row.namespaces == [] || exists p, q :: 0 <= p < q < |row.namespaces| && row.namespaces[p] >= row.namespaces[q])
  }

  /**
   A load succeeds if and only if no row spoils it: the first row in date of each kind has a
   timestamp and a strictly ascending, non-empty namespace list.
   */
  lemma {:induction false} LoadSucceedsIff(rows: seq<(RowKey, Subscription)>, clocks: seq<int>)
    requires |rows| == |clocks|
    ensures Load(rows, clocks).Some? <==> forall i :: 0 <= i < |rows| ==> !Spoils(rows, clocks, i)
  {
    if rows != [] {
      var last := |rows| - 1;
      var rows', clocks' := rows[..last], clocks[..last];
      LoadSucceedsIff(rows', clocks');
      forall i | 0 <= i < last ensures Spoils(rows', clocks', i) <==> Spoils(rows, clocks, i) {
        PrecedesInPrefix(rows, clocks, i, last, rows[i].0.acct, rows[i].1);
        assert rows'[i] == rows[i] && clocks'[i] == clocks[i];
      }
      if Load(rows', clocks').Some? {
        LastRowSpoils(rows, clocks);
      }
    }
  }

  lemma LastRowSpoils(rows: seq<(RowKey, Subscription)>, clocks: seq<int>)
    requires |rows| == |clocks| && rows != [] && Load(rows[..|rows| - 1], clocks[..|rows| - 1]).Some?
    ensures Load(rows, clocks).Some? <==> !Spoils(rows, clocks, |rows| - 1)
  {
    var last := |rows| - 1;
    var a, row := rows[last].0.acct, rows[last].1;
    LoadedSame(rows[..last], clocks[..last], a, row);
    PrecedesInPrefix(rows, clocks, last, last, a, row);
    assert Skipped(row, clocks[last]) <==> !InDate(row, clocks[last]);
  }

  /** The rows are those of the database. */
  ghost predicate Lists(rows: seq<(RowKey, Subscription)>, db: map<RowKey, Subscription>) {
    && (forall rk :: rk in db ==> exists i :: 0 <= i < |rows| && rows[i] == (rk, db[rk]))
    && (forall i :: 0 <= i < |rows| ==> rows[i].0 in db && db[rows[i].0] == rows[i].1)
  }

  lemma StartKeepsCore(db: map<RowKey, Subscription>, rows: seq<(RowKey, Subscription)>, clocks: seq<int>)
    requires |rows| == |clocks| && Load(rows, clocks).Some?
    ensures CoreInv(Started(db, Load(rows, clocks).value))
  {
    var m := Load(rows, clocks).value;
    forall a | a in m ensures m[a].pk.acct == a {
      LoadedAccounts(rows, clocks, a);
    }
  }

  /** An account starts well if and only if it has no row, or some row of it was not skipped. */
  lemma AccountInvAtStart(db: map<RowKey, Subscription>, rows: seq<(RowKey, Subscription)>, clocks: seq<int>, a: Account)
    requires |rows| == |clocks| && Lists(rows, db) && Load(rows, clocks).Some?
    ensures AccountInv(Started(db, Load(rows, clocks).value), a) <==>
            (forall rk :: rk in db ==> rk.acct != a) || SomeLoaded(rows, clocks, a)
  {
    LoadedAccounts(rows, clocks, a);
    assert Home([], a) == INVALID_SWARM_ID;
  }

  // ----- additions -----

  lemma CommitKeepsAccount(h: Hive, rk: RowKey, sub: Subscription, a: Account)
    requires CoreInv(h) && AccountInv(h, a)
    ensures AccountInv(Commit(h, rk, sub), a)
  {
    var h', n := Commit(h, rk, sub), |h.pending|;
    assert h'.pending[n] == Pending(rk.acct, sub, rk !in h.db);
    if PendingNew(h.pending, a) {
      var i :| 0 <= i < n && h.pending[i].isNew && h.pending[i].acct == a;
      assert h'.pending[i] == h.pending[i];
    }
    if r :| r in h'.db && r.acct == a && r != rk {
      assert r in h.db;
    }
    if i :| 0 <= i < |h'.pending| && h'.pending[i].acct == a && i < n {
      assert h'.pending[i] == h.pending[i];
    }
  }

  /** A committed row awaits its merge; a row held before is still held. */
  lemma CommitHoldsRow(h: Hive, rk: RowKey, sub: Subscription, r: RowKey)
    requires r == rk || (r in h.db && RowHeld(h, r))
    ensures RowHeld(Commit(h, rk, sub), r)
  {
    var h', n := Commit(h, rk, sub), |h.pending|;
    assert h'.pending[n] == Pending(rk.acct, sub, rk !in h.db);
    if r != rk && AwaitingMerge(h.pending, r.acct, h.db[r]) {
      var i :| 0 <= i < n && h.pending[i].acct == r.acct && Represents(h.pending[i].sub, h.db[r]);
      assert h'.pending[i] == h.pending[i];
    }
  }

  /** Apart from the applied one, the pending additions are the same. */
  lemma PendingWithout(pending: seq<Pending>, i: nat, j: nat)
    requires i < |pending| && j < |pending| && i != j
    ensures pending[j] in pending[..i] + pending[i + 1..]
  {
    var rest := pending[..i] + pending[i + 1..];
    assert if j < i then rest[j] == pending[j] else rest[j - 1] == pending[j];
  }

  lemma ApplyKeepsPendingNew(h: Hive, i: nat, a: Account)
    requires Increasing(h.ids) && i < |h.pending| && PendingNew(h.pending, a)
    requires h.pending[i].acct != a || !h.pending[i].isNew
    ensures PendingNew(Apply(h, i).pending, a)
  {
    var j :| 0 <= j < |h.pending| && h.pending[j].isNew && h.pending[j].acct == a;
    PendingWithout(h.pending, i, j);
  }

  lemma ApplyHoldsRow(h: Hive, i: nat, rk: RowKey)
    requires Increasing(h.ids) && i < |h.pending| && rk in h.db && RowHeld(h, rk)
    ensures RowHeld(Apply(h, i), rk)
  {
    var p := h.pending[i];
    if rk.acct == p.acct && (InMemory(SubsOf(h.members, rk.acct), h.db[rk]) || Represents(p.sub, h.db[rk])) {
      MergeKeeps(SubsOf(h.members, p.acct), p.sub, h.db[rk]);
    } else if !InMemory(SubsOf(h.members, rk.acct), h.db[rk]) {
      var j :| 0 <= j < |h.pending| && h.pending[j].acct == rk.acct && Represents(h.pending[j].sub, h.db[rk]);
      PendingWithout(h.pending, i, j);
    }
  }

  /** A forced addition reaches exactly the nodes of the account's swarm. */
  lemma ForcedIndex(nodes: map<Key, Node>, swarms: map<u64, set<Key>>, pk: SwarmPubkey)
    requires IndexInv(nodes, swarms)
    ensures var keys := SwarmOf(swarms, pk.swarm); var nodes' := Forced(nodes, keys, pk);
            && IndexInv(nodes', swarms[pk.swarm := keys]) && nodes'.Keys == nodes.Keys && Covered(nodes', pk)
            && forall k :: k in nodes ==> nodes'[k].swarm == nodes[k].swarm && nodes[k].subs.Keys <= nodes'[k].subs.Keys
  {
    var keys := SwarmOf(swarms, pk.swarm);
    assert forall k :: k in nodes ==> (k in keys <==> nodes[k].swarm == pk.swarm);
  }

  lemma ForcedNodes(nodes: map<Key, Node>, swarms: map<u64, set<Key>>, members: Subscribers, pk: SwarmPubkey)
    requires IndexInv(nodes, swarms) && NodesInv(nodes, members) && pk.acct in members
    ensures NodesInv(Forced(nodes, SwarmOf(swarms, pk.swarm), pk), members)
  {
    var keys := SwarmOf(swarms, pk.swarm);
    var nodes' := Forced(nodes, keys, pk);
    forall k | k in nodes ensures NodeInv(nodes'[k]) && nodes'[k].subs.Keys <= members.Keys {
      if k in keys {
        AddKeepsInv(nodes[k], pk, true);
      }
    }
  }

  lemma NodesInvMono(nodes: map<Key, Node>, members: Subscribers, members': Subscribers)
    requires NodesInv(nodes, members) && members.Keys <= members'.Keys
    ensures NodesInv(nodes, members')
  {
  }

  lemma ApplyKeepsNodes(h: Hive, i: nat)
    requires CoreInv(h) && i < |h.pending|
    ensures NodesInv(Apply(h, i).nodes, Apply(h, i).members)
  {
    var members', p := Apply(h, i).members, h.pending[i];
    NodesInvMono(h.nodes, h.members, members');
    if p.isNew {
      ForcedNodes(h.nodes, h.swarms, members', SwarmPubkey(p.acct, Home(h.ids, p.acct)));
    }
  }

  lemma ApplyKeepsIndex(h: Hive, i: nat)
    requires CoreInv(h) && i < |h.pending|
    ensures IndexInv(Apply(h, i).nodes, Apply(h, i).swarms)
  {
    ForcedIndex(h.nodes, h.swarms, SwarmPubkey(h.pending[i].acct, Home(h.ids, h.pending[i].acct)));
  }

  lemma ApplyKeepsKeyed(h: Hive, i: nat)
    requires Increasing(h.ids) && Keyed(h.members) && i < |h.pending|
    ensures Keyed(Apply(h, i).members)
  {
  }

  lemma ApplyKeepsCore(h: Hive, i: nat)
    requires CoreInv(h) && i < |h.pending|
    ensures CoreInv(Apply(h, i))
  {
    ApplyKeepsNodes(h, i);
    ApplyKeepsIndex(h, i);
    ApplyKeepsKeyed(h, i);
  }

  /** A settled account stays settled; a new row settles any account that was not yet a subscriber. */
  lemma ApplySettles(h: Hive, i: nat, a: Account)
    requires CoreInv(h) && i < |h.pending|
    requires Settled(h, a) || (a == h.pending[i].acct && h.pending[i].isNew && (a in h.members ==> Assigned(h, a)))
    ensures Settled(Apply(h, i), a)
  {
    ForcedIndex(h.nodes, h.swarms, SwarmPubkey(h.pending[i].acct, Home(h.ids, h.pending[i].acct)));
  }

  lemma ApplyKeepsNames(h: Hive, i: nat, a: Account)
    requires Increasing(h.ids) && i < |h.pending| && Named(Apply(h, i), a)
    ensures Named(h, a)
  {
    var rest := Apply(h, i).pending;
    if j :| 0 <= j < |rest| && rest[j].acct == a {
      assert rest[j] == h.pending[if j < i then j else j + 1];
    }
  }

  lemma ApplyKeepsUnsettled(h: Hive, i: nat, a: Account)
    requires CoreInv(h) && AccountInv(h, a) && i < |h.pending| && PendingNew(h.pending, a)
    requires h.pending[i].acct != a || !h.pending[i].isNew
    ensures AccountInv(Apply(h, i), a)
  {
    ApplyKeepsPendingNew(h, i, a);
  }

  lemma SettledIsSound(h: Hive, a: Account)
    requires Settled(h, a)
    ensures AccountInv(h, a)
  {
  }

  lemma ApplyKeepsAccount(h: Hive, i: nat, a: Account)
    requires CoreInv(h) && AccountInv(h, a) && i < |h.pending|
    ensures AccountInv(Apply(h, i), a)
  {
    var p := h.pending[i];
    if Settled(h, a) || (a == p.acct && p.isNew) {
      ApplySettles(h, i, a);
      SettledIsSound(Apply(h, i), a);
    } else if PendingNew(h.pending, a) {
      ApplyKeepsUnsettled(h, i, a);
    } else {
      assert a != p.acct by {
        assert a == p.acct ==> Named(h, a);
      }
      if Named(Apply(h, i), a) {
        ApplyKeepsNames(h, i, a);
      }
    }
  }

  /**
   What goes wrong when an account is not known: if a row that the loader skipped is renewed, the
   account enters `subscribers_` and nobody is told. It is covered exactly when its swarm has no nodes.
   */
  lemma RenewalOfSkippedRow(h: Hive, i: nat)
    requires CoreInv(h)
    requires i < |h.pending| && !h.pending[i].isNew && h.pending[i].acct !in h.members
    ensures var h', a := Apply(h, i), h.pending[i].acct;
            && a in h'.members
            && (Covered(h'.nodes, h'.members[a].pk) <==> SwarmOf(h.swarms, Home(h.ids, a)) == {})
  {
    var a := h.pending[i].acct;
    var keys := SwarmOf(h.swarms, Home(h.ids, a));
    if keys != {} {
      var k :| k in keys;
      assert k in h.nodes && h.nodes[k].swarm == Home(h.ids, a);
      assert a !in h.nodes[k].subs;
    }
  }

  lemma ForcedOthers(nodes: map<Key, Node>, keys: set<Key>, pk: SwarmPubkey, other: SwarmPubkey)
    requires other.acct != pk.acct
    ensures Covered(Forced(nodes, keys, pk), other) <==> Covered(nodes, other)
  {
    var nodes' := Forced(nodes, keys, pk);
    assert forall k :: k in nodes ==> nodes'[k].swarm == nodes[k].swarm;
    if Covered(nodes', other) {
      forall k | k in nodes && nodes[k].swarm == other.swarm ensures other.acct in nodes[k].subs {
        assert k in nodes' && other.acct in nodes'[k].subs;
      }
    }
  }

  /** An addition leaves the other accounts as they were. */
  lemma ApplyKeepsOthers(h: Hive, i: nat, a: Account)
    requires CoreInv(h) && i < |h.pending| && h.pending[i].acct != a
    ensures Settled(Apply(h, i), a) <==> Settled(h, a)
  {
    var pk := SwarmPubkey(h.pending[i].acct, Home(h.ids, h.pending[i].acct));
    if a in h.members {
      ForcedOthers(h.nodes, SwarmOf(h.swarms, pk.swarm), pk, h.members[a].pk);
    }
  }

  /** The account that an addition is about, and whose swarm it may or may not tell. */
  ghost predicate Introduced(h: Hive, i: nat, a: Account)
    requires Increasing(h.ids) && i < |h.pending|
  {
    var p := h.pending[i];
    && p.acct == a
    && if a in h.members then p.isNew && Assigned(h, a) else p.isNew || SwarmOf(h.swarms, Home(h.ids, a)) == {}
  }

  /** Whether an addition leaves an account settled, whatever state it was in before. */
  lemma ApplySettlesIff(h: Hive, i: nat, a: Account)
    requires CoreInv(h) && i < |h.pending|
    ensures Settled(Apply(h, i), a) <==> Settled(h, a) || Introduced(h, i, a)
  {
    var p := h.pending[i];
    if p.acct != a {
      ApplyKeepsOthers(h, i, a);
    } else if Settled(h, a) || (p.isNew && (a in h.members ==> Assigned(h, a))) {
      ApplySettles(h, i, a);
    } else if !p.isNew && a !in h.members {
      RenewalOfSkippedRow(h, i);
    }
  }

  // ----- deletions -----

  /**
   Deleting rows, which is all that a removal, a dropped registration and the periodic cleanup do,
   disturbs no account and no remaining row; memory is left alone.
   */
  lemma DeleteKeeps(h: Hive, db': map<RowKey, Subscription>, a: Account, rk: RowKey)
    requires forall r :: r in db' ==> r in h.db && db'[r] == h.db[r]
    requires CoreInv(h)
    ensures CoreInv(h.(db := db'))
    ensures AccountInv(h, a) ==> AccountInv(h.(db := db'), a)
    ensures rk in db' && RowHeld(h, rk) ==> RowHeld(h.(db := db'), rk)
  {
    var h' := h.(db := db');
    assert Named(h', a) ==> Named(h, a);
  }

  /** A row that the cleanup deletes is of no use any more: never accepted, loaded or submitted again. */
  lemma CleanedIsExpired(h: Hive, now: int, rk: RowKey, later: int)
    requires rk in h.db && rk !in Cleanup(h, now).db && later >= now
    ensures !Acceptable(h.db[rk].namespaces, h.db[rk].sigTs, later) && !InDate(h.db[rk], later)
    ensures !InWindow(h.db[rk], later * 1_000_000_000)
  {
  }

  // ----- the service node reply: indexes and queues -----

  lemma {:induction false} AddAllKeys(n: Node, order: seq<Account>, members: Subscribers)
    requires forall a :: a in order ==> a in members && members[a].pk.acct == a
    ensures AddAll(n, order, members).swarm == n.swarm
    ensures AddAll(n, order, members).subs.Keys == n.subs.Keys + set a | a in order && members[a].pk.swarm == n.swarm
  {
    if order != [] {
      var front, last := order[..|order| - 1], order[|order| - 1];
      assert order == front + [last];
      AddAllKeys(n, front, members);
    }
  }

  lemma {:induction false} AddAllInv(n: Node, order: seq<Account>, members: Subscribers)
    requires NodeInv(n) && forall a :: a in order ==> a in members && members[a].pk.acct == a
    ensures NodeInv(AddAll(n, order, members)) && AddAll(n, order, members).swarm == n.swarm
  {
    if order != [] {
      var front, last := order[..|order| - 1], order[|order| - 1];
      assert last in order && forall a :: a in front ==> a in order;
      AddAllInv(n, front, members);
      if members[last].pk.swarm == n.swarm {
        AddKeepsInv(AddAll(n, front, members), members[last].pk, false);
      }
    }
  }

  lemma BaseNodesInv(nodes: map<Key, Node>, usable: map<Key, u64>, members: Subscribers)
    requires NodesInv(nodes, members)
    ensures NodesInv(BaseNodes(nodes, usable), members)
  {
    var none: map<Account, u64> := map[];
    assert LiveIds([]) == multiset(none.Keys);
  }

  /** The recheck keeps every node sound. */
  lemma RecheckedInv(base: map<Key, Node>, ids: seq<u64>, order: seq<Account>, members: Subscribers)
    requires Increasing(ids) && NodesInv(base, members)
    requires forall a :: a in order ==> a in members && members[a].pk.acct == a
    ensures NodesInv(Rechecked(base, ids, order, members), members)
  {
    forall k | k in base
      ensures var n := Rechecked(base, ids, order, members)[k]; NodeInv(n) && n.subs.Keys <= members.Keys
    {
      NothingIsEjected(base[k], ids);
      AddAllInv(RemovedStale(base[k], ids), order, members);
      AddAllKeys(RemovedStale(base[k], ids), order, members);
    }
  }

  ghost predicate Enumerates(order: seq<Account>, members: Subscribers) {
    multiset(order) == multiset(members.Keys) && forall a :: a in order ==> a in members
  }

  lemma EnumeratesAll(order: seq<Account>, members: Subscribers, a: Account)
    requires Enumerates(order, members) && a in members
    ensures a in order
  {
    assert a in multiset(members.Keys);
    assert a in multiset(order);
  }

  /** After the recheck every node monitors all the accounts of its swarm. */
  lemma RecheckedCovers(base: map<Key, Node>, ids: seq<u64>, order: seq<Account>, members: Subscribers, a: Account)
    requires Increasing(ids) && Enumerates(order, members)
    requires (forall b :: b in members ==> members[b].pk.acct == b) && a in members
    ensures Covered(Rechecked(base, ids, order, members), members[a].pk)
  {
    EnumeratesAll(order, members, a);
    forall k | k in base && Rechecked(base, ids, order, members)[k].swarm == members[a].pk.swarm
      ensures a in Rechecked(base, ids, order, members)[k].subs
    {
      AddAllKeys(RemovedStale(base[k], ids), order, members);
    }
  }

  lemma RecheckKeepsNodes(nodes: map<Key, Node>, usable: map<Key, u64>, ids: seq<u64>, order: seq<Account>,
                          members: Subscribers, members': Subscribers)
    requires Increasing(ids) && NodesInv(nodes, members) && members'.Keys == members.Keys
    requires forall a :: a in order ==> a in members && members'[a].pk.acct == a
    ensures NodesInv(Rechecked(BaseNodes(nodes, usable), ids, order, members'), members')
  {
    BaseNodesInv(nodes, usable, members);
    NodesInvMono(BaseNodes(nodes, usable), members, members');
    RecheckedInv(BaseNodes(nodes, usable), ids, order, members');
  }

  lemma WithNodesKeepsNodes(h: Hive, idsChanged: bool, usable: map<Key, u64>, order: seq<Account>)
    requires Increasing(h.ids) && NodesInv(h.nodes, h.members) && Keyed(h.members) && Enumerates(order, h.members)
    ensures NodesInv(WithNodes(h, idsChanged, usable, order).nodes, WithNodes(h, idsChanged, usable, order).members)
  {
    if idsChanged || Touched(h.nodes, usable) {
      var members := Refreshed(h.members, h.ids);
      assert members.Keys == h.members.Keys;
      RecheckKeepsNodes(h.nodes, usable, h.ids, order, h.members, members);
    } else {
      BaseNodesInv(h.nodes, usable, h.members);
    }
  }

  lemma SameSwarmsSameIndex(base: map<Key, Node>, nodes: map<Key, Node>, usable: map<Key, u64>)
    requires base.Keys == nodes.Keys == usable.Keys
    requires forall k :: k in nodes ==> nodes[k].swarm == usable[k]
    ensures IndexInv(nodes, SwarmIndex(usable))
  {
  }

  lemma RecheckKeepsSwarms(nodes: map<Key, Node>, usable: map<Key, u64>, ids: seq<u64>, order: seq<Account>, members: Subscribers)
    requires Increasing(ids) && forall a :: a in order ==> a in members && members[a].pk.acct == a
    ensures var nodes' := Rechecked(BaseNodes(nodes, usable), ids, order, members);
            nodes'.Keys == usable.Keys && forall k :: k in usable ==> nodes'[k].swarm == usable[k]
  {
    var base := BaseNodes(nodes, usable);
    forall k | k in base ensures Rechecked(base, ids, order, members)[k].swarm == base[k].swarm {
      AddAllKeys(RemovedStale(base[k], ids), order, members);
    }
  }

  lemma WithNodesIndex(h: Hive, idsChanged: bool, usable: map<Key, u64>, order: seq<Account>)
    requires Increasing(h.ids) && Keyed(h.members) && Enumerates(order, h.members)
    ensures var h' := WithNodes(h, idsChanged, usable, order);
            && IndexInv(h'.nodes, h'.swarms) && h'.nodes.Keys == usable.Keys && h'.swarms == SwarmIndex(usable)
            && (forall k :: k in h'.nodes ==> h'.nodes[k].swarm == usable[k])
  {
    var h' := WithNodes(h, idsChanged, usable, order);
    if idsChanged || Touched(h.nodes, usable) {
      RecheckKeepsSwarms(h.nodes, usable, h.ids, order, h'.members);
    }
    SameSwarmsSameIndex(BaseNodes(h.nodes, usable), h'.nodes, usable);
  }

  lemma WithNodesKeepsCore(h: Hive, idsChanged: bool, usable: map<Key, u64>, order: seq<Account>)
    requires CoreInv(h) && Enumerates(order, h.members)
    ensures CoreInv(WithNodes(h, idsChanged, usable, order))
  {
    WithNodesKeepsNodes(h, idsChanged, usable, order);
    WithNodesIndex(h, idsChanged, usable, order);
  }

  lemma PartialNodesInv(nodes: map<Key, Node>, usable: map<Key, u64>, placed: set<Key>, members: Subscribers)
    requires NodesInv(nodes, members)
    ensures NodesInv(PartialNodes(nodes, usable, placed), members)
  {
    BaseNodesInv(nodes, usable, members);
    assert forall k :: k in usable ==> BaseNodes(nodes, usable)[k] == BaseNode(nodes, k, usable[k]);
  }

  /** Even a loop that breaks off leaves sound indexes and queues. */
  lemma WithSomeKeepsCore(h: Hive, usable: map<Key, u64>, placed: set<Key>)
    requires CoreInv(h)
    ensures CoreInv(WithSome(h, usable, placed))
  {
    PartialNodesInv(h.nodes, usable, placed, h.members);
    var nodes := PartialNodes(h.nodes, usable, placed);
    var sws := h.swarms.Keys + set k | k in placed && k in usable :: usable[k];
    forall k | k in nodes ensures nodes[k].swarm in sws {
      if k in placed {
        assert usable[k] in sws;
      }
    }
  }

  /** Any reply, however it ends, keeps the indexes and queues sound. */
  lemma ReplyKeepsCore(h: Hive, r: Reply, order: seq<Account>, stop: Option<set<Key>>)
    requires CoreInv(h) && Enumerates(order, h.members)
    ensures CoreInv(AfterReply(h, r, order, stop))
  {
    var h1 := WithIds(h, r);
    if Passes(h, r) && AllReadable(r.entries) {
      var usable := Usable(r.entries);
      if stop.Some? {
        WithSomeKeepsCore(h1, usable, stop.value);
      } else {
        WithNodesKeepsCore(h1, h1.ids != h.ids, usable, order);
      }
    }
  }

  // ----- the service node reply: subscriptions and rows -----

  /** Only the cached swarms of subscribers may differ. */
  ghost predicate SameSubscriptions(h: Hive, h': Hive) {
    && h'.db == h.db && h'.pending == h.pending && h'.members.Keys == h.members.Keys
    && forall a :: a in h.members ==> h'.members[a].subs == h.members[a].subs
  }

  lemma WithNodesKeepsSubscriptions(h: Hive, idsChanged: bool, usable: map<Key, u64>, order: seq<Account>)
    requires Increasing(h.ids) && forall a :: a in order ==> a in h.members
    ensures SameSubscriptions(h, WithNodes(h, idsChanged, usable, order))
  {
    assert Refreshed(h.members, h.ids).Keys == h.members.Keys;
  }

  lemma ReplyKeepsSubscriptions(h: Hive, r: Reply, order: seq<Account>, stop: Option<set<Key>>)
    requires Increasing(h.ids) && (forall a :: a in order ==> a in h.members)
    ensures SameSubscriptions(h, AfterReply(h, r, order, stop))
  {
    var h1 := WithIds(h, r);
    if Passes(h, r) && AllReadable(r.entries) && stop.None? {
      WithNodesKeepsSubscriptions(h1, h1.ids != h.ids, Usable(r.entries), order);
    }
  }

  // ----- the service node reply: coverage -----

  /** The reply is processed to its end. */
  predicate Completed(h: Hive, r: Reply, stop: Option<set<Key>>) {
    Passes(h, r) && AllReadable(r.entries) && stop.None?
  }

  /** A completed reply after which swarm membership is rechecked: the ids changed, or a node is new or moved. */
  predicate Rechecks(h: Hive, r: Reply, stop: Option<set<Key>>)
    requires Increasing(h.ids)
  {
    Completed(h, r, stop) && (WithIds(h, r).ids != h.ids || Touched(h.nodes, Usable(r.entries)))
  }

  /** A recheck settles every subscriber, whatever state its swarm and its nodes were in before. */
  lemma RecheckSettles(h: Hive, r: Reply, order: seq<Account>, stop: Option<set<Key>>, a: Account)
    requires Increasing(h.ids) && Keyed(h.members) && Enumerates(order, h.members)
    requires Rechecks(h, r, stop) && a in h.members
    ensures Settled(AfterReply(h, r, order, stop), a)
  {
    var h1 := WithIds(h, r);
    RecheckedCovers(BaseNodes(h1.nodes, Usable(r.entries)), h1.ids, order, Refreshed(h1.members, h1.ids), a);
  }

  /** A completed reply without a recheck repairs nothing: it only forgets nodes. */
  lemma QuietReplyOnlyForgets(h: Hive, r: Reply, order: seq<Account>, stop: Option<set<Key>>)
    requires Increasing(h.ids) && Enumerates(order, h.members)
    requires Completed(h, r, stop) && !Rechecks(h, r, stop)
    ensures var h' := AfterReply(h, r, order, stop);
            && h'.members == h.members && h'.ids == h.ids
            && h'.nodes == map k | k in h.nodes && k in Usable(r.entries) :: h.nodes[k]
  {
    var usable := Usable(r.entries);
    assert forall k :: k in usable ==> !Moves(h.nodes, k, usable[k]);
  }

  /** The reply leaves the account's closest id as it is. */
  predicate KeepsHome(h: Hive, r: Reply, a: Account)
    requires Increasing(h.ids)
  {
    Renews(h, r) ==> Home(IdsOf(r.entries), a) == Home(h.ids, a)
  }

  /** The placing loop breaks off after putting a node, emptied or new, into the swarm `sw`. */
  predicate Bares(h: Hive, r: Reply, stop: Option<set<Key>>, sw: u64) {
    && Passes(h, r) && AllReadable(r.entries) && stop.Some?
    && exists k :: k in Usable(r.entries) && k in stop.value && Usable(r.entries)[k] == sw && Moves(h.nodes, k, sw)
  }

  /** An account is covered where the loop broke off if no node bares its swarm and the nodes that stayed monitor it. */
  lemma PartialCovers(nodes: map<Key, Node>, usable: map<Key, u64>, placed: set<Key>, pk: SwarmPubkey)
    ensures Covered(PartialNodes(nodes, usable, placed), pk) <==>
            && !(exists k :: k in usable && k in placed && usable[k] == pk.swarm && Moves(nodes, k, pk.swarm))
            && forall k :: k in nodes && nodes[k].swarm == pk.swarm && StaysPut(nodes, usable, placed, k) ==> pk.acct in nodes[k].subs
  {
    var nodes' := PartialNodes(nodes, usable, placed);
    assert forall k :: k in nodes && StaysPut(nodes, usable, placed, k) ==> k in nodes' && nodes'[k] == nodes[k];
    if k :| k in usable && k in placed && usable[k] == pk.swarm && Moves(nodes, k, pk.swarm) {
      assert k in nodes' && nodes'[k].swarm == pk.swarm && pk.acct !in nodes'[k].subs;
    }
  }

  /** A node that is still listed, in its old swarm or not visited yet. */
  predicate StaysPut(nodes: map<Key, Node>, usable: map<Key, u64>, placed: set<Key>, k: Key)
    requires k in nodes
  {
    k in usable && (usable[k] == nodes[k].swarm || k !in placed)
  }

  /** After a reply that was not completed, members are as before and coverage fails only where nodes were bared. */
  lemma AbortedReply(h: Hive, r: Reply, order: seq<Account>, stop: Option<set<Key>>, a: Account)
    requires Increasing(h.ids) && Enumerates(order, h.members)
    requires !Completed(h, r, stop) && a in h.members
    ensures var h' := AfterReply(h, r, order, stop);
            && h'.members == h.members
            && (Assigned(h, a) ==> (Assigned(h', a) <==> KeepsHome(h, r, a)))
            && (Covered(h.nodes, h.members[a].pk) ==>
                  (Covered(h'.nodes, h.members[a].pk) <==> !Bares(h, r, stop, h.members[a].pk.swarm)))
  {
    if Passes(h, r) && AllReadable(r.entries) && Covered(h.nodes, h.members[a].pk) {
      PartialCovers(h.nodes, Usable(r.entries), stop.value, h.members[a].pk);
    }
  }

  /** A settled account stays settled in a completed reply. */
  lemma CompletedKeepsSettled(h: Hive, r: Reply, order: seq<Account>, stop: Option<set<Key>>, a: Account)
    requires CoreInv(h) && Enumerates(order, h.members) && Completed(h, r, stop) && Settled(h, a)
    ensures Settled(AfterReply(h, r, order, stop), a)
  {
    if Rechecks(h, r, stop) {
      RecheckSettles(h, r, order, stop, a);
    } else {
      QuietReplyOnlyForgets(h, r, order, stop);
    }
  }

  /** The reply is completed, or it neither changes the account's closest id nor bares its swarm. */
  predicate Spares(h: Hive, r: Reply, stop: Option<set<Key>>, a: Account)
    requires Increasing(h.ids)
  {
    a in h.members && !Completed(h, r, stop) ==> KeepsHome(h, r, a) && !Bares(h, r, stop, h.members[a].pk.swarm)
  }

  /** A settled account stays settled if and only if the reply spares it. */
  lemma ReplyKeepsSettledIffSpared(h: Hive, r: Reply, order: seq<Account>, stop: Option<set<Key>>, a: Account)
    requires CoreInv(h) && Enumerates(order, h.members) && Settled(h, a)
    ensures Settled(AfterReply(h, r, order, stop), a) <==> Spares(h, r, stop, a)
  {
    if Completed(h, r, stop) {
      CompletedKeepsSettled(h, r, order, stop, a);
    } else {
      AbortedReply(h, r, order, stop, a);
    }
  }

  /** The node `k` keeps its place and state through a reply that triggers no recheck. */
  predicate Remains(h: Hive, r: Reply, stop: Option<set<Key>>, k: Key)
    requires k in h.nodes
  {
    Passes(h, r) && AllReadable(r.entries) ==>
      StaysPut(h.nodes, Usable(r.entries), stop.GetOr(Usable(r.entries).Keys), k)
  }

  /** The subscriber's swarm is its home under the reply's list, and every node then in it monitors it. */
  ghost predicate Suits(h: Hive, r: Reply, stop: Option<set<Key>>, a: Account)
    requires Increasing(h.ids) && a in h.members
  {
    var pk := h.members[a].pk;
    && pk == SwarmPubkey(a, Home(WithIds(h, r).ids, a))
    && !Bares(h, r, stop, pk.swarm)
    && forall k :: k in h.nodes && h.nodes[k].swarm == pk.swarm && Remains(h, r, stop, k) ==> a in h.nodes[k].subs
  }

  lemma QuietSettlesIff(h: Hive, r: Reply, order: seq<Account>, stop: Option<set<Key>>, a: Account)
    requires Increasing(h.ids) && Keyed(h.members) && Enumerates(order, h.members) && a in h.members
    requires Completed(h, r, stop) && !Rechecks(h, r, stop)
    ensures Settled(AfterReply(h, r, order, stop), a) <==> Suits(h, r, stop, a)
  {
    QuietReplyOnlyForgets(h, r, order, stop);
    var usable := Usable(r.entries);
    assert forall k :: k in usable ==> !Moves(h.nodes, k, usable[k]);
    var h', pk := AfterReply(h, r, order, stop), h.members[a].pk;
    assert forall k :: k in h.nodes ==> (Remains(h, r, stop, k) <==> k in h'.nodes);
    if Covered(h'.nodes, pk) {
      forall k | k in h.nodes && h.nodes[k].swarm == pk.swarm && Remains(h, r, stop, k) ensures a in h.nodes[k].subs {
        assert k in h'.nodes && h'.nodes[k] == h.nodes[k];
      }
    }
  }

  lemma BrokenOffSettlesIff(h: Hive, r: Reply, order: seq<Account>, stop: Option<set<Key>>, a: Account)
    requires Increasing(h.ids) && Keyed(h.members) && Enumerates(order, h.members) && a in h.members
    requires Passes(h, r) && AllReadable(r.entries) && stop.Some?
    ensures Settled(AfterReply(h, r, order, stop), a) <==> Suits(h, r, stop, a)
  {
    PartialCovers(h.nodes, Usable(r.entries), stop.value, h.members[a].pk);
  }

  lemma UnreadSettlesIff(h: Hive, r: Reply, order: seq<Account>, stop: Option<set<Key>>, a: Account)
    requires Increasing(h.ids) && Keyed(h.members) && Enumerates(order, h.members) && a in h.members
    requires !(Passes(h, r) && AllReadable(r.entries))
    ensures Settled(AfterReply(h, r, order, stop), a) <==> Suits(h, r, stop, a)
  {
  }

  /** Whether a reply leaves a subscriber settled, whatever state it was in before. */
  lemma ReplySettlesIff(h: Hive, r: Reply, order: seq<Account>, stop: Option<set<Key>>, a: Account)
    requires Increasing(h.ids) && Keyed(h.members) && Enumerates(order, h.members) && a in h.members
    ensures Settled(AfterReply(h, r, order, stop), a) <==> Rechecks(h, r, stop) || Suits(h, r, stop, a)
  {
    if Rechecks(h, r, stop) {
      RecheckSettles(h, r, order, stop, a);
    } else if Completed(h, r, stop) {
      QuietSettlesIff(h, r, order, stop, a);
    } else if Passes(h, r) && AllReadable(r.entries) {
      BrokenOffSettlesIff(h, r, order, stop, a);
    } else {
      UnreadSettlesIff(h, r, order, stop, a);
    }
  }

  /** As `Spares`, but a bared swarm does no harm to an account that its swarm is about to be told of. */
  ghost predicate Harmless(h: Hive, r: Reply, stop: Option<set<Key>>, a: Account)
    requires Increasing(h.ids)
  {
    a in h.members && !Completed(h, r, stop) ==>
      KeepsHome(h, r, a) && (Bares(h, r, stop, h.members[a].pk.swarm) ==> PendingNew(h.pending, a))
  }

  lemma ReplyKeepsNames(h: Hive, r: Reply, order: seq<Account>, stop: Option<set<Key>>, a: Account)
    requires Increasing(h.ids) && Enumerates(order, h.members) && (Named(h, a) ==> Known(h, a))
    ensures var h' := AfterReply(h, r, order, stop); Named(h', a) ==> Known(h', a)
  {
    ReplyKeepsSubscriptions(h, r, order, stop);
    var h' := AfterReply(h, r, order, stop);
    assert h'.db == h.db && h'.pending == h.pending;
    assert Named(h', a) ==> Named(h, a);
  }

  lemma CompletedKeepsAccount(h: Hive, r: Reply, order: seq<Account>, stop: Option<set<Key>>, a: Account)
    requires CoreInv(h) && Enumerates(order, h.members) && Completed(h, r, stop) && AccountInv(h, a)
    ensures AccountInv(AfterReply(h, r, order, stop), a)
  {
    ReplyKeepsNames(h, r, order, stop, a);
    ReplyKeepsSubscriptions(h, r, order, stop);
    if a in h.members {
      if Settled(h, a) {
        CompletedKeepsSettled(h, r, order, stop, a);
      } else if Rechecks(h, r, stop) {
        RecheckSettles(h, r, order, stop, a);
      } else {
        QuietReplyOnlyForgets(h, r, order, stop);
      }
    }
  }

  /**
   A reply keeps an account's invariant if and only if it is harmless to it. It does harm exactly
   when an exception ends it, and it has replaced the swarm list so that the account's closest id
   is another one, or has put an empty node into the account's swarm of which nobody will tell it.
   */
  lemma ReplyKeepsAccountIffHarmless(h: Hive, r: Reply, order: seq<Account>, stop: Option<set<Key>>, a: Account)
    requires CoreInv(h) && Enumerates(order, h.members) && AccountInv(h, a)
    ensures AccountInv(AfterReply(h, r, order, stop), a) <==> Harmless(h, r, stop, a)
  {
    if Completed(h, r, stop) {
      CompletedKeepsAccount(h, r, order, stop, a);
    } else {
      ReplyKeepsNames(h, r, order, stop, a);
      ReplyKeepsSubscriptions(h, r, order, stop);
      if a in h.members {
        AbortedReply(h, r, order, stop, a);
      }
    }
  }

  /** A node that stays in its swarm loses no account. */
  ghost predicate LetsNobodyGo(nodes: map<Key, Node>, nodes': map<Key, Node>, k: Key) {
    k in nodes && k in nodes' && nodes'[k].swarm == nodes[k].swarm ==> nodes[k].subs.Keys <= nodes'[k].subs.Keys
  }

  lemma RecheckLetsNobodyGo(nodes: map<Key, Node>, usable: map<Key, u64>, ids: seq<u64>, order: seq<Account>,
                            members: Subscribers, k: Key)
    requires Increasing(ids) && (k in nodes ==> NodeInv(nodes[k]))
    requires forall a :: a in order ==> a in members && members[a].pk.acct == a
    ensures LetsNobodyGo(nodes, Rechecked(BaseNodes(nodes, usable), ids, order, members), k)
  {
    if k in nodes && k in usable {
      var n := BaseNode(nodes, k, usable[k]);
      AddAllKeys(RemovedStale(n, ids), order, members);
      if n == nodes[k] {
        NothingIsEjected(n, ids);
      }
    }
  }

  lemma WithNodesLetsNobodyGo(h: Hive, idsChanged: bool, usable: map<Key, u64>, order: seq<Account>, k: Key)
    requires Increasing(h.ids) && NodesInv(h.nodes, h.members) && Keyed(h.members) && Enumerates(order, h.members)
    ensures LetsNobodyGo(h.nodes, WithNodes(h, idsChanged, usable, order).nodes, k)
  {
    RecheckLetsNobodyGo(h.nodes, usable, h.ids, order, Refreshed(h.members, h.ids), k);
  }

  lemma WithSomeLetsNobodyGo(h: Hive, usable: map<Key, u64>, placed: set<Key>, k: Key)
    ensures LetsNobodyGo(h.nodes, WithSome(h, usable, placed).nodes, k)
  {
  }

  /** No reply takes an account from a node that stays in its swarm, not even an account that left it. */
  lemma ReplyLetsNobodyGo(h: Hive, r: Reply, order: seq<Account>, stop: Option<set<Key>>, k: Key)
    requires CoreInv(h) && Enumerates(order, h.members)
    ensures LetsNobodyGo(h.nodes, AfterReply(h, r, order, stop).nodes, k)
  {
    if Passes(h, r) && AllReadable(r.entries) {
      var h1, usable := WithIds(h, r), Usable(r.entries);
      if stop.Some? {
        WithSomeLetsNobodyGo(h1, usable, stop.value, k);
      } else {
        WithNodesLetsNobodyGo(h1, h1.ids != h.ids, usable, order, k);
      }
    }
  }

  lemma ApplyLetsNobodyGo(h: Hive, i: nat, k: Key)
    requires CoreInv(h) && i < |h.pending|
    ensures LetsNobodyGo(h.nodes, Apply(h, i).nodes, k)
  {
    ForcedIndex(h.nodes, h.swarms, SwarmPubkey(h.pending[i].acct, Home(h.ids, h.pending[i].acct)));
  }

  // ----- the service node reply: what it installs -----

  /** After a completed reply the nodes are the usable ones, each in its own non-empty swarm set. */
  lemma CompletedReplyIndex(h: Hive, r: Reply, order: seq<Account>, stop: Option<set<Key>>)
    requires Increasing(h.ids) && Keyed(h.members) && Enumerates(order, h.members) && Completed(h, r, stop)
    ensures var h' := AfterReply(h, r, order, stop);
            && h'.nodes.Keys == Usable(r.entries).Keys && IndexInv(h'.nodes, h'.swarms)
            && (forall k :: k in h'.nodes ==> h'.nodes[k].swarm == Usable(r.entries)[k])
            && (forall sw :: sw in h'.swarms ==> h'.swarms[sw] != {})
  {
    WithNodesIndex(WithIds(h, r), WithIds(h, r).ids != h.ids, Usable(r.entries), order);
    var h', usable := AfterReply(h, r, order, stop), Usable(r.entries);
    forall sw | sw in h'.swarms ensures h'.swarms[sw] != {} {
      var k :| k in usable && usable[k] == sw;
      assert k in h'.swarms[sw];
    }
  }

  predicate Details(e: SnEntry, k: Key) {
    HasDetails(e) && e.key == Some(k)
  }

  ghost predicate FirstDetails(entries: seq<SnEntry>, i: int, k: Key) {
    0 <= i < |entries| && Details(entries[i], k) && forall j :: 0 <= j < i ==> !Details(entries[j], k)
  }

  lemma UsableSnoc(front: seq<SnEntry>, e: SnEntry)
    requires AllReadable(front) && Readable(e)
    ensures AllReadable(front + [e])
    ensures Usable(front + [e]) ==
            if HasDetails(e) && e.key.value !in Usable(front) then Usable(front)[e.key.value := e.swarm.value] else Usable(front)
  {
    assert (front + [e])[..|front|] == front;
  }

  lemma FirstStays(front: seq<SnEntry>, e: SnEntry, i: int, k: Key)
    requires FirstDetails(front, i, k)
    ensures FirstDetails(front + [e], i, k)
  {
    assert forall j :: 0 <= j <= i ==> (front + [e])[j] == front[j];
  }

  lemma NewIsFirst(front: seq<SnEntry>, e: SnEntry, k: Key)
    requires Details(e, k) && forall i :: 0 <= i < |front| ==> !Details(front[i], k)
    ensures FirstDetails(front + [e], |front|, k)
  {
    assert forall j :: 0 <= j < |front| ==> (front + [e])[j] == front[j];
  }

  /** The usable map of a reply: the first detailed entry of each key, and nothing else. */
  lemma {:induction false} UsableSpec(entries: seq<SnEntry>, k: Key)
    requires AllReadable(entries)
    ensures k in Usable(entries) <==> exists i :: 0 <= i < |entries| && Details(entries[i], k)
    ensures k in Usable(entries) ==> exists i :: FirstDetails(entries, i, k) && Usable(entries)[k] == entries[i].swarm.value
  {
    if entries != [] {
      var last := |entries| - 1;
      var front, e := entries[..last], entries[last];
      assert AllReadable(front) && Readable(e);
      FrontAndLast(entries);
      UsableSnoc(front, e);
      UsableSpec(front, k);
      assert forall j :: 0 <= j < last ==> entries[j] == front[j];
      if k in Usable(front) {
        var i :| FirstDetails(front, i, k) && Usable(front)[k] == front[i].swarm.value;
        FirstStays(front, e, i, k);
      } else if Details(e, k) {
        NewIsFirst(front, e, k);
      }
    }
  }

  lemma IdsOfSnoc(front: seq<SnEntry>, e: SnEntry)
    requires AllHaveSwarm(front) && e.swarm.Some?
    ensures AllHaveSwarm(front + [e])
    ensures IdsOf(front + [e]) == if e.swarm.value != INVALID_SWARM_ID then InsertId(IdsOf(front), e.swarm.value) else IdsOf(front)
  {
    assert (front + [e])[..|front|] == front;
  }

  lemma IdsOfNext(front: seq<SnEntry>, e: SnEntry, sw: u64)
    requires AllHaveSwarm(front) && e.swarm.Some?
    ensures AllHaveSwarm(front + [e])
    ensures sw in IdSet(IdsOf(front + [e])) <==> sw in IdSet(IdsOf(front)) || (sw != INVALID_SWARM_ID && e.swarm == Some(sw))
  {
    IdsOfSnoc(front, e);
  }

  lemma FrontAndLast(entries: seq<SnEntry>)
    requires entries != []
    ensures entries == entries[..|entries| - 1] + [entries[|entries| - 1]]
  {
  }

  /** The new id list: exactly the valid swarm ids of the reply. */
  lemma {:induction false} IdsOfSpec(entries: seq<SnEntry>, sw: u64)
    requires AllHaveSwarm(entries)
    ensures sw in IdSet(IdsOf(entries)) <==>
            sw != INVALID_SWARM_ID && exists i :: 0 <= i < |entries| && entries[i].swarm == Some(sw)
  {
    if entries != [] {
      var last := |entries| - 1;
      assert AllHaveSwarm(entries[..last]);
      IdsOfSpec(entries[..last], sw);
      FrontAndLast(entries);
      IdsOfNext(entries[..last], entries[last], sw);
      assert forall j :: 0 <= j < last ==> entries[..last][j] == entries[j];
    }
  }

  /** The entry gives a node all it needs: a key of 64 characters, an address, a port and a swarm. */
  ghost predicate Details64(entries: seq<SnEntry>, i: int, k: Key, sw: u64) {
    && 0 <= i < |entries| && entries[i].key == Some(k) && entries[i].keyLen == Some(64)
    && entries[i].ip.Some? && entries[i].ip.value != "" && entries[i].ip.value != "0.0.0.0"
    && entries[i].port.Some? && entries[i].port.value != 0
    && entries[i].swarm == Some(sw) && sw != 0xFFFF_FFFF_FFFF_FFFF
  }

  /** After a completed reply the hive knows exactly the nodes with all details, in a swarm that was reported. */
  lemma NodesAfterReply(h: Hive, r: Reply, order: seq<Account>, stop: Option<set<Key>>, k: Key)
    requires Increasing(h.ids) && Keyed(h.members) && Enumerates(order, h.members) && Completed(h, r, stop)
    ensures var h' := AfterReply(h, r, order, stop);
            && (k in h'.nodes <==> exists i, sw :: Details64(r.entries, i, k, sw))
            && (k in h'.nodes ==> exists i :: Details64(r.entries, i, k, h'.nodes[k].swarm))
  {
    CompletedReplyIndex(h, r, order, stop);
    UsableSpec(r.entries, k);
    if i, sw :| Details64(r.entries, i, k, sw) {
      assert Details(r.entries[i], k);
    }
    if k in Usable(r.entries) {
      var i :| FirstDetails(r.entries, i, k) && Usable(r.entries)[k] == r.entries[i].swarm.value;
      assert Details64(r.entries, i, k, Usable(r.entries)[k]);
    }
  }

  /** After a completed reply with a new block every node's swarm is in the swarm list. */
  lemma NodesInListedSwarms(h: Hive, r: Reply, order: seq<Account>, stop: Option<set<Key>>, k: Key)
    requires Increasing(h.ids) && Keyed(h.members) && Enumerates(order, h.members) && Completed(h, r, stop)
    requires r.hash.value != h.lastHash && k in AfterReply(h, r, order, stop).nodes
    ensures AfterReply(h, r, order, stop).nodes[k].swarm in AfterReply(h, r, order, stop).ids
  {
    var h' := AfterReply(h, r, order, stop);
    NodesAfterReply(h, r, order, stop, k);
    var i :| Details64(r.entries, i, k, h'.nodes[k].swarm);
    IdsOfSpec(r.entries, h'.nodes[k].swarm);
  }

  /** The block and the swarm list after a reply that got past its first pass. */
  lemma BlockAfterReply(h: Hive, r: Reply, order: seq<Account>, stop: Option<set<Key>>, sw: u64)
    requires Increasing(h.ids) && Enumerates(order, h.members)
    requires r.Reply? && r.hash.Some? && forall i :: 0 <= i < |r.entries| ==> r.entries[i].swarm.Some?
    ensures AfterReply(h, r, order, stop).lastHash == r.hash.value
    ensures r.hash.value == h.lastHash ==> AfterReply(h, r, order, stop).ids == h.ids
    ensures r.hash.value != h.lastHash ==>
              (sw in AfterReply(h, r, order, stop).ids <==>
               sw != 0xFFFF_FFFF_FFFF_FFFF && exists i :: 0 <= i < |r.entries| && r.entries[i].swarm == Some(sw))
  {
    if r.hash.value != h.lastHash {
      IdsOfSpec(r.entries, sw);
    }
  }

  /** A new block with an unreadable swarm id, like an unreadable hash, changes nothing. */
  lemma UnreadableIdChangesNothing(h: Hive, r: Reply, order: seq<Account>, stop: Option<set<Key>>)
    requires Increasing(h.ids) && Enumerates(order, h.members)
    requires r.Reply? ==>
               r.hash.None? || (r.hash.value != h.lastHash && exists i :: 0 <= i < |r.entries| && r.entries[i].swarm.None?)
    ensures AfterReply(h, r, order, stop) == h
  {
  }

  /** An entry with a field missing, or with details and a key that does not decode, leaves all nodes and subscribers alone. */
  lemma UnreadableEntryKeepsNodes(h: Hive, r: Reply, order: seq<Account>, stop: Option<set<Key>>, i: nat)
    requires Increasing(h.ids) && Enumerates(order, h.members) && r.Reply? && i < |r.entries|
    requires var e := r.entries[i];
             || e.keyLen.None? || e.ip.None? || e.port.None? || e.swarm.None?
             || (e.key.None? && e.keyLen.value == 64 && e.ip.value != "" && e.ip.value != "0.0.0.0" && e.port.value > 0
                 && e.swarm.value != 0xFFFF_FFFF_FFFF_FFFF)
    ensures var h' := AfterReply(h, r, order, stop);
            h'.nodes == h.nodes && h'.swarms == h.swarms && h'.members == h.members
  {
    assert !Readable(r.entries[i]);
  }

  // ----- check_subs and reconnection of one node -----

  /** A node whose queue changes, but not its swarm and accounts. */
  lemma NodeChangeKeepsCore(h: Hive, k: Key, n: Node)
    requires CoreInv(h) && k in h.nodes && NodeInv(n)
    requires n.swarm == h.nodes[k].swarm && n.subs == h.nodes[k].subs
    ensures CoreInv(h.(nodes := h.nodes[k := n]))
  {
  }

  lemma NodeChangeKeepsCoverage(nodes: map<Key, Node>, k: Key, n: Node, pk: SwarmPubkey)
    requires k in nodes && n.swarm == nodes[k].swarm && n.subs == nodes[k].subs
    ensures Covered(nodes[k := n], pk) <==> Covered(nodes, pk)
  {
    if Covered(nodes[k := n], pk) {
      forall j | j in nodes && nodes[j].swarm == pk.swarm ensures pk.acct in nodes[j].subs {
        assert j in nodes[k := n] && nodes[k := n][j].swarm == pk.swarm;
      }
    }
  }

  lemma NodeChangeKeepsAccount(h: Hive, k: Key, n: Node, a: Account)
    requires k in h.nodes && n.swarm == h.nodes[k].swarm && n.subs == h.nodes[k].subs
    ensures AccountInv(h.(nodes := h.nodes[k := n]), a) <==> AccountInv(h, a)
    ensures Settled(h.(nodes := h.nodes[k := n]), a) <==> Settled(h, a)
  {
    var h' := h.(nodes := h.nodes[k := n]);
    assert Named(h', a) <==> Named(h, a);
    if a in h.members {
      NodeChangeKeepsCoverage(h.nodes, k, n, h.members[a].pk);
    }
  }
}
