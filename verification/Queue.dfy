/**
 The resubscription queue of one service node (`SNode::subs_` and `SNode::next_`), on values:
 what each operation of spns/hive/snode.cpp does to the queue, and the laws of those operations.
 */
module Queue {
  import opened Common
  import opened SwarmSpace
  import opened Subscriptions

  /** Nanoseconds since the epoch; the system clock's tick. */
  type Time = int

  const SECOND: int := 1_000_000_000
  const SYSTEM_EPOCH: Time := 0
  const SUBS_REQUEST_LIMIT: nat := 2000
  const RESUBSCRIBE_MIN: int := 45 * 60
  const RESUBSCRIBE_MAX: int := 55 * 60

  /** A queue entry; `None` marks a lazily deleted one. */
  datatype Slot = Slot(acct: Option<SwarmPubkey>, due: Time)

  /** A subscribed account of the hive: its key in `subscribers_` and its subscriptions. */
  datatype Member = Member(pk: SwarmPubkey, subs: seq<Subscription>)

  type Subscribers = map<Account, Member>

  /** `subs` maps each account of `subs_` to the swarm cached in that copy. */
  datatype Node = Node(swarm: u64, subs: map<Account, u64>, next: seq<Slot>)

  // ----- the queue as a whole -----

  ghost predicate Sorted(q: seq<Slot>) {
    forall i, j :: 0 <= i < j < |q| ==> q[i].due <= q[j].due
  }

  function LiveId(s: Slot): multiset<Account> {
    if s.acct.Some? then multiset{s.acct.value.acct} else multiset{}
  }

  /** The accounts of the live entries, with multiplicity. */
  function LiveIds(q: seq<Slot>): multiset<Account> {
    if q == [] then multiset{} else LiveIds(q[..|q| - 1]) + LiveId(q[|q| - 1])
  }

  /** Every live copy carries the swarm `sw`. */
  ghost predicate CopiesIn(q: seq<Slot>, sw: u64) {
    forall s :: s in q && s.acct.Some? ==> s.acct.value.swarm == sw
  }

  /**
   The invariant of a node: the queue is sorted, its live entries are in bijection with `subs_`,
   and every live copy was made while its account was in this node's swarm.
   */
  ghost predicate NodeInv(n: Node) {
    && Sorted(n.next)
    && (forall s :: s in n.next ==> s.due >= SYSTEM_EPOCH)
    && LiveIds(n.next) == multiset(n.subs.Keys)
    && CopiesIn(n.next, n.swarm)
  }

  lemma {:induction false} LiveIdsConcat(a: seq<Slot>, b: seq<Slot>)
    ensures LiveIds(a + b) == LiveIds(a) + LiveIds(b)
  {
    if b == [] {
      assert a + b == a;
    } else {
      assert (a + b)[..|a + b| - 1] == a + b[..|b| - 1];
      LiveIdsConcat(a, b[..|b| - 1]);
    }
  }

  lemma LiveIdsFront(s: Slot, q: seq<Slot>)
    ensures LiveIds([s] + q) == LiveId(s) + LiveIds(q)
  {
    assert [s][..0] == [];
    LiveIdsConcat([s], q);
  }

  lemma Rotate<T>(l: multiset<T>, x: multiset<T>, r: multiset<T>)
    ensures l + (x + r) == (l + r) + x
  {
  }

  lemma Swap<T>(l: multiset<T>, x: multiset<T>, y: multiset<T>)
    ensures l + x + y == l + y + x
  {
  }

  function Without(q: seq<Slot>, j: nat): seq<Slot>
    requires j < |q|
  {
    q[..j] + q[j + 1..]
  }

  lemma WithoutEarlier(q: seq<Slot>, j: nat)
    requires j + 1 < |q|
    ensures Without(q, j) == Without(q[..|q| - 1], j) + [q[|q| - 1]]
  {
  }

  lemma LiveIdsSnoc(q: seq<Slot>, s: Slot)
    ensures LiveIds(q + [s]) == LiveIds(q) + LiveId(s)
  {
    assert (q + [s])[..|q|] == q;
  }

  lemma {:induction false} LiveIdsWithout(q: seq<Slot>, j: nat)
    requires j < |q|
    ensures LiveIds(q) == LiveIds(Without(q, j)) + LiveId(q[j])
  {
    var front, last := q[..|q| - 1], q[|q| - 1];
    if j == |front| {
      assert Without(q, j) == front;
    } else {
      LiveIdsWithout(front, j);
      WithoutEarlier(q, j);
      LiveIdsSnoc(Without(front, j), last);
      Swap(LiveIds(Without(front, j)), LiveId(q[j]), LiveId(last));
    }
  }

  lemma SlotsWithout(q: seq<Slot>, j: nat)
    requires j < |q|
    ensures multiset(q) == multiset(Without(q, j)) + multiset{q[j]}
  {
    assert q == q[..j] + ([q[j]] + q[j + 1..]);
    Rotate(multiset(q[..j]), multiset{q[j]}, multiset(q[j + 1..]));
  }

  lemma CancelOne<T>(a: multiset<T>, b: multiset<T>, x: T)
    requires a + multiset{x} == b + multiset{x}
    ensures a == b
  {
    assert (a + multiset{x}) - multiset{x} == a;
    assert (b + multiset{x}) - multiset{x} == b;
  }

  /** The live accounts do not depend on the order of the queue. */
  lemma {:induction false} LiveIdsPermuted(a: seq<Slot>, b: seq<Slot>)
    requires multiset(a) == multiset(b)
    ensures LiveIds(a) == LiveIds(b)
    decreases |a|
  {
    if a == [] {
      assert |multiset(b)| == 0;
    } else {
      assert a[0] in multiset(b);
      var j :| 0 <= j < |b| && b[j] == a[0];
      SlotsWithout(a, 0);
      SlotsWithout(b, j);
      CancelOne(multiset(Without(a, 0)), multiset(Without(b, j)), a[0]);
      LiveIdsPermuted(Without(a, 0), Without(b, j));
      LiveIdsWithout(a, 0);
      LiveIdsWithout(b, j);
    }
  }

  predicate Holds(s: Slot, a: Account) {
    s.acct.Some? && s.acct.value.acct == a
  }

  lemma {:induction false} LiveIdsMember(q: seq<Slot>, a: Account)
    ensures a in LiveIds(q) <==> exists i :: 0 <= i < |q| && Holds(q[i], a)
  {
    if q != [] {
      var front, last := q[..|q| - 1], q[|q| - 1];
      LiveIdsMember(front, a);
      assert a in LiveIds(q) <==> a in LiveIds(front) || Holds(last, a);
      if i :| 0 <= i < |front| && Holds(front[i], a) {
        assert Holds(q[i], a);
      }
      if i :| 0 <= i < |q| && Holds(q[i], a) && i < |front| {
        assert Holds(front[i], a);
      }
    }
  }

  // ----- add_account -----

  /** Lazy deletion of the first live entry of `a`. */
  function Kill(q: seq<Slot>, a: Account): (r: seq<Slot>)
    ensures |r| == |q| && forall i :: 0 <= i < |q| ==> r[i].due == q[i].due && (r[i] == q[i] || r[i].acct == None)
  {
    if q == [] then []
    else if Holds(q[0], a) then [q[0].(acct := None)] + q[1..]
    else [q[0]] + Kill(q[1..], a)
  }

  function AddedAccount(n: Node, pk: SwarmPubkey, forceNow: bool): Node {
    if pk.acct !in n.subs then
      n.(subs := n.subs[pk.acct := pk.swarm], next := [Slot(Some(pk), SYSTEM_EPOCH)] + n.next)
    else if forceNow then
      n.(next := [Slot(Some(pk), SYSTEM_EPOCH)] + Kill(n.next, pk.acct))
    else n
  }

  lemma {:induction false} KillLiveIds(q: seq<Slot>, a: Account)
    ensures LiveIds(Kill(q, a)) == LiveIds(q) - multiset{a}
  {
    if q != [] {
      assert q == [q[0]] + q[1..];
      LiveIdsFront(q[0], q[1..]);
      if Holds(q[0], a) {
        LiveIdsFront(q[0].(acct := None), q[1..]);
      } else {
        KillLiveIds(q[1..], a);
        LiveIdsFront(q[0], Kill(q[1..], a));
      }
    }
  }

  /** Pushing a live entry for `pk` in front of a sound queue. */
  lemma PushKeepsSound(q: seq<Slot>, pk: SwarmPubkey)
    requires Sorted(q) && (forall s :: s in q ==> s.due >= SYSTEM_EPOCH) && CopiesIn(q, pk.swarm)
    ensures var r := [Slot(Some(pk), SYSTEM_EPOCH)] + q;
            && Sorted(r) && (forall s :: s in r ==> s.due >= SYSTEM_EPOCH) && CopiesIn(r, pk.swarm)
            && LiveIds(r) == multiset{pk.acct} + LiveIds(q)
  {
    LiveIdsFront(Slot(Some(pk), SYSTEM_EPOCH), q);
    forall i | 0 <= i < |q| ensures q[i].due >= SYSTEM_EPOCH {
      assert q[i] in q;
    }
  }

  lemma KillKeepsSound(q: seq<Slot>, a: Account, sw: u64)
    requires Sorted(q) && (forall s :: s in q ==> s.due >= SYSTEM_EPOCH) && CopiesIn(q, sw)
    ensures var r := Kill(q, a);
            && Sorted(r) && (forall s :: s in r ==> s.due >= SYSTEM_EPOCH) && CopiesIn(r, sw)
  {
    var r := Kill(q, a);
    forall s | s in r ensures s.due >= SYSTEM_EPOCH && (s.acct.Some? ==> s.acct.value.swarm == sw) {
      var i :| 0 <= i < |r| && r[i] == s;
      assert q[i] in q;
    }
  }

  lemma MultisetWithout(s: set<Account>, a: Account)
    ensures multiset(s + {a}) == multiset{a} + (multiset(s) - multiset{a})
  {
  }

  lemma AddKeepsInv(n: Node, pk: SwarmPubkey, forceNow: bool)
    requires NodeInv(n) && pk.swarm == n.swarm
    ensures NodeInv(AddedAccount(n, pk, forceNow))
    ensures AddedAccount(n, pk, forceNow).subs.Keys == n.subs.Keys + {pk.acct}
  {
    var keys := n.subs.Keys;
    MultisetWithout(keys, pk.acct);
    if pk.acct !in n.subs {
      PushKeepsSound(n.next, pk);
      assert n.subs[pk.acct := pk.swarm].Keys == keys + {pk.acct};
      assert multiset(keys) - multiset{pk.acct} == multiset(keys);
    } else {
      assert keys + {pk.acct} == keys;
      if forceNow {
        KillKeepsSound(n.next, pk.acct, n.swarm);
        KillLiveIds(n.next, pk.acct);
        PushKeepsSound(Kill(n.next, pk.acct), pk);
      }
    }
  }

  /** A forced account is first in line; the other accounts keep their entries and times. */
  lemma ForcedAccountIsFirst(n: Node, pk: SwarmPubkey)
    requires NodeInv(n) && pk.acct in n.subs
    ensures var q := AddedAccount(n, pk, true).next;
            && q == [Slot(Some(pk), SYSTEM_EPOCH)] + q[1..] && LiveIds(q[1..]) == multiset(n.subs.Keys - {pk.acct})
            && |q| == |n.next| + 1
            && forall i :: 0 <= i < |n.next| ==> q[i + 1].due == n.next[i].due && (q[i + 1] == n.next[i] || q[i + 1].acct == None)
  {
    var k := Kill(n.next, pk.acct);
    KillLiveIds(n.next, pk.acct);
    assert ([Slot(Some(pk), SYSTEM_EPOCH)] + k)[1..] == k;
    KeysWithout(n.subs.Keys, pk.acct);
  }

  lemma KeysWithout(s: set<Account>, a: Account)
    ensures multiset(s) - multiset{a} == multiset(s - {a})
  {
  }

  // ----- reset_swarm, on_connected -----

  function ResetSwarm(n: Node, sw: u64): Node {
    Node(sw, map[], [])
  }

  /** The queue after (re)connecting: everyone is due at once. */
  function AllDue(q: seq<Slot>): (r: seq<Slot>)
    ensures |r| == |q| && forall i :: 0 <= i < |q| ==> r[i] == q[i].(due := SYSTEM_EPOCH)
  {
    seq(|q|, i requires 0 <= i < |q| => q[i].(due := SYSTEM_EPOCH))
  }

  function Reconnected(n: Node): Node {
    n.(next := AllDue(n.next))
  }

  lemma {:induction false} AllDueLiveIds(q: seq<Slot>)
    ensures LiveIds(AllDue(q)) == LiveIds(q)
  {
    if q != [] {
      AllDueLiveIds(q[..|q| - 1]);
      assert AllDue(q)[..|q| - 1] == AllDue(q[..|q| - 1]);
    }
  }

  lemma ReconnectKeepsInv(n: Node)
    requires NodeInv(n)
    ensures NodeInv(Reconnected(n))
    ensures forall s :: s in Reconnected(n).next ==> s.due == SYSTEM_EPOCH
  {
    AllDueLiveIds(n.next);
    forall s | s in AllDue(n.next) && s.acct.Some? ensures s.acct.value.swarm == n.swarm {
      var i :| 0 <= i < |n.next| && AllDue(n.next)[i] == s;
      assert n.next[i].acct == s.acct && n.next[i] in n.next;
    }
  }

  // ----- remove_stale_swarm_members -----

  predicate StaleCopy(s: Slot, sw: u64) {
    s.acct.Some? && s.acct.value.swarm != sw
  }

  function KillStale(q: seq<Slot>, sw: u64): (r: seq<Slot>)
    ensures |r| == |q| && forall i :: 0 <= i < |q| ==> r[i] == if StaleCopy(q[i], sw) then q[i].(acct := None) else q[i]
  {
    seq(|q|, i requires 0 <= i < |q| => if StaleCopy(q[i], sw) then q[i].(acct := None) else q[i])
  }

  function StaleAccounts(q: seq<Slot>, sw: u64): set<Account> {
    set s | s in q && StaleCopy(s, sw) :: s.acct.value.acct
  }

  function RemovedStale(n: Node, ids: seq<u64>): Node
    requires Increasing(ids)
  {
    Node(n.swarm,
         map a | a in n.subs && a !in StaleAccounts(n.next, n.swarm) :: Home(ids, a),
         KillStale(n.next, n.swarm))
  }

  /**
   The copies compared are the ones in `next_`, which nobody refreshes: from a node that satisfies
   the invariant nothing is ever ejected, whatever the new swarm list says. The header's promise
   that departed accounts "will be removed" does not hold; only the cached swarms change.
   */
  lemma NothingIsEjected(n: Node, ids: seq<u64>)
    requires NodeInv(n) && Increasing(ids)
    ensures RemovedStale(n, ids).subs.Keys == n.subs.Keys
    ensures RemovedStale(n, ids).next == n.next && forall a :: a in n.subs ==> RemovedStale(n, ids).subs[a] == Home(ids, a)
    ensures NodeInv(RemovedStale(n, ids))
  {
    assert StaleAccounts(n.next, n.swarm) == {};
    assert KillStale(n.next, n.swarm) == n.next by {
      assert forall i :: 0 <= i < |n.next| ==> n.next[i] in n.next;
    }
  }

  /**
   The header's promise, that the accounts left are those of the node's swarm, is kept by a sound
   node if and only if no account has left the swarm in the first place.
   */
  lemma PromiseIffNobodyLeft(n: Node, ids: seq<u64>)
    requires NodeInv(n) && Increasing(ids)
    ensures (forall a :: a in RemovedStale(n, ids).subs ==> Home(ids, a) == n.swarm) <==>
            (forall a :: a in n.subs ==> Home(ids, a) == n.swarm)
  {
    NothingIsEjected(n, ids);
  }
}
