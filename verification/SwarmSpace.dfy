/**
 Assignment of accounts to swarms (spns/swarmpubkey.cpp): an account sits at a point of the
 2^64 ring and belongs to the swarm whose id is closest to that point.
 */
module SwarmSpace {
  import opened Common

  const INVALID_SWARM_ID: u64 := 0xFFFF_FFFF_FFFF_FFFF

  /** `uint64_t` subtraction: the distance walked upwards from `b` to `a` on the ring. */
  function WrapSub(a: u64, b: u64): (d: u64)
    ensures d == if a >= b then a - b else a - b + TWO_64
  {
    (a - b) % TWO_64
  }

  ghost predicate Increasing(ids: seq<u64>) {
    forall i, j :: 0 <= i < j < |ids| ==> ids[i] < ids[j]
  }

  /** `std::lower_bound` on the window [lo, hi): the first index whose id is not below `x`. */
  function LowerBound(ids: seq<u64>, x: u64, lo: nat, hi: nat): (k: nat)
    requires lo <= hi <= |ids|
    requires Increasing(ids)
    requires forall i :: 0 <= i < lo ==> ids[i] < x
    requires forall i :: hi <= i < |ids| ==> x <= ids[i]
    ensures k <= |ids|
    ensures forall i :: 0 <= i < k ==> ids[i] < x
    ensures forall i :: k <= i < |ids| ==> x <= ids[i]
    decreases hi - lo
  {
    if lo == hi then lo
    else
      var mid := lo + (hi - lo) / 2;
      if ids[mid] < x then LowerBound(ids, x, mid + 1, hi) else LowerBound(ids, x, lo, mid)
  }

  /** The id that `SwarmPubkey::update_swarm` selects for the ring point `x`. */
  function Closest(ids: seq<u64>, x: u64): (c: u64)
    requires Increasing(ids)
  {
    if |ids| == 0 then INVALID_SWARM_ID
    else if |ids| == 1 then ids[0]
    else
      var bound := LowerBound(ids, x, 0, |ids|);
      var right := if bound == |ids| then 0 else bound;
      var left := if right == 0 then |ids| - 1 else right - 1;
      if WrapSub(ids[right], x) < WrapSub(x, ids[left]) then ids[right] else ids[left]
  }

  /** Circular distance. */
  function Dist(x: u64, y: u64): int {
    Min(WrapSub(x, y), WrapSub(y, x))
  }

  /**
   Reference order on candidate ids, independent of any sorting: smaller circular distance
   first, and at equal distance the id reached by walking downwards from `x`.
   */
  function Score(x: u64, y: u64): int {
    2 * Dist(x, y) + if WrapSub(x, y) == Dist(x, y) then 0 else 1
  }

  ghost predicate Nearest(candidates: set<u64>, x: u64, c: u64) {
    c in candidates && forall y :: y in candidates ==> Score(x, c) <= Score(x, y)
  }

  /** The exhaustive scan: keep the best candidate seen so far. */
  function Scan(ids: seq<u64>, x: u64): (c: u64)
    requires ids != []
    ensures c in ids && forall y :: y in ids ==> Score(x, c) <= Score(x, y)
  {
    if |ids| == 1 then ids[0]
    else
      var best := Scan(ids[1..], x);
      assert forall y :: y in ids ==> y == ids[0] || y in ids[1..];
      if Score(x, ids[0]) <= Score(x, best) then ids[0] else best
  }

  function IdSet(ids: seq<u64>): set<u64> {
    set y | y in ids
  }

  /** No two ring points have the same score, so the nearest id is unique. */
  lemma ScoreInjective(x: u64, a: u64, b: u64)
    requires Score(x, a) == Score(x, b)
    ensures a == b
  {
    assert WrapSub(x, a) + WrapSub(a, x) == if a == x then 0 else TWO_64;
    assert WrapSub(x, b) + WrapSub(b, x) == if b == x then 0 else TWO_64;
  }

  /** Every id other than the two neighbours is at least as far in both directions. */
  lemma NeighboursBound(ids: seq<u64>, x: u64, left: nat, right: nat, j: nat)
    requires Increasing(ids) && |ids| >= 2 && j < |ids|
    requires var bound := LowerBound(ids, x, 0, |ids|);
             right == (if bound == |ids| then 0 else bound) &&
             left == (if right == 0 then |ids| - 1 else right - 1)
    ensures WrapSub(ids[right], x) <= WrapSub(ids[j], x)
    ensures WrapSub(x, ids[left]) <= WrapSub(x, ids[j]) || ids[j] == x
    ensures ids[j] == x ==> ids[right] == x
  {
    var bound := LowerBound(ids, x, 0, |ids|);
    if j < bound {
      assert ids[j] < x;
      assert bound < |ids| ==> x <= ids[bound];
      assert bound == |ids| ==> ids[0] <= ids[j];
      assert ids[j] <= ids[bound - 1];
    } else {
      assert x <= ids[j];
      assert ids[bound] <= ids[j];
      assert bound > 0 ==> ids[bound - 1] < x;
      assert ids[j] <= ids[|ids| - 1];
    }
  }

  /** Of the two neighbours, the one `update_swarm` keeps beats any third id. */
  lemma KeptNeighbourWins(x: u64, left: u64, right: u64, y: u64)
    requires WrapSub(right, x) <= WrapSub(y, x)
    requires WrapSub(x, left) <= WrapSub(x, y) || y == x
    requires y == x ==> right == x
    ensures var c := if WrapSub(right, x) < WrapSub(x, left) then right else left;
            Score(x, c) <= Score(x, y)
  {
  }

  lemma ClosestBeats(ids: seq<u64>, x: u64, j: nat)
    requires Increasing(ids) && j < |ids|
    ensures Closest(ids, x) in ids
    ensures Score(x, Closest(ids, x)) <= Score(x, ids[j])
  {
    if |ids| >= 2 {
      var bound := LowerBound(ids, x, 0, |ids|);
      var right := if bound == |ids| then 0 else bound;
      var left := if right == 0 then |ids| - 1 else right - 1;
      NeighboursBound(ids, x, left, right, j);
      KeptNeighbourWins(x, ids[left], ids[right], ids[j]);
    }
  }

  /** The binary search with wraparound finds the nearest id, ties going to the left. */
  lemma ClosestIsNearest(ids: seq<u64>, x: u64)
    requires Increasing(ids) && ids != []
    ensures Nearest(IdSet(ids), x, Closest(ids, x))
  {
    ClosestBeats(ids, x, 0);
    forall y | y in IdSet(ids) ensures Score(x, Closest(ids, x)) <= Score(x, y) {
      var j: nat :| j < |ids| && ids[j] == y;
      ClosestBeats(ids, x, j);
    }
  }

  /** The binary search agrees with the exhaustive scan. */
  lemma ClosestIsScan(ids: seq<u64>, x: u64)
    requires Increasing(ids) && ids != []
    ensures Closest(ids, x) == Scan(ids, x)
  {
    ClosestIsNearest(ids, x);
    assert Scan(ids, x) in IdSet(ids);
    ScoreInjective(x, Closest(ids, x), Scan(ids, x));
  }

  /**
   Consistent hashing: growing or shrinking the id list moves an account only when the swarm it
   joins is new, or the swarm it leaves is gone.
   */
  lemma MovesOnlyIntoNewSwarms(small: seq<u64>, big: seq<u64>, x: u64)
    requires Increasing(small) && Increasing(big) && small != []
    requires IdSet(small) <= IdSet(big)
    ensures Closest(big, x) == Closest(small, x) || Closest(big, x) !in small
  {
    var s, b := Closest(small, x), Closest(big, x);
    if b in small {
      assert s in IdSet(big) by { ClosestIsNearest(small, x); }
      assert big != [];
      ClosestIsNearest(small, x);
      ClosestIsNearest(big, x);
      assert b in IdSet(small);
      ScoreInjective(x, s, b);
    }
  }

  /**
   An account: its id and the ring point `swarm_space` that the constructor derives from the id.
   Since the point is a function of the id, equality of accounts is equality of ids.
   */
  datatype Account = Account(id: seq<byte>, space: u64)

  /** `SwarmPubkey`: copied by value wherever it is stored, each copy caching its own swarm. */
  datatype SwarmPubkey = SwarmPubkey(acct: Account, swarm: u64)

  /** The swarm an account belongs to under the id list `ids`. */
  function Home(ids: seq<u64>, acct: Account): u64
    requires Increasing(ids)
  {
    Closest(ids, acct.space)
  }

  /** `SwarmPubkey::update_swarm`: the refreshed copy, and whether the cached swarm changed. */
  function UpdateSwarm(pk: SwarmPubkey, ids: seq<u64>): (r: (SwarmPubkey, bool))
    requires Increasing(ids)
    ensures r.0.acct == pk.acct && r.0.swarm == Home(ids, pk.acct)
    ensures ids == [] ==> r.0.swarm == 0xFFFF_FFFF_FFFF_FFFF
    ensures r.1 <==> r.0 != pk
  {
    var closest := Home(ids, pk.acct);
    if closest != pk.swarm then (pk.(swarm := closest), true) else (pk, false)
  }
}
