/**
 The notification filter of `process_notifications`: two generations of hashes, `filter_` and
 `filter_rotate_`, rotated when a batch arrives after the rotation time.
 */
module DuplicateFilter {
  import opened Common

  /** Blake2b hash of service, service id and message hash. */
  type Hash = seq<byte>

  // ----- the two-set filter -----

  datatype Filter = Filter(recent: set<Hash>, rotated: set<Hash>, rotateAt: int)

  function Rotate(f: Filter, now: int, lifetime: int): Filter {
    if now >= f.rotateAt then Filter({}, f.recent, now + lifetime) else f
  }

  /** The notification passes. */
  predicate Fresh(f: Filter, k: Hash) {
    k !in f.rotated && k !in f.recent
  }

  /** The set operations behind that test: a hash found in `rotated` is not inserted again. */
  function Offer(f: Filter, k: Hash): Filter {
    if k in f.rotated then f else f.(recent := f.recent + {k})
  }

  function Offers(f: Filter, keys: seq<Hash>): Filter {
    if keys == [] then f else Offer(Offers(f, keys[..|keys| - 1]), keys[|keys| - 1])
  }

  /** One batch: the clock reading and the hashes of its notifications, in order. */
  datatype Batch = Batch(now: int, keys: seq<Hash>)

  /** The filter as the first `j` hashes of batch `b` find it. */
  function Within(f: Filter, b: Batch, lifetime: int, j: nat): Filter
    requires j <= |b.keys|
  {
    Offers(Rotate(f, b.now, lifetime), b.keys[..j])
  }

  function After(f: Filter, bs: seq<Batch>, lifetime: int): Filter {
    if bs == [] then f
    else
      var b := bs[|bs| - 1];
      Within(After(f, bs[..|bs| - 1], lifetime), b, lifetime, |b.keys|)
  }

  /** Whether notification `j` of batch `i` passes. */
  predicate Passes(f: Filter, bs: seq<Batch>, lifetime: int, i: nat, j: nat)
    requires i < |bs| && j < |bs[i].keys|
  {
    Fresh(Within(After(f, bs[..i], lifetime), bs[i], lifetime, j), bs[i].keys[j])
  }

  // ----- the reference: remember for each hash the generation in which it last passed -----

  datatype Reference = Reference(generation: nat, last: map<Hash, nat>, rotateAt: int)

  function RefRotate(r: Reference, now: int, lifetime: int): Reference {
    if now >= r.rotateAt then Reference(r.generation + 1, r.last, now + lifetime) else r
  }

  /** A hash passes unless it passed in this generation or the one before. */
  predicate RefFresh(r: Reference, k: Hash) {
    k in r.last ==> r.last[k] + 1 < r.generation
  }

  function RefOffer(r: Reference, k: Hash): Reference {
    if RefFresh(r, k) then r.(last := r.last[k := r.generation]) else r
  }

  function RefOffers(r: Reference, keys: seq<Hash>): Reference {
    if keys == [] then r else RefOffer(RefOffers(r, keys[..|keys| - 1]), keys[|keys| - 1])
  }

  function RefWithin(r: Reference, b: Batch, lifetime: int, j: nat): Reference
    requires j <= |b.keys|
  {
    RefOffers(RefRotate(r, b.now, lifetime), b.keys[..j])
  }

  function RefAfter(r: Reference, bs: seq<Batch>, lifetime: int): Reference {
    if bs == [] then r
    else
      var b := bs[|bs| - 1];
      RefWithin(RefAfter(r, bs[..|bs| - 1], lifetime), b, lifetime, |b.keys|)
  }

  /** The two sets are the hashes that passed in the current and in the previous generation. */
  ghost predicate Simulates(f: Filter, r: Reference) {
    && f.rotateAt == r.rotateAt
    && (forall k :: k in r.last ==> r.last[k] <= r.generation)
    && (forall k :: k in f.recent <==> k in r.last && r.last[k] == r.generation)
    && (forall k :: k in f.rotated <==> k in r.last && r.last[k] + 1 == r.generation)
  }

  lemma {:induction false} OffersSimulate(f: Filter, r: Reference, keys: seq<Hash>)
    requires Simulates(f, r)
    ensures Simulates(Offers(f, keys), RefOffers(r, keys))
  {
    if keys != [] {
      OffersSimulate(f, r, keys[..|keys| - 1]);
    }
  }

  lemma {:induction false} AfterSimulates(f: Filter, r: Reference, bs: seq<Batch>, lifetime: int)
    requires Simulates(f, r)
    ensures Simulates(After(f, bs, lifetime), RefAfter(r, bs, lifetime))
  {
    if bs != [] {
      var front, b := bs[..|bs| - 1], bs[|bs| - 1];
      AfterSimulates(f, r, front, lifetime);
      var f1, r1 := Rotate(After(f, front, lifetime), b.now, lifetime), RefRotate(RefAfter(r, front, lifetime), b.now, lifetime);
      OffersSimulate(f1, r1, b.keys[..|b.keys|]);
    }
  }

  /** The two-set filter decides exactly like the reference, over every run. */
  lemma FilterRefinesReference(rotateAt: int, bs: seq<Batch>, lifetime: int, i: nat, j: nat)
    requires i < |bs| && j < |bs[i].keys|
    ensures Passes(Filter({}, {}, rotateAt), bs, lifetime, i, j)
       <==> RefFresh(RefWithin(RefAfter(Reference(0, map[], rotateAt), bs[..i], lifetime), bs[i], lifetime, j), bs[i].keys[j])
  {
    var f, r := Filter({}, {}, rotateAt), Reference(0, map[], rotateAt);
    AfterSimulates(f, r, bs[..i], lifetime);
    OffersSimulate(Rotate(After(f, bs[..i], lifetime), bs[i].now, lifetime),
                   RefRotate(RefAfter(r, bs[..i], lifetime), bs[i].now, lifetime), bs[i].keys[..j]);
  }

  // ----- how long a hash stays suppressed -----

  /** `k` last passed in generation `g`, at a batch of time `t`; no later batch has let it through. */
  ghost predicate Held(r: Reference, k: Hash, g: nat, t: int, lifetime: int) {
    && k in r.last && r.last[k] == g <= r.generation <= g + 1
    && r.rotateAt > t
    && (r.generation == g + 1 ==> r.rotateAt > t + lifetime)
  }

  lemma {:induction false} OffersKeepHeld(r: Reference, keys: seq<Hash>, k: Hash, g: nat, t: int, lifetime: int)
    requires Held(r, k, g, t, lifetime)
    ensures Held(RefOffers(r, keys), k, g, t, lifetime)
  {
    if keys != [] {
      OffersKeepHeld(r, keys[..|keys| - 1], k, g, t, lifetime);
    }
  }

  /** Batches up to and including time t + lifetime keep the hash held. */
  lemma {:induction false} BatchesKeepHeld(r: Reference, bs: seq<Batch>, k: Hash, g: nat, t: int, lifetime: int)
    requires lifetime > 0 && Held(r, k, g, t, lifetime)
    requires forall i :: 0 <= i < |bs| ==> t <= bs[i].now <= t + lifetime
    ensures Held(RefAfter(r, bs, lifetime), k, g, t, lifetime)
  {
    if bs != [] {
      var b := bs[|bs| - 1];
      BatchesKeepHeld(r, bs[..|bs| - 1], k, g, t, lifetime);
      OffersKeepHeld(RefRotate(RefAfter(r, bs[..|bs| - 1], lifetime), b.now, lifetime), b.keys[..|b.keys|], k, g, t, lifetime);
    }
  }

  lemma {:induction false} OffersKeepClock(r: Reference, keys: seq<Hash>)
    ensures RefOffers(r, keys).generation == r.generation && RefOffers(r, keys).rotateAt == r.rotateAt
  {
    if keys != [] { OffersKeepClock(r, keys[..|keys| - 1]); }
  }

  lemma {:induction false} RefOffersConcat(r: Reference, a: seq<Hash>, b: seq<Hash>)
    ensures RefOffers(r, a + b) == RefOffers(RefOffers(r, a), b)
  {
    if b == [] {
      assert a + b == a;
    } else {
      assert (a + b)[..|a + b| - 1] == a + b[..|b| - 1];
      RefOffersConcat(r, a, b[..|b| - 1]);
    }
  }

  lemma {:induction false} RefAfterConcat(r: Reference, a: seq<Batch>, b: seq<Batch>, lifetime: int)
    ensures RefAfter(r, a + b, lifetime) == RefAfter(RefAfter(r, a, lifetime), b, lifetime)
  {
    if b == [] {
      assert a + b == a;
    } else {
      assert (a + b)[..|a + b| - 1] == a + b[..|b| - 1];
      RefAfterConcat(r, a, b[..|b| - 1], lifetime);
    }
  }

  lemma RefAfterSnoc(r: Reference, front: seq<Batch>, b: Batch, lifetime: int)
    ensures RefAfter(r, front + [b], lifetime) == RefWithin(RefAfter(r, front, lifetime), b, lifetime, |b.keys|)
  {
    assert (front + [b])[..|front|] == front;
  }

  /** A hash that passes in a batch is held when the batch ends. */
  lemma PassedIsHeld(r: Reference, b: Batch, lifetime: int, j: nat)
    requires lifetime > 0 && j < |b.keys| && RefFresh(RefWithin(r, b, lifetime, j), b.keys[j])
    ensures Held(RefWithin(r, b, lifetime, |b.keys|), b.keys[j], RefRotate(r, b.now, lifetime).generation, b.now, lifetime)
  {
    var r1 := RefRotate(r, b.now, lifetime);
    OffersKeepClock(r1, b.keys[..j]);
    assert b.keys[..j + 1][..j] == b.keys[..j];
    assert Held(RefOffers(r1, b.keys[..j + 1]), b.keys[j], r1.generation, b.now, lifetime);
    assert b.keys[..|b.keys|] == b.keys[..j + 1] + b.keys[j + 1..];
    RefOffersConcat(r1, b.keys[..j + 1], b.keys[j + 1..]);
    OffersKeepHeld(RefOffers(r1, b.keys[..j + 1]), b.keys[j + 1..], b.keys[j], r1.generation, b.now, lifetime);
  }

  lemma HeldAfter(r: Reference, bs: seq<Batch>, lifetime: int, i: nat, j: nat)
    requires lifetime > 0 && i < |bs| && j < |bs[i].keys|
    requires RefFresh(RefWithin(RefAfter(r, bs[..i], lifetime), bs[i], lifetime, j), bs[i].keys[j])
    ensures Held(RefAfter(r, bs[..i + 1], lifetime), bs[i].keys[j],
                 RefRotate(RefAfter(r, bs[..i], lifetime), bs[i].now, lifetime).generation, bs[i].now, lifetime)
  {
    PassedIsHeld(RefAfter(r, bs[..i], lifetime), bs[i], lifetime, j);
    assert bs[..i + 1] == bs[..i] + [bs[i]];
    RefAfterSnoc(r, bs[..i], bs[i], lifetime);
  }

  lemma HeldLater(r: Reference, bs: seq<Batch>, lifetime: int, i: nat, m: nat, k: Hash, g: nat)
    requires lifetime > 0 && i < m < |bs| && Held(RefAfter(r, bs[..i + 1], lifetime), k, g, bs[i].now, lifetime)
    requires forall a, b :: 0 <= a <= b < |bs| ==> bs[a].now <= bs[b].now
    requires bs[m].now <= bs[i].now + lifetime
    ensures Held(RefRotate(RefAfter(r, bs[..m], lifetime), bs[m].now, lifetime), k, g, bs[i].now, lifetime)
  {
    var mid := bs[i + 1..m];
    assert bs[..m] == bs[..i + 1] + mid;
    RefAfterConcat(r, bs[..i + 1], mid, lifetime);
    forall a | 0 <= a < |mid| ensures bs[i].now <= mid[a].now <= bs[i].now + lifetime {
      assert mid[a] == bs[i + 1 + a];
    }
    BatchesKeepHeld(RefAfter(r, bs[..i + 1], lifetime), mid, k, g, bs[i].now, lifetime);
  }

  /**
   Minimum suppression: with a positive lifetime and a clock that does not go back, a
   notification that passes at time t does not pass again, in any later batch up to and including
   time t + lifetime.
   */
  lemma SuppressedForLifetime(rotateAt: int, bs: seq<Batch>, lifetime: int, i: nat, j: nat, m: nat, n: nat)
    requires lifetime > 0 && i < m < |bs| && j < |bs[i].keys| && n < |bs[m].keys|
    requires forall a, b :: 0 <= a <= b < |bs| ==> bs[a].now <= bs[b].now
    requires bs[i].keys[j] == bs[m].keys[n] && bs[m].now <= bs[i].now + lifetime
    requires Passes(Filter({}, {}, rotateAt), bs, lifetime, i, j)
    ensures !Passes(Filter({}, {}, rotateAt), bs, lifetime, m, n)
  {
    var r, k := Reference(0, map[], rotateAt), bs[i].keys[j];
    FilterRefinesReference(rotateAt, bs, lifetime, i, j);
    FilterRefinesReference(rotateAt, bs, lifetime, m, n);
    var g := RefRotate(RefAfter(r, bs[..i], lifetime), bs[i].now, lifetime).generation;
    HeldAfter(r, bs, lifetime, i, j);
    HeldLater(r, bs, lifetime, i, m, k, g);
    OffersKeepHeld(RefRotate(RefAfter(r, bs[..m], lifetime), bs[m].now, lifetime), bs[m].keys[..n], k, g, bs[i].now, lifetime);
  }

  // ----- when a hash passes again -----

  /** `k` is offered nowhere in the batches. */
  predicate Unseen(bs: seq<Batch>, k: Hash) {
    forall i :: 0 <= i < |bs| ==> k !in bs[i].keys
  }

  /** What a reference knows of the past: passes are no newer than the generation, and the next rotation is at most one lifetime off. */
  ghost predicate Timed(r: Reference, now: int, lifetime: int) {
    (forall k :: k in r.last ==> r.last[k] <= r.generation) && r.rotateAt <= now + lifetime
  }

  lemma {:induction false} OffersKeepTimed(r: Reference, keys: seq<Hash>, now: int, lifetime: int)
    requires Timed(r, now, lifetime)
    ensures Timed(RefOffers(r, keys), now, lifetime)
  {
    if keys != [] {
      OffersKeepTimed(r, keys[..|keys| - 1], now, lifetime);
    }
  }

  lemma {:induction false} OffersKeepUnseen(r: Reference, keys: seq<Hash>, k: Hash)
    requires k !in keys
    ensures k in RefOffers(r, keys).last <==> k in r.last
    ensures k in r.last ==> RefOffers(r, keys).last[k] == r.last[k]
  {
    if keys != [] {
      OffersKeepUnseen(r, keys[..|keys| - 1], k);
      assert keys[|keys| - 1] in keys && forall x :: x in keys[..|keys| - 1] ==> x in keys;
    }
  }

  lemma {:induction false} AfterIsTimed(r: Reference, bs: seq<Batch>, lifetime: int, now: int)
    requires lifetime >= 0 && Timed(r, now, lifetime) && forall i :: 0 <= i < |bs| ==> bs[i].now <= now
    ensures Timed(RefAfter(r, bs, lifetime), now, lifetime)
  {
    if bs != [] {
      var front, b := bs[..|bs| - 1], bs[|bs| - 1];
      AfterIsTimed(r, front, lifetime, now);
      OffersKeepTimed(RefRotate(RefAfter(r, front, lifetime), b.now, lifetime), b.keys[..|b.keys|], now, lifetime);
    }
  }

  /** Over batches that do not offer it, a hash keeps its generation; the generation grows. */
  lemma {:induction false} AfterKeepsUnseen(r: Reference, bs: seq<Batch>, lifetime: int, k: Hash)
    requires Unseen(bs, k)
    ensures var r' := RefAfter(r, bs, lifetime);
            && r'.generation >= r.generation
            && (k in r'.last <==> k in r.last) && (k in r.last ==> r'.last[k] == r.last[k])
  {
    if bs != [] {
      var front, b := bs[..|bs| - 1], bs[|bs| - 1];
      assert Unseen(front, k);
      AfterKeepsUnseen(r, front, lifetime, k);
      var r1 := RefRotate(RefAfter(r, front, lifetime), b.now, lifetime);
      OffersKeepUnseen(r1, b.keys[..|b.keys|], k);
      OffersKeepClock(r1, b.keys[..|b.keys|]);
    }
  }

  /** A batch at or after the rotation time at which the reference stood earlier finds it rotated since. */
  lemma {:induction false} RotatedBy(r: Reference, bs: seq<Batch>, lifetime: int, now: int)
    requires now >= r.rotateAt
    ensures RefRotate(RefAfter(r, bs, lifetime), now, lifetime).generation > r.generation
  {
    if bs != [] {
      var front, b := bs[..|bs| - 1], bs[|bs| - 1];
      var r1 := RefAfter(r, front, lifetime);
      AfterGrows(r, front, lifetime);
      OffersKeepClock(RefRotate(r1, b.now, lifetime), b.keys[..|b.keys|]);
      RotatedBy(r, front, lifetime, now);
    }
  }

  /** Either nothing was rotated, or the generation has grown. */
  lemma {:induction false} AfterGrows(r: Reference, bs: seq<Batch>, lifetime: int)
    ensures var r' := RefAfter(r, bs, lifetime);
            r'.generation > r.generation || (r'.generation == r.generation && r'.rotateAt == r.rotateAt)
  {
    if bs != [] {
      var front, b := bs[..|bs| - 1], bs[|bs| - 1];
      AfterGrows(r, front, lifetime);
      OffersKeepClock(RefRotate(RefAfter(r, front, lifetime), b.now, lifetime), b.keys[..|b.keys|]);
    }
  }

  /** Two rotations after everything known of it, a hash that was not offered meanwhile is fresh. */
  lemma TwoRotationsFree(r: Reference, first: seq<Batch>, b: Batch, second: seq<Batch>, last: Batch, lifetime: int, k: Hash, j: nat, t: int)
    requires lifetime >= 0 && Timed(r, t, lifetime) && Unseen(first, k) && k !in b.keys && Unseen(second, k)
    requires b.now >= t + lifetime && last.now >= b.now + lifetime
    requires forall i :: 0 <= i < |first| ==> first[i].now <= b.now
    requires j <= |last.keys| && k !in last.keys[..j]
    ensures RefFresh(RefWithin(RefAfter(RefWithin(RefAfter(r, first, lifetime), b, lifetime, |b.keys|), second, lifetime), last, lifetime, j), k)
  {
    var r0 := RefAfter(r, first, lifetime);
    var r1 := RefRotate(r0, b.now, lifetime);
    var r2 := RefOffers(r1, b.keys[..|b.keys|]);
    var r3 := RefAfter(r2, second, lifetime);
    AfterKeepsUnseen(r, first, lifetime, k);
    RotatedBy(r, first, lifetime, b.now);
    OffersKeepUnseen(r1, b.keys[..|b.keys|], k);
    OffersKeepClock(r1, b.keys[..|b.keys|]);
    AfterIsTimed(r, first, lifetime, b.now);
    AfterKeepsUnseen(r2, second, lifetime, k);
    RotatedBy(r2, second, lifetime, last.now);
    OffersKeepUnseen(RefRotate(r3, last.now, lifetime), last.keys[..j], k);
    OffersKeepClock(RefRotate(r3, last.now, lifetime), last.keys[..j]);
  }

  lemma UnseenSlice(bs: seq<Batch>, lo: nat, hi: nat, k: Hash)
    requires lo <= hi <= |bs| && forall a :: lo <= a < hi ==> k !in bs[a].keys
    ensures Unseen(bs[lo..hi], k)
  {
  }

  /** A run in four pieces. */
  lemma RefAfterPieces(r: Reference, a: seq<Batch>, first: seq<Batch>, b: Batch, second: seq<Batch>, lifetime: int)
    ensures RefAfter(r, a + first + [b] + second, lifetime) ==
            RefAfter(RefWithin(RefAfter(RefAfter(r, a, lifetime), first, lifetime), b, lifetime, |b.keys|), second, lifetime)
  {
    RefAfterConcat(r, a + first + [b], second, lifetime);
    RefAfterSnoc(r, a + first, b, lifetime);
    RefAfterConcat(r, a, first, lifetime);
  }

  /** A run cut after batch `i`, at batch `p`, and before batch `m`. */
  lemma CutRun(bs: seq<Batch>, i: nat, p: nat, m: nat)
    requires i < p < m <= |bs|
    ensures bs[..m] == bs[..i + 1] + bs[i + 1..p] + [bs[p]] + bs[p + 1..m]
  {
  }

  lemma CutReference(r: Reference, bs: seq<Batch>, i: nat, p: nat, m: nat, lifetime: int)
    requires i < p < m <= |bs|
    ensures var ri := RefAfter(RefAfter(r, bs[..i + 1], lifetime), bs[i + 1..p], lifetime);
            RefAfter(r, bs[..m], lifetime) == RefAfter(RefWithin(ri, bs[p], lifetime, |bs[p].keys|), bs[p + 1..m], lifetime)
  {
    CutRun(bs, i, p, m);
    RefAfterPieces(r, bs[..i + 1], bs[i + 1..p], bs[p], bs[p + 1..m], lifetime);
  }

  lemma TimedAt(rotateAt: int, bs: seq<Batch>, lifetime: int, i: nat)
    requires lifetime >= 0 && i < |bs| && rotateAt <= bs[0].now + lifetime
    requires forall a, b :: 0 <= a <= b < |bs| ==> bs[a].now <= bs[b].now
    ensures Timed(RefAfter(Reference(0, map[], rotateAt), bs[..i + 1], lifetime), bs[i].now, lifetime)
  {
    AfterIsTimed(Reference(0, map[], rotateAt), bs[..i + 1], lifetime, bs[i].now);
  }

  /**
   Maximum suppression: a notification passes when its hash was not offered after batch `i`, some
   batch `p` came a lifetime after `i`, and this batch `m` a lifetime after `p`.
   */
  lemma PassesAgain(rotateAt: int, bs: seq<Batch>, lifetime: int, i: nat, p: nat, m: nat, n: nat)
    requires lifetime >= 0 && i < p < m < |bs| && n < |bs[m].keys| && rotateAt <= bs[0].now + lifetime
    requires forall a, b :: 0 <= a <= b < |bs| ==> bs[a].now <= bs[b].now
    requires bs[p].now >= bs[i].now + lifetime && bs[m].now >= bs[p].now + lifetime
    requires (forall a :: i < a < m ==> bs[m].keys[n] !in bs[a].keys) && bs[m].keys[n] !in bs[m].keys[..n]
    ensures Passes(Filter({}, {}, rotateAt), bs, lifetime, m, n)
  {
    var r, k := Reference(0, map[], rotateAt), bs[m].keys[n];
    FilterRefinesReference(rotateAt, bs, lifetime, m, n);
    TimedAt(rotateAt, bs, lifetime, i);
    CutReference(r, bs, i, p, m, lifetime);
    UnseenSlice(bs, i + 1, p, k);
    UnseenSlice(bs, p + 1, m, k);
    TwoRotationsFree(RefAfter(r, bs[..i + 1], lifetime), bs[i + 1..p], bs[p], bs[p + 1..m], bs[m], lifetime, k, n, bs[i].now);
  }

  // ----- the object -----

  class NotificationFilter {
    var recent: set<Hash>
    var rotated: set<Hash>
    var rotateAt: int
    const lifetime: int

    ghost function State(): Filter
      reads this
    {
      Filter(recent, rotated, rotateAt)
    }

    constructor (now: int, lifetime: int)
      ensures this.lifetime == lifetime && State() == Filter({}, {}, now + lifetime)
    {
      this.lifetime := lifetime;
      recent, rotated, rotateAt := {}, {}, now + lifetime;
    }

    /** The filter's part of one batch; `passed[j]` tells whether notification `j` goes on. */
    method Process(b: Batch) returns (passed: seq<bool>)
      modifies this
      ensures State() == Within(old(State()), b, lifetime, |b.keys|)
      ensures |passed| == |b.keys|
      ensures forall j :: 0 <= j < |b.keys| ==> passed[j] == Fresh(Within(old(State()), b, lifetime, j), b.keys[j])
    {
      if b.now >= rotateAt {
        rotated := recent;
        recent := {};
        rotateAt := b.now + lifetime;
      }
      passed := [];
      for i := 0 to |b.keys|
        invariant State() == Within(old(State()), b, lifetime, i) && |passed| == i
        invariant forall j :: 0 <= j < i ==> passed[j] == Fresh(Within(old(State()), b, lifetime, j), b.keys[j])
      {
        assert b.keys[..i + 1][..i] == b.keys[..i];
        if b.keys[i] in rotated || b.keys[i] in recent {
          passed := passed + [false];
          assert recent + {b.keys[i]} == recent || b.keys[i] in rotated;
        } else {
          recent := recent + {b.keys[i]};
          passed := passed + [true];
        }
      }
    }
  }
}
