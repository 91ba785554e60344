/**
 `SNode::check_subs` on values: which queue entries one call pops, what it submits, and how the
 queue looks afterwards. A call is a relation, since the re-subscription delays are random and
 `std::sort` may order equal times either way.
 */
module Drain {
  import opened Common
  import opened SwarmSpace
  import opened Subscriptions
  import opened Queue

  /** One entry of a "monitor" request. */
  datatype Monitor = Monitor(acct: Account, sub: Subscription)

  /** The signature is neither about to expire nor too far in the future. */
  predicate InWindow(sub: Subscription, now: Time) {
    now - SIGNATURE_EXPIRY * SECOND + 10 * SECOND <= sub.sigTs * SECOND <= now + SIGNATURE_EARLY * SECOND
  }

  /** The in-window subscriptions of one account, in order. */
  function Entries(a: Account, subs: seq<Subscription>, now: Time): seq<Monitor> {
    if subs == [] then []
    else
      var last := subs[|subs| - 1];
      Entries(a, subs[..|subs| - 1], now) + if InWindow(last, now) then [Monitor(a, last)] else []
  }

  /** Live, and known to the hive. */
  predicate Serves(s: Slot, all: Subscribers) {
    s.acct.Some? && s.acct.value.acct in all
  }

  function SlotRequest(s: Slot, all: Subscribers, now: Time): seq<Monitor> {
    if Serves(s, all) then Entries(s.acct.value.acct, all[s.acct.value.acct].subs, now) else []
  }

  /** What a run of queue entries submits. */
  function Request(q: seq<Slot>, all: Subscribers, now: Time): seq<Monitor> {
    if q == [] then [] else Request(q[..|q| - 1], all, now) + SlotRequest(q[|q| - 1], all, now)
  }

  /** The accounts that a run of queue entries puts back in the queue. */
  function Survivors(q: seq<Slot>, all: Subscribers): seq<SwarmPubkey> {
    if q == [] then []
    else Survivors(q[..|q| - 1], all) + if Serves(q[|q| - 1], all) then [q[|q| - 1].acct.value] else []
  }

  /** How many leading entries one call pops when `sent` subscriptions are already in its request. */
  function Popped(q: seq<Slot>, all: Subscribers, now: Time, sent: nat): (k: nat)
    ensures k <= |q|
  {
    if q == [] || q[0].due > now then 0
    else if !Serves(q[0], all) then 1 + Popped(q[1..], all, now, sent)
    else
      var sent' := sent + |SlotRequest(q[0], all, now)|;
      if sent' >= SUBS_REQUEST_LIMIT then 1 else 1 + Popped(q[1..], all, now, sent')
  }

  /** `std::partition_point` for "due before `bound`" on a sorted queue. */
  function PartitionPoint(q: seq<Slot>, bound: Time): (p: nat)
    ensures p <= |q|
    ensures forall i :: 0 <= i < p ==> q[i].due < bound
    ensures p < |q| ==> q[p].due >= bound
  {
    if q == [] || q[0].due >= bound then 0 else 1 + PartitionPoint(q[1..], bound)
  }

  /** The entries appended for the accounts `pks`, each with its own random delay. */
  ghost predicate Requeued(added: seq<Slot>, pks: seq<SwarmPubkey>, now: Time) {
    && |added| == |pks|
    && forall i :: 0 <= i < |added| ==>
         && added[i].acct == Some(pks[i])
         && now + RESUBSCRIBE_MIN * SECOND <= added[i].due <= now + RESUBSCRIBE_MAX * SECOND
  }

  /** `q'` keeps `kept` up to the partition point and holds a sorted arrangement of the rest. */
  ghost predicate Resorted(kept: seq<Slot>, added: seq<Slot>, bound: Time, q': seq<Slot>) {
    var p := PartitionPoint(kept, bound);
    && |q'| >= p && q'[..p] == kept[..p]
    && Sorted(q'[p..]) && multiset(q'[p..]) == multiset(kept[p..] + added)
  }

  /** One call of `check_subs` at time `now` turns the queue `q` into `q'`. */
  ghost predicate CheckStep(q: seq<Slot>, all: Subscribers, now: Time, added: seq<Slot>, q': seq<Slot>) {
    var k := Popped(q, all, now, 0);
    && Requeued(added, Survivors(q[..k], all), now)
    && Resorted(q[k..], added, now + RESUBSCRIBE_MIN * SECOND, q')
  }

  /** The request that such a call submits. */
  function Submitted(q: seq<Slot>, all: Subscribers, now: Time): seq<Monitor> {
    Request(q[..Popped(q, all, now, 0)], all, now)
  }

  predicate RateLimited(q: seq<Slot>, all: Subscribers, now: Time) {
    |Submitted(q, all, now)| >= SUBS_REQUEST_LIMIT
  }

  // ----- the partial re-sort -----

  /** Whatever lies past the partition point is due at `bound` or later. */
  lemma TailIsLate(kept: seq<Slot>, added: seq<Slot>, bound: Time, q': seq<Slot>, j: nat)
    requires Sorted(kept) && (forall i :: 0 <= i < |added| ==> added[i].due >= bound)
    requires Resorted(kept, added, bound, q')
    requires PartitionPoint(kept, bound) <= j < |q'|
    ensures q'[j].due >= bound
  {
    var p := PartitionPoint(kept, bound);
    assert q'[p..][j - p] == q'[j];
    assert q'[j] in multiset(q'[p..]);
    assert q'[j] in kept[p..] + added;
    if q'[j] in kept[p..] {
      var i :| 0 <= i < |kept[p..]| && kept[p..][i] == q'[j];
      assert kept[p].due <= kept[p + i].due;
    }
  }

  lemma ResortKeepsEntries(kept: seq<Slot>, added: seq<Slot>, bound: Time, q': seq<Slot>)
    requires Resorted(kept, added, bound, q')
    ensures multiset(q') == multiset(kept + added)
  {
    var p := PartitionPoint(kept, bound);
    assert q' == q'[..p] + q'[p..];
    assert kept == kept[..p] + kept[p..];
    AssociateBags(multiset(kept[..p]), multiset(kept[p..]), multiset(added));
  }

  lemma ResortedPair(kept: seq<Slot>, added: seq<Slot>, bound: Time, q': seq<Slot>, i: nat, j: nat)
    requires Sorted(kept) && (forall i :: 0 <= i < |added| ==> added[i].due >= bound)
    requires Resorted(kept, added, bound, q') && i < j < |q'|
    ensures q'[i].due <= q'[j].due
  {
    var p := PartitionPoint(kept, bound);
    assert i < p ==> q'[i] == q'[..p][i] == kept[i];
    assert j < p ==> q'[j] == q'[..p][j] == kept[j];
    assert i >= p ==> q'[i] == q'[p..][i - p];
    if j >= p {
      assert q'[j] == q'[p..][j - p];
      TailIsLate(kept, added, bound, q', j);
    }
  }

  /** Sorting only from the partition point sorts everything, and loses and invents nothing. */
  lemma TailResortSortsAll(kept: seq<Slot>, added: seq<Slot>, bound: Time, q': seq<Slot>)
    requires Sorted(kept) && (forall i :: 0 <= i < |added| ==> added[i].due >= bound)
    requires Resorted(kept, added, bound, q')
    ensures Sorted(q') && multiset(q') == multiset(kept + added)
  {
    ResortKeepsEntries(kept, added, bound, q');
    forall i, j | 0 <= i < j < |q'| ensures q'[i].due <= q'[j].due {
      ResortedPair(kept, added, bound, q', i, j);
    }
  }

  // ----- the invariant survives a call -----

  /** The live accounts that a run of entries drops because the hive does not know them. */
  function Dropped(q: seq<Slot>, all: Subscribers): multiset<Account> {
    if q == [] then multiset{}
    else Dropped(q[..|q| - 1], all) + if Serves(q[|q| - 1], all) then multiset{} else LiveId(q[|q| - 1])
  }

  lemma RequeuedFront(added: seq<Slot>, pks: seq<SwarmPubkey>, pk: SwarmPubkey, now: Time)
    requires Requeued(added, pks + [pk], now)
    ensures Requeued(added[..|added| - 1], pks, now) && added[|added| - 1].acct == Some(pk)
  {
    assert forall i :: 0 <= i < |pks| ==> (pks + [pk])[i] == pks[i];
  }

  lemma AssociateBags<T>(a: multiset<T>, b: multiset<T>, c: multiset<T>)
    ensures (a + b) + c == a + (b + c)
  {
  }

  /** Every live account is either dropped or comes back. */
  lemma {:induction false} DroppedOrRequeued(q: seq<Slot>, all: Subscribers, added: seq<Slot>, now: Time)
    requires Requeued(added, Survivors(q, all), now)
    ensures LiveIds(q) == Dropped(q, all) + LiveIds(added)
  {
    if q != [] {
      var front, s := q[..|q| - 1], q[|q| - 1];
      if Serves(s, all) {
        var added' := added[..|added| - 1];
        RequeuedFront(added, Survivors(front, all), s.acct.value, now);
        DroppedOrRequeued(front, all, added', now);
        AssociateBags(Dropped(front, all), LiveIds(added'), LiveId(s));
      } else {
        DroppedOrRequeued(front, all, added, now);
        Swap(Dropped(front, all), LiveIds(added), LiveId(s));
      }
    }
  }

  lemma {:induction false} NoneDropped(q: seq<Slot>, all: Subscribers)
    requires forall s :: s in q && s.acct.Some? ==> s.acct.value.acct in all
    ensures Dropped(q, all) == multiset{}
  {
    if q != [] { NoneDropped(q[..|q| - 1], all); }
  }

  lemma {:induction false} SurvivorsCameFrom(q: seq<Slot>, all: Subscribers)
    ensures forall pk :: pk in Survivors(q, all) ==> exists s :: s in q && s.acct == Some(pk)
  {
    if q != [] {
      SurvivorsCameFrom(q[..|q| - 1], all);
      assert q[|q| - 1] in q;
      assert forall s :: s in q[..|q| - 1] ==> s in q;
    }
  }

  lemma Regroup<T>(d: multiset<T>, a: multiset<T>, k: multiset<T>)
    ensures (d + a) + k == (k + a) + d
  {
  }

  lemma ConserveAccounts(popped: seq<Slot>, kept: seq<Slot>, all: Subscribers, now: Time, added: seq<Slot>, q': seq<Slot>)
    requires Sorted(kept) && Requeued(added, Survivors(popped, all), now)
    requires Resorted(kept, added, now + RESUBSCRIBE_MIN * SECOND, q')
    ensures Sorted(q') && LiveIds(popped + kept) == LiveIds(q') + Dropped(popped, all)
  {
    TailResortSortsAll(kept, added, now + RESUBSCRIBE_MIN * SECOND, q');
    LiveIdsPermuted(q', kept + added);
    LiveIdsConcat(kept, added);
    DroppedOrRequeued(popped, all, added, now);
    LiveIdsConcat(popped, kept);
    Regroup(Dropped(popped, all), LiveIds(added), LiveIds(kept));
  }

  /** What a call does to the live accounts of any queue: it drops exactly the unknown ones it pops. */
  lemma CheckConservesAccounts(q: seq<Slot>, all: Subscribers, now: Time, added: seq<Slot>, q': seq<Slot>)
    requires Sorted(q) && CheckStep(q, all, now, added, q')
    ensures Sorted(q')
    ensures LiveIds(q) == LiveIds(q') + Dropped(q[..Popped(q, all, now, 0)], all)
  {
    var k := Popped(q, all, now, 0);
    var popped, kept := q[..k], q[k..];
    assert q == popped + kept;
    ConserveAccounts(popped, kept, all, now, added, q');
  }

  /** Every entry left by a call is an old one or a live copy of an old one, later. */
  lemma CheckedEntries(q: seq<Slot>, all: Subscribers, now: Time, added: seq<Slot>, q': seq<Slot>, s: Slot)
    requires Sorted(q) && CheckStep(q, all, now, added, q') && s in q'
    ensures s in q || (s.due >= now && exists t :: t in q && t.acct == s.acct && s.acct.Some?)
  {
    var k := Popped(q, all, now, 0);
    TailResortSortsAll(q[k..], added, now + RESUBSCRIBE_MIN * SECOND, q');
    assert s in multiset(q') && s in q[k..] + added;
    if s !in q[k..] {
      var i :| 0 <= i < |added| && added[i] == s;
      SurvivorsCameFrom(q[..k], all);
      assert Survivors(q[..k], all)[i] in Survivors(q[..k], all);
    }
  }

  /** When the hive knows every account of the node, `check_subs` keeps the node invariant. */
  lemma CheckKeepsInv(n: Node, all: Subscribers, now: Time, added: seq<Slot>, q': seq<Slot>)
    requires NodeInv(n) && n.subs.Keys <= all.Keys && now >= SYSTEM_EPOCH
    requires CheckStep(n.next, all, now, added, q')
    ensures NodeInv(n.(next := q'))
  {
    var popped := n.next[..Popped(n.next, all, now, 0)];
    CheckConservesAccounts(n.next, all, now, added, q');
    forall s | s in popped && s.acct.Some? ensures s.acct.value.acct in all {
      LiveIdsMember(n.next, s.acct.value.acct);
    }
    NoneDropped(popped, all);
    forall s | s in q' ensures s.due >= SYSTEM_EPOCH && (s.acct.Some? ==> s.acct.value.swarm == n.swarm) {
      CheckedEntries(n.next, all, now, added, q', s);
    }
  }

  // ----- rate-limited draining refines one-shot draining -----

  /** The number of leading entries that are due. */
  function DueCount(q: seq<Slot>, now: Time): (d: nat)
    ensures d <= |q|
    ensures forall i :: 0 <= i < d ==> q[i].due <= now
    ensures d < |q| ==> q[d].due > now
  {
    if q == [] || q[0].due > now then 0 else 1 + DueCount(q[1..], now)
  }

  /** One-shot draining: submit the in-window subscriptions of every due account, in queue order. */
  function OneShot(q: seq<Slot>, all: Subscribers, now: Time): seq<Monitor> {
    Request(q[..DueCount(q, now)], all, now)
  }

  lemma {:induction false} RequestConcat(a: seq<Slot>, b: seq<Slot>, all: Subscribers, now: Time)
    ensures Request(a + b, all, now) == Request(a, all, now) + Request(b, all, now)
  {
    if b == [] {
      assert a + b == a;
    } else {
      assert (a + b)[..|a + b| - 1] == a + b[..|b| - 1];
      RequestConcat(a, b[..|b| - 1], all, now);
    }
  }

  lemma RequestFront(s: Slot, r: seq<Slot>, all: Subscribers, now: Time)
    ensures Request([s] + r, all, now) == SlotRequest(s, all, now) + Request(r, all, now)
  {
    assert [s][..0] == [];
    RequestConcat([s], r, all, now);
  }

  lemma {:induction false} PoppedAreDue(q: seq<Slot>, all: Subscribers, now: Time, sent: nat)
    ensures Popped(q, all, now, sent) <= DueCount(q, now)
  {
    if q != [] && q[0].due <= now {
      if !Serves(q[0], all) {
        PoppedAreDue(q[1..], all, now, sent);
      } else if sent + |SlotRequest(q[0], all, now)| < SUBS_REQUEST_LIMIT {
        PoppedAreDue(q[1..], all, now, sent + |SlotRequest(q[0], all, now)|);
      }
    }
  }

  lemma RequestPrefix(q: seq<Slot>, k: nat, all: Subscribers, now: Time)
    requires 1 <= k <= |q|
    ensures Request(q[..k], all, now) == SlotRequest(q[0], all, now) + Request(q[1..][..k - 1], all, now)
  {
    assert q[..k] == [q[0]] + q[1..][..k - 1];
    RequestFront(q[0], q[1..][..k - 1], all, now);
  }

  lemma PoppedNext(q: seq<Slot>, all: Subscribers, now: Time, sent: nat)
    requires q != [] && q[0].due <= now && Popped(q, all, now, sent) != 1 + Popped(q[1..], all, now, sent + |SlotRequest(q[0], all, now)|)
    ensures sent + |SlotRequest(q[0], all, now)| >= SUBS_REQUEST_LIMIT && Popped(q, all, now, sent) == 1
  {
  }

  /** A call pops everything that is due unless its request reached the limit. */
  lemma {:induction false} PoppedStops(q: seq<Slot>, all: Subscribers, now: Time, sent: nat)
    requires sent + |Request(q[..Popped(q, all, now, sent)], all, now)| < SUBS_REQUEST_LIMIT
    ensures Popped(q, all, now, sent) == DueCount(q, now)
  {
    if q != [] && q[0].due <= now {
      var k, sent' := Popped(q, all, now, sent), sent + |SlotRequest(q[0], all, now)|;
      RequestPrefix(q, k, all, now);
      assert k == 1 + Popped(q[1..], all, now, sent') by {
        if k != 1 + Popped(q[1..], all, now, sent') {
          PoppedNext(q, all, now, sent);
        }
      }
      PoppedStops(q[1..], all, now, sent');
    }
  }

  /** A second entry is popped only while the request is below the limit. */
  lemma PoppedSecond(q: seq<Slot>, all: Subscribers, now: Time, sent: nat)
    requires sent < SUBS_REQUEST_LIMIT && Popped(q, all, now, sent) > 1
    ensures var sent' := sent + |SlotRequest(q[0], all, now)|;
            sent' < SUBS_REQUEST_LIMIT && Popped(q, all, now, sent) == 1 + Popped(q[1..], all, now, sent')
  {
  }

  lemma OneMoreInTime(q: seq<Slot>, k: nat, all: Subscribers, now: Time, sent: nat)
    requires 1 < k <= |q|
    requires sent + |SlotRequest(q[0], all, now)| + |Request(q[1..][..k - 2], all, now)| < SUBS_REQUEST_LIMIT
    ensures sent + |Request(q[..k - 1], all, now)| < SUBS_REQUEST_LIMIT
  {
    RequestPrefix(q, k - 1, all, now);
  }

  lemma NothingSentYet(q: seq<Slot>, all: Subscribers, now: Time)
    ensures |Request(q[..0], all, now)| == 0
  {
    assert q[..0] == [];
  }

  /** Before the last popped account was added to it, the request was below the limit. */
  lemma {:induction false} PoppedInTime(q: seq<Slot>, all: Subscribers, now: Time, sent: nat, k: nat)
    requires sent < SUBS_REQUEST_LIMIT && k == Popped(q, all, now, sent) && k > 0
    ensures sent + |Request(q[..k - 1], all, now)| < SUBS_REQUEST_LIMIT
  {
    if k == 1 {
      NothingSentYet(q, all, now);
    } else {
      PoppedSecond(q, all, now, sent);
      PoppedInTime(q[1..], all, now, sent + |SlotRequest(q[0], all, now)|, k - 1);
      OneMoreInTime(q, k, all, now, sent);
    }
  }

  lemma DueCountIs(q: seq<Slot>, now: Time, d: nat)
    requires d <= |q| && (forall i :: 0 <= i < d ==> q[i].due <= now) && (d < |q| ==> q[d].due > now)
    ensures DueCount(q, now) == d
  {
    var c := DueCount(q, now);
    assert c < |q| ==> q[c].due > now;
    assert forall i :: 0 <= i < c ==> q[i].due <= now;
  }

  /** The re-sort leaves the due entries alone: all that it moves is in the future. */
  lemma ResortKeepsDue(kept: seq<Slot>, added: seq<Slot>, bound: Time, q': seq<Slot>, now: Time)
    requires Sorted(kept) && (forall i :: 0 <= i < |added| ==> added[i].due >= bound) && now < bound
    requires Resorted(kept, added, bound, q')
    ensures var c := DueCount(kept, now);
            DueCount(q', now) == c && c <= |q'| && q'[..c] == kept[..c]
  {
    var c, p := DueCount(kept, now), PartitionPoint(kept, bound);
    assert c <= p;
    assert q'[..c] == q'[..p][..c] == kept[..c];
    assert forall i :: 0 <= i < p ==> q'[i] == q'[..p][i] == kept[i];
    if p <= c < |q'| { TailIsLate(kept, added, bound, q', c); }
    DueCountIs(q', now, c);
  }

  lemma DueOfRest(q: seq<Slot>, k: nat, now: Time)
    requires k <= DueCount(q, now)
    ensures DueCount(q[k..], now) == DueCount(q, now) - k
    ensures q[k..][..DueCount(q, now) - k] == q[k..DueCount(q, now)]
  {
    DueCountIs(q[k..], now, DueCount(q, now) - k);
  }

  /** After a call the due entries are the old due entries minus the popped ones, in order. */
  lemma DueAfterCheck(q: seq<Slot>, all: Subscribers, now: Time, added: seq<Slot>, q': seq<Slot>)
    requires Sorted(q) && CheckStep(q, all, now, added, q')
    ensures var k, d := Popped(q, all, now, 0), DueCount(q, now);
            && k <= d && DueCount(q', now) == d - k && d - k <= |q'| && q'[..d - k] == q[k..d]
  {
    var k, d := Popped(q, all, now, 0), DueCount(q, now);
    PoppedAreDue(q, all, now, 0);
    DueOfRest(q, k, now);
    ResortKeepsDue(q[k..], added, now + RESUBSCRIBE_MIN * SECOND, q', now);
  }

  lemma CheckKeepsSorted(q: seq<Slot>, all: Subscribers, now: Time, added: seq<Slot>, q': seq<Slot>)
    requires Sorted(q) && CheckStep(q, all, now, added, q')
    ensures Sorted(q')
  {
    TailResortSortsAll(q[Popped(q, all, now, 0)..], added, now + RESUBSCRIBE_MIN * SECOND, q');
  }

  lemma TakeSplit<T>(s: seq<T>, k: nat, d: nat)
    requires k <= d <= |s|
    ensures s[..d] == s[..k] + s[k..d]
  {
  }

  lemma RequestSplits(q: seq<Slot>, k: nat, d: nat, rest: seq<Slot>, all: Subscribers, now: Time)
    requires k <= d <= |q| && rest == q[k..d]
    ensures Request(q[..d], all, now) == Request(q[..k], all, now) + Request(rest, all, now)
  {
    TakeSplit(q, k, d);
    RequestConcat(q[..k], rest, all, now);
  }

  lemma DueSplits(q: seq<Slot>, q': seq<Slot>, k: nat, d: nat, all: Subscribers, now: Time)
    requires k <= d == DueCount(q, now) && DueCount(q', now) == d - k && q'[..d - k] == q[k..d]
    ensures Request(q[..k], all, now) + OneShot(q', all, now) == OneShot(q, all, now)
  {
    RequestSplits(q, k, d, q'[..d - k], all, now);
  }

  /** One call submits a prefix of what one-shot draining submits and leaves the rest for later. */
  lemma CheckRefinesOneShot(q: seq<Slot>, all: Subscribers, now: Time, added: seq<Slot>, q': seq<Slot>)
    requires Sorted(q) && CheckStep(q, all, now, added, q')
    ensures Sorted(q')
    ensures Submitted(q, all, now) + OneShot(q', all, now) == OneShot(q, all, now)
  {
    CheckKeepsSorted(q, all, now, added, q');
    DueAfterCheck(q, all, now, added, q');
    DueSplits(q, q', Popped(q, all, now, 0), DueCount(q, now), all, now);
  }

  /** A call that was not rate limited leaves nothing due; one that was makes progress. */
  lemma CheckProgress(q: seq<Slot>, all: Subscribers, now: Time, added: seq<Slot>, q': seq<Slot>)
    requires Sorted(q) && CheckStep(q, all, now, added, q')
    ensures |Submitted(q, all, now)| < 2000 ==> DueCount(q', now) == 0 && OneShot(q', all, now) == []
    ensures |Submitted(q, all, now)| >= 2000 ==> DueCount(q', now) < DueCount(q, now)
  {
    DueAfterCheck(q, all, now, added, q');
    if !RateLimited(q, all, now) {
      PoppedStops(q, all, now, 0);
    } else {
      assert Popped(q, all, now, 0) > 0;
    }
  }

  lemma RequestLast(q: seq<Slot>, k: nat, all: Subscribers, now: Time)
    requires 1 <= k <= |q|
    ensures Request(q[..k], all, now) == Request(q[..k - 1], all, now) + SlotRequest(q[k - 1], all, now)
  {
    assert q[..k][..k - 1] == q[..k - 1];
  }

  /** Each request stays below the limit plus the subscriptions of the last account in it. */
  lemma RequestBound(q: seq<Slot>, all: Subscribers, now: Time)
    ensures var k := Popped(q, all, now, 0);
            if k == 0 then Submitted(q, all, now) == []
            else |Submitted(q, all, now)| < 2000 + |SlotRequest(q[k - 1], all, now)|
  {
    var k := Popped(q, all, now, 0);
    if k > 0 {
      PoppedInTime(q, all, now, 0, k);
      RequestLast(q, k, all, now);
    }
  }

  ghost predicate CallAt(qs: seq<seq<Slot>>, addeds: seq<seq<Slot>>, all: Subscribers, now: Time, i: nat) {
    i < |addeds| && i + 1 < |qs| && CheckStep(qs[i], all, now, addeds[i], qs[i + 1])
  }

  /** The queues seen by successive calls at one time: call i turns `qs[i]` into `qs[i + 1]`. */
  ghost predicate Calls(qs: seq<seq<Slot>>, addeds: seq<seq<Slot>>, all: Subscribers, now: Time) {
    && |qs| == |addeds| + 1
    && forall i: nat :: i < |addeds| ==> CallAt(qs, addeds, all, now, i)
  }

  /** The first `m` pieces, put end to end. */
  function Flat<T>(pieces: seq<seq<T>>, m: nat): seq<T>
    requires m <= |pieces|
  {
    if m == 0 then [] else Flat(pieces, m - 1) + pieces[m - 1]
  }

  /** What each of the first `m` calls submitted. */
  function Pieces(qs: seq<seq<Slot>>, m: nat, all: Subscribers, now: Time): (r: seq<seq<Monitor>>)
    requires m <= |qs|
    ensures |r| == m && forall i :: 0 <= i < m ==> r[i] == Submitted(qs[i], all, now)
  {
    seq(m, i requires 0 <= i < m => Submitted(qs[i], all, now))
  }

  /** Everything the first `m` calls submitted, in order. */
  function Transcript(qs: seq<seq<Slot>>, m: nat, all: Subscribers, now: Time): seq<Monitor>
    requires m <= |qs|
  {
    Flat(Pieces(qs, m, all, now), m)
  }

  lemma Associate<T>(a: seq<T>, b: seq<T>, c: seq<T>)
    ensures (a + b) + c == a + (b + c)
  {
  }

  /** One more piece of the transcript. */
  lemma NextPiece<T>(sent: seq<T>, piece: seq<T>, left: seq<T>, before: seq<T>, whole: seq<T>)
    requires sent + before == whole && piece + left == before
    ensures (sent + piece) + left == whole
  {
    Associate(sent, piece, left);
  }

  /** One of the calls. */
  lemma CallRefines(qs: seq<seq<Slot>>, addeds: seq<seq<Slot>>, all: Subscribers, now: Time, m: nat)
    requires Calls(qs, addeds, all, now) && m < |addeds| && Sorted(qs[m])
    ensures Sorted(qs[m + 1])
    ensures Submitted(qs[m], all, now) + OneShot(qs[m + 1], all, now) == OneShot(qs[m], all, now)
  {
    assert CallAt(qs, addeds, all, now, m);
    CheckRefinesOneShot(qs[m], all, now, addeds[m], qs[m + 1]);
  }

  lemma {:induction false} CallsKeepSorted(qs: seq<seq<Slot>>, addeds: seq<seq<Slot>>, all: Subscribers, now: Time, m: nat)
    requires Calls(qs, addeds, all, now) && Sorted(qs[0]) && m <= |addeds|
    ensures Sorted(qs[m])
  {
    if m > 0 {
      CallsKeepSorted(qs, addeds, all, now, m - 1);
      CallRefines(qs, addeds, all, now, m - 1);
    }
  }

  /** Pieces cut off one by one, with what is left after the last, make up the whole. */
  lemma {:induction false} Telescope<T>(pieces: seq<seq<T>>, rests: seq<seq<T>>, m: nat)
    requires m <= |pieces| < |rests|
    requires forall i :: 0 <= i < |pieces| ==> pieces[i] + rests[i + 1] == rests[i]
    ensures Flat(pieces, m) + rests[m] == rests[0]
  {
    if m > 0 {
      Telescope(pieces, rests, m - 1);
      NextPiece(Flat(pieces, m - 1), pieces[m - 1], rests[m], rests[m - 1], rests[0]);
    } else {
      assert [] + rests[0] == rests[0];
    }
  }

  function Rests(qs: seq<seq<Slot>>, all: Subscribers, now: Time): (r: seq<seq<Monitor>>)
    ensures |r| == |qs| && forall i :: 0 <= i < |qs| ==> r[i] == OneShot(qs[i], all, now)
  {
    seq(|qs|, i requires 0 <= i < |qs| => OneShot(qs[i], all, now))
  }

  lemma PiecesFit(qs: seq<seq<Slot>>, addeds: seq<seq<Slot>>, all: Subscribers, now: Time, m: nat, i: nat)
    requires Calls(qs, addeds, all, now) && Sorted(qs[0]) && i < m <= |addeds|
    ensures Pieces(qs, m, all, now)[i] + Rests(qs, all, now)[i + 1] == Rests(qs, all, now)[i]
  {
    CallsKeepSorted(qs, addeds, all, now, i);
    CallRefines(qs, addeds, all, now, i);
  }

  /** Any number of calls: what was submitted plus what is still due is the one-shot answer. */
  lemma TranscriptRefinesOneShot(qs: seq<seq<Slot>>, addeds: seq<seq<Slot>>, all: Subscribers, now: Time, m: nat)
    requires Calls(qs, addeds, all, now) && Sorted(qs[0]) && m <= |addeds|
    ensures Sorted(qs[m])
    ensures Transcript(qs, m, all, now) + OneShot(qs[m], all, now) == OneShot(qs[0], all, now)
  {
    var pieces, rests := Pieces(qs, m, all, now), Rests(qs, all, now);
    forall i | 0 <= i < m ensures pieces[i] + rests[i + 1] == rests[i] {
      PiecesFit(qs, addeds, all, now, m, i);
    }
    CallsKeepSorted(qs, addeds, all, now, m);
    Telescope(pieces, rests, m);
  }

  /** A limited call leaves fewer entries due; an unlimited one leaves nothing to submit. */
  lemma CallProgress(qs: seq<seq<Slot>>, addeds: seq<seq<Slot>>, all: Subscribers, now: Time, m: nat)
    requires Calls(qs, addeds, all, now) && m < |addeds| && Sorted(qs[m])
    ensures RateLimited(qs[m], all, now) ==> DueCount(qs[m + 1], now) < DueCount(qs[m], now)
    ensures !RateLimited(qs[m], all, now) ==> OneShot(qs[m + 1], all, now) == []
  {
    assert CallAt(qs, addeds, all, now, m);
    CheckProgress(qs[m], all, now, addeds[m], qs[m + 1]);
  }

  lemma {:induction false} LimitedCallsAreFew(
      qs: seq<seq<Slot>>, addeds: seq<seq<Slot>>, all: Subscribers, now: Time, m: nat)
    requires Calls(qs, addeds, all, now) && Sorted(qs[0]) && m <= |addeds|
    requires forall i :: 0 <= i < m ==> RateLimited(qs[i], all, now)
    ensures m + DueCount(qs[m], now) <= DueCount(qs[0], now)
  {
    if m > 0 {
      LimitedCallsAreFew(qs, addeds, all, now, m - 1);
      CallsKeepSorted(qs, addeds, all, now, m - 1);
      CallProgress(qs, addeds, all, now, m - 1);
    }
  }

  lemma NothingLeft<T>(sent: seq<T>, left: seq<T>, whole: seq<T>)
    requires sent + left == whole && left == []
    ensures sent == whole
  {
  }

  /**
   The chain that the response callback drives: call again while the last call was rate limited.
   It stops within `DueCount` + 1 calls, and when it has stopped its requests, put end to end,
   are exactly the one-shot submission.
   */
  lemma ChainSubmitsOneShot(qs: seq<seq<Slot>>, addeds: seq<seq<Slot>>, all: Subscribers, now: Time)
    requires Calls(qs, addeds, all, now) && Sorted(qs[0]) && |addeds| > 0
    requires forall i :: 0 <= i < |addeds| - 1 ==> RateLimited(qs[i], all, now)
    ensures |addeds| <= DueCount(qs[0], now) + 1
    ensures !RateLimited(qs[|addeds| - 1], all, now) ==>
              Transcript(qs, |addeds|, all, now) == OneShot(qs[0], all, now)
  {
    var m := |addeds|;
    LimitedCallsAreFew(qs, addeds, all, now, m - 1);
    TranscriptRefinesOneShot(qs, addeds, all, now, m);
    CallsKeepSorted(qs, addeds, all, now, m - 1);
    CallProgress(qs, addeds, all, now, m - 1);
    if !RateLimited(qs[m - 1], all, now) {
      NothingLeft(Transcript(qs, m, all, now), OneShot(qs[m], all, now), OneShot(qs[0], all, now));
    }
  }

  // ----- what the one-shot answer contains -----

  lemma {:induction false} EntriesMember(a: Account, subs: seq<Subscription>, now: Time, m: Monitor)
    ensures m in Entries(a, subs, now) <==> m.acct == a && m.sub in subs && InWindow(m.sub, now)
  {
    if subs != [] {
      EntriesMember(a, subs[..|subs| - 1], now, m);
      assert subs == subs[..|subs| - 1] + [subs[|subs| - 1]];
    }
  }

  /** Subscriptions that are neither about to expire nor too far ahead are all entered, once and in order. */
  lemma {:induction false} EntriesInOrder(a: Account, subs: seq<Subscription>, now: Time)
    requires forall i :: 0 <= i < |subs| ==>
               now - (14 * 24 * 3600 - 10) * 1_000_000_000 <= subs[i].sigTs * 1_000_000_000 <= now + 24 * 3600 * 1_000_000_000
    ensures |Entries(a, subs, now)| == |subs|
    ensures forall i :: 0 <= i < |subs| ==> Entries(a, subs, now)[i] == Monitor(a, subs[i])
  {
    if subs != [] {
      EntriesInOrder(a, subs[..|subs| - 1], now);
    }
  }

  /** Some entry of the queue is live for the account. */
  ghost predicate Waits(q: seq<Slot>, a: Account) {
    exists i :: 0 <= i < |q| && Holds(q[i], a)
  }

  lemma WaitsLast(q: seq<Slot>, a: Account)
    requires q != []
    ensures Waits(q, a) <==> Waits(q[..|q| - 1], a) || Holds(q[|q| - 1], a)
  {
    var front := q[..|q| - 1];
    if i :| 0 <= i < |q| && Holds(q[i], a) && i < |front| {
      assert Holds(front[i], a);
    }
    if i :| 0 <= i < |front| && Holds(front[i], a) {
      assert Holds(q[i], a);
    }
  }

  /** The part of a request that concerns one account. */
  function ForAccount(ms: seq<Monitor>, a: Account): seq<Monitor> {
    if ms == [] then []
    else ForAccount(ms[..|ms| - 1], a) + if ms[|ms| - 1].acct == a then [ms[|ms| - 1]] else []
  }

  lemma {:induction false} ForAccountConcat(x: seq<Monitor>, y: seq<Monitor>, a: Account)
    ensures ForAccount(x + y, a) == ForAccount(x, a) + ForAccount(y, a)
  {
    if y == [] {
      assert x + y == x;
    } else {
      assert (x + y)[..|x + y| - 1] == x + y[..|y| - 1];
      ForAccountConcat(x, y[..|y| - 1], a);
    }
  }

  /** A request for one account concerns that account only. */
  lemma {:induction false} ForAccountOfEntries(b: Account, subs: seq<Subscription>, now: Time, a: Account)
    ensures ForAccount(Entries(b, subs, now), a) == if a == b then Entries(b, subs, now) else []
  {
    if subs != [] {
      var front, last := subs[..|subs| - 1], subs[|subs| - 1];
      ForAccountOfEntries(b, front, now, a);
      ForAccountConcat(Entries(b, front, now), if InWindow(last, now) then [Monitor(b, last)] else [], a);
      assert [Monitor(b, last)][..0] == [];
    }
  }

  lemma {:induction false} NotWaiting(q: seq<Slot>, all: Subscribers, now: Time, a: Account)
    requires !Waits(q, a)
    ensures ForAccount(Request(q, all, now), a) == []
  {
    if q != [] {
      var front, s := q[..|q| - 1], q[|q| - 1];
      WaitsLast(q, a);
      NotWaiting(front, all, now, a);
      ForAccountConcat(Request(front, all, now), SlotRequest(s, all, now), a);
      if Serves(s, all) {
        ForAccountOfEntries(s.acct.value.acct, all[s.acct.value.acct].subs, now, a);
      }
    }
  }

  lemma WaitsIsLive(q: seq<Slot>, a: Account)
    ensures Waits(q, a) <==> LiveIds(q)[a] > 0
  {
    LiveIdsMember(q, a);
    assert a in LiveIds(q) <==> LiveIds(q)[a] > 0;
    if Waits(q, a) {
      var i :| 0 <= i < |q| && Holds(q[i], a);
    }
  }

  /** An account with at most one live entry is asked for in one piece, all of its subscriptions in order. */
  lemma {:induction false} RequestForAccount(q: seq<Slot>, all: Subscribers, now: Time, a: Account)
    requires LiveIds(q)[a] <= 1
    ensures ForAccount(Request(q, all, now), a) == if Waits(q, a) && a in all then Entries(a, all[a].subs, now) else []
  {
    if q != [] {
      var front, s := q[..|q| - 1], q[|q| - 1];
      ForAccountConcat(Request(front, all, now), SlotRequest(s, all, now), a);
      WaitsLast(q, a);
      WaitsIsLive(front, a);
      if Holds(s, a) {
        NotWaiting(front, all, now, a);
      } else {
        RequestForAccount(front, all, now, a);
      }
      if Serves(s, all) {
        ForAccountOfEntries(s.acct.value.acct, all[s.acct.value.acct].subs, now, a);
      }
    }
  }

  /** The account has a live entry that is due. */
  ghost predicate IsDue(q: seq<Slot>, now: Time, a: Account) {
    exists i :: 0 <= i < |q| && q[i].due <= now && Holds(q[i], a)
  }

  lemma DueIsWaiting(q: seq<Slot>, now: Time, a: Account)
    requires Sorted(q)
    ensures IsDue(q, now, a) <==> Waits(q[..DueCount(q, now)], a)
  {
    var d := DueCount(q, now);
    var due := q[..d];
    if i :| 0 <= i < |q| && q[i].due <= now && Holds(q[i], a) {
      assert i < d;
      assert Holds(due[i], a);
    }
    if i :| 0 <= i < d && Holds(due[i], a) {
      assert Holds(q[i], a);
    }
  }

  /**
   The one-shot answer of a sound node, account by account: the in-window subscriptions of each
   due account that the hive knows, once and in order, and nothing for any other account.
   */
  lemma OneShotForAccount(n: Node, all: Subscribers, now: Time, a: Account)
    requires NodeInv(n)
    ensures ForAccount(OneShot(n.next, all, now), a) ==
            if IsDue(n.next, now, a) && a in all then Entries(a, all[a].subs, now) else []
  {
    var d := DueCount(n.next, now);
    assert n.next == n.next[..d] + n.next[d..];
    LiveIdsConcat(n.next[..d], n.next[d..]);
    assert LiveIds(n.next)[a] <= 1;
    DueIsWaiting(n.next, now, a);
    RequestForAccount(n.next[..d], all, now, a);
  }

  lemma {:induction false} ForAccountMember(ms: seq<Monitor>, m: Monitor)
    ensures m in ForAccount(ms, m.acct) <==> m in ms
  {
    if ms != [] {
      ForAccountMember(ms[..|ms| - 1], m);
      assert ms == ms[..|ms| - 1] + [ms[|ms| - 1]];
    }
  }

  /** What is submitted: exactly the in-window subscriptions of the known accounts that are due. */
  lemma OneShotMember(n: Node, all: Subscribers, now: Time, m: Monitor)
    requires NodeInv(n)
    ensures m in OneShot(n.next, all, now) <==>
            && IsDue(n.next, now, m.acct) && m.acct in all && m.sub in all[m.acct].subs
            && now - (14 * 24 * 3600 - 10) * 1_000_000_000 <= m.sub.sigTs * 1_000_000_000 <= now + 24 * 3600 * 1_000_000_000
  {
    ForAccountMember(OneShot(n.next, all, now), m);
    OneShotForAccount(n, all, now, m.acct);
    if m.acct in all {
      EntriesMember(m.acct, all[m.acct].subs, now, m);
    }
  }

  /**
   The chain of calls, for a sound node: when it has stopped, each due and known account has been
   asked for exactly once, with all of its in-window subscriptions, and no other account at all.
   */
  lemma ChainAsksOnce(n: Node, qs: seq<seq<Slot>>, addeds: seq<seq<Slot>>, all: Subscribers, now: Time, a: Account)
    requires NodeInv(n) && Calls(qs, addeds, all, now) && qs[0] == n.next && |addeds| > 0
    requires forall i :: 0 <= i < |addeds| - 1 ==> RateLimited(qs[i], all, now)
    requires !RateLimited(qs[|addeds| - 1], all, now)
    ensures ForAccount(Transcript(qs, |addeds|, all, now), a) ==
            if IsDue(n.next, now, a) && a in all then Entries(a, all[a].subs, now) else []
  {
    ChainSubmitsOneShot(qs, addeds, all, now);
    OneShotForAccount(n, all, now, a);
  }
}
