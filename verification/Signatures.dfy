/**
 Authenticity over whole runs: the hive merges subscriptions, keeping the newest timestamp and
 signature, yet whatever it holds or submits is something a client signed as a whole.
 */
module Signatures {
  import opened Common
  import opened Decimal
  import opened SwarmSpace
  import opened Subscriptions
  import opened Queue
  import opened Drain
  import opened HiveState
  import opened HiveProofs
  import opened HiveRuns

  /** Everything a subscription's signature vouches for, and the signature. */
  datatype Claim = Claim(acct: Account, tag: Option<Bytes>, namespaces: seq<i16>, wantData: bool, sigTs: int, sig: Bytes)

  function ClaimOf(a: Account, s: Subscription): Claim {
    Claim(a, if s.subaccount.Some? then Some(s.subaccount.value.tag) else None, s.namespaces, s.wantData, s.sigTs, s.sig)
  }

  /** `valid` stands for the signature check; it is not looked into. */
  predicate AllValid(a: Account, subs: seq<Subscription>, valid: Claim -> bool) {
    forall i :: 0 <= i < |subs| ==> valid(ClaimOf(a, subs[i]))
  }

  ghost predicate Authentic(h: Hive, valid: Claim -> bool) {
    && (forall a :: a in h.members ==> AllValid(a, h.members[a].subs, valid))
    && (forall i :: 0 <= i < |h.pending| ==> valid(ClaimOf(h.pending[i].acct, h.pending[i].sub)))
  }

  /** Merging replaces timestamp and signature together, between equal contents. */
  lemma {:induction false} MergeKeepsValid(a: Account, subs: seq<Subscription>, s: Subscription, valid: Claim -> bool)
    requires AllValid(a, subs, valid) && valid(ClaimOf(a, s))
    ensures AllValid(a, Merge(subs, s), valid)
  {
    if subs != [] {
      var m := Merge(subs, s);
      forall i | 0 <= i < |m| ensures valid(ClaimOf(a, m[i])) {
        if IsSame(subs[0], s) {
          if i == 0 {
            assert m[0] == subs[0] || ClaimOf(a, m[0]) == ClaimOf(a, s);
          } else {
            assert m[i] == subs[i];
          }
        } else {
          assert AllValid(a, subs[1..], valid);
          MergeKeepsValid(a, subs[1..], s, valid);
          if i > 0 {
            assert m[i] == Merge(subs[1..], s)[i - 1];
          }
        }
      }
    }
  }

  lemma {:induction false} LoadIsValid(rows: seq<(RowKey, Subscription)>, clocks: seq<int>, valid: Claim -> bool)
    requires |rows| == |clocks| && Load(rows, clocks).Some?
    requires forall i :: 0 <= i < |rows| ==> valid(ClaimOf(rows[i].0.acct, rows[i].1))
    ensures forall a :: a in Load(rows, clocks).value ==> AllValid(a, Load(rows, clocks).value[a].subs, valid)
  {
    if rows != [] {
      var last := |rows| - 1;
      LoadIsValid(rows[..last], clocks[..last], valid);
      var before, acct, row := Load(rows[..last], clocks[..last]).value, rows[last].0.acct, rows[last].1;
      assert AllValid(acct, SubsOf(before, acct), valid);
      MergeKeepsValid(acct, SubsOf(before, acct), row, valid);
    }
  }

  lemma ApplyKeepsAuthentic(h: Hive, i: nat, valid: Claim -> bool)
    requires Increasing(h.ids) && i < |h.pending| && Authentic(h, valid)
    ensures Authentic(Apply(h, i), valid)
  {
    var p, h' := h.pending[i], Apply(h, i);
    assert AllValid(p.acct, SubsOf(h.members, p.acct), valid);
    MergeKeepsValid(p.acct, SubsOf(h.members, p.acct), p.sub, valid);
    forall j | 0 <= j < |h'.pending| ensures valid(ClaimOf(h'.pending[j].acct, h'.pending[j].sub)) {
      assert h'.pending[j] == h.pending[if j < i then j else j + 1];
    }
  }

  lemma CommitKeepsAuthentic(h: Hive, rk: RowKey, sub: Subscription, valid: Claim -> bool)
    requires Authentic(h, valid) && valid(ClaimOf(rk.acct, sub))
    ensures Authentic(Commit(h, rk, sub), valid)
  {
  }

  lemma StepKeepsAuthentic(h: Hive, e: Event, valid: Claim -> bool)
    requires Increasing(h.ids) && Enabled(h, e) && Authentic(h, valid)
    requires e.DoCommit? ==> valid(ClaimOf(e.rk.acct, e.sub))
    ensures Authentic(Step(h, e), valid)
  {
    match e
    case DoCommit(rk, sub) => CommitKeepsAuthentic(h, rk, sub, valid);
    case DoApply(i) => ApplyKeepsAuthentic(h, i, valid);
    case DoReply(r, order, stop) => ReplyKeepsSubscriptions(h, r, order, stop);
    case _ =>
  }

  /** Every row found at startup and every addition carry valid signatures. */
  ghost predicate ValidInputs(t: History, valid: Claim -> bool) {
    && (forall i :: 0 <= i < |t.rows| ==> valid(ClaimOf(t.rows[i].0.acct, t.rows[i].1)))
    && forall i :: 0 <= i < |t.es| ==> t.es[i].DoCommit? ==> valid(ClaimOf(t.es[i].rk.acct, t.es[i].sub))
  }

  /** In every run, whatever it skipped and whatever replies broke off, everything held is validly signed. */
  lemma {:induction false} RunIsAuthentic(t: History, valid: Claim -> bool, n: nat)
    requires Run(t) && ValidInputs(t, valid) && n < |t.hs|
    ensures Authentic(t.hs[n], valid)
  {
    if n == 0 {
      LoadIsValid(t.rows, t.clocks, valid);
    } else {
      RunIsAuthentic(t, valid, n - 1);
      assert StepAt(t, n - 1);
      StepKeepsAuthentic(t.hs[n - 1], t.es[n - 1], valid);
    }
  }

  lemma {:induction false} EntriesAreValid(a: Account, subs: seq<Subscription>, now: Time, valid: Claim -> bool)
    requires AllValid(a, subs, valid)
    ensures forall m :: m in Entries(a, subs, now) ==> m.acct == a && valid(ClaimOf(m.acct, m.sub)) && InWindow(m.sub, now)
  {
    if subs != [] { EntriesAreValid(a, subs[..|subs| - 1], now, valid); }
  }

  lemma {:induction false} RequestIsValid(q: seq<Slot>, all: Subscribers, now: Time, valid: Claim -> bool)
    requires forall a :: a in all ==> AllValid(a, all[a].subs, valid)
    ensures forall m :: m in Request(q, all, now) ==> valid(ClaimOf(m.acct, m.sub)) && InWindow(m.sub, now)
  {
    if q != [] {
      var s := q[|q| - 1];
      RequestIsValid(q[..|q| - 1], all, now, valid);
      if Serves(s, all) {
        EntriesAreValid(s.acct.value.acct, all[s.acct.value.acct].subs, now, valid);
      }
    }
  }

  /**
   Whatever a node submits, in any reachable state, is validly signed and inside the signature
   window, although timestamps and signatures move between merged subscriptions.
   */
  lemma SubmissionsAreSigned(t: History, valid: Claim -> bool, n: nat, k: Key, now: Time, m: Monitor)
    requires Run(t) && ValidInputs(t, valid) && n < |t.hs| && k in t.hs[n].nodes
    requires m in Submitted(t.hs[n].nodes[k].next, t.hs[n].members, now)
    ensures valid(ClaimOf(m.acct, m.sub))
    ensures now - (14 * 24 * 3600 - 10) * 1_000_000_000 <= m.sub.sigTs * 1_000_000_000 <= now + 24 * 3600 * 1_000_000_000
  {
    RunIsAuthentic(t, valid, n);
    var q := t.hs[n].nodes[k].next;
    RequestIsValid(q[..Popped(q, t.hs[n].members, now, 0)], t.hs[n].members, now, valid);
  }
}
