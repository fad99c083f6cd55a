/** What mode controls mean, in terms of path counts and frame numbers alone: when the sender is suspended, what it
    publishes, and which frames bypass the decoder (src/protocol.rs). */
module FenceMeaning {
  import opened Bytes
  import opened FecMode
  import opened FecEncoder
  import opened FenceWindows

  // ---------- one control at the receiver ----------

  /** A control with an old generation, a zero field or an unknown operation changes nothing. A suspension lets every
      frame from its boundary on bypass. A resumption ends the window it finds at its boundary. */
  lemma ApplyExactly(f: Fence, c: Control, sn: nat)
    requires sn > 0
    ensures var usable := c.generation > f.generation && c.boundary > 0 && (c.op == 1 || c.op == 2);
            var f' := Apply(f, c);
            && (!usable ==> f' == f)
            && (usable ==> f'.generation == c.generation)
            && (usable && c.op == 1 ==> (f'.Bypasses(sn) <==> sn >= c.boundary))
            && (usable && c.op == 2 ==> (f'.Bypasses(sn) <==> 0 < f.from <= sn < c.boundary))
  {
  }

  // ---------- the sender ----------

  /** Some frame before `n` was dispatched over two or more paths. */
  predicate SeenMultipath(run: seq<Dispatch>, n: nat) {
    exists m :: 0 < m < n && m <= |run| && Nth(run, m).paths >= 2
  }

  /** Dispatch `q` loses the second path that some earlier dispatch had. */
  predicate Loses(run: seq<Dispatch>, q: nat) {
    0 < q <= |run| && Nth(run, q).paths == 1 && SeenMultipath(run, q)
  }

  /** From `q` to `n` the sender has been on one path, without a chance to resume. */
  predicate Stuck(k: nat, run: seq<Dispatch>, q: nat, n: nat)
    requires n <= |run|
  {
    Loses(run, q) && q <= n && forall x | q < x <= n :: CannotResume(k, run, x)
  }

  /** Some dispatch up to `n` lost the second path, and no dispatch since then could resume. */
  predicate EverStuck(k: nat, run: seq<Dispatch>, n: nat)
    requires n <= |run|
  {
    exists q :: 0 < q <= n && Stuck(k, run, q, n)
  }

  lemma SeenNext(run: seq<Dispatch>, n: nat)
    requires 0 < n <= |run|
    ensures SeenMultipath(run, n + 1) <==> SeenMultipath(run, n) || Nth(run, n).paths >= 2
  {
    if Nth(run, n).paths >= 2 {
      assert SeenMultipath(run, n + 1);
    } else if SeenMultipath(run, n) {
      var m :| 0 < m < n && m <= |run| && Nth(run, m).paths >= 2;
      assert SeenMultipath(run, n + 1);
    }
  }

  lemma {:induction false} SeenExactly(k: nat, run: seq<Dispatch>, n: nat)
    requires n <= |run|
    ensures TxAfter(k, run, n).seenMultipath <==> SeenMultipath(run, n + 1)
  {
    hide SeenMultipath, NextGroupStart, GroupStart;
    if n == 0 {
      NothingSeen(run);
    } else {
      SeenExactly(k, run, n - 1);
      SeenNext(run, n);
    }
  }

  lemma NothingSeen(run: seq<Dispatch>)
    ensures !SeenMultipath(run, 1)
  {
  }

  /** When the sender is suspended, by path counts alone: some dispatch lost the second path, and no dispatch since then
      could resume. */
  lemma {:induction false} SuspendedExactly(k: nat, run: seq<Dispatch>, n: nat)
    requires n <= |run|
    ensures TxAfter(k, run, n).suspended <==> EverStuck(k, run, n)
  {
    hide SeenMultipath, NextGroupStart, GroupStart, EverStuck;
    if n == 0 {
      NeverStuck(k, run);
    } else {
      SuspendedExactly(k, run, n - 1);
      SeenExactly(k, run, n - 1);
      StuckSeen(k, run, n - 1);
      StuckNext(k, run, n);
    }
  }

  lemma NeverStuck(k: nat, run: seq<Dispatch>)
    ensures !EverStuck(k, run, 0)
  {
  }

  lemma StuckGrows(k: nat, run: seq<Dispatch>, n: nat)
    requires 0 < n <= |run| && EverStuck(k, run, n - 1) && CannotResume(k, run, n)
    ensures EverStuck(k, run, n)
  {
    var q :| 0 < q <= n - 1 && Stuck(k, run, q, n - 1);
    assert Stuck(k, run, q, n);
  }

  lemma StuckSince(k: nat, run: seq<Dispatch>, n: nat)
    requires 0 < n <= |run| && EverStuck(k, run, n) && !Loses(run, n)
    ensures EverStuck(k, run, n - 1) && CannotResume(k, run, n)
  {
    var q :| 0 < q <= n && Stuck(k, run, q, n);
    assert Stuck(k, run, q, n - 1);
  }

  lemma StuckNext(k: nat, run: seq<Dispatch>, n: nat)
    requires 0 < n <= |run|
    ensures EverStuck(k, run, n) <==> Loses(run, n) || (EverStuck(k, run, n - 1) && CannotResume(k, run, n))
  {
    hide CannotResume, Loses;
    if Loses(run, n) {
      assert Stuck(k, run, n, n);
    } else {
      if EverStuck(k, run, n - 1) && CannotResume(k, run, n) { StuckGrows(k, run, n); }
      if EverStuck(k, run, n) { StuckSince(k, run, n); }
    }
  }

  lemma StuckSeen(k: nat, run: seq<Dispatch>, n: nat)
    requires n <= |run|
    ensures EverStuck(k, run, n) ==> SeenMultipath(run, n + 1)
  {
    if EverStuck(k, run, n) {
      var q :| 0 < q <= n && Stuck(k, run, q, n);
      var m :| 0 < m < q && m <= |run| && Nth(run, m).paths >= 2;
    }
  }

  /** What a dispatch publishes, and when: a suspension from the start of its own group when the second path goes away
      and the sender was not suspended; a resumption from the next group start when a suspended sender has two paths
      again and there is such a start; otherwise nothing. */
  lemma PublishedExactly(k: nat, run: seq<Dispatch>, n: nat)
    requires 2 <= k <= 64 && 0 < n <= |run| <= U32_MAX
    ensures var suspended := EverStuck(k, run, n - 1);
            var next := if (n - 1) % k == 0 then n else n - (n - 1) % k + k;
            && (Suspends(k, run, n) <==> Loses(run, n) && !suspended)
            && (Resumes(k, run, n) <==> suspended && Nth(run, n).paths >= 2 && next <= 0xFFFF_FFFF)
            && (Suspends(k, run, n) ==> EmittedAt(k, run, n).value.boundary == n - (n - 1) % k)
            && (Resumes(k, run, n) ==> EmittedAt(k, run, n).value.boundary == next)
            && (EmittedAt(k, run, n).Some? ==> Suspends(k, run, n) || Resumes(k, run, n))
  {
    hide SeenMultipath, EverStuck;
    SuspendedExactly(k, run, n - 1);
    SeenExactly(k, run, n - 1);
    StuckSeen(k, run, n - 1);
  }

  // ---------- the window ----------

  /** Frame `x` belongs to the stretch that the suspension of `q` began, as far as the first `n` dispatches say. */
  predicate InStretch(k: nat, run: seq<Dispatch>, n: nat, q: nat, x: nat)
    requires n <= |run|
  {
    0 < q <= x && forall y | q < y <= x && y <= n :: CannotResume(k, run, y)
  }

  /** The last suspension among the first `n` dispatches. */
  predicate LastSuspension(k: nat, run: seq<Dispatch>, n: nat, q: nat) {
    0 < q <= n && Suspends(k, run, q) && forall y | q < y <= n :: !Suspends(k, run, y)
  }

  /** Frame `sn` shares its group with a frame of the last stretch on one path. */
  ghost predicate Shares(k: nat, run: seq<Dispatch>, n: nat, sn: nat)
    requires n <= |run|
  {
    exists q: nat, x: nat ::
      LastSuspension(k, run, n, q) && InStretch(k, run, n, q, x) && GroupStart(x, k) == GroupStart(sn, k)
  }

  /** The start of a group is the greatest start up to each of its members. */
  lemma StartGreatest(k: nat, u: nat, sn: nat)
    requires 2 <= k <= 64 && IsStart(u, k) && u <= sn
    ensures u <= GroupStart(sn, k)
  {
    hide GroupStart;
    var s := GroupStart(sn, k);
    if s < u { StartsApart(s, u, k); }
  }

  lemma SameStart(k: nat, a: nat, b: nat)
    requires 2 <= k <= 64 && 0 < a <= b && GroupStart(b, k) <= a
    ensures GroupStart(a, k) == GroupStart(b, k)
  {
    hide GroupStart, IsStart;
    StartOfMember(GroupStart(b, k), a, k);
  }

  lemma {:induction false} PhaseLast(k: nat, run: seq<Dispatch>, n: nat)
    requires n <= |run|
    ensures match PhaseAt(k, run, n)
            case Never => true
            case Suspended(q) => LastSuspension(k, run, n, q)
            case Resumed(q, r) => LastSuspension(k, run, n, q) && q < r <= n && Resumes(k, run, r)
  {
    hide Suspends, Resumes;
    if n == 0 {
    } else {
      PhaseLast(k, run, n - 1);
      NotBoth(k, run, n);
    }
  }

  lemma NotBoth(k: nat, run: seq<Dispatch>, n: nat)
    ensures !(Suspends(k, run, n) && Resumes(k, run, n))
  {
  }

  /** Without a window nothing has been suspended. */
  lemma {:induction false} NeverSuspended(k: nat, run: seq<Dispatch>, n: nat, y: nat)
    requires n <= |run| <= U32_MAX && PhaseAt(k, run, n) == Never && 0 < y <= n
    ensures !Suspends(k, run, y)
    decreases n
  {
    hide Suspends, Resumes, EmittedAt, TxAfter;
    PhaseConsistent(k, run, n - 1);
    ResumesSuspended(k, run, n);
    if y < n { NeverSuspended(k, run, n - 1, y); }
  }

  lemma ResumesSuspended(k: nat, run: seq<Dispatch>, n: nat)
    requires 0 < n <= |run|
    ensures Resumes(k, run, n) ==> TxAfter(k, run, n - 1).suspended && !CannotResume(k, run, n)
  {
  }

  lemma SharesAt(k: nat, run: seq<Dispatch>, n: nat, q: nat, x: nat, sn: nat)
    requires n <= |run| && LastSuspension(k, run, n, q) && InStretch(k, run, n, q, x) && GroupStart(x, k) == GroupStart(sn, k)
    ensures Shares(k, run, n, sn)
  {
  }

  lemma OneLast(k: nat, run: seq<Dispatch>, n: nat, q: nat, q': nat)
    requires LastSuspension(k, run, n, q) && LastSuspension(k, run, n, q')
    ensures q == q'
  {
    hide Suspends;
  }

  /** While suspended everything from the group of the lost path on bypasses. */
  lemma OpenWindow(k: nat, run: seq<Dispatch>, n: nat, q: nat, sn: nat)
    requires 2 <= k <= 64 && n <= |run| <= U32_MAX && sn > 0 && PhaseAt(k, run, n) == Suspended(q)
    ensures RxAt(k, run, n).Bypasses(sn) <==> Shares(k, run, n, sn)
  {
    hide GroupStart, NextGroupStart, IsStart, TxAfter, RxAt, LastSuspension, CannotResume;
    PhaseConsistent(k, run, n);
    PhaseLast(k, run, n);
    StartPositive(GroupStart(q, k), k);
    if sn >= q {
      assert InStretch(k, run, n, q, sn);
      SharesAt(k, run, n, q, sn, sn);
      StartBelow(k, q, sn);
    } else if sn >= GroupStart(q, k) {
      SameStart(k, sn, q);
      SharesAt(k, run, n, q, q, sn);
    } else if Shares(k, run, n, sn) {
      var q': nat, x: nat :| LastSuspension(k, run, n, q') && InStretch(k, run, n, q', x) && GroupStart(x, k) == GroupStart(sn, k);
      OneLast(k, run, n, q, q');
      StartBelow(k, q, x);
      assert false;
    }
  }

  lemma StartBelow(k: nat, a: nat, b: nat)
    requires 2 <= k <= 64 && 0 < a <= b
    ensures GroupStart(a, k) <= GroupStart(b, k) <= b
  {
    hide GroupStart;
    StartGreatest(k, GroupStart(a, k), b);
  }

  /** After a resumption exactly the groups that reach into the stretch bypass. */
  lemma ClosedWindow(k: nat, run: seq<Dispatch>, n: nat, q: nat, r: nat, sn: nat)
    requires 2 <= k <= 64 && n <= |run| <= U32_MAX && sn > 0 && PhaseAt(k, run, n) == Resumed(q, r)
    ensures RxAt(k, run, n).Bypasses(sn) <==> Shares(k, run, n, sn)
  {
    hide GroupStart, NextGroupStart, IsStart, TxAfter, RxAt, LastSuspension, CannotResume;
    PhaseConsistent(k, run, n);
    PhaseLast(k, run, n);
    ResumesSuspended(k, run, r);
    var u := NextGroupStart(r, k);
    StartPositive(GroupStart(q, k), k);
    if RxAt(k, run, n).Bypasses(sn) {
      if sn < q {
        SameStart(k, sn, q);
        SharesAt(k, run, n, q, q, sn);
      } else if sn < r {
        SharesAt(k, run, n, q, sn, sn);
      } else {
        BeforeNext(k, r, sn);
        SameStart(k, r - 1, sn);
        SharesAt(k, run, n, q, r - 1, sn);
      }
    } else if Shares(k, run, n, sn) {
      var q': nat, x: nat :| LastSuspension(k, run, n, q') && InStretch(k, run, n, q', x) && GroupStart(x, k) == GroupStart(sn, k);
      OneLast(k, run, n, q, q');
      assert x < r;
      StartBelow(k, q, x);
      StartBelow(k, sn, sn);
      if sn >= u { StartGreatest(k, u, sn); }
      assert false;
    }
  }

  /** Between `r` and the first start from `r` on, groups began before `r`. */
  lemma BeforeNext(k: nat, r: nat, sn: nat)
    requires 2 <= k <= 64 && 0 < r <= sn < NextGroupStart(r, k) && r <= U32_MAX
    ensures GroupStart(sn, k) < r
  {
    hide GroupStart;
    if GroupStart(sn, k) >= r { FirstStart(k, r, GroupStart(sn, k)); }
  }

  /** Which frames bypass, by path counts alone. A receiver that has applied every control of the first `n` dispatches
      lets a frame bypass exactly if its group contains a frame of the last stretch that the sender spent suspended. */
  lemma BypassedExactly(k: nat, run: seq<Dispatch>, n: nat, sn: nat)
    requires 2 <= k <= 64 && n <= |run| <= U32_MAX && sn > 0
    ensures RxAt(k, run, n).Bypasses(sn) <==> Shares(k, run, n, sn)
  {
    hide GroupStart, NextGroupStart, IsStart, TxAfter, RxAt, InStretch, Suspends, Consistent;
    match PhaseAt(k, run, n)
    case Suspended(q) => OpenWindow(k, run, n, q, sn);
    case Resumed(q, r) => ClosedWindow(k, run, n, q, r, sn);
    case Never =>
      PhaseConsistent(k, run, n);
      NoWindow(k, run, n);
      forall q | 0 < q <= n ensures !Suspends(k, run, q) { NeverSuspended(k, run, n, q); }
  }

  lemma NoWindow(k: nat, run: seq<Dispatch>, n: nat)
    requires n <= |run| && Consistent(k, run, n, Never, TxAfter(k, run, n), RxAt(k, run, n))
    ensures RxAt(k, run, n) == OPEN_FENCE
  {
  }
}
