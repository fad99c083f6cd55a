/** The dynamic-mode windows over whole sender runs: which data the receiver lets bypass FEC, and why a
    group whose parity was emitted never bypasses as long as no mode change is skipped (src/protocol.rs,
    src/fec.rs). */
module FenceWindows {
  import opened Bytes
  import opened FecMode
  import opened FecEncoder
  import Parity

  // ---------- the sender's mode along a run ----------

  /** The sender mode after the first `n` dispatches. */
  function TxAfter(k: nat, run: seq<Dispatch>, n: nat): TxMode
    requires n <= |run|
  {
    if n == 0 then FRESH_TX else Observed(TxAfter(k, run, n - 1), Nth(run, n).paths, n, k).0
  }

  /** The control the sender publishes when dispatching `n`. */
  function EmittedAt(k: nat, run: seq<Dispatch>, n: nat): Option<Control>
    requires 0 < n <= |run|
  {
    Observed(TxAfter(k, run, n - 1), Nth(run, n).paths, n, k).1
  }

  /** The receiver's fence once it has applied, in order, all controls of the first `n` dispatches. */
  function RxAt(k: nat, run: seq<Dispatch>, n: nat): Fence
    requires n <= |run|
  {
    if n == 0 then OPEN_FENCE
    else if EmittedAt(k, run, n).None? then RxAt(k, run, n - 1)
    else Apply(RxAt(k, run, n - 1), EmittedAt(k, run, n).value)
  }

  predicate Suspends(k: nat, run: seq<Dispatch>, n: nat) {
    0 < n <= |run| && EmittedAt(k, run, n).Some? && EmittedAt(k, run, n).value.op == MODE_SUSPEND
  }

  predicate Resumes(k: nat, run: seq<Dispatch>, n: nat) {
    0 < n <= |run| && EmittedAt(k, run, n).Some? && EmittedAt(k, run, n).value.op == MODE_RESUME
  }

  // ---------- where a run stands ----------

  /** Never suspended; suspended at `q`; or suspended at `q` and resumed at `r`. */
  datatype Phase = Never | Suspended(q: nat) | Resumed(q: nat, r: nat)

  function PhaseAt(k: nat, run: seq<Dispatch>, n: nat): Phase
    requires n <= |run|
  {
    if n == 0 then Never
    else if Suspends(k, run, n) then Suspended(n)
    else if Resumes(k, run, n) then
      match PhaseAt(k, run, n - 1)
      case Suspended(q) => Resumed(q, n)
      case _ => Never
    else PhaseAt(k, run, n - 1)
  }

  /** Dispatch `x` cannot resume: it has no second path, or no group starts at or after it. */
  predicate CannotResume(k: nat, run: seq<Dispatch>, x: nat)
    requires 0 < x <= |run|
  {
    Nth(run, x).paths < 2 || NextGroupStart(x, k) == 0
  }

  /** What the phase says about both ends. */
  ghost predicate Consistent(k: nat, run: seq<Dispatch>, n: nat, p: Phase, tx: TxMode, rx: Fence)
    requires n <= |run|
  {
    && TxValid(tx) && tx.generation == rx.generation <= n
    && match p
       case Never => rx == OPEN_FENCE && !tx.suspended
       case Suspended(q) =>
         && 0 < q <= n && tx.suspended && tx.seenMultipath && Nth(run, q).paths == 1
         && rx.from == GroupStart(q, k) && rx.until == 0
         && forall x | q < x <= n :: CannotResume(k, run, x)
       case Resumed(q, r) =>
         && 0 < q < r <= n && !tx.suspended && tx.seenMultipath && Nth(run, q).paths == 1
         && rx.from == GroupStart(q, k) && rx.until == NextGroupStart(r, k) > 0
         && forall x | q < x < r :: CannotResume(k, run, x)
  }

  lemma StepConsistent(k: nat, run: seq<Dispatch>, n: nat, p: Phase, tx: TxMode, rx: Fence)
    requires 0 < n <= |run| <= U32_MAX && Consistent(k, run, n - 1, p, tx, rx)
    ensures var (tx', c) := Observed(tx, Nth(run, n).paths, n, k);
            var p' := if c.None? then p
                      else if c.value.op == MODE_SUSPEND then Suspended(n)
                      else if p.Suspended? then Resumed(p.q, n) else Never;
            var rx' := if c.None? then rx else Apply(rx, c.value);
            Consistent(k, run, n, p', tx', rx')
  {
    hide GroupStart, NextGroupStart, IsStart;
    ObserveKeepsValid(tx, Nth(run, n).paths, n, k);
    if p.Suspended? && Observed(tx, Nth(run, n).paths, n, k).1.None? {
      assert CannotResume(k, run, n);
    }
    if p.Suspended? { StartPositive(GroupStart(p.q, k), ClampGroup(k)); }
  }

  lemma {:induction false} PhaseConsistent(k: nat, run: seq<Dispatch>, n: nat)
    requires n <= |run| <= U32_MAX
    ensures Consistent(k, run, n, PhaseAt(k, run, n), TxAfter(k, run, n), RxAt(k, run, n))
  {
    hide Consistent, Observed, Apply;
    if n == 0 {
      FreshConsistent(k, run);
    } else {
      PhaseConsistent(k, run, n - 1);
      StepConsistent(k, run, n, PhaseAt(k, run, n - 1), TxAfter(k, run, n - 1), RxAt(k, run, n - 1));
      EmittedOps(k, run, n);
    }
  }

  lemma FreshConsistent(k: nat, run: seq<Dispatch>)
    ensures Consistent(k, run, 0, Never, FRESH_TX, OPEN_FENCE)
  {
  }

  lemma EmittedOps(k: nat, run: seq<Dispatch>, n: nat)
    requires 0 < n <= |run|
    ensures EmittedAt(k, run, n).Some? <==> Suspends(k, run, n) || Resumes(k, run, n)
    ensures !(Suspends(k, run, n) && Resumes(k, run, n))
  {
  }

  // ---------- generations ----------

  /** Each emission raises the generation by one; nothing else changes it. */
  lemma {:induction false} GenerationStep(k: nat, run: seq<Dispatch>, n: nat)
    requires 0 < n <= |run| <= U32_MAX
    ensures TxAfter(k, run, n).generation == TxAfter(k, run, n - 1).generation + if EmittedAt(k, run, n).Some? then 1 else 0
    ensures EmittedAt(k, run, n).Some? ==> EmittedAt(k, run, n).value.generation == TxAfter(k, run, n).generation
  {
    hide GroupStart, NextGroupStart, IsStart;
    PhaseConsistent(k, run, n - 1);
  }

  lemma {:induction false} GenerationMonotone(k: nat, run: seq<Dispatch>, m: nat, n: nat)
    requires m <= n <= |run| <= U32_MAX
    ensures TxAfter(k, run, m).generation <= TxAfter(k, run, n).generation
    ensures TxAfter(k, run, m).generation == TxAfter(k, run, n).generation ==>
              && RxAt(k, run, m) == RxAt(k, run, n)
              && PhaseAt(k, run, m) == PhaseAt(k, run, n)
              && TxAfter(k, run, m).suspended == TxAfter(k, run, n).suspended
    decreases n
  {
    hide Observed, Apply;
    if m >= n {
    } else {
      GenerationMonotone(k, run, m, n - 1);
      GenerationStep(k, run, n);
      SilentStep(k, run, n);
    }
  }

  lemma SilentStep(k: nat, run: seq<Dispatch>, n: nat)
    requires 0 < n <= |run|
    ensures EmittedAt(k, run, n).None? ==> TxAfter(k, run, n).suspended == TxAfter(k, run, n - 1).suspended
  {
    hide GroupStart, NextGroupStart, IsStart;
  }

  // ---------- no emitted group bypasses ----------

  /** The first start at or after `sn` is what `fec_next_group_start` returns. */
  lemma FirstStart(k: nat, sn: nat, s: nat)
    requires 2 <= k <= 64 && 0 < sn <= s <= U32_MAX && IsStart(s, k)
    ensures 0 < NextGroupStart(sn, k) <= s
  {
    var b := NextGroupStart(sn, k);
    if s < b { StartsApart(s, b, k); }
  }

  /** A start past the suspend boundary whose group avoids the suspending frame lies after that frame. */
  lemma StartsLater(k: nat, q: nat, s: nat)
    requires 2 <= k <= 64 && q > 0 && IsStart(s, k) && GroupStart(q, k) <= s && !(s <= q < s + k)
    ensures q < s
  {
    hide GroupStart, IsStart;
    if GroupStart(q, k) < s { StartsApart(GroupStart(q, k), s, k); }
  }

  lemma BypassedLacksPath(k: nat, run: seq<Dispatch>, m: nat, s: nat)
    requires 2 <= k <= 64 && m <= |run| <= U32_MAX && IsStart(s, k) && s <= m && s + k <= |run| + 1
    requires RxAt(k, run, m).Bypasses(s)
    ensures !Multipath(run, s, s + k)
  {
    hide GroupStart, NextGroupStart, IsStart, RxAt, PhaseAt, TxAfter, Observed, TxValid;
    PhaseConsistent(k, run, m);
    StartPositive(s, k);
    var p := PhaseAt(k, run, m);
    if Multipath(run, s, s + k) {
      FirstStart(k, s, s);
      assert !CannotResume(k, run, s) by { assert Nth(run, s).paths >= 2; }
      assert Nth(run, p.q).paths == 1;
      StartsLater(k, p.q, s);
      if p.Resumed? && p.r <= s { FirstStart(k, p.r, s); }
      assert false;
    }
  }

  /** A fence whose ends are group starts treats all members of a group alike. */
  predicate Aligned(f: Fence, k: nat)
    requires k > 0
  {
    (f.from == 0 || IsStart(f.from, k)) && (f.until == 0 || IsStart(f.until, k))
  }

  lemma AlignedUniform(f: Fence, k: nat, s: nat, sn: nat)
    requires k > 0 && Aligned(f, k) && IsStart(s, k) && s <= sn < s + k
    ensures f.Bypasses(sn) <==> f.Bypasses(s)
  {
    hide IsStart;
    StartPositive(s, k);
    if s < f.from { StartsApart(s, f.from, k); }
    if s < f.until { StartsApart(s, f.until, k); }
  }

  lemma EmittedAligned(k: nat, run: seq<Dispatch>, n: nat)
    requires 2 <= k <= 64 && 0 < n <= |run|
    ensures EmittedAt(k, run, n).Some? ==> IsStart(EmittedAt(k, run, n).value.boundary, k)
  {
    hide GroupStart, NextGroupStart, IsStart, TxAfter;
  }

  function ApplyAll(f: Fence, controls: seq<Control>): Fence {
    if |controls| == 0 then f else Apply(ApplyAll(f, controls[..|controls| - 1]), controls[|controls| - 1])
  }

  ghost predicate AllEmitted(k: nat, run: seq<Dispatch>, controls: seq<Control>) {
    forall c | c in controls :: exists n :: 0 < n <= |run| && EmittedAt(k, run, n) == Some(c)
  }

  /** Whatever controls of the run reach the receiver, in whatever order and however many are lost or
      repeated, a group bypasses FEC as a whole or not at all. */
  lemma {:induction false} GroupsBypassWhole(k: nat, run: seq<Dispatch>, controls: seq<Control>, s: nat, sn: nat)
    requires 2 <= k <= 64 && IsStart(s, k) && s <= sn < s + k
    requires AllEmitted(k, run, controls)
    ensures Aligned(ApplyAll(OPEN_FENCE, controls), k)
    ensures ApplyAll(OPEN_FENCE, controls).Bypasses(sn) <==> ApplyAll(OPEN_FENCE, controls).Bypasses(s)
  {
    hide IsStart, EmittedAt;
    if |controls| == 0 {
    } else {
      var c := controls[|controls| - 1];
      var n :| 0 < n <= |run| && EmittedAt(k, run, n) == Some(c);
      EmittedAligned(k, run, n);
      GroupsBypassWhole(k, run, controls[..|controls| - 1], s, sn);
    }
    AlignedUniform(ApplyAll(OPEN_FENCE, controls), k, s, sn);
  }

  lemma {:induction false} RxAligned(k: nat, run: seq<Dispatch>, n: nat)
    requires 2 <= k <= 64 && n <= |run|
    ensures Aligned(RxAt(k, run, n), k)
  {
    hide IsStart, EmittedAt;
    if n == 0 {
    } else {
      RxAligned(k, run, n - 1);
      EmittedAligned(k, run, n);
    }
  }

  /** Frame `a` was dispatched in some generation, and the receiver has applied every control up to that
      generation or a later one, `m` dispatches into the run. If the parity of its group was emitted, the
      frame does not bypass FEC. */
  lemma EmittedNeverBypasses(k: nat, ic: Option<Parity.Cipher>, run: seq<Dispatch>, m: nat, a: nat)
    requires 2 <= k <= 64 && |run| <= U32_MAX && NonEmpty(run) && m <= |run| && 0 < a <= |run|
    requires TxAfter(k, run, a).generation <= TxAfter(k, run, m).generation
    requires GroupStart(a, k) + k - 1 <= |run|
    requires ParityAt(k, ic, run, GroupStart(a, k) + k - 1).Some?
    ensures !RxAt(k, run, m).Bypasses(a)
  {
    hide IsStart, GroupStart, RxAt, TxAfter, ParityAt, Multipath, PhaseAt;
    var s := GroupStart(a, k);
    StartPositive(s, k);
    ParityExactly(k, ic, run, s + k - 1);
    var m' := if m < a then a else m;
    GenerationMonotone(k, run, m, m');
    assert RxAt(k, run, m') == RxAt(k, run, m) by {
      if m < a { assert TxAfter(k, run, m').generation == TxAfter(k, run, m).generation; }
    }
    RxAligned(k, run, m);
    AlignedUniform(RxAt(k, run, m), k, s, a);
    if RxAt(k, run, m').Bypasses(s) { BypassedLacksPath(k, run, m', s); }
  }

  // ---------- what skipping mode changes costs ----------

  /** The window of a receiver that applied the suspension of dispatch `q` and next the resumption of `r`. */
  function Skipping(k: nat, run: seq<Dispatch>, q: nat, r: nat): Fence
    requires Suspends(k, run, q) && Resumes(k, run, r)
  {
    Apply(Apply(OPEN_FENCE, EmittedAt(k, run, q).value), EmittedAt(k, run, r).value)
  }

  lemma SkippingWindow(k: nat, run: seq<Dispatch>, q: nat, r: nat)
    requires |run| <= U32_MAX && q < r && Suspends(k, run, q) && Resumes(k, run, r)
    ensures Skipping(k, run, q, r).from == GroupStart(q, k)
    ensures Skipping(k, run, q, r).until == NextGroupStart(r, k) > 0
    ensures Nth(run, q).paths == 1 && Nth(run, r).paths >= 2
    ensures TxAfter(k, run, r - 1).suspended && PhaseAt(k, run, q) == Suspended(q)
  {
    hide GroupStart, NextGroupStart, IsStart, TxAfter;
    GenerationStep(k, run, q);
    GenerationStep(k, run, r);
    GenerationMonotone(k, run, q, r - 1);
    PhaseConsistent(k, run, q);
    PhaseConsistent(k, run, r);
    StartPositive(GroupStart(q, k), ClampGroup(k));
  }

  /** Resumed at `x`, suspended again at `y`, with no mode change in between, and at least one whole group
      between the two boundaries. */
  ghost predicate RoomBetween(k: nat, run: seq<Dispatch>, x: nat, y: nat) {
    && x < y && Resumes(k, run, x) && Suspends(k, run, y)
    && TxAfter(k, run, x).generation == TxAfter(k, run, y - 1).generation
    && EmittedAt(k, run, x).value.boundary < EmittedAt(k, run, y).value.boundary
  }

  /** A resumed stretch without a mode change is multipath. */
  lemma ResumedMultipath(k: nat, run: seq<Dispatch>, x: nat, y: nat, d: nat)
    requires |run| <= U32_MAX && Resumes(k, run, x) && x <= d < y <= |run|
    requires TxAfter(k, run, x).generation == TxAfter(k, run, y - 1).generation
    requires Nth(run, d).paths >= 1
    ensures Nth(run, d).paths >= 2
  {
    hide GroupStart, NextGroupStart, IsStart, TxAfter;
    if x < d {
      GenerationMonotone(k, run, x, d - 1);
      GenerationMonotone(k, run, d - 1, d);
      GenerationMonotone(k, run, d, y - 1);
      GenerationStep(k, run, d);
      PhaseConsistent(k, run, x);
      PhaseConsistent(k, run, d - 1);
    }
  }

  lemma RoomGivesGroup(k: nat, run: seq<Dispatch>, x: nat, y: nat)
    requires 2 <= k <= 64 && |run| <= U32_MAX && RoomBetween(k, run, x, y)
    requires forall sn | 0 < sn <= |run| :: Nth(run, sn).paths >= 1
    ensures var s := EmittedAt(k, run, x).value.boundary;
            IsStart(s, k) && x <= s && s + k <= y && Multipath(run, s, s + k)
  {
    hide GroupStart, NextGroupStart, IsStart, TxAfter;
    var s, t := EmittedAt(k, run, x).value.boundary, EmittedAt(k, run, y).value.boundary;
    EmittedAligned(k, run, x);
    EmittedAligned(k, run, y);
    StartsApart(s, t, k);
    assert s == NextGroupStart(x, k) && t == GroupStart(y, k);
    assert t <= y && x <= s by { StartPositive(s, k); }
    forall d | s <= d < s + k ensures Nth(run, d).paths >= 2 { ResumedMultipath(k, run, x, y, d); }
  }

  /** While every dispatch has two paths and one of them starts a group, the mode stays resumed. */
  lemma {:induction false} StaysResumed(k: nat, run: seq<Dispatch>, s: nat, d: nat)
    requires 2 <= k <= 64 && |run| <= U32_MAX && IsStart(s, k) && s <= d < s + k <= |run| + 1
    requires Multipath(run, s, s + k) && TxAfter(k, run, s - 1).seenMultipath
    ensures !TxAfter(k, run, d).suspended && TxAfter(k, run, d).seenMultipath
    ensures TxAfter(k, run, d).generation == TxAfter(k, run, s).generation
    decreases d
  {
    hide GroupStart, NextGroupStart, IsStart, GroupParity;
    StartPositive(s, k);
    assert Nth(run, d).paths >= 2;
    if s == d {
      FirstStart(k, s, s);
    } else {
      StaysResumed(k, run, s, d - 1);
    }
  }

  /** After a suspension the run never returns to `Never`, and the last suspension is no earlier. */
  lemma {:induction false} PhaseAdvances(k: nat, run: seq<Dispatch>, q: nat, n: nat)
    requires |run| <= U32_MAX && 0 < q <= n <= |run| && PhaseAt(k, run, q) == Suspended(q)
    ensures !PhaseAt(k, run, n).Never? && PhaseAt(k, run, n).q >= q
    ensures TxAfter(k, run, n).seenMultipath
    ensures PhaseAt(k, run, n).Resumed? ==>
              && Resumes(k, run, PhaseAt(k, run, n).r)
              && TxAfter(k, run, PhaseAt(k, run, n).r).generation == TxAfter(k, run, n).generation
    decreases n
  {
    hide TxAfter, Observed;
    PhaseConsistent(k, run, n);
    if q >= n {
    } else {
      PhaseAdvances(k, run, q, n - 1);
      GenerationStep(k, run, n);
      EmittedOps(k, run, n);
    }
  }

  /** The first suspension after a resumed dispatch. */
  lemma {:induction false} NextSuspension(k: nat, run: seq<Dispatch>, lo: nat, hi: nat) returns (y: nat)
    requires lo < hi <= |run| <= U32_MAX && !TxAfter(k, run, lo).suspended && TxAfter(k, run, hi).suspended
    ensures lo < y <= hi && Suspends(k, run, y)
    ensures TxAfter(k, run, y - 1).generation == TxAfter(k, run, lo).generation
    decreases hi - lo
  {
    hide GroupStart, NextGroupStart, IsStart, TxAfter;
    GenerationStep(k, run, lo + 1);
    NextMode(k, run, lo + 1);
    if Suspends(k, run, lo + 1) {
      y := lo + 1;
    } else {
      y := NextSuspension(k, run, lo + 1, hi);
    }
  }

  lemma NextMode(k: nat, run: seq<Dispatch>, n: nat)
    requires 0 < n <= |run| && !TxAfter(k, run, n - 1).suspended
    ensures Suspends(k, run, n) || (EmittedAt(k, run, n).None? && !TxAfter(k, run, n).suspended)
  {
    hide GroupStart, NextGroupStart, IsStart;
  }

  /** A bypassed multipath group lies strictly inside a skipped resume/suspend pair. */
  lemma GroupGivesRoom(k: nat, run: seq<Dispatch>, q: nat, r: nat, s: nat) returns (x: nat, y: nat)
    requires 2 <= k <= 64 && |run| <= U32_MAX && q < r && Suspends(k, run, q) && Resumes(k, run, r)
    requires IsStart(s, k) && s + k <= |run| + 1 && Multipath(run, s, s + k)
    requires Skipping(k, run, q, r).Bypasses(s)
    ensures q < x && y < r && RoomBetween(k, run, x, y)
    ensures EmittedAt(k, run, x).value.boundary <= s < EmittedAt(k, run, y).value.boundary
  {
    hide GroupStart, NextGroupStart, IsStart, TxAfter, Observed, PhaseAt, GroupParity, Skipping;
    SkippingWindow(k, run, q, r);
    StartPositive(s, k);
    StartsLater(k, q, s) by { assert Nth(run, q).paths == 1; }
    if r <= s { FirstStart(k, r, s); }
    PhaseAdvances(k, run, q, s - 1);
    var e := s + k - 1;
    if r <= e { StaysResumed(k, run, s, r - 1); }
    assert e < r;
    StaysResumed(k, run, s, e);
    StaysResumed(k, run, s, s);
    PhaseAdvances(k, run, q, s);
    PhaseConsistent(k, run, s);
    x := PhaseAt(k, run, s).r;
    assert e != r - 1;
    y := NextSuspension(k, run, e, r - 1);
    RoomBounds(k, run, x, s, y);
  }

  lemma RoomBounds(k: nat, run: seq<Dispatch>, x: nat, s: nat, y: nat)
    requires 2 <= k <= 64 && |run| <= U32_MAX && IsStart(s, k) && 0 < x <= s && s + k <= y <= |run|
    requires Resumes(k, run, x) && Suspends(k, run, y)
    ensures EmittedAt(k, run, x).value.boundary <= s < EmittedAt(k, run, y).value.boundary
  {
    hide IsStart, TxAfter, GroupStart, NextGroupStart;
    FirstStart(k, x, s);
    assert EmittedAt(k, run, x).value.boundary == NextGroupStart(x, k);
    assert EmittedAt(k, run, y).value.boundary == GroupStart(y, k);
    if GroupStart(y, k) < s { StartsApart(GroupStart(y, k), s, k); }
  }

  /** The parity emitted at `e` protects a group that fence `f` bypasses. */
  ghost predicate Wasted(k: nat, ic: Option<Parity.Cipher>, run: seq<Dispatch>, f: Fence, e: nat)
    requires 2 <= k <= 64
  {
    k <= e <= |run| && ParityAt(k, ic, run, e).Some? && f.Bypasses(e - k + 1)
  }

  lemma WastedGivesRoom(k: nat, ic: Option<Parity.Cipher>, run: seq<Dispatch>, q: nat, r: nat, e: nat)
    returns (x: nat, y: nat)
    requires 2 <= k <= 64 && |run| <= U32_MAX && NonEmpty(run) && q < r
    requires Suspends(k, run, q) && Resumes(k, run, r)
    requires Wasted(k, ic, run, Skipping(k, run, q, r), e)
    ensures q < x && y < r && RoomBetween(k, run, x, y)
  {
    hide IsStart, ParityAt, Skipping, RoomBetween, Multipath, GroupStart, NextGroupStart, Suspends, Resumes;
    ParityExactly(k, ic, run, e);
    x, y := GroupGivesRoom(k, run, q, r, e - k + 1);
  }

  lemma RoomGivesWasted(k: nat, ic: Option<Parity.Cipher>, run: seq<Dispatch>, q: nat, r: nat, x: nat, y: nat)
    returns (e: nat)
    requires 2 <= k <= 64 && |run| <= U32_MAX && NonEmpty(run) && q < r
    requires Suspends(k, run, q) && Resumes(k, run, r)
    requires forall sn | 0 < sn <= |run| :: Nth(run, sn).paths >= 1
    requires q < x && y < r && RoomBetween(k, run, x, y)
    ensures Wasted(k, ic, run, Skipping(k, run, q, r), e) && e < r
  {
    hide IsStart, ParityAt, Skipping, RoomBetween, Multipath, GroupStart, NextGroupStart, EmittedAt;
    RoomOrder(k, run, x, y);
    RoomGivesGroup(k, run, x, y);
    e := EmittedAt(k, run, x).value.boundary + k - 1;
    SkippingWindow(k, run, q, r);
    StartPositive(GroupStart(q, k), k);
    ParityExactly(k, ic, run, e);
  }

  /** A receiver that jumps from the suspension of `q` to the resumption of `r` treats some group whose
      parity was emitted as bypassed if and only if, among the skipped mode changes, some resumption and
      the suspension after it have a whole group between their boundaries. */
  lemma SkippingExactly(k: nat, ic: Option<Parity.Cipher>, run: seq<Dispatch>, q: nat, r: nat)
    requires 2 <= k <= 64 && |run| <= U32_MAX && NonEmpty(run) && q < r
    requires Suspends(k, run, q) && Resumes(k, run, r)
    requires forall sn | 0 < sn <= |run| :: Nth(run, sn).paths >= 1
    ensures (exists e :: Wasted(k, ic, run, Skipping(k, run, q, r), e))
            <==> (exists x: nat, y: nat :: q < x && y < r && RoomBetween(k, run, x, y))
  {
    hide *;
    if e :| Wasted(k, ic, run, Skipping(k, run, q, r), e) {
      var x, y := WastedGivesRoom(k, ic, run, q, r, e);
    }
    if x: nat, y: nat :| q < x && y < r && RoomBetween(k, run, x, y) {
      var e := RoomGivesWasted(k, ic, run, q, r, x, y);
    }
  }

  lemma RoomOrder(k: nat, run: seq<Dispatch>, x: nat, y: nat)
    requires RoomBetween(k, run, x, y)
    ensures 0 < x < y <= |run| && EmittedAt(k, run, x).Some?
  {
    hide EmittedAt, TxAfter;
  }

  // ---------- every history of applied controls ----------

  /** The window that the suspension of dispatch `q` opens. */
  function Suspending(k: nat, run: seq<Dispatch>, q: nat): Fence
    requires Suspends(k, run, q)
  {
    Apply(OPEN_FENCE, EmittedAt(k, run, q).value)
  }

  /** No window, the window of one suspension, or that of a suspension and a later resumption. */
  ghost predicate Classified(k: nat, run: seq<Dispatch>, f: Fence) {
    || f.from == 0
    || (exists q: nat :: Suspends(k, run, q) && f == Suspending(k, run, q))
    || (exists q: nat, r: nat :: q < r && Suspends(k, run, q) && Resumes(k, run, r) && f == Skipping(k, run, q, r))
  }

  /** Emitted controls in the order of their generations. */
  lemma EmittedLater(k: nat, run: seq<Dispatch>, q: nat, m: nat)
    requires |run| <= U32_MAX && 0 < q <= |run| && 0 < m <= |run|
    requires EmittedAt(k, run, q).Some? && EmittedAt(k, run, m).Some?
    requires EmittedAt(k, run, q).value.generation < EmittedAt(k, run, m).value.generation
    ensures q < m
  {
    hide EmittedAt, TxAfter;
    GenerationStep(k, run, q);
    GenerationStep(k, run, m);
    if m <= q { GenerationMonotone(k, run, m, q); }
  }

  lemma EmittedUsable(k: nat, run: seq<Dispatch>, m: nat)
    requires 0 < m <= |run| <= U32_MAX && EmittedAt(k, run, m).Some?
    ensures EmittedAt(k, run, m).value.WellFormed() && EmittedAt(k, run, m).value.generation > 0
    ensures Suspends(k, run, m) <==> !Resumes(k, run, m)
  {
    hide GroupStart, NextGroupStart, IsStart, TxAfter;
    PhaseConsistent(k, run, m - 1);
    ObserveKeepsValid(TxAfter(k, run, m - 1), Nth(run, m).paths, m, k);
    GenerationStep(k, run, m);
  }

  lemma ClassifiedNext(k: nat, run: seq<Dispatch>, f: Fence, m: nat)
    requires |run| <= U32_MAX && Classified(k, run, f) && 0 < m <= |run| && EmittedAt(k, run, m).Some?
    ensures Classified(k, run, Apply(f, EmittedAt(k, run, m).value))
  {
    hide EmittedAt, TxAfter;
    var c := EmittedAt(k, run, m).value;
    EmittedUsable(k, run, m);
    if c.generation > f.generation {
      if Suspends(k, run, m) {
        assert Apply(f, c) == Suspending(k, run, m);
      } else if f.from != 0 && c.boundary > f.from {
        if q: nat :| Suspends(k, run, q) && f == Suspending(k, run, q) {
          EmittedUsable(k, run, q);
          EmittedLater(k, run, q, m);
          assert Apply(f, c) == Skipping(k, run, q, m);
        } else {
          var q: nat, r: nat :| q < r && Suspends(k, run, q) && Resumes(k, run, r) && f == Skipping(k, run, q, r);
          EmittedUsable(k, run, q);
          EmittedUsable(k, run, r);
          EmittedLater(k, run, r, m) by { SkippingGeneration(k, run, q, r); }
          assert Apply(f, c) == Skipping(k, run, q, m) by { SkippingGeneration(k, run, q, m); }
        }
      }
    }
  }

  lemma SkippingGeneration(k: nat, run: seq<Dispatch>, q: nat, r: nat)
    requires |run| <= U32_MAX && q < r && Suspends(k, run, q) && Resumes(k, run, r)
    ensures Skipping(k, run, q, r).generation == EmittedAt(k, run, r).value.generation
    ensures EmittedAt(k, run, q).value.generation < EmittedAt(k, run, r).value.generation
  {
    hide EmittedAt, TxAfter;
    EmittedUsable(k, run, q);
    EmittedUsable(k, run, r);
    GenerationStep(k, run, q);
    GenerationStep(k, run, r);
    GenerationMonotone(k, run, q, r - 1);
  }

  lemma {:induction false} AppliedClassified(k: nat, run: seq<Dispatch>, controls: seq<Control>)
    requires |run| <= U32_MAX && AllEmitted(k, run, controls)
    ensures Classified(k, run, ApplyAll(OPEN_FENCE, controls))
    decreases |controls|
  {
    hide EmittedAt, Classified, Apply;
    if |controls| == 0 {
      OpenClassified(k, run);
    } else {
      var front, c := controls[..|controls| - 1], controls[|controls| - 1];
      assert forall d | d in front :: d in controls;
      AppliedClassified(k, run, front);
      var m :| 0 < m <= |run| && EmittedAt(k, run, m) == Some(c);
      ClassifiedNext(k, run, ApplyAll(OPEN_FENCE, front), m);
    }
  }

  lemma OpenClassified(k: nat, run: seq<Dispatch>)
    ensures Classified(k, run, OPEN_FENCE)
  {
  }

  /** A suspension alone bypasses no protected group that was sent in its generation or before. */
  lemma SuspendingOpen(k: nat, ic: Option<Parity.Cipher>, run: seq<Dispatch>, q: nat, s: nat)
    requires 2 <= k <= 64 && |run| <= U32_MAX && NonEmpty(run) && Suspends(k, run, q)
    requires IsStart(s, k) && s + k - 1 <= |run| && ParityAt(k, ic, run, s + k - 1).Some?
    requires TxAfter(k, run, s).generation <= Suspending(k, run, q).generation
    ensures !Suspending(k, run, q).Bypasses(s)
  {
    hide IsStart, GroupStart, TxAfter, ParityAt, EmittedAt, PhaseAt;
    EmittedUsable(k, run, q);
    GenerationStep(k, run, q);
    SuspendedAt(k, run, q);
    StartOfMember(s, s, k);
    StartPositive(s, k);
    EmittedNeverBypasses(k, ic, run, q, s);
  }

  lemma SuspendedAt(k: nat, run: seq<Dispatch>, q: nat)
    requires |run| <= U32_MAX && Suspends(k, run, q)
    ensures RxAt(k, run, q) == Suspending(k, run, q)
  {
    hide TxAfter, EmittedAt;
    EmittedUsable(k, run, q);
    PhaseConsistent(k, run, q - 1);
    PhaseConsistent(k, run, q);
    GenerationStep(k, run, q);
  }

  /** Fence `f` is what a suspension and a later resumption leave, and group `s` lies between the boundaries of a
      resumption and the next suspension that came between those two. */
  ghost predicate SkippedOver(k: nat, run: seq<Dispatch>, f: Fence, s: nat) {
    exists q: nat, r: nat, x: nat, y: nat ::
      && q < x && y < r && Suspends(k, run, q) && Resumes(k, run, r) && f == Skipping(k, run, q, r)
      && RoomBetween(k, run, x, y)
      && EmittedAt(k, run, x).value.boundary <= s < EmittedAt(k, run, y).value.boundary
  }

  lemma SpannedSkips(k: nat, run: seq<Dispatch>, q: nat, r: nat, s: nat)
    requires 2 <= k <= 64 && |run| <= U32_MAX && q < r && Suspends(k, run, q) && Resumes(k, run, r)
    requires IsStart(s, k) && s + k <= |run| + 1 && Multipath(run, s, s + k) && Skipping(k, run, q, r).Bypasses(s)
    ensures SkippedOver(k, run, Skipping(k, run, q, r), s)
  {
    hide IsStart, Skipping, Multipath, RoomBetween, Suspends, Resumes;
    var x, y := GroupGivesRoom(k, run, q, r, s);
  }

  lemma BypassedSkips(k: nat, ic: Option<Parity.Cipher>, run: seq<Dispatch>, f: Fence, s: nat)
    requires 2 <= k <= 64 && |run| <= U32_MAX && NonEmpty(run) && Classified(k, run, f) && f.Bypasses(s)
    requires IsStart(s, k) && s + k - 1 <= |run| && ParityAt(k, ic, run, s + k - 1).Some?
    requires TxAfter(k, run, s).generation <= f.generation
    ensures SkippedOver(k, run, f, s)
  {
    hide IsStart, TxAfter, ParityAt, Skipping, Suspending, Multipath, SkippedOver, Suspends, Resumes;
    ParityExactly(k, ic, run, s + k - 1);
    assert !exists q: nat :: Suspends(k, run, q) && f == Suspending(k, run, q) by {
      if q: nat :| Suspends(k, run, q) && f == Suspending(k, run, q) { SuspendingOpen(k, ic, run, q, s); }
    }
    var q: nat, r: nat :| q < r && Suspends(k, run, q) && Resumes(k, run, r) && f == Skipping(k, run, q, r);
    SpannedSkips(k, run, q, r, s);
  }

  /** Whatever controls of the run the receiver has applied, in whatever order and however many it has skipped or
      repeated: a group whose parity is emitted, and whose first frame was sent in a generation no later than the
      receiver's, bypasses FEC if and only if the receiver's window spans a resumption and the next suspension that left
      room for the group. */
  lemma BypassExactly(k: nat, ic: Option<Parity.Cipher>, run: seq<Dispatch>, controls: seq<Control>, s: nat)
    requires 2 <= k <= 64 && |run| <= U32_MAX && NonEmpty(run) && AllEmitted(k, run, controls)
    requires IsStart(s, k) && s + k - 1 <= |run| && ParityAt(k, ic, run, s + k - 1).Some?
    requires TxAfter(k, run, s).generation <= ApplyAll(OPEN_FENCE, controls).generation
    ensures var f := ApplyAll(OPEN_FENCE, controls); f.Bypasses(s) <==> SkippedOver(k, run, f, s)
  {
    hide IsStart, TxAfter, ParityAt, SkippedOver, ApplyAll, AllEmitted, Classified, NonEmpty;
    var f := ApplyAll(OPEN_FENCE, controls);
    AppliedClassified(k, run, controls);
    if f.Bypasses(s) { BypassedSkips(k, ic, run, f, s); }
    StartPositive(s, k);
    if SkippedOver(k, run, f, s) { RoomInside(k, run, f, s); }
  }

  lemma RoomInside(k: nat, run: seq<Dispatch>, f: Fence, s: nat)
    requires 2 <= k <= 64 && |run| <= U32_MAX && s > 0 && SkippedOver(k, run, f, s)
    ensures f.Bypasses(s)
  {
    hide IsStart, TxAfter, Skipping, GroupStart, NextGroupStart;
    var q: nat, r: nat, x: nat, y: nat :|
      && q < x && y < r && Suspends(k, run, q) && Resumes(k, run, r) && f == Skipping(k, run, q, r)
      && RoomBetween(k, run, x, y)
      && EmittedAt(k, run, x).value.boundary <= s < EmittedAt(k, run, y).value.boundary;
    SkippingWindow(k, run, q, r);
    assert EmittedAt(k, run, x).value.boundary == NextGroupStart(x, k);
    assert EmittedAt(k, run, y).value.boundary == GroupStart(y, k);
    StartPositive(GroupStart(q, k), k);
  }

  /** The same without naming a group: fence `f` is what a suspension and a later resumption leave, and a resumption and
      the next suspension between those two have a whole group between their boundaries. */
  ghost predicate SkippedRoom(k: nat, run: seq<Dispatch>, f: Fence) {
    exists q: nat, r: nat, x: nat, y: nat ::
      && q < x && y < r && Suspends(k, run, q) && Resumes(k, run, r) && f == Skipping(k, run, q, r)
      && RoomBetween(k, run, x, y)
  }

  /** The parity emitted at `e` protects a group that `f` bypasses, although the receiver has applied the generation
      the group was sent in. */
  ghost predicate WastedBehind(k: nat, ic: Option<Parity.Cipher>, run: seq<Dispatch>, f: Fence, e: nat)
    requires 2 <= k <= 64
  {
    Wasted(k, ic, run, f, e) && TxAfter(k, run, e - k + 1).generation <= f.generation
  }

  lemma RoomWastes(k: nat, ic: Option<Parity.Cipher>, run: seq<Dispatch>, f: Fence) returns (e: nat)
    requires 2 <= k <= 64 && |run| <= U32_MAX && NonEmpty(run) && SkippedRoom(k, run, f)
    requires forall sn | 0 < sn <= |run| :: Nth(run, sn).paths >= 1
    ensures WastedBehind(k, ic, run, f, e)
  {
    hide ParityAt, TxAfter, Skipping, RoomBetween, EmittedAt, NonEmpty;
    var q: nat, r: nat, x: nat, y: nat :|
      && q < x && y < r && Suspends(k, run, q) && Resumes(k, run, r) && f == Skipping(k, run, q, r)
      && RoomBetween(k, run, x, y);
    RoomOrder(k, run, x, y);
    e := RoomGivesWasted(k, ic, run, q, r, x, y);
    SkippingGeneration(k, run, q, r);
    GenerationStep(k, run, r);
    GenerationMonotone(k, run, e - k + 1, r);
  }

  /** So the receiver wastes some parity that way if and only if its window spans such a pair. */
  lemma WasteExactly(k: nat, ic: Option<Parity.Cipher>, run: seq<Dispatch>, controls: seq<Control>)
    requires 2 <= k <= 64 && |run| <= U32_MAX && NonEmpty(run) && AllEmitted(k, run, controls)
    requires forall sn | 0 < sn <= |run| :: Nth(run, sn).paths >= 1
    ensures var f := ApplyAll(OPEN_FENCE, controls);
            (exists e: nat :: WastedBehind(k, ic, run, f, e)) <==> SkippedRoom(k, run, f)
  {
    hide IsStart, TxAfter, ParityAt, ApplyAll, AllEmitted, NonEmpty, Multipath, Skipping, RoomBetween, Suspends, Resumes;
    var f := ApplyAll(OPEN_FENCE, controls);
    if e: nat :| WastedBehind(k, ic, run, f, e) {
      ParityExactly(k, ic, run, e);
      BypassExactly(k, ic, run, controls, e - k + 1);
    }
    if SkippedRoom(k, run, f) {
      var e := RoomWastes(k, ic, run, f);
    }
  }
}
