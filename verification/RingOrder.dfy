/** The order of the ring's releases over every run, wrapped arrivals included (src/buffer.rs). */
module RingOrder {
  import opened Bytes
  import opened ReorderSpec
  import opened RingSpec
  import Residue

  // ---------- distances around the sequence space ----------

  /** How far `s` lies ahead of the position `e`, around the end of the space if need be. */
  function Ahead(e: nat, s: nat): int {
    if s >= e then s - e else s + SEQ_SPACE - e
  }

  /** Everything pending lies within the size of the ring ahead of the position or at it. */
  predicate Around(size: nat, e: nat, pending: map<nat, Frame>) {
    && IsWindow(size) && 0 < e <= U32_MAX
    && forall s | s in pending :: 0 < s <= U32_MAX && Ahead(e, s) < size
  }

  lemma PlusResidue(size: nat, e: nat, delta: nat)
    requires IsWindow(size) && e <= U32_MAX && delta < size
    ensures Plus(e, delta) % size == (e + delta) % size
  {
    if e + delta > U32_MAX { SpaceIsWindows(size, Plus(e, delta)); }
  }

  lemma AheadResidue(size: nat, e: nat, s: nat)
    requires IsWindow(size) && e <= U32_MAX
    ensures (e + Ahead(e, s)) % size == s % size
  {
    if s < e { SpaceIsWindows(size, s); }
  }

  /** A slot ahead is taken by the number that belongs there or not at all. */
  lemma TakenAhead(size: nat, e: nat, pending: map<nat, Frame>, delta: nat)
    requires Around(size, e, pending) && delta < size
    ensures Taken(size, pending, Plus(e, delta)) <==> Plus(e, delta) in pending
    ensures Taken(size, pending, Plus(e, delta)) ==> Holder(size, pending, Plus(e, delta)) == Plus(e, delta)
  {
    var x := Plus(e, delta);
    PlusResidue(size, e, delta);
    forall s | s in pending && s % size == x % size ensures s == x {
      AheadResidue(size, e, s);
      Residue.Injective(e + Ahead(e, s), e + delta, size);
    }
  }

  /** The first slot of the sequence space belongs to no number. */
  lemma NothingAtZero(size: nat, pending: map<nat, Frame>)
    requires Around(size, U32_MAX, pending) && U32_MAX !in pending
    ensures !Taken(size, pending, 0)
  {
    if s :| s in pending && s % size == 0 % size {
      Residue.Injective(s, 0, size);
    }
  }

  // ---------- releasing ----------

  /** What a flush from position `e` releases: consecutive numbers from `e` on, stopping at the end of the space. */
  predicate Drained(size: nat, e: nat, pending: map<nat, Frame>, e': nat, p: map<nat, Frame>, items: seq<Item>) {
    && (forall i | 0 <= i < |items| :: items[i].sn == e + i)
    && (forall s | s in p :: s in pending)
    && (|items| > 0 <==> e in pending)
    && if e' == 0 then e + |items| == SEQ_SPACE else e' == e + |items| && Around(size, e', p) && e' !in p
  }

  lemma {:induction false} DrainAhead(size: nat, e: nat, pending: map<nat, Frame>)
    requires Around(size, e, pending)
    ensures var (e', p, items) := RingDrain(size, e, pending); Drained(size, e, pending, e', p, items)
    decreases |pending|
  {
    hide Taken;
    TakenAhead(size, e, pending, 0);
    assert Plus(e, 0) == e;
    if e !in pending {
    } else {
      var rest := pending - {e};
      assert pending.Keys == rest.Keys + {e};
      if e == U32_MAX {
        NothingAtZero(size, rest);
        assert RingDrain(size, 0, rest) == (0, rest, []);
      } else {
        DrainAhead(size, e + 1, rest);
        var (e', p, items) := RingDrain(size, e + 1, rest);
        assert forall i | 0 <= i < |items| :: items[i].sn == e + 1 + i;
      }
    }
  }

  /** In any state: something is released iff the slot of the position is taken, and what is released was pending. */
  lemma DrainFirst(size: nat, e: nat, pending: map<nat, Frame>)
    requires size > 0 && forall s | s in pending :: 0 < s <= U32_MAX
    ensures var (_, p, items) := RingDrain(size, e, pending);
            && (|items| > 0 <==> Taken(size, pending, e))
            && (|items| > 0 ==> items[0].sn in pending && 0 < items[0].sn <= U32_MAX)
  {
    hide Taken;
  }

  lemma {:induction false} DrainWithinPending(size: nat, e: nat, pending: map<nat, Frame>)
    requires size > 0
    ensures forall s | s in RingDrain(size, e, pending).1 :: s in pending
    decreases |pending|
  {
    hide Taken;
    if !Taken(size, pending, e) {
    } else {
      var s := Holder(size, pending, e);
      assert pending.Keys == (pending - {s}).Keys + {s};
      DrainWithinPending(size, Succ(e), pending - {s});
    }
  }

  // ---------- the timer ----------

  /** The scan finds the nearest taken slot. */
  lemma {:induction false} ScanNearest(size: nat, b: Buf, delta: nat)
    requires IsWindow(size) && b.expected <= U32_MAX && delta <= size
    ensures match Scan(size, b, delta)
            case Some(d) => delta <= d < size && Taken(size, b.pending, Plus(b.expected, d))
                         && forall c | delta <= c < d :: !Taken(size, b.pending, Plus(b.expected, c))
            case None => forall c | delta <= c < size :: !Taken(size, b.pending, Plus(b.expected, c))
    decreases size - delta
  {
    hide Taken;
    if delta == size {
    } else if Taken(size, b.pending, Plus(b.expected, delta)) {
    } else {
      ScanNearest(size, b, delta + 1);
    }
  }

  /** If anything is pending elsewhere, the scan finds something. */
  lemma ScanFindsSome(size: nat, b: Buf)
    requires IsWindow(size) && b.expected <= U32_MAX && Gap(size, b)
    ensures Scan(size, b, 1).Some?
  {
    ScanNearest(size, b, 1);
    var s :| s in b.pending;
    var delta := Ahead(b.expected, s) % size;
    AheadResidue(size, b.expected, s);
    PlusResidue(size, b.expected, delta);
    Residue.AddMultiple(b.expected + delta, Ahead(b.expected, s) / size, size);
    assert b.expected + delta + Ahead(b.expected, s) / size * size == b.expected + Ahead(b.expected, s);
    assert Taken(size, b.pending, Plus(b.expected, delta));
    assert Plus(b.expected, 0) == b.expected;
  }

  // ---------- when a step releases something ----------

  /** The timer is due: the gap is old enough and still open. */
  ghost predicate Due(r: Ring, now: nat)
    requires IsWindow(r.size)
  {
    r.buf.gap.Some? && SaturatingSub(now, r.buf.gap.value) >= SKIP_DELAY && Gap(r.size, r.buf)
  }

  /** The guard of a release: the expected number arrives, or any number if there is no position, and finds its slot free;
      or the timer is due. */
  ghost predicate Fires(r: Ring, op: Op)
    requires IsWindow(r.size)
  {
    match op
    case Arrive(sn, _, _) => sn != 0 && (r.buf.expected == 0 || r.buf.expected == sn) && !Taken(r.size, r.buf.pending, sn)
    case Tick(now) => Due(r, now)
  }

  /** The timer is due and everything pending lies behind the position, so that it jumps back. */
  ghost predicate Crosses(r: Ring, op: Op)
    requires IsWindow(r.size)
  {
    op.Tick? && Due(r, op.now) && forall s | s in r.buf.pending :: s < r.buf.expected
  }

  ghost predicate Ranged(r: Ring) {
    IsWindow(r.size) && r.buf.expected <= U32_MAX && forall s | s in r.buf.pending :: 0 < s <= U32_MAX
  }

  /** The step `flush` makes: from position `e` with `pending`. */
  lemma FlushIs(size: nat, b: Buf, now: nat)
    requires size > 0
    ensures var (b', items) := RingFlush(size, b, now);
            (b'.expected, b'.pending, items) == RingDrain(size, b.expected, b.pending)
  {
    hide RingDrain, Gap;
  }

  /** A step that does not fire releases nothing and leaves a known position. */
  lemma QuietStep(r: Ring, op: Op)
    requires Ranged(r) && InRange(op) && !Fires(r, op)
    ensures var (r', items) := RingStep(r, op);
            && items == [] && Ranged(r') && (r.buf.expected != 0 ==> r'.buf.expected == r.buf.expected)
            && (op.Tick? || op.sn == 0 ==> r'.buf.expected == r.buf.expected)
  {
    hide RingFlush, Scan, Doubled, Taken;
    if op.Tick? && Gap(r.size, r.buf) { ScanFindsSome(r.size, r.buf); }
    StepKeepsRange(r, op);
  }

  /** A step that fires releases a number of the space first. */
  lemma FiringStep(r: Ring, op: Op)
    requires Ranged(r) && InRange(op) && Fires(r, op)
    ensures var (r', items) := RingStep(r, op);
            |items| > 0 && 0 < items[0].sn <= U32_MAX && Ranged(r') && (op.Tick? ==> items[0].sn in r.buf.pending)
  {
    hide RingFlush, Doubled, RingDrain, Scan;
    StepKeepsRange(r, op);
    match op {
      case Arrive(sn, data, now) =>
        var b := Learn(r.buf, sn);
        var b1 := b.(pending := b.pending[sn := data]);
        FlushIs(r.size, b1, now);
        DrainFirst(r.size, sn, b1.pending);
        DrainWithinPending(r.size, sn, b1.pending);
        assert sn in b1.pending;
      case Tick(now) =>
        ScanFindsSome(r.size, r.buf);
        ScanNearest(r.size, r.buf, 1);
        var d := Scan(r.size, r.buf, 1).value;
        var b := Jumped(r.buf, d);
        FlushIs(r.size, b, now);
        DrainFirst(r.size, b.expected, b.pending);
        DrainWithinPending(r.size, b.expected, b.pending);
    }
  }

  /** The buffer after the timer has moved the position by `d`. */
  function Jumped(b: Buf, d: nat): Buf {
    b.(expected := Plus(b.expected, d),
       stats := b.stats.(timeoutFlushes := SatAdd(b.stats.timeoutFlushes, 1), skipped := SatAdd(b.stats.skipped, d)))
  }

  // ---------- what is true until the order breaks ----------

  /** Nothing was released yet; or the last release is the number before the position, and all pending lies ahead, around
      the end of the space if need be. */
  ghost predicate Standing(r: Ring, past: seq<Item>) {
    && Ranged(r)
    && if r.buf.expected == 0 then past == [] && r.buf.pending == map[]
       else
         && Around(r.size, r.buf.expected, r.buf.pending) && r.buf.expected !in r.buf.pending
         && |past| > 0 && past[|past| - 1].sn == r.buf.expected - 1 && Increasing(past)
  }

  /** The last release is the last number of the space. */
  ghost predicate Finished(r: Ring, past: seq<Item>) {
    Ranged(r) && |past| > 0 && past[|past| - 1].sn == U32_MAX && Increasing(past)
  }

  lemma Appended(past: seq<Item>, items: seq<Item>, lo: nat)
    requires Increasing(past) && (|past| > 0 ==> past[|past| - 1].sn < lo)
    requires |items| > 0 && forall i | 0 <= i < |items| :: items[i].sn == lo + i
    ensures Increasing(past + items) && (past + items)[|past + items| - 1].sn == lo + |items| - 1
  {
    forall i, j | 0 <= i < j < |past + items| ensures (past + items)[i].sn < (past + items)[j].sn {
      if i < |past| <= j { assert past[i].sn <= past[|past| - 1].sn; }
    }
  }

  lemma Breaks(past: seq<Item>, items: seq<Item>)
    requires |past| > 0 && |items| > 0 && items[0].sn <= past[|past| - 1].sn
    ensures !Increasing(past + items)
  {
    assert (past + items)[|past| - 1] == past[|past| - 1] && (past + items)[|past|] == items[0];
  }

  /** Flushing at a position that something is pending at. */
  lemma FlushStands(size: nat, b: Buf, now: nat, past: seq<Item>)
    requires Around(size, b.expected, b.pending) && b.expected in b.pending
    requires Increasing(past) && (|past| > 0 ==> past[|past| - 1].sn < b.expected)
    ensures var (b', items) := RingFlush(size, b, now);
            if b'.expected == 0 then Finished(Ring(size, b'), past + items) else Standing(Ring(size, b'), past + items)
  {
    hide RingFlush, RingDrain;
    FlushIs(size, b, now);
    DrainAhead(size, b.expected, b.pending);
    var (b', items) := RingFlush(size, b, now);
    Appended(past, items, b.expected);
  }

  lemma RefreshIs(size: nat, b: Buf, now: nat)
    requires size > 0
    ensures RingRefresh(size, b, now).expected == b.expected && RingRefresh(size, b, now).pending == b.pending
  {
    hide Gap;
  }

  /** An arrival that is not the expected number is kept within the window or ignored. */
  lemma ArrivalAround(r: Ring, sn: nat, data: Frame, now: nat)
    requires Around(r.size, r.buf.expected, r.buf.pending) && sn <= U32_MAX && sn != r.buf.expected
    ensures var r' := RingInsert(r, sn, data, now).0;
            && r'.buf.expected == r.buf.expected && Around(r'.size, r'.buf.expected, r'.buf.pending)
            && forall s | s in r'.buf.pending :: s in r.buf.pending || s == sn
  {
    hide RingFlush, Doubled, Taken, RingRefresh, Around, SignedDistance;
    var b := r.buf;
    var diff := SignedDistance(sn, b.expected);
    AroundParts(r.size, b.expected, b.pending);
    if sn != 0 && 0 <= diff < MAX_WINDOW {
      DistanceAhead(sn, b.expected);
      var size := if diff >= r.size then Doubled(r.size, diff + 1) else r.size;
      AroundMore(r.size, size, b.expected, b.pending, sn, data);
      RefreshIs(size, b.(pending := b.pending[sn := data]), now);
    }
  }

  lemma AroundParts(size: nat, e: nat, pending: map<nat, Frame>)
    requires Around(size, e, pending)
    ensures IsWindow(size) && 0 < e <= U32_MAX
  {
  }

  lemma DistanceAhead(sn: nat, e: nat)
    requires 0 < sn <= U32_MAX && e <= U32_MAX && SignedDistance(sn, e) >= 0
    ensures SignedDistance(sn, e) == Ahead(e, sn)
  {
  }

  lemma AroundMore(size: nat, size': nat, e: nat, pending: map<nat, Frame>, sn: nat, data: Frame)
    requires Around(size, e, pending) && IsWindow(size') && size <= size' && 0 < sn <= U32_MAX && Ahead(e, sn) < size'
    ensures Around(size', e, pending) && Around(size', e, pending[sn := data])
  {
  }

  lemma StandingQuiet(r: Ring, op: Op, past: seq<Item>)
    requires Standing(r, past) && InRange(op) && !Fires(r, op)
    ensures Standing(RingStep(r, op).0, past)
    ensures RingStep(r, op).0.buf.expected == r.buf.expected && (op.Arrive? && op.sn != 0 ==> r.buf.expected != 0)
  {
    hide RingInsert, RingFlush, Scan, Increasing, Taken, Around;
    QuietStep(r, op);
    var e := r.buf.expected;
    match op {
      case Tick(_) => QuietTick(r, op.now);
      case Arrive(sn, data, now) =>
        if e == 0 {
          NothingTaken(r.size, sn);
          ZeroIgnored(r, data, now);
        } else {
          TakenAhead(r.size, e, r.buf.pending, 0);
          assert Plus(e, 0) == e;
          ArrivalAround(r, sn, data, now);
        }
    }
  }

  lemma QuietTick(r: Ring, now: nat)
    requires Ranged(r) && !Due(r, now)
    ensures RingTimeout(r, now) == (r, [])
  {
    hide Scan, RingFlush, Gap;
  }

  lemma ZeroIgnored(r: Ring, data: Frame, now: nat)
    requires IsWindow(r.size)
    ensures RingInsert(r, 0, data, now) == (r, [])
  {
  }

  lemma NothingTaken(size: nat, sn: nat)
    requires size > 0
    ensures !Taken(size, map[], sn)
  {
  }

  lemma StandingArrives(r: Ring, sn: nat, data: Frame, now: nat, past: seq<Item>)
    requires Standing(r, past) && sn <= U32_MAX && Fires(r, Arrive(sn, data, now))
    ensures var (r', items) := RingInsert(r, sn, data, now);
            if r'.buf.expected == 0 then Finished(r', past + items) else Standing(r', past + items)
  {
    hide RingFlush, Doubled, Taken;
    var b := Learn(r.buf, sn);
    var b1 := b.(pending := b.pending[sn := data]);
    FlushStands(r.size, b1, now, past);
  }

  /** What the timer jumps to, when something plain is pending: the nearest pending number. */
  lemma JumpsAhead(r: Ring, past: seq<Item>, t: nat)
    requires Standing(r, past) && t in r.buf.pending && t >= r.buf.expected
    ensures var d := Scan(r.size, r.buf, 1);
            && d.Some? && 0 < d.value && r.buf.expected + d.value <= U32_MAX
            && var m := r.buf.expected + d.value; Around(r.size, m, r.buf.pending) && m in r.buf.pending
  {
    hide Scan, Taken, Increasing;
    var e, p := r.buf.expected, r.buf.pending;
    ScanNearest(r.size, r.buf, 1);
    forall s | s in p ensures Plus(e, Ahead(e, s)) == s && Ahead(e, s) >= 1 && Taken(r.size, p, Plus(e, Ahead(e, s))) {
      TakenAhead(r.size, e, p, Ahead(e, s));
    }
    assert Taken(r.size, p, Plus(e, Ahead(e, t)));
    var d := Scan(r.size, r.buf, 1).value;
    forall s | s in p ensures Ahead(e, s) >= d { assert Taken(r.size, p, Plus(e, Ahead(e, s))); }
    assert d <= Ahead(e, t);
    TakenAhead(r.size, e, p, d);
  }

  lemma StandingTicks(r: Ring, now: nat, past: seq<Item>)
    requires Standing(r, past) && Fires(r, Tick(now)) && !Crosses(r, Tick(now))
    ensures var (r', items) := RingTimeout(r, now);
            if r'.buf.expected == 0 then Finished(r', past + items) else Standing(r', past + items)
  {
    hide RingFlush, Scan, Taken, Increasing, Around;
    var t :| t in r.buf.pending && t >= r.buf.expected;
    JumpsAhead(r, past, t);
    var d := Scan(r.size, r.buf, 1).value;
    FlushStands(r.size, Jumped(r.buf, d), now, past);
  }

  lemma CrossingBreaks(r: Ring, op: Op, past: seq<Item>)
    requires Standing(r, past) && InRange(op) && Crosses(r, op)
    ensures !Increasing(past + RingStep(r, op).1)
  {
    hide RingTimeout, Increasing, Around;
    FiringStep(r, op);
    Breaks(past, RingStep(r, op).1);
  }

  // ---------- whole runs ----------

  /** A position was learned and, with the release of `u32::MAX`, forgotten at some point of the run. */
  ghost predicate RanOut(r: Ring, ops: seq<Op>)
    requires IsWindow(r.size) && r.buf.expected <= U32_MAX && AllInRange(ops)
    decreases |ops|
  {
    |ops| > 0 &&
      (RanOut(r, ops[..|ops| - 1]) || (Origin(r.buf, ops) != 0 && RingRun(r, ops).0.buf.expected == 0))
  }

  /** At some point the timer jumps back behind the position, or something is released after the space has run out. */
  ghost predicate Broken(r: Ring, ops: seq<Op>)
    requires IsWindow(r.size) && r.buf.expected <= U32_MAX && AllInRange(ops)
    decreases |ops|
  {
    |ops| > 0 &&
      var front, last := ops[..|ops| - 1], ops[|ops| - 1];
      var at := RingRun(r, front).0;
      Broken(r, front) || Crosses(at, last) || (RanOut(r, front) && Fires(at, last))
  }

  /** The number before a known position counts as released. */
  function Past(r: Ring): seq<Item> {
    if r.buf.expected == 0 then [] else [Item(r.buf.expected - 1, [])]
  }

  ghost function Output(r: Ring, ops: seq<Op>): seq<Item>
    requires IsWindow(r.size) && r.buf.expected <= U32_MAX && AllInRange(ops)
  {
    Past(r) + RingRun(r, ops).1
  }

  ghost predicate InOrderSoFar(r: Ring, ops: seq<Op>)
    requires IsWindow(r.size) && r.buf.expected <= U32_MAX && AllInRange(ops)
  {
    var at := RingRun(r, ops).0;
    if RanOut(r, ops) then Finished(at, Output(r, ops))
    else Standing(at, Output(r, ops)) && (at.buf.expected == 0 <==> Origin(r.buf, ops) == 0)
  }

  lemma OutputNext(r: Ring, front: seq<Op>, last: Op)
    requires IsWindow(r.size) && r.buf.expected <= U32_MAX && AllInRange(front + [last])
    ensures AllInRange(front) && InRange(last)
    ensures var at := RingRun(r, front).0;
            var (r', items) := RingStep(at, last);
            RingRun(r, front + [last]).0 == r' && Output(r, front + [last]) == Output(r, front) + items
    ensures Origin(r.buf, front + [last]) ==
              if Origin(r.buf, front) == 0 && last.Arrive? then last.sn else Origin(r.buf, front)
  {
    hide RingStep;
    var ops := front + [last];
    forall i | 0 <= i < |front| ensures InRange(front[i]) { assert InRange(ops[i]); }
    assert InRange(ops[|front|]);
    assert ops[..|front|] == front;
    var items := RingStep(RingRun(r, front).0, last).1;
    assert Past(r) + (RingRun(r, front).1 + items) == Past(r) + RingRun(r, front).1 + items;
  }

  lemma FinishedNext(r: Ring, op: Op, past: seq<Item>)
    requires Finished(r, past) && InRange(op)
    ensures var (r', items) := RingStep(r, op);
            if Fires(r, op) then !Increasing(past + items) else Finished(r', past + items)
  {
    hide RingStep, Increasing, Fires;
    if Fires(r, op) {
      FiringStep(r, op);
      Breaks(past, RingStep(r, op).1);
    } else {
      QuietStep(r, op);
      assert past + [] == past;
    }
  }

  lemma StandingNext(r: Ring, op: Op, past: seq<Item>)
    requires Standing(r, past) && InRange(op) && !Crosses(r, op)
    ensures var (r', items) := RingStep(r, op);
            && (r'.buf.expected == 0 && (r.buf.expected != 0 || (op.Arrive? && op.sn != 0)) ==> Finished(r', past + items))
            && (r'.buf.expected == 0 && r.buf.expected == 0 && (op.Tick? || op.sn == 0) ==> Standing(r', past + items))
            && (r'.buf.expected != 0 ==> Standing(r', past + items))
            && (r'.buf.expected != 0 ==> r.buf.expected != 0 || (op.Arrive? && op.sn != 0))
  {
    hide RingInsert, RingTimeout, Standing, Finished, Taken;
    StandingRange(r, past);
    if Fires(r, op) {
      match op {
        case Arrive(sn, data, now) => StandingArrives(r, sn, data, now, past);
        case Tick(now) => StandingTicks(r, now, past);
      }
    } else {
      QuietStep(r, op);
      StandingQuiet(r, op, past);
      assert past + [] == past;
    }
  }

  lemma StandingRange(r: Ring, past: seq<Item>)
    requires Standing(r, past)
    ensures Ranged(r)
  {
  }

  lemma StepOrder(r: Ring, front: seq<Op>, last: Op)
    requires IsWindow(r.size) && r.buf.expected <= U32_MAX && AllInRange(front) && AllInRange(front + [last])
    requires !Broken(r, front) && InOrderSoFar(r, front)
    ensures if Broken(r, front + [last]) then !Increasing(Output(r, front + [last])) else InOrderSoFar(r, front + [last])
  {
    hide RingRun, RingStep, Standing, Finished, Output, Origin, Fires, Crosses, Increasing;
    var ops := front + [last];
    assert ops[..|ops| - 1] == front && ops[|ops| - 1] == last;
    OutputNext(r, front, last);
    var at, past := RingRun(r, front).0, Output(r, front);
    if RanOut(r, front) {
      FinishedNext(at, last, past);
      if Crosses(at, last) { CrossingFires(at, last); }
    } else if Crosses(at, last) {
      CrossingBreaks(at, last, past);
    } else {
      StandingNext(at, last, past);
    }
  }

  lemma CrossingFires(r: Ring, op: Op)
    requires IsWindow(r.size) && Crosses(r, op)
    ensures Fires(r, op)
  {
  }

  lemma {:induction false} OrderSoFar(r: Ring, ops: seq<Op>)
    requires IsWindow(r.size) && r.buf.expected <= U32_MAX && r.buf.pending == map[] && AllInRange(ops)
    ensures if Broken(r, ops) then !Increasing(Output(r, ops)) else InOrderSoFar(r, ops)
    decreases |ops|
  {
    hide RingRun, InOrderSoFar, Output, Increasing, Crosses, Fires, RanOut;
    if |ops| == 0 {
      StartsInOrder(r, ops);
    } else {
      var front, last := ops[..|ops| - 1], ops[|ops| - 1];
      assert ops == front + [last];
      OutputNext(r, front, last);
      OrderSoFar(r, front);
      if Broken(r, front) {
        StaysBroken(Output(r, front), RingStep(RingRun(r, front).0, last).1);
      } else {
        StepOrder(r, front, last);
      }
    }
  }

  lemma StartsInOrder(r: Ring, ops: seq<Op>)
    requires IsWindow(r.size) && r.buf.expected <= U32_MAX && r.buf.pending == map[] && ops == []
    ensures AllInRange(ops) && InOrderSoFar(r, ops)
  {
    assert Past(r) + [] == Past(r);
  }

  lemma StaysBroken(past: seq<Item>, items: seq<Item>)
    requires !Increasing(past)
    ensures !Increasing(past + items)
  {
    var i, j :| 0 <= i < j < |past| && past[i].sn >= past[j].sn;
    assert (past + items)[i] == past[i] && (past + items)[j] == past[j];
  }

  /** The order over every run, wrapped arrivals included. From any ring that holds nothing, counting the number before a
      known position as released: the released numbers strictly increase if and only if the timer is never due while
      everything pending lies behind the position, and no release comes due after the sequence space has run out. */
  lemma OrderExactly(r: Ring, ops: seq<Op>)
    requires IsWindow(r.size) && r.buf.expected <= U32_MAX && r.buf.pending == map[] && AllInRange(ops)
    ensures Increasing(Past(r) + RingRun(r, ops).1) <==> !Broken(r, ops)
  {
    hide RingRun, Increasing, Broken, Standing, Finished, RanOut;
    OrderSoFar(r, ops);
    if !Broken(r, ops) { SoFarIncreasing(r, ops); }
  }

  lemma SoFarIncreasing(r: Ring, ops: seq<Op>)
    requires IsWindow(r.size) && r.buf.expected <= U32_MAX && AllInRange(ops) && InOrderSoFar(r, ops)
    ensures Increasing(Output(r, ops))
    ensures var at := RingRun(r, ops).0.buf.expected;
            at > 0 ==> var past := Output(r, ops); |past| > 0 && past[|past| - 1].sn >= at - 1
  {
    hide RingRun, RanOut, Origin;
  }

  lemma {:induction false} OutputPrefix(r: Ring, ops: seq<Op>, n: nat)
    requires IsWindow(r.size) && r.buf.expected <= U32_MAX && AllInRange(ops) && n <= |ops|
    ensures AllInRange(ops[..n]) && RingRun(r, ops[..n]).1 <= RingRun(r, ops).1
    decreases |ops|
  {
    hide RingStep;
    if n == |ops| {
      assert ops[..n] == ops;
    } else {
      var front := ops[..|ops| - 1];
      OutputPrefix(r, front, n);
      assert front[..n] == ops[..n];
    }
  }

  /** Whenever a number that was a wrapped arrival is released, the order is broken. */
  lemma WrappedReleaseBreaks(r: Ring, ops: seq<Op>, n: nat, j: nat)
    requires IsWindow(r.size) && r.buf.expected <= U32_MAX && r.buf.pending == map[] && AllInRange(ops)
    requires n < |ops| && ops[n].Arrive? && AllInRange(ops[..n])
    requires WrappedArrival(ops[n].sn, RingRun(r, ops[..n]).0.buf.expected)
    requires |RingRun(r, ops[..n]).1| <= j < |RingRun(r, ops).1| && RingRun(r, ops).1[j].sn == ops[n].sn
    ensures !Increasing(Past(r) + RingRun(r, ops).1)
  {
    hide RingRun, Broken, RanOut, InOrderSoFar, RingStep;
    var front := ops[..n];
    OutputPrefix(r, ops, n);
    OrderSoFar(r, front);
    var early, all := Output(r, front), Output(r, ops);
    assert early <= all;
    if Broken(r, front) {
      assert all == early + all[|early|..];
      StaysBroken(early, all[|early|..]);
    } else {
      SoFarIncreasing(r, front);
      assert all[|early| - 1] == early[|early| - 1] && all[|Past(r)| + j].sn == ops[n].sn;
    }
  }
}
