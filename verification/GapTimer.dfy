/** The gap timer: which gap it dates, when it gives up waiting, and what it releases then. */
module GapTimer {
  import opened Bytes
  import opened ReorderSpec
  import opened RingSpec

  // ---------- one call ----------

  /** A flush at the smallest pending number releases the run that starts there and keeps the rest. */
  predicate FlushedFrom(m: nat, pending: map<nat, Frame>, b': Buf, items: seq<Item>) {
    && |items| > 0
    && (forall i | 0 <= i < |items| :: items[i].sn == m + i && items[i].sn in pending && items[i].data == pending[items[i].sn])
    && m + |items| !in pending && Edge(b') == m + |items|
    && b'.pending == map s | s in pending && s > m + |items| :: pending[s]
  }

  lemma FlushFrom(b: Buf, now: nat)
    requires 0 < b.expected <= U32_MAX && b.expected in b.pending
    requires forall s | s in b.pending :: b.expected <= s < b.expected + MAX_WINDOW && s <= U32_MAX
    ensures var (b', items) := Flush(b, now);
            && FlushedFrom(b.expected, b.pending, b', items)
            && b'.gap == (if b'.pending == map[] then None else Some(now))
            && b'.stats.timeoutFlushes == b.stats.timeoutFlushes && b'.stats.skipped == b.stats.skipped
  {
    hide Drain;
    DrainSpec(b.expected, b.pending);
    var (e, p, items) := Drain(b.expected, b.pending);
    var end := b.expected + |items|;
    assert end !in b.pending;
    assert |items| > 0;
    forall s | s in b.pending && s > end ensures s in p {}
    assert p == map s | s in b.pending && s > end :: b.pending[s];
  }

  /** The timer, exactly. Until a gap is 50 ms old nothing happens. From then on the next call gives up on everything
      before the smallest pending frame and releases from there. */
  lemma TimerReleases(r: Ring, now: nat)
    requires Fits(r) && r.buf.pending != map[]
    ensures var b := r.buf;
            var m := Least(b.pending);
            var (r', items) := RingTimeout(r, now);
            && b.gap.Some? && 0 < b.expected < m
            && (now < b.gap.value + 50 ==> (r', items) == (r, []))
            && (now >= b.gap.value + 50 ==>
                  && FlushedFrom(m, b.pending, r'.buf, items) && r'.size == r.size
                  && r'.buf.gap == (if r'.buf.pending == map[] then None else Some(now))
                  && r'.buf.stats.timeoutFlushes == SatAdd(b.stats.timeoutFlushes, 1)
                  && r'.buf.stats.skipped == SatAdd(b.stats.skipped, m - b.expected))
  {
    hide RingTimeout, Flush, Least;
    TimeoutPlain(r, now);
    FlushFrom(Skip(r.buf), now);
  }

  /** A gap behind one frame: it opens when the frame arrives, and 50 ms later the timer releases the frame. */
  lemma GapWaits(r: Ring, sn: nat, data: Frame, now: nat, later: nat)
    requires Fits(r) && r.buf.pending == map[] && 0 < r.buf.expected < sn < r.buf.expected + 65536 && sn <= U32_MAX
    ensures var (r1, early) := RingInsert(r, sn, data, now);
            var (r2, items) := RingTimeout(r1, later);
            && early == [] && r1.buf.pending == map[sn := data] && r1.buf.gap == Some(now)
            && r1.buf.expected == r.buf.expected
            && r1.buf.stats.gapEvents == SatAdd(r.buf.stats.gapEvents, 1)
            && (later < now + 50 ==> (r2, items) == (r1, []))
            && (later >= now + 50 ==>
                  && items == [Item(sn, data)] && r2.buf.pending == map[] && r2.buf.gap == None && Edge(r2.buf) == sn + 1
                  && r2.buf.stats.skipped == SatAdd(r.buf.stats.skipped, sn - r.buf.expected))
  {
    hide RingTimeout, RingInsert, Flush, Least;
    InsertPlain(r, sn, data, now);
    var r1 := RingInsert(r, sn, data, now).0;
    TimerReleases(r1, later);
    var items := RingTimeout(r1, later).1;
    assert Least(r1.buf.pending) == sn;
    if later >= now + 50 {
      assert items[|items| - 1].sn in r1.buf.pending;
    }
  }

  /** For every number, wrapped ones included: an arrival that is stored or releases something, and a timer call that
      releases something, leave a date exactly if something is pending behind a free slot at the position. An arrival
      behind a gap that is dated keeps the date. */
  lemma RingDates(r: Ring, sn: nat, data: Frame, now: nat)
    requires IsWindow(r.size) && r.buf.expected <= U32_MAX
    ensures var (r', items) := RingInsert(r, sn, data, now);
            && (items != [] || r'.buf.pending != r.buf.pending ==> (r'.buf.gap.Some? <==> Gap(r'.size, r'.buf)))
            && (items == [] && r'.buf.gap.Some? && r.buf.gap.Some? ==> r'.buf.gap == r.buf.gap)
            && (r'.buf.gap.Some? && r.buf.gap.None? ==> r'.buf.gap == Some(now))
    ensures var (r', items) := RingTimeout(r, now);
            items != [] ==> (r'.buf.gap.Some? <==> Gap(r'.size, r'.buf)) && (r'.buf.gap.Some? ==> r'.buf.gap == Some(now))
  {
    hide Taken, RingDrain, Scan, Doubled, SignedDistance;
    var b := Learn(r.buf, sn);
    var size := RingInsert(r, sn, data, now).0.size;
    FlushNotEmpty(size, b.(pending := b.pending[sn := data]), sn, now);
  }

  lemma FlushNotEmpty(size: nat, b: Buf, sn: nat, now: nat)
    requires size > 0
    ensures sn in b.pending && b.expected == sn ==> RingFlush(size, b, now).1 != []
  {
    if sn in b.pending { assert Taken(size, b.pending, sn); }
  }

  // ---------- whole runs ----------

  /** After `b`, `b'` waits behind a gap that was not there before. */
  predicate Opens(b: Buf, b': Buf) {
    b'.pending != map[] && (b.pending == map[] || b'.expected != b.expected)
  }

  /** A step that opens a gap dates it; a gap that stays keeps its date. */
  lemma StepGap(b: Buf, op: Op)
    requires Orderly(b) && InRange(op)
    ensures var (b', items) := Step(b, op);
            && Orderly(b')
            && (b'.pending != map[] ==> b'.gap == if Opens(b, b') then Some(op.now) else b.gap)
            && b'.stats.gapEvents == (if Opens(b, b') then SatAdd(b.stats.gapEvents, 1) else b.stats.gapEvents)
            && b'.stats.timeoutFlushes ==
               (if op.Tick? && items != [] then SatAdd(b.stats.timeoutFlushes, 1) else b.stats.timeoutFlushes)
  {
    hide Drain, Flush, Least;
    match op
    case Arrive(sn, data, now) =>
      InsertKeepsOrderly(b, sn, data, now);
      if b.expected == 0 && sn > 0 {
        LearningStep(b, sn, data, now);
      } else if sn == b.expected && sn > 0 {
        StepFlush(b.(pending := b.pending[sn := data]), now);
      }
    case Tick(now) =>
      TimeoutKeepsOrderly(b, now);
      if b.pending != map[] { StepFlush(Skip(b), now); }
  }

  lemma StepFlush(b: Buf, now: nat)
    requires 0 < b.expected <= U32_MAX && b.expected in b.pending
    requires forall s | s in b.pending :: b.expected <= s < b.expected + MAX_WINDOW && s <= U32_MAX
    ensures var (b', items) := Flush(b, now);
            && items != [] && Edge(b') > b.expected
            && b'.gap == (if b'.pending == map[] then None else Some(now))
            && b'.stats.timeoutFlushes == b.stats.timeoutFlushes
            && b'.stats.gapEvents == (if b'.pending == map[] then b.stats.gapEvents else SatAdd(b.stats.gapEvents, 1))
  {
    hide Drain;
    FlushFrom(b, now);
  }

  lemma {:induction false} RunOrderly(ops: seq<Op>)
    requires AllInRange(ops)
    ensures Orderly(Run(EMPTY, ops).0)
    decreases |ops|
  {
    hide Step, Orderly;
    if |ops| == 0 {
      EmptyOrderly();
    } else {
      RunOrderly(ops[..|ops| - 1]);
      StepGap(Run(EMPTY, ops[..|ops| - 1]).0, ops[|ops| - 1]);
    }
  }

  lemma EmptyOrderly()
    ensures Orderly(EMPTY)
  {
  }

  /** The buffer after the first `j` operations. */
  ghost function After(ops: seq<Op>, j: nat): Buf
    requires j <= |ops|
  {
    Run(EMPTY, ops[..j]).0
  }

  /** Operation `i` opened the gap that the buffer has waited behind ever since. */
  ghost predicate OpenedBy(ops: seq<Op>, i: nat) {
    && i < |ops| && Opens(After(ops, i), After(ops, i + 1))
    && forall j | i < j <= |ops| :: After(ops, j).pending != map[] && After(ops, j).expected == After(ops, |ops|).expected
  }

  lemma Before(ops: seq<Op>, op: Op, j: nat)
    requires j <= |ops|
    ensures After(ops + [op], j) == After(ops, j)
    ensures After(ops + [op], |ops| + 1) == Step(After(ops, |ops|), op).0
  {
    hide Step;
    assert (ops + [op])[..j] == ops[..j];
    assert (ops + [op])[..|ops| + 1] == ops + [op] && ops[..|ops|] == ops;
    RunNext(EMPTY, ops, op);
  }

  /** Whatever arrived and however often the timer ran, the date of the gap is the time of the operation that opened it. */
  lemma {:induction false} GapDated(ops: seq<Op>) returns (i: nat)
    requires AllInRange(ops) && After(ops, |ops|).pending != map[]
    ensures OpenedBy(ops, i) && After(ops, |ops|).gap == Some(ops[i].now)
    decreases |ops|
  {
    hide Step, Orderly, After, Opens;
    if |ops| == 0 {
      AfterNothing(ops);
      assert false;
    } else {
      var front, op := ops[..|ops| - 1], ops[|ops| - 1];
      assert ops == front + [op];
      forall j | 0 <= j <= |front| ensures After(ops, j) == After(front, j) { Before(front, op, j); }
      Before(front, op, 0);
      var b := After(front, |front|);
      AfterOrderly(front);
      StepGap(b, op);
      if Opens(b, After(ops, |ops|)) {
        i := |front|;
      } else {
        StillWaiting(b, After(ops, |ops|));
        i := GapDated(front);
      }
    }
  }

  lemma AfterNothing(ops: seq<Op>)
    ensures After(ops, 0) == EMPTY
  {
  }

  lemma AfterOrderly(ops: seq<Op>)
    requires AllInRange(ops)
    ensures Orderly(After(ops, |ops|))
  {
    assert ops[..|ops|] == ops;
    RunOrderly(ops);
  }

  lemma StillWaiting(b: Buf, b': Buf)
    requires !Opens(b, b') && b'.pending != map[]
    ensures b.pending != map[] && b'.expected == b.expected
  {
  }

  /** In every run that leaves frames pending, the timer releases something exactly if 50 ms have passed since the
      operation that opened the gap, and the first frame it releases is then the smallest pending one. */
  lemma TimerOnTime(ops: seq<Op>, now: nat) returns (i: nat)
    requires AllInRange(ops) && Run(EMPTY, ops).0.pending != map[]
    ensures OpenedBy(ops, i)
    ensures var b := Run(EMPTY, ops).0;
            var items := Timeout(b, now).1;
            && (items != [] <==> now >= ops[i].now + 50)
            && (items != [] ==> items[0] == Item(Least(b.pending), b.pending[Least(b.pending)]))
  {
    hide Flush, Least, OpenedBy, Run;
    assert ops[..|ops|] == ops;
    i := GapDated(ops);
    RunOrderly(ops);
    var b := Run(EMPTY, ops).0;
    FlushFrom(Skip(b), now);
  }

  // ---------- counters ----------

  /** How many operations opened a gap. */
  ghost function Openings(ops: seq<Op>): nat
    decreases |ops|
  {
    if |ops| == 0 then 0
    else
      var front := ops[..|ops| - 1];
      Openings(front) + if Opens(Run(EMPTY, front).0, Run(EMPTY, ops).0) then 1 else 0
  }

  /** How many timer calls released something. */
  ghost function Expiries(ops: seq<Op>): nat
    decreases |ops|
  {
    if |ops| == 0 then 0
    else
      var front, op := ops[..|ops| - 1], ops[|ops| - 1];
      Expiries(front) + if op.Tick? && Step(Run(EMPTY, front).0, op).1 != [] then 1 else 0
  }

  /** The counters count the gaps that opened and the timer calls that released something, up to 2^64 - 1. */
  lemma {:induction false} CountersExact(ops: seq<Op>)
    requires AllInRange(ops)
    ensures var stats := Run(EMPTY, ops).0.stats;
            && stats.gapEvents == Min(Openings(ops), 0xFFFF_FFFF_FFFF_FFFF)
            && stats.timeoutFlushes == Min(Expiries(ops), 0xFFFF_FFFF_FFFF_FFFF)
    decreases |ops|
  {
    hide Step, Orderly, Opens;
    if |ops| == 0 {
    } else {
      var front, op := ops[..|ops| - 1], ops[|ops| - 1];
      CountersExact(front);
      RunOrderly(front);
      StepGap(Run(EMPTY, front).0, op);
    }
  }
}
