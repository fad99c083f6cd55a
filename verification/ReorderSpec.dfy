/** The reorder buffer's meaning: a plain map of pending frames with a 65536-ahead cutoff. */
module ReorderSpec {
  import opened Bytes

  type Frame = seq<byte>

  const INITIAL_WINDOW: nat := 2048
  const MAX_WINDOW: nat := 65536
  const SKIP_DELAY: nat := 50
  const SEQ_SPACE: nat := 0x1_0000_0000

  datatype Item = Item(sn: nat, data: Frame)

  datatype Stats = Stats(gapEvents: nat, timeoutFlushes: nat, skipped: nat)

  /** `expected == 0` means that no sequence number has been learned yet. */
  datatype Buf = Buf(expected: nat, pending: map<nat, Frame>, gap: Option<nat>, stats: Stats)

  const EMPTY := Buf(0, map[], None, Stats(0, 0, 0))

  /** 32-bit increment. */
  function Succ(sn: nat): nat {
    if sn == U32_MAX then 0 else sn + 1
  }

  function SatAdd(a: nat, b: nat): nat {
    Min(a + b, U64_MAX)
  }

  /** Releases the run of pending frames that starts at `expected`. */
  function Drain(expected: nat, pending: map<nat, Frame>): (r: (nat, map<nat, Frame>, seq<Item>))
    decreases |pending|
  {
    if expected in pending then
      assert pending.Keys == (pending - {expected}).Keys + {expected};
      var (e, p, items) := Drain(Succ(expected), pending - {expected});
      (e, p, [Item(expected, pending[expected])] + items)
    else (expected, pending, [])
  }

  function NoteGap(b: Buf, now: nat): Buf {
    if b.gap.Some? then b
    else b.(gap := Some(now), stats := b.stats.(gapEvents := SatAdd(b.stats.gapEvents, 1)))
  }

  /** The run at `expected` is released; what stays pending is a new gap, dated `now`. */
  function Flush(b: Buf, now: nat): (Buf, seq<Item>) {
    var (e, p, items) := Drain(b.expected, b.pending);
    var b' := b.(expected := e, pending := p, gap := None);
    (if p == map[] then b' else NoteGap(b', now), items)
  }

  function Learn(b: Buf, sn: nat): Buf {
    if b.expected == 0 then b.(expected := sn) else b
  }

  function Insert(b: Buf, sn: nat, data: Frame, now: nat): (Buf, seq<Item>) {
    if sn == 0 then (b, [])
    else
      var b1 := Learn(b, sn);
      if sn < b1.expected || sn >= b1.expected + MAX_WINDOW || sn in b1.pending then (b1, [])
      else
        var b2 := b1.(pending := b1.pending[sn := data]);
        if sn == b1.expected then Flush(b2, now) else (NoteGap(b2, now), [])
  }

  predicate IsLeast(m: nat, pending: map<nat, Frame>) {
    m in pending && forall s | s in pending :: m <= s
  }

  ghost function Least(pending: map<nat, Frame>): (m: nat)
    requires pending != map[]
    ensures IsLeast(m, pending)
  {
    LeastOf(pending.Keys)
  }

  /** Jumps to the smallest pending sequence number. */
  ghost function Skip(b: Buf): Buf
    requires b.pending != map[]
  {
    var m := Least(b.pending);
    b.(expected := m,
       stats := b.stats.(timeoutFlushes := SatAdd(b.stats.timeoutFlushes, 1),
                         skipped := SatAdd(b.stats.skipped, SaturatingSub(m, b.expected))))
  }

  /** The gap timer: once a gap is 50 ms old, everything before the smallest pending frame is skipped. */
  ghost function Timeout(b: Buf, now: nat): (Buf, seq<Item>) {
    if b.gap.None? || SaturatingSub(now, b.gap.value) < SKIP_DELAY || b.pending == map[] then (b, [])
    else Flush(Skip(b), now)
  }

  function Reset(b: Buf): Buf {
    b.(expected := 0, pending := map[], gap := None)
  }

  function InsertAll(b: Buf, items: seq<Item>, now: nat): (Buf, seq<Item>)
    decreases |items|
  {
    if |items| == 0 then (b, [])
    else
      var (b1, out1) := Insert(b, items[0].sn, items[0].data, now);
      var (b2, out2) := InsertAll(b1, items[1..], now);
      (b2, out1 + out2)
  }

  /** The payloads handed on: empty frames are released but not delivered. */
  function Ready(items: seq<Item>): (frames: seq<Frame>) {
    if |items| == 0 then []
    else (if |items[0].data| == 0 then [] else [items[0].data]) + Ready(items[1..])
  }

  lemma {:induction false} ReadyConcat(a: seq<Item>, b: seq<Item>)
    ensures Ready(a + b) == Ready(a) + Ready(b)
  {
    if |a| == 0 {
      assert a + b == b;
    } else {
      assert (a + b)[1..] == a[1..] + b;
      ReadyConcat(a[1..], b);
    }
  }

  /** How many of the first `n` released frames are not empty. */
  function Rank(items: seq<Item>, n: nat): nat
    requires n <= |items|
  {
    if n == 0 then 0 else Rank(items, n - 1) + if |items[n - 1].data| == 0 then 0 else 1
  }

  lemma {:induction false} RankShift(items: seq<Item>, n: nat)
    requires 0 < n <= |items|
    ensures Rank(items, n) == (if |items[0].data| == 0 then 0 else 1) + Rank(items[1..], n - 1)
  {
    if n == 1 {
      assert Rank(items, 0) == 0;
    } else {
      RankShift(items, n - 1);
    }
  }

  /** Exactly the released frames that are not empty are handed on, each at its place. */
  lemma {:induction false} ReadyExactly(items: seq<Item>, i: nat)
    requires i < |items|
    ensures |Ready(items)| == Rank(items, |items|) && Rank(items, i) <= |Ready(items)|
    ensures |items[i].data| > 0 ==> Rank(items, i) < |Ready(items)| && Ready(items)[Rank(items, i)] == items[i].data
  {
    RankShift(items, |items|);
    if i > 0 {
      RankShift(items, i);
      ReadyExactly(items[1..], i - 1);
    } else if |items| > 1 {
      ReadyExactly(items[1..], 0);
    } else {
      assert items[1..] == [];
    }
  }

  // ---------- what every reachable buffer satisfies ----------

  /** Pending frames lie strictly ahead of `expected`, inside the window; a gap is dated exactly then. */
  predicate Orderly(b: Buf) {
    && b.expected <= U32_MAX
    && (forall s | s in b.pending :: 0 < b.expected < s < b.expected + MAX_WINDOW && s <= U32_MAX)
    && (b.gap.Some? <==> b.pending != map[])
  }

  lemma {:induction false} DrainSpec(expected: nat, pending: map<nat, Frame>)
    requires 0 < expected <= U32_MAX
    requires forall s | s in pending :: expected <= s < expected + MAX_WINDOW && s <= U32_MAX
    ensures var (e, p, items) := Drain(expected, pending);
            && e <= U32_MAX && e !in p
            && (forall s | s in p :: s in pending && p[s] == pending[s] && expected + |items| < s)
            && (forall s | s in pending :: s < expected + |items| || s in p)
            && (forall i | 0 <= i < |items| :: items[i].sn == expected + i)
            && (forall i | 0 <= i < |items| :: items[i].sn in pending && items[i].data == pending[items[i].sn])
            && (e == 0 ==> expected + |items| == SEQ_SPACE && p == map[])
            && (e != 0 ==> e == expected + |items|)
    decreases |pending|
  {
    if expected !in pending {
    } else {
      var rest := pending - {expected};
      assert pending.Keys == rest.Keys + {expected};
      if expected == U32_MAX {
        assert rest == map[];
        assert Drain(0, rest) == (0, rest, []);
      } else {
        DrainSpec(expected + 1, rest);
      }
    }
  }

  lemma FlushKeepsOrderly(b: Buf, now: nat)
    requires 0 < b.expected <= U32_MAX
    requires forall s | s in b.pending :: b.expected <= s < b.expected + MAX_WINDOW && s <= U32_MAX
    ensures Orderly(Flush(b, now).0)
  {
    DrainSpec(b.expected, b.pending);
  }

  lemma InsertKeepsOrderly(b: Buf, sn: nat, data: Frame, now: nat)
    requires Orderly(b) && sn <= U32_MAX
    ensures Orderly(Insert(b, sn, data, now).0)
  {
    hide Drain;
    var b1 := Learn(b, sn);
    if sn != 0 && b1.expected <= sn < b1.expected + MAX_WINDOW && sn !in b1.pending {
      var b2 := b1.(pending := b1.pending[sn := data]);
      if sn == b1.expected { FlushKeepsOrderly(b2, now); }
    }
  }

  lemma TimeoutKeepsOrderly(b: Buf, now: nat)
    requires Orderly(b)
    ensures Orderly(Timeout(b, now).0)
  {
    hide Drain, Least, Flush;
    if b.pending != map[] { FlushKeepsOrderly(Skip(b), now); }
  }

  // ---------- whole runs ----------

  datatype Op = Arrive(sn: nat, data: Frame, now: nat) | Tick(now: nat)

  ghost function Step(b: Buf, op: Op): (Buf, seq<Item>) {
    match op
    case Arrive(sn, data, now) => Insert(b, sn, data, now)
    case Tick(now) => Timeout(b, now)
  }

  ghost function Run(b: Buf, ops: seq<Op>): (Buf, seq<Item>)
    decreases |ops|
  {
    if |ops| == 0 then (b, [])
    else
      var (b1, out1) := Run(b, ops[..|ops| - 1]);
      var (b2, out2) := Step(b1, ops[|ops| - 1]);
      (b2, out1 + out2)
  }

  predicate InRange(op: Op) {
    op.Arrive? ==> op.sn <= U32_MAX
  }

  predicate AllInRange(ops: seq<Op>) {
    forall i | 0 <= i < |ops| :: InRange(ops[i])
  }

  predicate Increasing(items: seq<Item>) {
    forall i, j | 0 <= i < j < |items| :: items[i].sn < items[j].sn
  }

  /** How far a learned position has come; releasing `u32::MAX`, the last number of the space, forgets the position. */
  function Edge(b: Buf): nat {
    if b.expected == 0 then SEQ_SPACE else b.expected
  }

  /** What one step releases: consecutive numbers, and the position moves by what was released and skipped. */
  predicate Moved(b: Buf, b': Buf, items: seq<Item>, first: nat) {
    && first <= Edge(b') - |items|
    && (forall i | 0 <= i < |items| :: items[i].sn == Edge(b') - |items| + i)
    && b'.stats.skipped == SatAdd(b.stats.skipped, Edge(b') - |items| - first)
    && (b'.expected == 0 ==> b'.pending == map[] && |items| > 0)
  }

  lemma FlushMoves(b: Buf, now: nat)
    requires 0 < b.expected <= U32_MAX
    requires forall s | s in b.pending :: b.expected <= s < b.expected + MAX_WINDOW && s <= U32_MAX
    ensures var (b', items) := Flush(b, now);
            && Edge(b') == b.expected + |items|
            && (forall i | 0 <= i < |items| :: items[i].sn == b.expected + i)
            && b'.stats.skipped == b.stats.skipped
            && (b'.expected == 0 ==> b'.pending == map[] && |items| > 0)
  {
    hide Drain;
    DrainSpec(b.expected, b.pending);
  }

  lemma {:induction false} DrainWithin(expected: nat, pending: map<nat, Frame>)
    requires 0 < expected <= U32_MAX
    requires forall s | s in pending :: s < U32_MAX
    ensures Drain(expected, pending).0 != 0
    decreases |pending|
  {
    if expected !in pending {
    } else {
      assert pending.Keys == (pending - {expected}).Keys + {expected};
      DrainWithin(expected + 1, pending - {expected});
    }
  }

  lemma StepMoves(b: Buf, op: Op)
    requires Orderly(b) && InRange(op) && b.expected > 0 && b.stats.skipped <= U64_MAX
    ensures var (b', items) := Step(b, op);
            Orderly(b') && Moved(b, b', items, b.expected)
  {
    hide Drain, Least, Flush;
    match op
    case Arrive(sn, data, now) =>
      InsertKeepsOrderly(b, sn, data, now);
      if sn == b.expected && sn !in b.pending { FlushMoves(b.(pending := b.pending[sn := data]), now); }
    case Tick(now) =>
      TimeoutKeepsOrderly(b, now);
      if b.pending != map[] { FlushMoves(Skip(b), now); }
  }

  /** The first number that arrives, 0 if none does. */
  function FirstNumber(ops: seq<Op>): nat {
    if |ops| == 0 then 0
    else
      var n := FirstNumber(ops[..|ops| - 1]);
      var op := ops[|ops| - 1];
      if n != 0 then n else if op.Arrive? then op.sn else 0
  }

  /** Where the releases of a run start: at the position, or at the first number if none was learned. */
  function Origin(b: Buf, ops: seq<Op>): nat {
    if b.expected != 0 then b.expected else FirstNumber(ops)
  }

  /** A position was learned and, with the release of `u32::MAX`, forgotten again. */
  ghost predicate Ended(b: Buf, ops: seq<Op>) {
    Origin(b, ops) != 0 && Run(b, ops).0.expected == 0
  }

  /** A number arrives after that. */
  ghost predicate Reused(b: Buf, ops: seq<Op>)
    decreases |ops|
  {
    |ops| > 0 &&
      var front, last := ops[..|ops| - 1], ops[|ops| - 1];
      Reused(b, front) || (last.Arrive? && last.sn != 0 && Ended(b, front))
  }

  /** From `b` to `b'` with releases that start at `origin`, if anything arrived at all. */
  predicate Ledger(b: Buf, origin: nat, b': Buf, items: seq<Item>) {
    && Orderly(b') && b'.stats.skipped >= b.stats.skipped
    && if origin == 0 then b' == b && items == []
       else
         && Increasing(items)
         && (forall i | 0 <= i < |items| :: origin <= items[i].sn < Edge(b'))
         && Edge(b') - origin == |items| + (b'.stats.skipped - b.stats.skipped)
         && (b'.expected == 0 ==> b'.pending == map[] && |items| > 0 && items[|items| - 1].sn == U32_MAX)
  }

  /** What a run released and how the position moved. */
  ghost predicate Accounted(b: Buf, ops: seq<Op>) {
    Ledger(b, Origin(b, ops), Run(b, ops).0, Run(b, ops).1)
  }

  /** The first arrival at a buffer without position: it sets the position to its own number and is released. */
  lemma LearningStep(b: Buf, sn: nat, data: Frame, now: nat)
    requires Orderly(b) && b.expected == 0 && 0 < sn <= U32_MAX
    ensures Insert(b, sn, data, now) == (b.(expected := Succ(sn)), [Item(sn, data)])
  {
    assert b.pending == map[];
    var p := map[sn := data];
    assert b.pending[sn := data] == p;
    assert p - {sn} == map[];
    assert Drain(Succ(sn), p - {sn}) == (Succ(sn), map[], []);
    assert [Item(sn, data)] + [] == [Item(sn, data)];
  }

  lemma LedgerLearns(b: Buf, sn: nat, data: Frame)
    requires Orderly(b) && b.expected == 0 && 0 < sn <= U32_MAX
    ensures Ledger(b, sn, b.(expected := Succ(sn)), [Item(sn, data)])
  {
  }

  lemma LedgerMoves(b: Buf, origin: nat, b1: Buf, out1: seq<Item>, b2: Buf, out2: seq<Item>)
    requires Ledger(b, origin, b1, out1) && origin > 0 && b1.expected > 0 && b.stats.skipped + SEQ_SPACE <= U64_MAX
    requires Orderly(b2) && Moved(b1, b2, out2, b1.expected)
    ensures Ledger(b, origin, b2, out1 + out2)
  {
    hide Increasing, Orderly;
    OrderlyBound(b1);
    OrderlyBound(b2);
    Continued(out1, out2, origin, Edge(b1), Edge(b2));
  }

  lemma AccountedStep(b: Buf, ops: seq<Op>, op: Op)
    requires Accounted(b, ops) && InRange(op) && b.stats.skipped + SEQ_SPACE <= U64_MAX
    requires !(op.Arrive? && op.sn != 0 && Ended(b, ops))
    ensures Accounted(b, ops + [op])
  {
    hide Insert, Timeout, Run, FirstNumber, Orderly, Ledger;
    RunNext(b, ops, op);
    var (b1, out1) := Run(b, ops);
    var (b2, out2) := Step(b1, op);
    LedgerParts(b, Origin(b, ops), b1, out1);
    if b1.expected == 0 {
      if op.Arrive? && op.sn != 0 {
        LearningStep(b1, op.sn, op.data, op.now);
        LedgerLearns(b, op.sn, op.data);
        assert out1 + out2 == [Item(op.sn, op.data)];
      } else {
        IdleStep(b1, op);
        assert out1 + [] == out1;
      }
    } else {
      StepMoves(b1, op);
      LedgerMoves(b, Origin(b, ops), b1, out1, b2, out2);
    }
  }

  lemma LedgerParts(b: Buf, origin: nat, b': Buf, items: seq<Item>)
    requires Ledger(b, origin, b', items) && b.stats.skipped + SEQ_SPACE <= U64_MAX
    ensures Orderly(b') && b'.stats.skipped <= U64_MAX
    ensures origin == 0 ==> b' == b && items == []
  {
  }

  /** Consecutive numbers after smaller ones. */
  lemma Continued(out1: seq<Item>, out2: seq<Item>, origin: nat, mid: nat, end: nat)
    requires Increasing(out1) && forall i | 0 <= i < |out1| :: origin <= out1[i].sn < mid
    requires origin <= mid <= end - |out2| && forall i | 0 <= i < |out2| :: out2[i].sn == end - |out2| + i
    ensures Increasing(out1 + out2)
    ensures forall i | 0 <= i < |out1 + out2| :: origin <= (out1 + out2)[i].sn < end
    ensures |out2| > 0 ==> (out1 + out2)[|out1 + out2| - 1].sn == end - 1
  {
  }

  lemma RunNext(b: Buf, ops: seq<Op>, op: Op)
    ensures var (b1, out1) := Run(b, ops);
            var (b2, out2) := Step(b1, op);
            Run(b, ops + [op]) == (b2, out1 + out2)
    ensures FirstNumber(ops + [op]) == if FirstNumber(ops) != 0 then FirstNumber(ops) else if op.Arrive? then op.sn else 0
  {
    hide Step;
    assert (ops + [op])[..|ops|] == ops;
  }

  /** Without a position, control frames and the timer change nothing. */
  lemma IdleStep(b: Buf, op: Op)
    requires Orderly(b) && b.expected == 0 && (op.Arrive? ==> op.sn == 0)
    ensures Step(b, op) == (b, [])
  {
  }

  lemma OrderlyBound(b: Buf)
    requires Orderly(b)
    ensures b.expected <= U32_MAX && (b.expected == 0 ==> b.pending == map[])
  {
  }

  lemma {:induction false} RunAccounted(b: Buf, ops: seq<Op>)
    requires Orderly(b) && b.pending == map[] && b.stats.skipped + SEQ_SPACE <= U64_MAX && AllInRange(ops) && !Reused(b, ops)
    ensures Accounted(b, ops)
    decreases |ops|
  {
    hide Insert, Timeout, Accounted, Ended;
    if |ops| == 0 {
      NothingAccounted(b);
      assert ops == [];
    } else {
      var front, last := ops[..|ops| - 1], ops[|ops| - 1];
      RunAccounted(b, front);
      AccountedStep(b, front, last);
      assert ops == front + [last];
    }
  }

  lemma NothingAccounted(b: Buf)
    requires Orderly(b) && b.pending == map[]
    ensures Accounted(b, [])
  {
  }

  /** From any buffer that holds nothing, fresh, reset or at some position: unless the sequence space is reused,
      released numbers strictly increase, none is released twice, and the position advances from where it was learned
      by exactly the numbers released plus those skipped. */
  lemma InOrderOnce(b: Buf, ops: seq<Op>)
    requires Orderly(b) && b.pending == map[] && b.stats.skipped + SEQ_SPACE <= U64_MAX && AllInRange(ops) && !Reused(b, ops)
    ensures var (b', items) := Run(b, ops);
            && Orderly(b') && Increasing(items)
            && (Origin(b, ops) == 0 ==> b' == b && items == [])
            && (Origin(b, ops) > 0 ==>
                  && (forall i | 0 <= i < |items| :: Origin(b, ops) <= items[i].sn < Edge(b'))
                  && Edge(b') - Origin(b, ops) == |items| + (b'.stats.skipped - b.stats.skipped))
  {
    hide Run, FirstNumber, Orderly;
    RunAccounted(b, ops);
  }

  /** Once the space is reused the order is broken for good: a number follows `u32::MAX`. */
  lemma {:induction false} ReusedDisorder(b: Buf, ops: seq<Op>)
    requires Orderly(b) && b.pending == map[] && b.stats.skipped + SEQ_SPACE <= U64_MAX && AllInRange(ops) && Reused(b, ops)
    ensures !Increasing(Run(b, ops).1)
    decreases |ops|
  {
    hide Insert, Timeout, FirstNumber, Orderly;
    var front, last := ops[..|ops| - 1], ops[|ops| - 1];
    var (b1, out1) := Run(b, front);
    var (b2, out2) := Step(b1, last);
    if Reused(b, front) {
      ReusedDisorder(b, front);
      var i, j :| 0 <= i < j < |out1| && out1[i].sn >= out1[j].sn;
      assert (out1 + out2)[i] == out1[i] && (out1 + out2)[j] == out1[j];
    } else {
      RunAccounted(b, front);
      LearningStep(b1, last.sn, last.data, last.now);
      var n := |out1|;
      assert (out1 + out2)[n - 1].sn == U32_MAX && (out1 + out2)[n].sn == last.sn;
    }
  }

  /** So the releases increase if and only if no number arrives after `u32::MAX` was released. */
  lemma InOrderExactly(b: Buf, ops: seq<Op>)
    requires Orderly(b) && b.pending == map[] && b.stats.skipped + SEQ_SPACE <= U64_MAX && AllInRange(ops)
    ensures Increasing(Run(b, ops).1) <==> !Reused(b, ops)
  {
    hide Run, Orderly;
    if Reused(b, ops) { ReusedDisorder(b, ops); } else { InOrderOnce(b, ops); }
  }

  /** An instance: at the last position, `u32::MAX` and then 5 are both released. */
  lemma ReusedInstance(b: Buf, data: Frame, now: nat)
    requires Orderly(b) && b.pending == map[] && b.expected == U32_MAX
    ensures var ops := [Arrive(U32_MAX, data, now), Arrive(5, data, now)];
            Reused(b, ops) && Run(b, ops).1 == [Item(U32_MAX, data), Item(5, data)]
  {
    hide Insert;
    var ops := [Arrive(U32_MAX, data, now), Arrive(5, data, now)];
    InsertExpected(b, U32_MAX, data, now);
    var b1 := b.(expected := 0);
    assert Orderly(b1);
    LearningStep(b1, 5, data, now);
    var one := [Arrive(U32_MAX, data, now)];
    RunNext(b, [], one[0]);
    RunNext(b, one, ops[1]);
    assert [] + one == one && one + [ops[1]] == ops && ops[..1] == one;
    assert Step(b, one[0]) == (b1, [Item(U32_MAX, data)]);
    assert Run(b, []) == (b, []);
    assert [] + [Item(U32_MAX, data)] == [Item(U32_MAX, data)];
    assert Run(b, one) == (b1, [Item(U32_MAX, data)]);
  }

  // ---------- the bypass ----------

  /** The numbers `first, first + 1, ...`, none of them 0 and none past `u32::MAX`. */
  predicate Consecutive(items: seq<Item>, first: nat) {
    0 < first && first + |items| <= SEQ_SPACE && forall i | 0 <= i < |items| :: items[i].sn == first + i
  }

  function Position(b: Buf, first: nat, n: nat): Buf {
    b.(expected := if first + n == SEQ_SPACE then 0 else first + n)
  }

  /** With nothing pending, inserting a consecutive batch one by one releases exactly that batch. */
  lemma {:induction false} ConsecutiveInserts(b: Buf, items: seq<Item>, first: nat, now: nat)
    requires Orderly(b) && b.pending == map[] && Consecutive(items, first) && |items| > 0
    requires b.expected == 0 || b.expected == first
    ensures InsertAll(b, items, now) == (Position(b, first, |items|), items)
    decreases |items|
  {
    var item := items[0];
    InsertExpected(b, item.sn, item.data, now);
    var b1 := Position(b, first, 1);
    if |items| > 1 {
      ConsecutiveInserts(b1, items[1..], first + 1, now);
    } else {
      assert items[1..] == [];
    }
    assert items == [item] + items[1..];
  }

  lemma InsertExpected(b: Buf, sn: nat, data: Frame, now: nat)
    requires Orderly(b) && b.pending == map[] && 0 < sn <= U32_MAX && (b.expected == 0 || b.expected == sn)
    ensures Insert(b, sn, data, now) == (Position(b, sn, 1), [Item(sn, data)])
  {
    var p := map[sn := data];
    assert b.pending[sn := data] == p;
    assert p - {sn} == map[];
    assert Drain(Succ(sn), p - {sn}) == (Succ(sn), map[], []);
    assert [Item(sn, data)] + [] == [Item(sn, data)];
    assert Drain(sn, p) == (Succ(sn), map[], [Item(sn, data)]);
  }
}
