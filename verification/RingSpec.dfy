/** What the ring of the reorder buffer does with every input: one slot per residue of the sequence number, and
    32-bit distances that wrap around. Without wrapped arrivals it is the plain map of module ReorderSpec; with
    them it is not (src/buffer.rs). */
module RingSpec {
  import opened Bytes
  import opened ReorderSpec
  import Residue

  predicate IsWindow(n: nat) {
    n == 2048 || n == 4096 || n == 8192 || n == 16384 || n == 32768 || n == 65536
  }

  /** A ring: its size and what it holds. */
  datatype Ring = Ring(size: nat, buf: Buf)

  /** Every slot holds at most one frame. */
  ghost predicate Placed(size: nat, pending: map<nat, Frame>) {
    && IsWindow(size)
    && (forall s | s in pending :: 0 < s <= U32_MAX)
    && forall s, t | s in pending && t in pending && s % size == t % size :: s == t
  }

  ghost predicate Sane(r: Ring) {
    Placed(r.size, r.buf.pending) && r.buf.expected <= U32_MAX
  }

  // ---------- slots ----------

  /** The slot of `sn` is occupied, by whatever number. */
  ghost predicate Taken(size: nat, pending: map<nat, Frame>, sn: nat)
    requires size > 0
  {
    exists s :: s in pending && s % size == sn % size
  }

  ghost function Holder(size: nat, pending: map<nat, Frame>, sn: nat): (s: nat)
    requires size > 0 && Taken(size, pending, sn)
    ensures s in pending && s % size == sn % size
  {
    var s :| s in pending && s % size == sn % size;
    s
  }

  /** The loop of `flush_locked_into`: it looks at the slot, not at the number in it. */
  ghost function RingDrain(size: nat, expected: nat, pending: map<nat, Frame>): (nat, map<nat, Frame>, seq<Item>)
    requires size > 0
    decreases |pending|
  {
    if Taken(size, pending, expected) then
      var s := Holder(size, pending, expected);
      assert pending.Keys == (pending - {s}).Keys + {s};
      var (e, p, items) := RingDrain(size, Succ(expected), pending - {s});
      (e, p, [Item(s, pending[s])] + items)
    else (expected, pending, [])
  }

  ghost predicate Gap(size: nat, b: Buf)
    requires size > 0
  {
    b.expected != 0 && !Taken(size, b.pending, b.expected) && b.pending != map[]
  }

  ghost function RingRefresh(size: nat, b: Buf, now: nat): Buf
    requires size > 0
  {
    if Gap(size, b) then NoteGap(b, now) else b.(gap := None)
  }

  ghost function RingFlush(size: nat, b: Buf, now: nat): (Buf, seq<Item>)
    requires size > 0
  {
    var (e, p, items) := RingDrain(size, b.expected, b.pending);
    (RingRefresh(size, b.(expected := e, pending := p, gap := None), now), items)
  }

  // ---------- operations ----------

  /** `seq.wrapping_sub(expected) as i32`. */
  function SignedDistance(sn: nat, expected: nat): int {
    var w := if sn >= expected then sn - expected else sn + SEQ_SPACE - expected;
    if w >= 0x8000_0000 then w - SEQ_SPACE else w
  }

  /** The window that `grow_window` chooses. */
  function Doubled(size: nat, required: nat): (n: nat)
    requires IsWindow(size)
    ensures IsWindow(n) && n >= size && (required <= MAX_WINDOW ==> n >= required)
    ensures n == size || n / 2 < required
    decreases MAX_WINDOW - size
  {
    if size < required && size < MAX_WINDOW then Doubled(2 * size, required) else size
  }

  /** `insert_into`, for every number. */
  ghost function RingInsert(r: Ring, sn: nat, data: Frame, now: nat): (res: (Ring, seq<Item>))
    requires IsWindow(r.size)
    ensures IsWindow(res.0.size) && r.size <= res.0.size
  {
    if sn == 0 then (r, [])
    else
      var b := Learn(r.buf, sn);
      var diff := SignedDistance(sn, b.expected);
      if diff < 0 || diff >= MAX_WINDOW then (Ring(r.size, b), [])
      else
        var size := if diff >= r.size then Doubled(r.size, diff + 1) else r.size;
        if Taken(size, b.pending, sn) then (Ring(size, b), [])
        else
          var b1 := b.(pending := b.pending[sn := data]);
          if sn == b.expected then
            var (b2, items) := RingFlush(size, b1, now);
            (Ring(size, b2), items)
          else (Ring(size, RingRefresh(size, b1, now)), [])
  }

  ghost function RingInsertAll(r: Ring, items: seq<Item>, now: nat): (res: (Ring, seq<Item>))
    requires IsWindow(r.size)
    ensures IsWindow(res.0.size) && r.size <= res.0.size
    decreases |items|
  {
    if |items| == 0 then (r, [])
    else
      var (r1, out1) := RingInsert(r, items[0].sn, items[0].data, now);
      var (r2, out2) := RingInsertAll(r1, items[1..], now);
      (r2, out1 + out2)
  }

  /** 32-bit addition. */
  function Plus(sn: nat, delta: nat): nat {
    if sn + delta > U32_MAX then sn + delta - SEQ_SPACE else sn + delta
  }

  /** The first occupied slot from `delta` on, in the order of the timeout scan. */
  ghost function Scan(size: nat, b: Buf, delta: nat): (d: Option<nat>)
    requires size > 0 && b.expected <= U32_MAX && delta <= size <= SEQ_SPACE
    decreases size - delta
  {
    if delta == size then None
    else if Taken(size, b.pending, Plus(b.expected, delta)) then Some(delta)
    else Scan(size, b, delta + 1)
  }

  /** `flush_timeout_into`. */
  ghost function RingTimeout(r: Ring, now: nat): (Ring, seq<Item>)
    requires IsWindow(r.size) && r.buf.expected <= U32_MAX
  {
    var b := r.buf;
    if b.gap.None? || SaturatingSub(now, b.gap.value) < SKIP_DELAY || !Gap(r.size, b) then (r, [])
    else
      var d := Scan(r.size, b, 1);
      if d.None? then (Ring(r.size, b.(gap := None)), [])
      else
        var stats := b.stats.(timeoutFlushes := SatAdd(b.stats.timeoutFlushes, 1), skipped := SatAdd(b.stats.skipped, d.value));
        var (b1, items) := RingFlush(r.size, b.(expected := Plus(b.expected, d.value), stats := stats), now);
        (Ring(r.size, b1), items)
  }

  const EMPTY_RING := Ring(INITIAL_WINDOW, EMPTY)

  // ---------- the bypass ----------

  /** The number a direct batch must start with. */
  function First(b: Buf, items: seq<Item>): nat {
    if b.expected != 0 then b.expected else if |items| > 0 then items[0].sn else 0
  }

  /** When a batch may bypass the ring: no gap is open, and the numbers are consecutive from the position. */
  predicate Direct(b: Buf, items: seq<Item>) {
    b.gap.None? && |items| > 0 && Consecutive(items, First(b, items))
  }

  /** `flush_owned_frames`. */
  ghost function FlushOwned(r: Ring, items: seq<Item>, now: nat): (Ring, seq<Item>)
    requires IsWindow(r.size)
  {
    if Direct(r.buf, items) then (Ring(r.size, Position(r.buf, First(r.buf, items), |items|)), items)
    else RingInsertAll(r, items, now)
  }

  // ---------- 32-bit range ----------

  lemma {:induction false} DrainKeepsRange(size: nat, expected: nat, pending: map<nat, Frame>)
    requires size > 0 && expected <= U32_MAX
    ensures RingDrain(size, expected, pending).0 <= U32_MAX
    decreases |pending|
  {
    hide Taken;
    if !Taken(size, pending, expected) {
    } else {
      var s := Holder(size, pending, expected);
      assert pending.Keys == (pending - {s}).Keys + {s};
      DrainKeepsRange(size, Succ(expected), pending - {s});
    }
  }

  lemma InsertKeepsRange(r: Ring, sn: nat, data: Frame, now: nat)
    requires IsWindow(r.size) && r.buf.expected <= U32_MAX && sn <= U32_MAX
    ensures RingInsert(r, sn, data, now).0.buf.expected <= U32_MAX
  {
    hide Taken, RingDrain, Doubled;
    var size := RingInsert(r, sn, data, now).0.size;
    DrainKeepsRange(size, Learn(r.buf, sn).expected, Learn(r.buf, sn).pending[sn := data]);
  }

  lemma {:induction false} InsertAllKeepsRange(r: Ring, items: seq<Item>, now: nat)
    requires IsWindow(r.size) && r.buf.expected <= U32_MAX && forall i | 0 <= i < |items| :: items[i].sn <= U32_MAX
    ensures RingInsertAll(r, items, now).0.buf.expected <= U32_MAX
    decreases |items|
  {
    hide RingInsert;
    if |items| == 0 {
    } else {
      InsertKeepsRange(r, items[0].sn, items[0].data, now);
      InsertAllKeepsRange(RingInsert(r, items[0].sn, items[0].data, now).0, items[1..], now);
    }
  }

  // ---------- the plain map inside the window ----------

  /** Everything pending lies ahead, within the size of the ring. */
  predicate Fits(r: Ring) {
    && IsWindow(r.size) && Orderly(r.buf)
    && forall s | s in r.buf.pending :: s < r.buf.expected + r.size
  }

  /** The same, but something may be pending at the position itself. */
  predicate Windowed(size: nat, expected: nat, pending: map<nat, Frame>) {
    IsWindow(size) && forall s | s in pending :: 0 < expected <= s < expected + size && s <= U32_MAX
  }

  /** Inside the window a slot is taken by its own number or not at all. */
  lemma TakenInWindow(size: nat, expected: nat, pending: map<nat, Frame>, sn: nat)
    requires Windowed(size, expected, pending) && expected <= sn < expected + size
    ensures Taken(size, pending, sn) <==> sn in pending
    ensures Taken(size, pending, sn) ==> Holder(size, pending, sn) == sn
  {
    if Taken(size, pending, sn) { Residue.Injective(Holder(size, pending, sn), sn, size); }
  }

  lemma {:induction false} DrainPlain(size: nat, expected: nat, pending: map<nat, Frame>)
    requires Windowed(size, expected, pending) && expected <= U32_MAX
    ensures RingDrain(size, expected, pending) == Drain(expected, pending)
    decreases |pending|
  {
    TakenInWindow(size, expected, pending, expected);
    if expected !in pending {
    } else {
      var rest := pending - {expected};
      assert pending.Keys == rest.Keys + {expected};
      assert Windowed(size, Succ(expected), rest);
      DrainPlain(size, Succ(expected), rest);
    }
  }

  /** After a flush nothing is pending at the position, so a gap is exactly something pending. */
  lemma FlushPlain(size: nat, b: Buf, now: nat)
    requires Windowed(size, b.expected, b.pending) && 0 < b.expected <= U32_MAX
    ensures RingFlush(size, b, now) == Flush(b, now) && Fits(Ring(size, Flush(b, now).0))
  {
    hide Drain, RingDrain;
    DrainPlain(size, b.expected, b.pending);
    DrainSpec(b.expected, b.pending);
    FlushKeepsOrderly(b, now);
    var (e, p, items) := Drain(b.expected, b.pending);
    assert Windowed(size, e, p);
    TakenInWindow(size, e, p, e);
  }

  /** An old number that 32-bit wrap-around makes look like a future one. */
  predicate WrappedArrival(sn: nat, expected: nat) {
    0 < sn < expected && sn + SEQ_SPACE - expected < MAX_WINDOW
  }

  /** The 32-bit test agrees with the plain one exactly when the arrival is not a wrapped one, which no
      arrival is while `expected` is at most `u32::MAX - 65535`. */
  lemma DistanceExact(sn: nat, expected: nat)
    requires 0 < sn <= U32_MAX && 0 < expected <= U32_MAX
    ensures (0 <= SignedDistance(sn, expected) < MAX_WINDOW <==> expected <= sn < expected + MAX_WINDOW)
            <==> !WrappedArrival(sn, expected)
    ensures expected <= sn < expected + MAX_WINDOW ==> SignedDistance(sn, expected) == sn - expected
    ensures expected <= U32_MAX - 65535 ==> !WrappedArrival(sn, expected)
  {
  }

  /** Inserting anything but a wrapped arrival is inserting into the map; the ring grows as needed. */
  lemma InsertPlain(r: Ring, sn: nat, data: Frame, now: nat)
    requires Fits(r) && sn <= U32_MAX && !WrappedArrival(sn, r.buf.expected)
    ensures var (r', items) := RingInsert(r, sn, data, now);
            (r'.buf, items) == Insert(r.buf, sn, data, now) && Fits(r') && r.size <= r'.size
  {
    hide Drain, RingDrain, Flush, RingFlush, Doubled, Taken;
    if sn > 0 {
      InsertKeepsOrderly(r.buf, sn, data, now);
      var b := Learn(r.buf, sn);
      assert r.buf.expected == 0 ==> b.pending == map[];
      DistanceExact(sn, b.expected);
      var diff := SignedDistance(sn, b.expected);
      if 0 <= diff < MAX_WINDOW {
        var size := if diff >= r.size then Doubled(r.size, diff + 1) else r.size;
        assert Windowed(size, b.expected, b.pending);
        TakenInWindow(size, b.expected, b.pending, sn);
        if sn !in b.pending {
          var b1 := b.(pending := b.pending[sn := data]);
          assert Windowed(size, b1.expected, b1.pending);
          if sn == b.expected {
            FlushPlain(size, b1, now);
          } else {
            TakenInWindow(size, b1.expected, b1.pending, b1.expected);
          }
        }
      }
    }
  }

  /** No number of the batch is a wrapped arrival when its turn comes. */
  predicate NoWrappedArrival(b: Buf, items: seq<Item>, now: nat)
    decreases |items|
  {
    |items| > 0 ==>
      && items[0].sn <= U32_MAX
      && !WrappedArrival(items[0].sn, b.expected)
      && NoWrappedArrival(Insert(b, items[0].sn, items[0].data, now).0, items[1..], now)
  }

  lemma {:induction false} InsertAllPlain(r: Ring, items: seq<Item>, now: nat)
    requires Fits(r) && NoWrappedArrival(r.buf, items, now)
    ensures var (r', out) := RingInsertAll(r, items, now);
            (r'.buf, out) == InsertAll(r.buf, items, now) && Fits(r') && r.size <= r'.size
    decreases |items|
  {
    hide Insert, RingInsert, Orderly;
    if |items| == 0 {
    } else {
      InsertPlain(r, items[0].sn, items[0].data, now);
      InsertAllPlain(RingInsert(r, items[0].sn, items[0].data, now).0, items[1..], now);
    }
  }

  /** The bypass refines the slow path: taken or not, it does what one-by-one insertion into the map does. */
  lemma BypassPlain(r: Ring, items: seq<Item>, now: nat)
    requires Fits(r) && NoWrappedArrival(r.buf, items, now)
    ensures var (r', out) := FlushOwned(r, items, now);
            (r'.buf, out) == InsertAll(r.buf, items, now) && Fits(r')
  {
    hide Insert, RingInsertAll;
    if Direct(r.buf, items) {
      ConsecutiveInserts(r.buf, items, First(r.buf, items), now);
    } else {
      InsertAllPlain(r, items, now);
    }
  }

  // ---------- the timer ----------

  lemma {:induction false} ScanFinds(size: nat, b: Buf, delta: nat, m: nat)
    requires Windowed(size, b.expected, b.pending) && b.expected <= U32_MAX && IsLeast(m, b.pending)
    requires b.expected + delta <= m
    ensures m - b.expected < size && Scan(size, b, delta) == Some(m - b.expected)
    decreases m - delta
  {
    hide Taken;
    TakenInWindow(size, b.expected, b.pending, b.expected + delta);
    if b.expected + delta == m {
    } else {
      ScanFinds(size, b, delta + 1, m);
    }
  }

  /** The timer on the ring is the timer on the map. */
  lemma TimeoutPlain(r: Ring, now: nat)
    requires Fits(r)
    ensures var (r', items) := RingTimeout(r, now);
            (r'.buf, items) == Timeout(r.buf, now) && Fits(r') && r'.size == r.size
  {
    hide Flush, RingFlush, Scan, Taken, Least;
    var b := r.buf;
    if b.pending == map[] {
    } else {
      var m := Least(b.pending);
      TakenInWindow(r.size, b.expected, b.pending, b.expected);
      ScanFinds(r.size, b, 1, m);
      FlushPlain(r.size, Skip(b), now);
    }
  }

  // ---------- whole runs ----------

  ghost function RingStep(r: Ring, op: Op): (Ring, seq<Item>)
    requires IsWindow(r.size) && r.buf.expected <= U32_MAX
  {
    match op
    case Arrive(sn, data, now) => RingInsert(r, sn, data, now)
    case Tick(now) => RingTimeout(r, now)
  }

  lemma DrainedRange(size: nat, b: Buf, now: nat)
    requires size > 0 && b.expected <= U32_MAX
    ensures RingFlush(size, b, now).0.expected <= U32_MAX
  {
    hide RingDrain, Gap;
    DrainKeepsRange(size, b.expected, b.pending);
  }

  lemma {:induction false} ScanRange(size: nat, b: Buf, delta: nat)
    requires size > 0 && b.expected <= U32_MAX && delta <= size <= SEQ_SPACE
    ensures Scan(size, b, delta).Some? ==> Scan(size, b, delta).value < size
    decreases size - delta
  {
    hide Taken;
    if delta == size {
    } else {
      ScanRange(size, b, delta + 1);
    }
  }

  lemma StepKeepsRange(r: Ring, op: Op)
    requires IsWindow(r.size) && r.buf.expected <= U32_MAX && InRange(op)
    ensures var r' := RingStep(r, op).0; IsWindow(r'.size) && r'.buf.expected <= U32_MAX
  {
    hide RingFlush, Gap, Scan, RingInsert;
    match op
    case Arrive(sn, data, now) => InsertKeepsRange(r, sn, data, now);
    case Tick(now) =>
      var b := r.buf;
      ScanRange(r.size, b, 1);
      var d := Scan(r.size, b, 1);
      if d.Some? {
        var stats := b.stats.(timeoutFlushes := SatAdd(b.stats.timeoutFlushes, 1), skipped := SatAdd(b.stats.skipped, d.value));
        DrainedRange(r.size, b.(expected := Plus(b.expected, d.value), stats := stats), now);
      }
  }

  ghost function RingRun(r: Ring, ops: seq<Op>): (res: (Ring, seq<Item>))
    requires IsWindow(r.size) && r.buf.expected <= U32_MAX && AllInRange(ops)
    ensures IsWindow(res.0.size) && res.0.buf.expected <= U32_MAX
    decreases |ops|
  {
    if |ops| == 0 then (r, [])
    else
      var (r1, out1) := RingRun(r, ops[..|ops| - 1]);
      StepKeepsRange(r1, ops[|ops| - 1]);
      var (r2, out2) := RingStep(r1, ops[|ops| - 1]);
      (r2, out1 + out2)
  }

  /** No arrival of the run is a wrapped one when its turn comes. */
  ghost predicate NeverWrapped(b: Buf, ops: seq<Op>)
    decreases |ops|
  {
    |ops| > 0 ==>
      var front, last := ops[..|ops| - 1], ops[|ops| - 1];
      NeverWrapped(b, front) && (last.Arrive? ==> !WrappedArrival(last.sn, Run(b, front).0.expected))
  }

  lemma {:induction false} RunPlain(r: Ring, ops: seq<Op>)
    requires Fits(r) && r.buf.expected <= U32_MAX && AllInRange(ops) && NeverWrapped(r.buf, ops)
    ensures var (r', items) := RingRun(r, ops); (r'.buf, items) == Run(r.buf, ops) && Fits(r')
    decreases |ops|
  {
    hide Insert, Timeout, RingInsert, RingTimeout, Orderly;
    if |ops| == 0 {
    } else {
      var front, last := ops[..|ops| - 1], ops[|ops| - 1];
      RunPlain(r, front);
      var r1 := RingRun(r, front).0;
      match last
      case Arrive(sn, data, now) => InsertPlain(r1, sn, data, now);
      case Tick(now) => TimeoutPlain(r1, now);
    }
  }

  /** The ring in order. From any ring that holds nothing, over every run without wrapped arrivals: released numbers
      strictly increase if and only if no number arrives after `u32::MAX` was released, and until then the position
      advances by exactly the numbers released plus those skipped. */
  lemma RingInOrder(r: Ring, ops: seq<Op>)
    requires Fits(r) && r.buf.expected <= U32_MAX && r.buf.pending == map[] && r.buf.stats.skipped + SEQ_SPACE <= U64_MAX
    requires AllInRange(ops) && NeverWrapped(r.buf, ops)
    ensures var (r', items) := RingRun(r, ops);
            && (Increasing(items) <==> !Reused(r.buf, ops))
            && (!Reused(r.buf, ops) && Origin(r.buf, ops) > 0 ==>
                  Edge(r'.buf) - Origin(r.buf, ops) == |items| + (r'.buf.stats.skipped - r.buf.stats.skipped))
  {
    hide Run, RingRun, Orderly, Reused, FirstNumber, NeverWrapped;
    RunPlain(r, ops);
    InOrderExactly(r.buf, ops);
    if !Reused(r.buf, ops) { InOrderOnce(r.buf, ops); }
  }

  // ---------- what a wrapped arrival does ----------

  lemma SpaceIsWindows(size: nat, sn: nat)
    requires IsWindow(size)
    ensures (sn + SEQ_SPACE) % size == sn % size
  {
    assert SEQ_SPACE == SEQ_SPACE / size * size;
    Residue.AddMultiple(sn, SEQ_SPACE / size, size);
  }

  /** A wrapped arrival always finds its slot free and is stored, although it is an old number; the map would
      ignore it. So the ring is the map for one arrival if and only if the arrival is not a wrapped one. */
  lemma WrappedStored(r: Ring, sn: nat, data: Frame, now: nat)
    requires Fits(r) && WrappedArrival(sn, r.buf.expected)
    ensures var (r', items) := RingInsert(r, sn, data, now);
            && items == [] && r'.buf.expected == r.buf.expected && r'.buf.gap.Some?
            && r'.buf.pending == r.buf.pending[sn := data] && sn !in r.buf.pending
            && (r'.buf, items) != Insert(r.buf, sn, data, now)
  {
    hide Doubled;
    var b := r.buf;
    var diff := SignedDistance(sn, b.expected);
    var size := if diff >= r.size then Doubled(r.size, diff + 1) else r.size;
    NotTaken(size, b, sn);
    var b1 := b.(pending := b.pending[sn := data]);
    assert !Taken(size, b1.pending, b.expected) by {
      if s :| s in b1.pending && s % size == b.expected % size {
        if s == sn {
          SpaceIsWindows(size, sn);
          Residue.Injective(sn + SEQ_SPACE, b.expected, size);
        } else {
          Residue.Injective(s, b.expected, size);
        }
        assert false;
      }
    }
    assert sn in b1.pending;
  }

  lemma NotTaken(size: nat, b: Buf, sn: nat)
    requires Windowed(size, b.expected, b.pending) && WrappedArrival(sn, b.expected) && sn + SEQ_SPACE - b.expected < size
    ensures !Taken(size, b.pending, sn) && sn !in b.pending
  {
    if s :| s in b.pending && s % size == sn % size {
      SpaceIsWindows(size, sn);
      Residue.Injective(s, sn + SEQ_SPACE, size);
      assert false;
    }
  }

  lemma {:induction false} ScanWraps(size: nat, b: Buf, sn: nat, data: Frame, delta: nat)
    requires IsWindow(size) && b.pending == map[sn := data] && b.expected <= U32_MAX && WrappedArrival(sn, b.expected)
    requires 0 < delta <= sn + SEQ_SPACE - b.expected < size
    ensures Scan(size, b, delta) == Some(sn + SEQ_SPACE - b.expected)
    decreases size - delta
  {
    SpaceIsWindows(size, sn);
    var x := Plus(b.expected, delta);
    assert x % size == (b.expected + delta) % size by {
      if b.expected + delta > U32_MAX { SpaceIsWindows(size, x); }
    }
    if delta == sn + SEQ_SPACE - b.expected {
      assert sn in b.pending && sn % size == x % size;
    } else {
      Residue.Distinct(b.expected + delta, sn + SEQ_SPACE, size);
      ScanWraps(size, b, sn, data, delta + 1);
    }
  }

  /** The order breaks: with nothing else pending, the timer then jumps back to the wrapped arrival and releases it,
      after numbers that are larger. Number 2 arriving at position 4294967292 is an instance. */
  lemma WrappedReleasedLate(r: Ring, sn: nat, data: Frame, now: nat)
    requires Fits(r) && WrappedArrival(sn, r.buf.expected) && r.buf.pending == map[]
    ensures Sane(RingInsert(r, sn, data, now).0)
    ensures var (r', items) := RingTimeout(RingInsert(r, sn, data, now).0, now + SKIP_DELAY);
            items == [Item(sn, data)] && r'.buf.expected == sn + 1 <= r.buf.expected
    ensures WrappedArrival(2, 4294967292)
  {
    hide Doubled, RingInsert, Scan, RingDrain;
    WrappedStored(r, sn, data, now);
    InsertDated(r, sn, data, now);
    var r1 := RingInsert(r, sn, data, now).0;
    assert r1.buf.pending == map[sn := data];
    ScanWraps(r1.size, r1.buf, sn, data, 1);
    var x := Plus(r1.buf.expected, sn + SEQ_SPACE - r.buf.expected);
    assert x == sn;
    FlushOne(r1.size, sn, data);
  }

  lemma InsertDated(r: Ring, sn: nat, data: Frame, now: nat)
    requires Fits(r) && WrappedArrival(sn, r.buf.expected) && r.buf.pending == map[]
    ensures var r' := RingInsert(r, sn, data, now).0;
            IsWindow(r'.size) && r'.buf.gap == Some(now) && sn + SEQ_SPACE - r.buf.expected < r'.size && Gap(r'.size, r'.buf)
  {
    hide Doubled;
    var size := RingInsert(r, sn, data, now).0.size;
    SpaceIsWindows(size, sn);
    Residue.Distinct(sn + SEQ_SPACE, r.buf.expected, size);
    assert !Taken(size, r.buf.pending, sn);
    assert !Taken(size, r.buf.pending[sn := data], r.buf.expected);
    assert sn in r.buf.pending[sn := data];
  }

  lemma FlushOne(size: nat, sn: nat, data: Frame)
    requires IsWindow(size) && 0 < sn < U32_MAX
    ensures RingDrain(size, sn, map[sn := data]) == (sn + 1, map[], [Item(sn, data)])
  {
    var p, none: map<nat, Frame> := map[sn := data], map[];
    assert sn in p && Taken(size, p, sn);
    assert p - {sn} == none;
    assert !Taken(size, none, sn + 1);
    assert RingDrain(size, Succ(sn), p - {Holder(size, p, sn)}) == (sn + 1, none, []);
    assert [Item(sn, data)] + [] == [Item(sn, data)];
  }
}
