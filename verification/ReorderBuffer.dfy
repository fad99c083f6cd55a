/** The reorder buffer object: a power-of-two ring with a sequence number per slot and an occupancy
    bitmap, grown on demand. For every input it does what module RingSpec says.

    A 64-bit bitmap word is modelled as the set of its bit positions; `seq & window_mask` as the
    residue modulo the window size, which is a power of two. */
module ReorderBuffer {
  import opened Bytes
  import opened ReorderSpec
  import opened RingSpec
  import Residue

  type Cells = seq<Option<Frame>>

  // ---------- the ring ----------

  /** An occupied slot holds a sequence number at its own residue. */
  ghost predicate RingOk(ring: Cells, slots: seq<nat>) {
    && IsWindow(|ring|) && |slots| == |ring|
    && forall i | 0 <= i < |ring| && ring[i].Some? :: slots[i] % |ring| == i && 0 < slots[i] <= U32_MAX
  }

  ghost function Keys(ring: Cells, slots: seq<nat>): set<nat>
    requires |slots| == |ring|
  {
    set i | 0 <= i < |ring| && ring[i].Some? :: slots[i]
  }

  /** The frames the ring holds, by sequence number. */
  ghost function Pending(ring: Cells, slots: seq<nat>): map<nat, Frame>
    requires |slots| == |ring| > 0
  {
    map s | s in Keys(ring, slots) && ring[s % |ring|].Some? :: ring[s % |ring|].value
  }

  lemma OccupiedIsPending(ring: Cells, slots: seq<nat>, i: nat)
    requires RingOk(ring, slots) && i < |ring| && ring[i].Some?
    ensures slots[i] in Pending(ring, slots) && Pending(ring, slots)[slots[i]] == ring[i].value
  {
    assert slots[i] in Keys(ring, slots);
  }

  lemma PendingIsOccupied(ring: Cells, slots: seq<nat>, s: nat)
    requires RingOk(ring, slots) && s in Pending(ring, slots)
    ensures ring[s % |ring|].Some? && slots[s % |ring|] == s && 0 < s <= U32_MAX
    ensures Pending(ring, slots)[s] == ring[s % |ring|].value
  {
    var i :| 0 <= i < |ring| && ring[i].Some? && slots[i] == s;
  }

  /** A slot is occupied exactly when it is taken in the meaning, and by that number. */
  lemma SlotTellsTaken(ring: Cells, slots: seq<nat>, sn: nat)
    requires RingOk(ring, slots)
    ensures ring[sn % |ring|].Some? <==> Taken(|ring|, Pending(ring, slots), sn)
    ensures Taken(|ring|, Pending(ring, slots), sn) ==>
              var s := Holder(|ring|, Pending(ring, slots), sn);
              s == slots[sn % |ring|] && Pending(ring, slots)[s] == ring[sn % |ring|].value
  {
    hide Pending;
    if ring[sn % |ring|].Some? { OccupiedIsPending(ring, slots, sn % |ring|); }
    if Taken(|ring|, Pending(ring, slots), sn) {
      PendingIsOccupied(ring, slots, Holder(|ring|, Pending(ring, slots), sn));
    }
  }

  lemma SamePending(ring: Cells, slots: seq<nat>, p: map<nat, Frame>)
    requires RingOk(ring, slots)
    requires forall i | 0 <= i < |ring| && ring[i].Some? :: slots[i] in p && p[slots[i]] == ring[i].value
    requires forall s | s in p :: ring[s % |ring|].Some? && slots[s % |ring|] == s
    ensures Pending(ring, slots) == p
  {
    forall s ensures s in Pending(ring, slots) <==> s in p {
      if s in Pending(ring, slots) { PendingIsOccupied(ring, slots, s); }
      if s in p { OccupiedIsPending(ring, slots, s % |ring|); }
    }
    forall s | s in p ensures Pending(ring, slots)[s] == p[s] {
      PendingIsOccupied(ring, slots, s);
    }
  }

  /** Storing into an empty slot. */
  lemma StorePending(ring: Cells, slots: seq<nat>, s: nat, data: Frame)
    requires RingOk(ring, slots) && 0 < s <= U32_MAX && ring[s % |ring|].None?
    ensures var i := s % |ring|;
            && RingOk(ring[i := Some(data)], slots[i := s])
            && Pending(ring[i := Some(data)], slots[i := s]) == Pending(ring, slots)[s := data]
  {
    var i := s % |ring|;
    var ring', slots', p := ring[i := Some(data)], slots[i := s], Pending(ring, slots)[s := data];
    forall j | 0 <= j < |ring| && ring'[j].Some? ensures slots'[j] in p && p[slots'[j]] == ring'[j].value {
      if j != i {
        OccupiedIsPending(ring, slots, j);
        assert slots[j] != s;
      }
    }
    forall t | t in p ensures ring'[t % |ring|].Some? && slots'[t % |ring|] == t {
      if t != s {
        PendingIsOccupied(ring, slots, t);
      }
    }
    SamePending(ring', slots', p);
  }

  /** Taking the frame of an occupied slot out. */
  lemma TakePending(ring: Cells, slots: seq<nat>, i: nat)
    requires RingOk(ring, slots) && i < |ring| && ring[i].Some?
    ensures RingOk(ring[i := None], slots[i := 0])
    ensures Pending(ring[i := None], slots[i := 0]) == Pending(ring, slots) - {slots[i]}
  {
    var ring', slots', p := ring[i := None], slots[i := 0], Pending(ring, slots) - {slots[i]};
    forall j | 0 <= j < |ring| && ring'[j].Some? ensures slots'[j] in p && p[slots'[j]] == ring'[j].value {
      OccupiedIsPending(ring, slots, j);
      assert slots[j] != slots[i];
    }
    forall t | t in p ensures ring'[t % |ring|].Some? && slots'[t % |ring|] == t {
      PendingIsOccupied(ring, slots, t);
    }
    SamePending(ring', slots', p);
  }

  // ---------- the bitmap ----------

  /** Bit `i` is set exactly when slot `i` is occupied. */
  ghost predicate BitmapOk(ring: Cells, bitmap: seq<set<nat>>) {
    && 64 * |bitmap| == |ring|
    && (forall w | 0 <= w < |bitmap| :: forall b | b in bitmap[w] :: b < 64)
    && forall i | 0 <= i < |ring| :: ring[i].Some? <==> i % 64 in bitmap[i / 64]
  }

  predicate AnyBit(bitmap: seq<set<nat>>) {
    exists w :: 0 <= w < |bitmap| && bitmap[w] != {}
  }

  lemma AnyBitMeansPending(ring: Cells, slots: seq<nat>, bitmap: seq<set<nat>>)
    requires RingOk(ring, slots) && BitmapOk(ring, bitmap)
    ensures AnyBit(bitmap) <==> Pending(ring, slots) != map[]
  {
    if AnyBit(bitmap) {
      var w :| 0 <= w < |bitmap| && bitmap[w] != {};
      var b :| b in bitmap[w];
      var i := 64 * w + b;
      assert i / 64 == w && i % 64 == b;
      OccupiedIsPending(ring, slots, i);
    }
    if Pending(ring, slots) != map[] {
      var s :| s in Pending(ring, slots);
      PendingIsOccupied(ring, slots, s);
      var i := s % |ring|;
      assert bitmap[i / 64] != {};
    }
  }

  lemma SetBit(ring: Cells, bitmap: seq<set<nat>>, i: nat, data: Frame)
    requires BitmapOk(ring, bitmap) && i < |ring|
    ensures BitmapOk(ring[i := Some(data)], bitmap[i / 64 := bitmap[i / 64] + {i % 64}])
  {
    SameWord(i);
  }

  lemma ClearBit(ring: Cells, bitmap: seq<set<nat>>, i: nat)
    requires BitmapOk(ring, bitmap) && i < |ring|
    ensures BitmapOk(ring[i := None], bitmap[i / 64 := bitmap[i / 64] - {i % 64}])
  {
    SameWord(i);
  }

  lemma SameWord(i: nat)
    ensures forall j: nat | j / 64 == i / 64 && j % 64 == i % 64 :: j == i
  {
  }

  // ---------- growth ----------

  /** The doubling loop of `grow_window`. */
  method NextWindow(size: nat, required: nat) returns (n: nat)
    requires IsWindow(size)
    ensures n == Doubled(size, required)
  {
    n := size;
    while n < required && n < MAX_WINDOW
      invariant IsWindow(n) && Doubled(size, required) == Doubled(n, required)
      decreases MAX_WINDOW - n
    {
      n := 2 * n;
    }
  }

  /** The moved part of a ring: every slot below `n` of the old ring is in the new one, and nothing else. */
  ghost predicate MovedBelow(ring: Cells, slots: seq<nat>, n: nat, ring': Cells, slots': seq<nat>) {
    && |slots| == |ring| && |slots'| == |ring'| && |ring| > 0 && |ring'| > 0 && n <= |ring|
    && (forall i | 0 <= i < n && ring[i].Some? :: ring'[slots[i] % |ring'|] == ring[i] && slots'[slots[i] % |ring'|] == slots[i])
    && (forall j | 0 <= j < |ring'| && ring'[j].Some? ::
          && slots'[j] % |ring'| == j && slots'[j] % |ring| < n
          && ring[slots'[j] % |ring|] == ring'[j] && slots[slots'[j] % |ring|] == slots'[j])
  }

  /** Slots that differ in the small ring differ in the large one. */
  lemma ApartInLarger(a: nat, b: nat, small: nat, big: nat)
    requires IsWindow(small) && IsWindow(big) && small <= big && a % small != b % small
    ensures a % big != b % big
  {
    assert big % small == 0;
    if a % big == b % big { Residue.Coarser(a, b, big, small); }
  }

  lemma MoveOne(ring: Cells, slots: seq<nat>, n: nat, ring': Cells, slots': seq<nat>)
    requires RingOk(ring, slots) && n < |ring| <= |ring'| && IsWindow(|ring'|)
    requires MovedBelow(ring, slots, n, ring', slots')
    ensures ring[n].None? ==> MovedBelow(ring, slots, n + 1, ring', slots')
    ensures ring[n].Some? ==>
              var k := slots[n] % |ring'|;
              ring'[k].None? && MovedBelow(ring, slots, n + 1, ring'[k := ring[n]], slots'[k := slots[n]])
  {
    if ring[n].Some? {
      var k := slots[n] % |ring'|;
      assert ring'[k].Some? ==> slots'[k] % |ring| != slots[n] % |ring|;
      assert ring'[k].None? by {
        if ring'[k].Some? { ApartInLarger(slots'[k], slots[n], |ring|, |ring'|); }
      }
      forall i | 0 <= i < n && ring[i].Some? ensures slots[i] % |ring'| != k {
        ApartInLarger(slots[i], slots[n], |ring|, |ring'|);
      }
    }
  }

  lemma MovedAll(ring: Cells, slots: seq<nat>, ring': Cells, slots': seq<nat>)
    requires RingOk(ring, slots) && IsWindow(|ring'|) && |ring| <= |ring'|
    requires MovedBelow(ring, slots, |ring|, ring', slots')
    ensures RingOk(ring', slots')
    ensures Pending(ring', slots') == Pending(ring, slots)
  {
    var p := Pending(ring, slots);
    forall j | 0 <= j < |ring'| && ring'[j].Some? ensures slots'[j] in p && p[slots'[j]] == ring'[j].value {
      OccupiedIsPending(ring, slots, slots'[j] % |ring|);
    }
    forall s | s in p ensures ring'[s % |ring'|].Some? && slots'[s % |ring'|] == s {
      PendingIsOccupied(ring, slots, s);
    }
    SamePending(ring', slots', p);
  }

  /** `grow_window`: moves every occupied slot to its place in the larger ring. */
  method Regrow(ring: Cells, slots: seq<nat>, newSize: nat)
    returns (ring': Cells, slots': seq<nat>, bitmap': seq<set<nat>>)
    requires RingOk(ring, slots) && IsWindow(newSize) && newSize >= |ring|
    ensures |ring'| == newSize && RingOk(ring', slots') && BitmapOk(ring', bitmap')
    ensures Pending(ring', slots') == Pending(ring, slots)
  {
    ring' := seq(newSize, _ => None);
    slots' := seq(newSize, _ => 0);
    bitmap' := seq(newSize / 64, _ => {});
    for i := 0 to |ring|
      invariant |ring'| == newSize && BitmapOk(ring', bitmap')
      invariant MovedBelow(ring, slots, i, ring', slots')
    {
      hide BitmapOk, MovedBelow;
      MoveOne(ring, slots, i, ring', slots');
      if ring[i].Some? {
        var k := slots[i] % newSize;
        SetBit(ring', bitmap', k, ring[i].value);
        bitmap' := bitmap'[k / 64 := bitmap'[k / 64] + {k % 64}];
        ring' := ring'[k := ring[i]];
        slots' := slots'[k := slots[i]];
      }
    }
    MovedAll(ring, slots, ring', slots');
  }

  // ---------- releasing ----------

  lemma DrainStep(size: nat, expected: nat, pending: map<nat, Frame>, items: seq<Item>, total: (nat, map<nat, Frame>, seq<Item>))
    requires size > 0 && Taken(size, pending, expected)
    requires var (e, p, rest) := RingDrain(size, expected, pending); total == (e, p, items + rest)
    ensures var s := Holder(size, pending, expected);
            var (e, p, rest) := RingDrain(size, Succ(expected), pending - {s});
            total == (e, p, items + [Item(s, pending[s])] + rest)
  {
    var s := Holder(size, pending, expected);
    var (e, p, rest) := RingDrain(size, Succ(expected), pending - {s});
    var item := [Item(s, pending[s])];
    assert items + (item + rest) == items + item + rest;
  }

  lemma ReadyAppend(items: seq<Item>, item: Item)
    ensures Ready(items + [item]) == Ready(items) + (if |item.data| == 0 then [] else [item.data])
  {
    ReadyConcat(items, [item]);
    assert [item][1..] == [];
    assert Ready([item]) == (if |item.data| == 0 then [] else [item.data]);
  }

  /** The loop of `flush_locked_into`. */
  method Release(ring: Cells, slots: seq<nat>, bitmap: seq<set<nat>>, expected: nat, ready: seq<Frame>)
    returns (ring': Cells, slots': seq<nat>, bitmap': seq<set<nat>>, expected': nat, ready': seq<Frame>, ghost items: seq<Item>)
    requires RingOk(ring, slots) && BitmapOk(ring, bitmap) && expected <= U32_MAX
    ensures |ring'| == |ring| && RingOk(ring', slots') && BitmapOk(ring', bitmap') && expected' <= U32_MAX
    ensures |slots'| == |ring'| > 0 && RingDrain(|ring|, expected, Pending(ring, slots)) == (expected', Pending(ring', slots'), items)
    ensures ready' == ready + Ready(items)
  {
    hide RingOk, BitmapOk, RingDrain, Ready, Pending, Taken;
    ring', slots', bitmap', expected', ready', items := ring, slots, bitmap, expected, ready, [];
    RingShape(ring, slots);
    ghost var total := RingDrain(|ring|, expected, Pending(ring, slots));
    EmptyReady();
    assert total.2 == [] + total.2;
    while true
      invariant |slots'| == |ring'| == |ring| > 0 && RingOk(ring', slots') && BitmapOk(ring', bitmap') && expected' <= U32_MAX
      invariant var (e, p, rest) := RingDrain(|ring|, expected', Pending(ring', slots')); total == (e, p, items + rest)
      invariant ready' == ready + Ready(items)
      decreases |Pending(ring', slots')|
    {
      var i := expected' % |ring'|;
      SlotTellsTaken(ring', slots', expected');
      if ring'[i].None? {
        break;
      }
      DrainStep(|ring|, expected', Pending(ring', slots'), items, total);
      TakePending(ring', slots', i);
      ClearBit(ring', bitmap', i);
      BitmapShape(ring', bitmap');
      ghost var item := Item(slots'[i], ring'[i].value);
      ReadyAppend(items, item);
      Shrinks(Pending(ring', slots'), slots'[i]);
      var frame := ring'[i].value;
      ring' := ring'[i := None];
      slots' := slots'[i := 0];
      bitmap' := bitmap'[i / 64 := bitmap'[i / 64] - {i % 64}];
      if |frame| != 0 {
        ready' := ready' + [frame];
      }
      items := items + [item];
      expected' := Succ(expected');
    }
    DrainStops(|ring|, expected', Pending(ring', slots'));
    assert items + [] == items;
  }

  lemma DrainStops(size: nat, expected: nat, pending: map<nat, Frame>)
    requires size > 0 && !Taken(size, pending, expected)
    ensures RingDrain(size, expected, pending) == (expected, pending, [])
  {
  }

  lemma EmptyReady()
    ensures Ready([]) == []
  {
  }

  lemma RingShape(ring: Cells, slots: seq<nat>)
    requires RingOk(ring, slots)
    ensures |slots| == |ring| && IsWindow(|ring|)
  {
  }

  lemma BitmapShape(ring: Cells, bitmap: seq<set<nat>>)
    requires BitmapOk(ring, bitmap)
    ensures 64 * |bitmap| == |ring|
  {
  }

  lemma Shrinks(p: map<nat, Frame>, s: nat)
    requires s in p
    ensures |p - {s}| < |p|
  {
    assert p.Keys == (p - {s}).Keys + {s};
  }

  // ---------- the buffer object ----------

  class ReorderBuffer {
    var expectedSeq: nat
    var ring: Cells
    var seqSlots: seq<nat>
    var bitmap: seq<set<nat>>
    var gapSince: Option<nat>
    var stats: Stats

    ghost predicate Valid()
      reads this
    {
      RingOk(ring, seqSlots) && BitmapOk(ring, bitmap) && |seqSlots| == |ring| > 0 && IsWindow(|ring|) && expectedSeq <= U32_MAX
    }

    ghost function Model(): Buf
      reads this
      requires |seqSlots| == |ring| > 0
    {
      Buf(expectedSeq, Pending(ring, seqSlots), gapSince, stats)
    }

    /** The size of the ring and what it holds. */
    ghost function View(): Ring
      reads this
      requires |seqSlots| == |ring| > 0
    {
      Ring(|ring|, Model())
    }

    constructor ()
      ensures Valid() && View() == EMPTY_RING
    {
      expectedSeq := 0;
      ring := seq(INITIAL_WINDOW, _ => None);
      seqSlots := seq(INITIAL_WINDOW, _ => 0);
      bitmap := seq(INITIAL_WINDOW / 64, _ => {});
      gapSince, stats := None, Stats(0, 0, 0);
      new;
      SamePending(ring, seqSlots, map[]);
    }

    /** `has_gap`. */
    predicate HasGap()
      reads this
      requires Valid()
      ensures HasGap() <==> Gap(|ring|, Model())
    {
      AnyBitMeansPending(ring, seqSlots, bitmap);
      SlotTellsTaken(ring, seqSlots, expectedSeq);
      expectedSeq != 0 && ring[expectedSeq % |ring|].None? && AnyBit(bitmap)
    }

    /** `refresh_gap`. */
    method RefreshGap(now: nat)
      requires Valid()
      modifies this`gapSince, this`stats
      ensures Valid() && Model() == RingRefresh(|ring|, old(Model()), now)
    {
      hide RingOk, BitmapOk, Pending, Gap;
      if HasGap() {
        if gapSince.None? {
          gapSince := Some(now);
          stats := stats.(gapEvents := SatAdd(stats.gapEvents, 1));
        }
      } else {
        gapSince := None;
      }
    }

    /** `flush_locked_into`. */
    method FlushInto(ready: seq<Frame>, now: nat) returns (ready': seq<Frame>, ghost items: seq<Item>)
      requires Valid()
      modifies this
      ensures Valid() && |ring| == old(|ring|)
      ensures (Model(), items) == RingFlush(|ring|, old(Model()), now)
      ensures ready' == ready + Ready(items)
    {
      hide RingOk, BitmapOk, Pending, RingDrain, Ready, RingRefresh;
      gapSince := None;
      var r, s, b, e;
      r, s, b, e, ready', items := Release(ring, seqSlots, bitmap, expectedSeq, ready);
      ring, seqSlots, bitmap, expectedSeq := r, s, b, e;
      RefreshGap(now);
    }

    /** `grow_window`. */
    method GrowWindow(required: nat) returns (grown: bool)
      requires Valid()
      modifies this`ring, this`seqSlots, this`bitmap
      ensures Valid() && Model() == old(Model())
      ensures grown <==> old(|ring|) < MAX_WINDOW && required <= MAX_WINDOW
      ensures |ring| == if grown then Doubled(old(|ring|), required) else old(|ring|)
    {
      if |ring| >= MAX_WINDOW {
        return false;
      }
      var size := NextWindow(|ring|, required);
      if size < required {
        return false;
      }
      ring, seqSlots, bitmap := Regrow(ring, seqSlots, size);
      return true;
    }

    /** `insert_into`. */
    method InsertInto(sn: nat, data: Frame, ready: seq<Frame>, now: nat)
      returns (ready': seq<Frame>, ghost items: seq<Item>)
      requires Valid() && sn <= U32_MAX
      modifies this
      ensures Valid()
      ensures (View(), items) == RingInsert(old(View()), sn, data, now)
      ensures ready' == ready + Ready(items)
    {
      hide RingOk, BitmapOk, Pending, Ready, RingFlush, RingRefresh, Taken, Doubled;
      EmptyReady();
      ready', items := ready, [];
      if sn == 0 {
        return;
      }
      if expectedSeq == 0 {
        expectedSeq := sn;
      }
      var diff := SignedDistance(sn, expectedSeq);
      if diff < 0 {
        return;
      }
      if diff >= |ring| {
        if diff >= MAX_WINDOW {
          return;
        }
        var grown := GrowWindow(diff + 1);
        if !grown {
          return;
        }
      }
      BitmapShape(ring, bitmap);
      var i := sn % |ring|;
      SlotTellsTaken(ring, seqSlots, sn);
      if ring[i].Some? {
        return;
      }
      StorePending(ring, seqSlots, sn, data);
      SetBit(ring, bitmap, i, data);
      ring := ring[i := Some(data)];
      seqSlots := seqSlots[i := sn];
      bitmap := bitmap[i / 64 := bitmap[i / 64] + {i % 64}];
      if sn == expectedSeq {
        ready', items := FlushInto(ready, now);
      } else {
        RefreshGap(now);
      }
    }

    /** `flush_timeout_into`. */
    method FlushTimeoutInto(ready: seq<Frame>, now: nat) returns (ready': seq<Frame>, ghost items: seq<Item>)
      requires Valid()
      modifies this
      ensures Valid()
      ensures (View(), items) == RingTimeout(old(View()), now)
      ensures ready' == ready + Ready(items)
    {
      hide RingOk, BitmapOk, Pending, Ready, RingFlush, Gap, Taken;
      EmptyReady();
      ready', items := ready, [];
      if gapSince.None? {
        return;
      }
      if SaturatingSub(now, gapSince.value) < SKIP_DELAY || !HasGap() {
        return;
      }
      ghost var was := Model();
      for delta := 1 to |ring|
        invariant Valid() && Model() == was && gapSince.Some? && View() == old(View())
        invariant Scan(|ring|, was, 1) == Scan(|ring|, was, delta)
      {
        var sn := Plus(expectedSeq, delta);
        SlotTellsTaken(ring, seqSlots, sn);
        if ring[sn % |ring|].Some? {
          expectedSeq := sn;
          gapSince := None;
          stats := stats.(timeoutFlushes := SatAdd(stats.timeoutFlushes, 1),
                          skipped := SatAdd(stats.skipped, delta));
          FlushIgnoresGap(|ring|, was.(expected := sn, stats := stats), now);
          ready', items := FlushInto(ready, now);
          return;
        }
      }
      gapSince := None;
    }

    method Reset()
      requires Valid()
      modifies this
      ensures Valid() && View() == Ring(old(|ring|), ReorderSpec.Reset(old(Model())))
    {
      expectedSeq := 0;
      ring := seq(|ring|, _ => None);
      seqSlots := seq(|ring|, _ => 0);
      bitmap := seq(|ring| / 64, _ => {});
      gapSince := None;
      SamePending(ring, seqSlots, map[]);
    }

    /** `try_advance_sequences`: validates the whole batch before moving the position. */
    method TryAdvanceSequences(items: seq<Item>) returns (ok: bool)
      requires Valid() && forall i | 0 <= i < |items| :: items[i].sn <= U32_MAX
      modifies this`expectedSeq
      ensures Valid()
      ensures ok <==> old(Direct(Model(), items))
      ensures Model() == if ok then Position(old(Model()), First(old(Model()), items), |items|) else old(Model())
    {
      hide RingOk, BitmapOk, Pending;
      if gapSince.Some? {
        return false;
      }
      ghost var first := First(Model(), items);
      var expected := expectedSeq;
      var seen := false;
      for i := 0 to |items|
        invariant seen <==> i > 0
        invariant expected == if i == 0 then expectedSeq else if first + i == SEQ_SPACE then 0 else first + i
        invariant i > 0 ==> Consecutive(items[..i], first)
      {
        var sn := items[i].sn;
        if !seen && expected == 0 {
          expected := sn;
        }
        if sn == 0 || sn != expected {
          return false;
        }
        seen := true;
        assert items[..i + 1] == items[..i] + [items[i]];
        expected := Succ(expected);
      }
      if !seen {
        return false;
      }
      assert items[..|items|] == items;
      expectedSeq := expected;
      return true;
    }

    /** `try_direct_batch`: hands a consecutive batch on without touching the ring. */
    method TryDirectBatch(items: seq<Item>, ready: seq<Frame>) returns (ok: bool, ready': seq<Frame>)
      requires Valid() && forall i | 0 <= i < |items| :: items[i].sn <= U32_MAX
      modifies this`expectedSeq
      ensures Valid()
      ensures ok <==> old(Direct(Model(), items))
      ensures ready' == if ok then ready + Ready(items) else ready
      ensures Model() == if ok then Position(old(Model()), First(old(Model()), items), |items|) else old(Model())
    {
      hide RingOk, BitmapOk, Pending, Ready, Direct;
      ready' := ready;
      ok := TryAdvanceSequences(items);
      if !ok {
        return;
      }
      EmptyReady();
      for i := 0 to |items|
        modifies {}
        invariant ready' == ready + Ready(items[..i])
      {
        assert items[..i + 1] == items[..i] + [items[i]];
        ReadyAppend(items[..i], items[i]);
        if |items[i].data| != 0 {
          ready' := ready' + [items[i].data];
        }
      }
      assert items[..|items|] == items;
    }
  }

  lemma FlushIgnoresGap(size: nat, b: Buf, now: nat)
    requires size > 0
    ensures RingFlush(size, b.(gap := None), now) == RingFlush(size, b, now)
  {
  }

  // ---------- receive batches of the client ----------

  /** `flush_owned_frames`: the owned bypass or the shared slow path. */
  method FlushOwnedFrames(reorder: ReorderBuffer, input: seq<Item>, now: nat) returns (delivered: seq<Frame>)
    requires reorder.Valid() && forall i | 0 <= i < |input| :: input[i].sn <= U32_MAX
    modifies reorder
    ensures reorder.Valid()
    ensures var (r, items) := FlushOwned(old(reorder.View()), input, now);
            reorder.View() == r && delivered == Ready(items)
  {
    hide RingOk, BitmapOk, Pending, Ready, RingInsert, Direct;
    EmptyReady();
    delivered := [];
    if |input| == 0 {
      return;
    }
    var direct;
    direct, delivered := reorder.TryDirectBatch(input, []);
    if !direct {
      delivered := InsertEach(reorder, input, now);
    }
  }

  /** The shared path: every frame through `insert_into`. */
  method InsertEach(reorder: ReorderBuffer, input: seq<Item>, now: nat) returns (ready: seq<Frame>)
    requires reorder.Valid() && forall i | 0 <= i < |input| :: input[i].sn <= U32_MAX
    modifies reorder
    ensures reorder.Valid()
    ensures var (r, items) := RingInsertAll(old(reorder.View()), input, now);
            reorder.View() == r && ready == Ready(items)
  {
    hide RingOk, BitmapOk, Pending, Ready, RingInsert;
    EmptyReady();
    ready := [];
    ghost var out: seq<Item> := [];
    ghost var total := RingInsertAll(reorder.View(), input, now);
    assert input[0..] == input;
    assert [] + total.1 == total.1;
    for i := 0 to |input|
      invariant reorder.Valid()
      invariant var rest := RingInsertAll(reorder.View(), input[i..], now); total == (rest.0, out + rest.1)
      invariant ready == Ready(out)
    {
      ghost var rest := input[i..];
      assert rest[0] == input[i] && rest[1..] == input[i + 1..];
      ghost var items;
      ready, items := reorder.InsertInto(input[i].sn, input[i].data, ready, now);
      ReadyConcat(out, items);
      assert out + (items + RingInsertAll(reorder.View(), input[i + 1..], now).1)
          == (out + items) + RingInsertAll(reorder.View(), input[i + 1..], now).1;
      out := out + items;
    }
    assert input[|input|..] == [];
    assert out + [] == out;
  }
}
