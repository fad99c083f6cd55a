/** The reorder buffer on frames of a run: what it releases was sent, in increasing order (src/buffer.rs). */
module RealFrames {
  import opened Bytes
  import opened FecEncoder
  import RS = ReorderSpec
  import RingSpec

  // ---------- frames that were sent ----------

  /** A session that ends a window before the end of the sequence space, with frames whose length fits 32 bits. */
  predicate Sizes(h: seq<Dispatch>) {
    |h| <= U32_MAX - RS.MAX_WINDOW && forall i | 0 <= i < |h| :: 0 < |h[i].data| <= U32_MAX
  }

  /** Frame `sn` as it was dispatched. */
  predicate Real(h: seq<Dispatch>, x: RS.Item) {
    0 < x.sn <= |h| && x.data == Nth(h, x.sn).data
  }

  predicate AllReal(h: seq<Dispatch>, items: seq<RS.Item>) {
    forall i | 0 <= i < |items| :: Real(h, items[i])
  }

  // ---------- the reorder buffer on real frames ----------

  predicate Stocked(h: seq<Dispatch>, b: RS.Buf) {
    RS.Orderly(b) && forall s | s in b.pending :: Real(h, RS.Item(s, b.pending[s]))
  }

  /** Real frames in increasing order, from `lo` on and below `hi`. */
  predicate Released(h: seq<Dispatch>, items: seq<RS.Item>, lo: nat, hi: nat) {
    RS.Increasing(items) && AllReal(h, items) && forall i | 0 <= i < |items| :: lo <= items[i].sn < hi
  }

  lemma ReleasedMore(h: seq<Dispatch>, a: seq<RS.Item>, b: seq<RS.Item>, lo: nat, mid: nat, hi: nat)
    requires Released(h, a, lo, mid) && Released(h, b, mid, hi) && lo <= mid <= hi
    ensures Released(h, a + b, lo, hi)
  {
    hide Real;
  }

  lemma FlushReal(h: seq<Dispatch>, b: RS.Buf, now: nat)
    requires |h| < U32_MAX && 0 < b.expected <= U32_MAX
    requires forall s | s in b.pending :: b.expected <= s < b.expected + RS.MAX_WINDOW && Real(h, RS.Item(s, b.pending[s]))
    ensures var (b', items) := RS.Flush(b, now);
            && Stocked(h, b') && Released(h, items, b.expected, b'.expected)
            && b.expected <= b'.expected <= Max(b.expected, |h| + 1)
  {
    hide RS.Drain;
    RS.DrainSpec(b.expected, b.pending);
    RS.FlushKeepsOrderly(b, now);
    var items := RS.Flush(b, now).1;
    forall i | 0 <= i < |items| ensures Real(h, items[i]) {
      assert items[i] == RS.Item(items[i].sn, b.pending[items[i].sn]);
    }
    if |items| > 0 { assert Real(h, items[|items| - 1]); }
  }

  lemma InsertReal(h: seq<Dispatch>, b: RS.Buf, x: RS.Item, now: nat)
    requires |h| < U32_MAX && Stocked(h, b) && Real(h, x)
    ensures var (b', items) := RS.Insert(b, x.sn, x.data, now);
            && Stocked(h, b') && Released(h, items, b.expected, b'.expected)
            && b.expected <= b'.expected <= Max(b.expected, |h| + 1) && 0 < b'.expected
  {
    hide RS.Flush, RS.Drain;
    RS.InsertKeepsOrderly(b, x.sn, x.data, now);
    var b1 := RS.Learn(b, x.sn);
    if x.sn == b1.expected && x.sn !in b1.pending {
      FlushReal(h, b1.(pending := b1.pending[x.sn := x.data]), now);
    }
  }

  lemma {:induction false} InsertAllReal(h: seq<Dispatch>, b: RS.Buf, items: seq<RS.Item>, now: nat)
    requires |h| < U32_MAX && Stocked(h, b) && AllReal(h, items)
    ensures var (b', out) := RS.InsertAll(b, items, now);
            && Stocked(h, b') && b.expected <= b'.expected <= Max(b.expected, |h| + 1) && (|items| > 0 ==> 0 < b'.expected)
            && Released(h, out, b.expected, b'.expected)
    decreases |items|
  {
    hide RS.Insert, Real, Stocked, Released;
    if |items| == 0 {
      ReleasedNothing(h, b.expected);
    } else {
      InsertReal(h, b, items[0], now);
      var (b1, out1) := RS.Insert(b, items[0].sn, items[0].data, now);
      InsertAllReal(h, b1, items[1..], now);
      var (b2, out2) := RS.InsertAll(b1, items[1..], now);
      ReleasedMore(h, out1, out2, b.expected, b1.expected, b2.expected);
    }
  }

  lemma ReleasedNothing(h: seq<Dispatch>, at: nat)
    ensures Released(h, [], at, at)
  {
  }

  lemma TimeoutReal(h: seq<Dispatch>, b: RS.Buf, now: nat)
    requires |h| < U32_MAX && Stocked(h, b)
    ensures var (b', items) := RS.Timeout(b, now);
            && Stocked(h, b') && Released(h, items, b.expected, b'.expected)
            && b.expected <= b'.expected <= Max(b.expected, |h| + 1)
  {
    hide RS.Flush, RS.Drain, RS.Least;
    if b.pending != map[] {
      var m := RS.Least(b.pending);
      assert Real(h, RS.Item(m, b.pending[m]));
      FlushReal(h, RS.Skip(b), now);
    }
  }

  /** In such a session no frame is ever a wrapped arrival. */
  lemma {:induction false} NeverWrapped(h: seq<Dispatch>, b: RS.Buf, items: seq<RS.Item>, now: nat)
    requires |h| <= U32_MAX - RS.MAX_WINDOW && Stocked(h, b) && b.expected <= |h| + 1 && AllReal(h, items)
    ensures RingSpec.NoWrappedArrival(b, items, now)
    decreases |items|
  {
    hide RS.Insert, Stocked, Released;
    if |items| == 0 {
    } else {
      assert Real(h, items[0]);
      InsertReal(h, b, items[0], now);
      NeverWrapped(h, RS.Insert(b, items[0].sn, items[0].data, now).0, items[1..], now);
    }
  }
}
