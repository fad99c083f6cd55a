/** The other half of whole-system correctness: when no frame is dropped or skipped, every frame comes out
    (src/net.rs, src/rx_actor.rs, src/buffer.rs). */
module Delivery {
  import opened Bytes
  import opened Parity
  import opened FecMode
  import opened FecEncoder
  import opened FencedBypass
  import opened RealFrames
  import opened DataPlane
  import Net = FencedDispatch
  import RS = ReorderSpec
  import RingSpec
  import RA = RxActor
  import DecoderSafety
  import DecoderSpec

  // ---------- frames on their way ----------

  predicate Has(fifo: seq<Net.Record>, sn: nat) {
    exists i :: 0 <= i < |fifo| && fifo[i].sn == sn
  }

  /** Frame `sn` is in some stream. */
  predicate InFlight(n: Net.Net, sn: nat) {
    || (exists j :: 0 <= j < |n.live| && Has(n.live[j].fifo, sn))
    || (exists j :: 0 <= j < |n.orphans| && Has(n.orphans[j], sn))
  }

  lemma {:induction false} DataOfHas(fifo: seq<Net.Record>, sn: nat)
    requires sn > 0
    ensures Has(fifo, sn) <==> exists r :: r in Net.DataOf(fifo) && r.sn == sn
  {
    if |fifo| == 0 {
    } else {
      var front, last := fifo[..|fifo| - 1], fifo[|fifo| - 1];
      assert fifo == front + [last];
      DataOfHas(front, sn);
      if Has(front, sn) { var i :| 0 <= i < |front| && front[i].sn == sn; assert fifo[i].sn == sn; }
      if last.sn == sn { assert fifo[|fifo| - 1].sn == sn && last in Net.DataOf(fifo); }
      if r :| r in Net.DataOf(front) && r.sn == sn { assert r in Net.DataOf(fifo); }
    }
  }

  /** Enqueueing keeps what a stream holds. */
  lemma MoreHas(fifo: seq<Net.Record>, fifo': seq<Net.Record>, sn: nat)
    requires sn > 0 && Has(fifo, sn) && Net.DataOf(fifo) <= Net.DataOf(fifo')
    ensures Has(fifo', sn)
  {
    DataOfHas(fifo, sn);
    DataOfHas(fifo', sn);
    var r :| r in Net.DataOf(fifo) && r.sn == sn;
    var i :| 0 <= i < |Net.DataOf(fifo)| && Net.DataOf(fifo)[i] == r;
    assert Net.DataOf(fifo')[i] == r;
  }

  /** A frame that is accepted is in flight, with all that were. */
  lemma SendInFlight(n: Net.Net, preferred: Option<nat>, sn: nat, data: Frame, tx: TxMode, x: nat)
    requires sn > 0 && x > 0 && Net.SendToAny(n.live, preferred, sn, data, tx).1.Some?
    ensures var n' := n.(live := Net.SendToAny(n.live, preferred, sn, data, tx).0);
            (InFlight(n, x) ==> InFlight(n', x)) && InFlight(n', sn)
  {
    hide Net.SendToAny, Net.DataOf, Has;
    Net.SendExactly(n.live, preferred, sn, data, tx);
    var (live, on) := Net.SendToAny(n.live, preferred, sn, data, tx);
    var r := Net.Record(sn, data, tx.generation);
    if j :| 0 <= j < |n.live| && Has(n.live[j].fifo, x) {
      assert Net.DataOf(live[j].fifo) == Net.DataOf(n.live[j].fifo) + if on == Some(j) then [r] else [];
      MoreHas(n.live[j].fifo, live[j].fifo, x);
    }
    var j := on.value;
    assert Net.DataOf(live[j].fifo) == Net.DataOf(n.live[j].fifo) + [r];
    assert r in Net.DataOf(live[j].fifo);
    DataOfHas(live[j].fifo, sn);
  }

  lemma ParityInFlight(n: Net.Net, i: nat, r: Net.Record, x: nat)
    requires i < |n.live| && InFlight(n, x)
    ensures InFlight(n.(live := n.live[i := Net.TrySend(n.live[i], r).0]), x)
  {
    var n' := n.(live := n.live[i := Net.TrySend(n.live[i], r).0]);
    if j :| 0 <= j < |n.live| && Has(n.live[j].fifo, x) {
      var a :| 0 <= a < |n.live[j].fifo| && n.live[j].fifo[a].sn == x;
      assert n'.live[j].fifo[a].sn == x;
      assert Has(n'.live[j].fifo, x);
    }
  }

  /** The frame gets a number, but no backend takes it. */
  predicate Refused(n: Net.Net, step: Net.Step)
    requires step.Write?
  {
    && |Dispatched(n, step)| > 0
    && var tx := Observed(n.tx, |n.live|, n.lastSn + 1, n.enc.k).0;
       Net.SendToAny(n.live, step.preferred, n.lastSn + 1, step.data, tx).1.None?
  }

  /** A write that drops no numbered frame: what was in flight stays, and the new number, if any, joins. */
  lemma WriteInFlight(n: Net.Net, data: Frame, preferred: Option<nat>, parityIndex: Option<nat>, x: nat)
    requires 2 <= n.enc.k <= 64 && |n.enc.group| < n.enc.k && 0 < x
    requires !Refused(n, Net.Write(data, preferred, parityIndex))
    ensures var n' := Net.Written(n, data, preferred, parityIndex);
            InFlight(n, x) || (n.lastSn < x <= n'.lastSn) ==> InFlight(n', x)
    ensures n.lastSn <= Net.Written(n, data, preferred, parityIndex).lastSn
  {
    hide Net.SendToAny, Added, Observed, InFlight, Net.TrySend;
    var n' := Net.Written(n, data, preferred, parityIndex);
    if n'.lastSn == n.lastSn + 1 {
      var sn := n.lastSn + 1;
      var tx := Observed(n.tx, |n.live|, sn, n.enc.k).0;
      SendInFlight(n, preferred, sn, data, tx, x);
      var n1 := n.(live := Net.SendToAny(n.live, preferred, sn, data, tx).0);
      var parity := Added(SetPaths(n.enc, |n.live|), n.ic, sn, data).1;
      if InFlight(n1, x) {
        if parity.Some? && |n1.live| >= 2 && parityIndex.Some? && parityIndex.value < |n1.live| {
          var r := Net.Record(0, parity.value, tx.generation);
          ParityInFlight(n1, parityIndex.value, r, x);
          SameFlight(n1.(live := n1.live[parityIndex.value := Net.TrySend(n1.live[parityIndex.value], r).0]), n', x);
        } else {
          SameFlight(n1, n', x);
        }
      }
    } else {
      assert n'.live == n.live && n'.orphans == n.orphans;
      if InFlight(n, x) { SameFlight(n, n', x); }
    }
  }

  lemma SameFlight(n: Net.Net, n': Net.Net, x: nat)
    requires InFlight(n, x) && n'.live == n.live && n'.orphans == n.orphans
    ensures InFlight(n', x)
  {
  }

  lemma UnregisterInFlight(n: Net.Net, i: nat, x: nat)
    requires i < |n.live| && InFlight(n, x)
    ensures InFlight(n.(live := n.live[..i] + n.live[i + 1..], orphans := n.orphans + [n.live[i].fifo]), x)
  {
    hide Has;
    var n' := n.(live := n.live[..i] + n.live[i + 1..], orphans := n.orphans + [n.live[i].fifo]);
    if j :| 0 <= j < |n.live| && Has(n.live[j].fifo, x) {
      if j < i { assert n'.live[j] == n.live[j]; }
      else if j > i { assert n'.live[j - 1] == n.live[j]; }
      else { assert n'.orphans[|n.orphans|] == n.live[i].fifo; }
    } else {
      var j :| 0 <= j < |n.orphans| && Has(n.orphans[j], x);
      assert n'.orphans[j] == n.orphans[j];
    }
  }

  lemma TailHas(fifo: seq<Net.Record>, x: nat)
    requires |fifo| > 0 && Has(fifo, x)
    ensures fifo[0].sn == x || Has(fifo[1..], x)
  {
    var i :| 0 <= i < |fifo| && fifo[i].sn == x;
    if i > 0 { assert fifo[1..][i - 1].sn == x; }
  }

  /** Taking the head off a stream. */
  lemma ReceiveInFlight(n: Net.Net, i: nat, rx: Fence, x: nat)
    requires i < |n.live| && |n.live[i].fifo| > 0 && InFlight(n, x)
    ensures n.live[i].fifo[0].sn == x
         || InFlight(n.(rx := rx, live := n.live[i := n.live[i].(fifo := n.live[i].fifo[1..])]), x)
  {
    hide Has;
    var n' := n.(rx := rx, live := n.live[i := n.live[i].(fifo := n.live[i].fifo[1..])]);
    if j :| 0 <= j < |n.live| && Has(n.live[j].fifo, x) {
      if j == i { TailHas(n.live[i].fifo, x); }
      assert j == i ==> n'.live[j].fifo == n.live[i].fifo[1..];
      assert j != i ==> n'.live[j] == n.live[j];
    }
  }

  lemma ReceiveOrphanInFlight(n: Net.Net, i: nat, rx: Fence, x: nat)
    requires i < |n.orphans| && |n.orphans[i]| > 0 && InFlight(n, x)
    ensures n.orphans[i][0].sn == x || InFlight(n.(rx := rx, orphans := n.orphans[i := n.orphans[i][1..]]), x)
  {
    hide Has;
    var n' := n.(rx := rx, orphans := n.orphans[i := n.orphans[i][1..]]);
    if j :| 0 <= j < |n.live| && Has(n.live[j].fifo, x) {
    } else {
      var j :| 0 <= j < |n.orphans| && Has(n.orphans[j], x);
      if j == i { TailHas(n.orphans[i], x); }
      assert j == i ==> n'.orphans[j] == n.orphans[i][1..];
      assert j != i ==> n'.orphans[j] == n.orphans[j];
    }
  }

  lemma ExtendInFlight(n: Net.Net, b: Net.Backend, x: nat)
    requires InFlight(n, x)
    ensures InFlight(n.(live := n.live + [b]), x)
  {
    hide Has;
    var n' := n.(live := n.live + [b]);
    if j :| 0 <= j < |n.live| && Has(n.live[j].fifo, x) { assert n'.live[j] == n.live[j]; }
  }

  lemma RefreshInFlight(n: Net.Net, i: nat, free: nat, healthy: bool, x: nat)
    requires i < |n.live| && InFlight(n, x)
    ensures InFlight(n.(live := n.live[i := n.live[i].(free := free, healthy := healthy)]), x)
  {
    hide Has;
    var n' := n.(live := n.live[i := n.live[i].(free := free, healthy := healthy)]);
    if j :| 0 <= j < |n.live| && Has(n.live[j].fifo, x) { assert n'.live[j].fifo == n.live[j].fifo; }
  }

  /** A step that neither drops a numbered frame nor loses a stream. Parity may be dropped. */
  predicate Keeps(n: Net.Net, step: Net.Step) {
    !step.LoseOrphan? && !(step.Write? && Refused(n, step))
  }

  /** Such a step leaves every frame in flight or hands it to the receiver. */
  lemma StepInFlight(n: Net.Net, step: Net.Step, x: nat)
    requires Net.Safe(n) && Keeps(n, step) && 0 < x
    requires InFlight(n, x) || (n.lastSn < x <= Net.Next(n, step).lastSn)
    ensures InFlight(Net.Next(n, step), x) || (Arriving(n, step).Some? && Arriving(n, step).value.sn == x)
  {
    hide InFlight, Net.Written, Net.Received, Net.BackendOk, Net.Fenced, TxValid;
    match step
    case Register(free, healthy) => ExtendInFlight(n, Net.Backend(0, free, healthy, []), x);
    case Unregister(i) => if i < |n.live| { UnregisterInFlight(n, i, x); }
    case Refresh(i, free, healthy) => if i < |n.live| { RefreshInFlight(n, i, free, healthy, x); }
    case Write(data, preferred, parityIndex) => WriteInFlight(n, data, preferred, parityIndex, x);
    case ReceiveLive(i) =>
      if i < |n.live| && |n.live[i].fifo| > 0 { ReceiveInFlight(n, i, Net.Received(n.rx, n.live[i].fifo[0]), x); }
    case ReceiveOrphan(i) =>
      if i < |n.orphans| && |n.orphans[i]| > 0 { ReceiveOrphanInFlight(n, i, Net.Received(n.rx, n.orphans[i][0]), x); }
  }

  // ---------- frames at the receiver ----------

  /** Frame `sn` has been released or is pending. */
  predicate Seen(b: RS.Buf, sn: nat) {
    sn < b.expected || sn in b.pending
  }

  /** What the reorder buffer released is exactly the frames from 1 up to its position. */
  predicate Gapless(out: seq<RS.Item>, b: RS.Buf) {
    && |out| == (if b.expected == 0 then 0 else b.expected - 1)
    && forall i | 0 <= i < |out| :: out[i].sn == i + 1
  }

  /** The frames a record hands over start the session with 1 and stay within the window. */
  predicate Near(b: RS.Buf, items: seq<RS.Item>) {
    && (|items| > 0 && b.expected == 0 ==> items[0].sn == 1)
    && forall i | 0 <= i < |items| :: 0 < items[i].sn < Max(b.expected, 1) + RS.MAX_WINDOW
  }

  lemma FlushSeen(b: RS.Buf, now: nat, out: seq<RS.Item>, x: nat)
    requires 0 < b.expected <= U32_MAX && Gapless(out, b) && Seen(b, x)
    requires forall s | s in b.pending :: b.expected <= s < b.expected + RS.MAX_WINDOW && s < U32_MAX
    ensures var (b', items) := RS.Flush(b, now);
            Gapless(out + items, b') && b'.expected >= b.expected && Seen(b', x)
  {
    hide RS.Drain;
    RS.DrainSpec(b.expected, b.pending);
    RS.DrainWithin(b.expected, b.pending);
  }

  lemma InsertSeen(h: seq<Dispatch>, b: RS.Buf, item: RS.Item, now: nat, out: seq<RS.Item>, x: nat)
    requires |h| < U32_MAX && Stocked(h, b) && Real(h, item) && Gapless(out, b)
    requires b.expected == 0 ==> item.sn == 1
    requires item.sn < Max(b.expected, 1) + RS.MAX_WINDOW
    requires Seen(b, x) || x == item.sn
    ensures var (b', items) := RS.Insert(b, item.sn, item.data, now);
            Gapless(out + items, b') && b'.expected >= Max(b.expected, 1) && Seen(b', x)
  {
    hide RS.Flush, RS.Drain;
    var b1 := RS.Learn(b, item.sn);
    assert b.expected == 0 ==> b.pending == map[];
    if b1.expected <= item.sn && item.sn !in b1.pending {
      var b2 := b1.(pending := b1.pending[item.sn := item.data]);
      if item.sn == b1.expected {
        forall s | s in b2.pending ensures b2.expected <= s < b2.expected + RS.MAX_WINDOW && s < U32_MAX {
          if s != item.sn { assert Real(h, RS.Item(s, b.pending[s])); }
        }
        FlushSeen(b2, now, out, x);
      } else {
        assert out + [] == out;
      }
    } else {
      assert out + [] == out;
    }
  }

  predicate Among(items: seq<RS.Item>, x: nat) {
    exists i :: 0 <= i < |items| && items[i].sn == x
  }

  lemma {:induction false} InsertAllSeen(h: seq<Dispatch>, b: RS.Buf, items: seq<RS.Item>, now: nat, out: seq<RS.Item>, x: nat)
    requires |h| < U32_MAX && Stocked(h, b) && AllReal(h, items) && Near(b, items) && Gapless(out, b)
    requires Seen(b, x) || Among(items, x)
    ensures var (b', outs) := RS.InsertAll(b, items, now);
            Gapless(out + outs, b') && Seen(b', x)
    decreases |items|
  {
    hide RS.Insert, Stocked, Real, Gapless, Released, Seen;
    if |items| == 0 {
      assert out + [] == out;
    } else {
      InsertReal(h, b, items[0], now);
      var (b1, out1) := RS.Insert(b, items[0].sn, items[0].data, now);
      var x1 := if Seen(b, x) then x else items[0].sn;
      InsertSeen(h, b, items[0], now, out, x1);
      assert Near(b1, items[1..]);
      assert Seen(b1, x) || Among(items[1..], x) by {
        if !Seen(b, x) && x != items[0].sn {
          var i :| 0 <= i < |items| && items[i].sn == x;
          assert items[1..][i - 1].sn == x;
        }
      }
      InsertAllSeen(h, b1, items[1..], now, out + out1, x);
      var out2 := RS.InsertAll(b1, items[1..], now).1;
      assert out + out1 + out2 == out + (out1 + out2);
    }
  }

  /** Nothing else is seen. */
  lemma FlushSeenOnly(b: RS.Buf, now: nat, x: nat)
    requires 0 < b.expected <= U32_MAX
    requires forall s | s in b.pending :: b.expected <= s < b.expected + RS.MAX_WINDOW && s < U32_MAX
    ensures Seen(RS.Flush(b, now).0, x) ==> Seen(b, x)
  {
    hide RS.Drain;
    RS.DrainSpec(b.expected, b.pending);
    RS.DrainWithin(b.expected, b.pending);
    var (e, p, items) := RS.Drain(b.expected, b.pending);
    if b.expected <= x < e { assert items[x - b.expected].sn == x; }
  }

  lemma InsertSeenOnly(h: seq<Dispatch>, b: RS.Buf, item: RS.Item, now: nat, x: nat)
    requires |h| < U32_MAX && Stocked(h, b) && Real(h, item) && x > 0
    requires b.expected == 0 ==> item.sn == 1
    ensures Seen(RS.Insert(b, item.sn, item.data, now).0, x) ==> Seen(b, x) || x == item.sn
  {
    hide RS.Flush, RS.Drain;
    var b1 := RS.Learn(b, item.sn);
    assert b.expected == 0 ==> b.pending == map[];
    if item.sn == b1.expected && item.sn !in b1.pending {
      var b2 := b1.(pending := b1.pending[item.sn := item.data]);
      forall s | s in b2.pending ensures b2.expected <= s < b2.expected + RS.MAX_WINDOW && s < U32_MAX {
        if s != item.sn { assert Real(h, RS.Item(s, b.pending[s])); }
      }
      FlushSeenOnly(b2, now, x);
    }
  }

  lemma {:induction false} InsertAllSeenOnly(h: seq<Dispatch>, b: RS.Buf, items: seq<RS.Item>, now: nat, x: nat)
    requires |h| < U32_MAX && Stocked(h, b) && AllReal(h, items) && x > 0
    requires |items| > 0 && b.expected == 0 ==> items[0].sn == 1
    ensures Seen(RS.InsertAll(b, items, now).0, x) ==> Seen(b, x) || Among(items, x)
    decreases |items|
  {
    hide RS.Insert, Stocked, Real, Released, Seen;
    if |items| == 0 {
    } else {
      InsertReal(h, b, items[0], now);
      LearnedFirst(h, b, items[0], now);
      InsertSeenOnly(h, b, items[0], now, x);
      InsertAllSeenOnly(h, RS.Insert(b, items[0].sn, items[0].data, now).0, items[1..], now, x);
      if i :| 0 <= i < |items[1..]| && items[1..][i].sn == x { assert items[i + 1].sn == x; }
    }
  }

  lemma LearnedFirst(h: seq<Dispatch>, b: RS.Buf, item: RS.Item, now: nat)
    requires |h| < U32_MAX && Stocked(h, b) && Real(h, item)
    ensures RS.Insert(b, item.sn, item.data, now).0.expected > 0
  {
    hide RS.Drain;
    var b1 := RS.Learn(b, item.sn);
    if item.sn == b1.expected && item.sn !in b1.pending {
      var p := b1.pending[item.sn := item.data];
      forall s | s in p ensures s < U32_MAX { if s != item.sn { assert Real(h, RS.Item(s, b.pending[s])); } }
      RS.DrainWithin(b1.expected, p);
    }
  }

  /** The duplicate filter remembers only frames that the reorder buffer has seen. */
  predicate SlotsSeen(slots: seq<nat>, b: RS.Buf) {
    forall i | 0 <= i < |slots| && slots[i] != 0 :: Seen(b, slots[i])
  }

  /** A data record is handed on, or its number has been seen. */
  lemma DecodeHands(rx: RA.Rx, ic: Option<Cipher>, sn: nat, data: Frame)
    requires rx.Ready() && SlotsSeen(rx.slots, rx.buf)
    ensures var x := RA.Decode(rx, ic, sn, data);
            && (sn > 0 ==> Among(x.items, sn) || Seen(rx.buf, sn))
            && |x.slots| == |rx.slots|
            && forall i | 0 <= i < |x.slots| && x.slots[i] != 0 :: x.slots[i] == sn || x.slots[i] in rx.slots
  {
    hide RA.DecodeData, DecoderSpec.OnControl, DecoderSpec.Inv, RS.Orderly, Seen, RA.Narrow;
    if sn > 0 {
      var slot := sn % RA.DEDUP_WINDOW;
      var rec := RA.DecodeData(rx.fec, sn, data, rx.buf.expected).1;
      if rx.slots[slot] == sn {
        assert Seen(rx.buf, rx.slots[slot]);
      } else {
        var items := RA.PairItems(sn, data, RA.Narrow(rec));
        assert items[0].sn == sn || items[1].sn == sn;
      }
    }
  }

  /** What the decoder rebuilds with a record is a frame of the run. */
  lemma RebuiltReal(k: nat, ic: Option<Cipher>, h: seq<Dispatch>, h': seq<Dispatch>, rx: RA.Rx, r: Net.Record)
    requires 2 <= k <= 64 && h <= h' && Sizes(h') && SoundCipher(ic) && Trusted(k, h', rx) && Good(k, ic, h, r)
    ensures forall y | y in RA.Brought(rx.fec, rx.buf.expected, ic, r.sn, r.payload) :: 0 < y <= |h'|
  {
    hide DecoderSpec.OnData, DecoderSpec.OnMode, DecoderSpec.OnParity, DecoderSpec.Inv, DecoderSpec.Structured, DecoderSafety.Genuine,
      RS.Orderly, ControlKind, Parse, EmittedParity, Emitted, DecoderSafety.GenuineParity, Sizes, Stocked;
    var d := rx.fec.value;
    var progress := Some(rx.buf.expected);
    DecoderSafety.InvStructured(d);
    SizedOf(d);
    if r.sn > 0 {
      ExtendedSent(h, h', r.sn);
      RealRecord(k, ic, h, h', r);
      DecoderSafety.StepSound(d, ic, DecoderSafety.Data(r.sn, r.payload, progress), Sent(h'));
    } else if IsMode(r) {
      DecodeModeReal(k, ic, h, h', rx, r);
    } else {
      ParityKind(k, ic, h, r.payload);
      ParityRecordGenuine(k, ic, h, h', r.payload);
      var start :| DecoderSafety.GenuineParity(r.payload, ic, k, start, Sent(h'));
      DecoderSafety.OnParitySound(d, ic, r.payload, progress, start, Sent(h'));
    }
  }

  /** A record within reach hands over frames that start with 1 and stay within the window, whatever order it
      brought their numbers in. */
  lemma ReachNear(k: nat, ic: Option<Cipher>, h: seq<Dispatch>, h': seq<Dispatch>, rx: RA.Rx, r: Net.Record)
    requires 2 <= k <= 64 && h <= h' && Sizes(h') && SoundCipher(ic) && Trusted(k, h', rx) && Good(k, ic, h, r)
    requires SlotsSeen(rx.slots, rx.buf)
    requires RA.InReach(RA.Brought(rx.fec, rx.buf.expected, ic, r.sn, r.payload), rx.buf.expected)
    ensures Near(rx.buf, RA.Decode(rx, ic, r.sn, r.payload).items)
  {
    hide DecoderSafety.Genuine, DecoderSpec.Inv, Good, Stocked, SlotsSeen, RA.Decode, Near, OnStarts, SoundCipher;
    RebuiltReal(k, ic, h, h', rx, r);
    if r.sn > 0 { DataNear(h', rx, ic, r.sn, r.payload); } else { ControlNear(h', rx, ic, r.payload); }
  }

  lemma DataNear(h: seq<Dispatch>, rx: RA.Rx, ic: Option<Cipher>, sn: nat, data: Frame)
    requires rx.Ready() && Stocked(h, rx.buf) && SlotsSeen(rx.slots, rx.buf) && Sizes(h) && sn > 0
    requires forall y | y in RA.Brought(rx.fec, rx.buf.expected, ic, sn, data) :: 0 < y <= |h|
    requires RA.InReach(RA.Brought(rx.fec, rx.buf.expected, ic, sn, data), rx.buf.expected)
    ensures Near(rx.buf, RA.Decode(rx, ic, sn, data).items)
  {
    hide DecoderSpec.Inv, RA.DecodeData, RA.PairItems, Stocked, Seen, RS.Orderly;
    var slot := sn % RA.DEDUP_WINDOW;
    var rec := RA.DecodeData(rx.fec, sn, data, rx.buf.expected).1;
    RA.PairAscends(sn, data, rec);
    if rx.slots[slot] == sn {
      assert Seen(rx.buf, rx.slots[slot]);
      SeenPositioned(h, rx.buf, rx.slots[slot]);
      assert rec.Some? ==> rec.value.sn in RA.Brought(rx.fec, rx.buf.expected, ic, sn, data);
    } else {
      var items := RA.PairItems(sn, data, rec);
      assert forall x | x in items :: x.sn in RA.Brought(rx.fec, rx.buf.expected, ic, sn, data);
    }
  }

  lemma ControlNear(h: seq<Dispatch>, rx: RA.Rx, ic: Option<Cipher>, payload: Frame)
    requires rx.Ready() && Sizes(h)
    requires forall y | y in RA.Brought(rx.fec, rx.buf.expected, ic, 0, payload) :: 0 < y <= |h|
    requires RA.InReach(RA.Brought(rx.fec, rx.buf.expected, ic, 0, payload), rx.buf.expected)
    ensures Near(rx.buf, RA.Decode(rx, ic, 0, payload).items)
  {
    hide DecoderSpec.Inv, DecoderSpec.OnControl, RS.Orderly;
    if rx.fec.Some? {
      SizedOf(rx.fec.value);
      DecoderSafety.InvStructured(rx.fec.value);
      var r := DecoderSpec.OnControl(rx.fec.value, ic, payload, Some(rx.buf.expected)).1;
      assert r.Ok? && r.value.Some? ==> r.value.value.sn in RA.Brought(rx.fec, rx.buf.expected, ic, 0, payload);
    }
  }

  lemma SeenPositioned(h: seq<Dispatch>, b: RS.Buf, x: nat)
    requires Stocked(h, b) && Seen(b, x)
    ensures b.expected > 0
  {
  }

  lemma ProcessSeen(k: nat, ic: Option<Cipher>, h: seq<Dispatch>, h': seq<Dispatch>, rx: RA.Rx, r: Net.Record, now: nat,
                    out: seq<RS.Item>)
    requires 2 <= k <= 64 && h <= h' && Sizes(h') && SoundCipher(ic) && Trusted(k, h', rx) && Good(k, ic, h, r)
    requires SlotsSeen(rx.slots, rx.buf) && Gapless(out, rx.buf) && Near(rx.buf, RA.Decode(rx, ic, r.sn, r.payload).items)
    ensures var (rx', items, _) := RA.Process(rx, ic, r.sn, r.payload, now);
            && Gapless(out + items, rx'.buf) && SlotsSeen(rx'.slots, rx'.buf)
            && (r.sn > 0 ==> Seen(rx'.buf, r.sn))
            && forall x | Seen(rx.buf, x) || Among(RA.Decode(rx, ic, r.sn, r.payload).items, x) :: Seen(rx'.buf, x)
  {
    hide RA.Decode, DecoderSafety.Genuine, RS.InsertAll, Released, DecoderSpec.Inv, Gapless, Near, Seen, Stocked, Good, AllReal;
    DecodeReal(k, ic, h, h', rx, r);
    DecodeHands(rx, ic, r.sn, r.payload);
    var d := RA.Decode(rx, ic, r.sn, r.payload);
    var b' := RS.InsertAll(rx.buf, d.items, now).0;
    forall x | Seen(rx.buf, x) || Among(d.items, x) ensures Seen(b', x) {
      InsertAllSeen(h', rx.buf, d.items, now, out, x);
    }
    GaplessAfter(h', rx.buf, d.items, now, out);
    forall i | 0 <= i < |d.slots| && d.slots[i] != 0 ensures Seen(b', d.slots[i]) {
      if d.slots[i] != r.sn {
        var j :| 0 <= j < |rx.slots| && rx.slots[j] == d.slots[i];
        assert Seen(rx.buf, rx.slots[j]);
      }
    }
  }

  /** Nothing need have been seen for the output to stay gapless. */
  lemma GaplessAfter(h: seq<Dispatch>, b: RS.Buf, items: seq<RS.Item>, now: nat, out: seq<RS.Item>)
    requires |h| < U32_MAX && Stocked(h, b) && AllReal(h, items) && Near(b, items) && Gapless(out, b)
    ensures var (b', outs) := RS.InsertAll(b, items, now); Gapless(out + outs, b')
  {
    if |items| == 0 {
      assert out + [] == out;
    } else {
      assert Among(items, items[0].sn);
      InsertAllSeen(h, b, items, now, out, items[0].sn);
    }
  }

  // ---------- whole runs ----------

  /** A call of the timer changes nothing and releases nothing. */
  ghost predicate NotExpired(p: Plane, now: nat)
    requires p.rx.Ready()
  {
    RingSpec.RingTimeout(p.rx.ring, now) == (p.rx.ring, [])
  }

  /** The numbers that the record brings, its own and a rebuilt one, are within the window, and until there is a
      position, frame 1 is among them. */
  ghost predicate WithinReach(ic: Option<Cipher>, rx: RA.Session, r: Net.Record)
    requires rx.Ready()
  {
    RA.InReach(RA.Brought(rx.fec, rx.ring.buf.expected, ic, r.sn, r.payload), rx.ring.buf.expected)
  }

  /** Nothing is dropped, no stream is lost, the timer finds nothing expired, and frames arrive within the window,
      the first of them frame 1. */
  ghost predicate Calm(ic: Option<Cipher>, p: Plane, s: PlaneStep)
    requires Net.Safe(p.t.net) && p.rx.Ready()
  {
    match s
    case Tick(now) => NotExpired(p, now)
    case Network(step, _) =>
      && Keeps(p.t.net, step)
      && var r := Arriving(p.t.net, step);
         r.Some? ==> WithinReach(ic, p.rx, r.value)
  }

  lemma NothingExpires(ic: Option<Cipher>, p: Plane, now: nat)
    requires Net.Safe(p.t.net) && p.rx.Ready() && NotExpired(p, now)
    ensures Advance(ic, p, Tick(now)) == p
  {
    hide Net.Safe, RingSpec.RingTimeout;
    assert p.out + [] == p.out;
  }

  ghost predicate CalmRun(ic: Option<Cipher>, p: Plane, steps: seq<PlaneStep>)
    requires Net.Safe(p.t.net)
    decreases |steps|
  {
    |steps| > 0 && p.rx.Ready() ==> Calm(ic, p, steps[0]) && CalmRun(ic, Advance(ic, p, steps[0]), steps[1..])
  }

  /** Every frame is on its way or has been seen. */
  ghost predicate Accounted(p: Plane) {
    && SlotsSeen(p.rx.slots, p.rx.ring.buf) && Gapless(p.out, p.rx.ring.buf)
    && forall x | 1 <= x <= p.t.net.lastSn :: InFlight(p.t.net, x) || Seen(p.rx.ring.buf, x)
  }

  lemma AdvanceAccounted(k: nat, ic: Option<Cipher>, h: seq<Dispatch>, p: Plane, s: PlaneStep)
    requires Net.Safe(p.t.net) && Sizes(h) && SoundCipher(ic) && Sound(k, ic, h, p)
    requires Accounted(p) && Calm(ic, p, s)
    ensures Accounted(Advance(ic, p, s))
  {
    hide Net.Safe, Faithful, RA.Process, RA.ProcessRing, RA.Decoding, RA.Quiet, Released, Net.Next, DecoderSpec.Inv,
      DecoderSafety.Genuine, InFlight, Gapless, SlotsSeen, Seen, Near, Keeps, RA.Brought, RA.InReach;
    if s.Tick? {
      NothingExpires(ic, p, s.now);
      return;
    }
    var step := s.step;
    var n := p.t.net;
    var r := Arriving(n, step);
    FaithfulK(k, ic, p.t);
    if r.Some? {
      ArrivingGood(k, ic, p.t, step);
      GoodNumber(k, ic, p.t.history, r.value);
      ProcessReal(k, ic, p.t.history, h, p.rx.Plain(), r.value, s.now);
      RA.ProcessPlain(p.rx, ic, r.value.sn, r.value.payload, s.now);
      ReachNear(k, ic, p.t.history, h, p.rx.Plain(), r.value);
      ProcessSeen(k, ic, p.t.history, h, p.rx.Plain(), r.value, s.now, p.out);
    }
    var p' := Advance(ic, p, s);
    forall x | 1 <= x <= p'.t.net.lastSn ensures InFlight(p'.t.net, x) || Seen(p'.rx.ring.buf, x) {
      if x > n.lastSn || InFlight(n, x) {
        StepInFlight(n, step, x);
      } else {
        assert Seen(p.rx.ring.buf, x);
      }
    }
  }

  lemma {:induction false} PlayAccounted(k: nat, ic: Option<Cipher>, h: seq<Dispatch>, p: Plane, steps: seq<PlaneStep>)
    requires Net.Safe(p.t.net) && Sizes(h) && SoundCipher(ic) && Sound(k, ic, h, p)
    requires Accounted(p) && CalmRun(ic, p, steps) && Play(ic, p, steps).t.history <= h
    ensures Accounted(Play(ic, p, steps))
    decreases |steps|
  {
    hide Net.Safe, Sound, Advance, Accounted, Calm;
    if |steps| == 0 || !p.rx.Ready() {
    } else {
      PlayExtends(ic, Advance(ic, p, steps[0]), steps[1..]);
      AdvanceSound(k, ic, h, p, steps[0]);
      AdvanceAccounted(k, ic, h, p, steps[0]);
      PlayAccounted(k, ic, h, Advance(ic, p, steps[0]), steps[1..]);
    }
  }

  /** All frames of a history, numbered. */
  function Everything(h: seq<Dispatch>): seq<RS.Item> {
    seq(|h|, i requires 0 <= i < |h| => RS.Item(i + 1, h[i].data))
  }

  /** Exactly once, in order. In every run in which nothing is dropped or skipped, whatever the paths, the
      interleaving of streams and the mode changes: once no data is in flight, the released frames are exactly
      the written frames. */
  lemma ExactlyOnce(k: nat, ic: Option<Cipher>, steps: seq<PlaneStep>)
    requires 2 <= k <= 64 && SoundCipher(ic) && CalmRun(ic, Begin(k, ic), steps)
    requires var p := Play(ic, Begin(k, ic), steps);
             Sizes(p.t.history) && forall x | 1 <= x <= p.t.net.lastSn :: !InFlight(p.t.net, x)
    ensures var p := Play(ic, Begin(k, ic), steps);
            p.out == Everything(p.t.history) && p.rx.ring.buf.pending == map[]
  {
    hide Net.Safe, Play, Begin, InFlight, CalmRun, StreamsGood, Caught, Trusted, Released, Gapless, SlotsSeen, Seen;
    var p := Play(ic, Begin(k, ic), steps);
    var h := p.t.history;
    BeginSound(k, ic, h);
    BeginAccounted(k, ic);
    PlaySound(k, ic, h, Begin(k, ic), steps);
    PlayAccounted(k, ic, h, Begin(k, ic), steps);
    AllOut(k, ic, h, p);
  }

  lemma BeginAccounted(k: nat, ic: Option<Cipher>)
    ensures Accounted(Begin(k, ic))
  {
  }

  lemma AllOut(k: nat, ic: Option<Cipher>, h: seq<Dispatch>, p: Plane)
    requires Net.Safe(p.t.net) && Sound(k, ic, h, p) && h == p.t.history && Gapless(p.out, p.rx.ring.buf)
    requires forall x | 1 <= x <= |h| :: Seen(p.rx.ring.buf, x)
    ensures p.out == Everything(h) && p.rx.ring.buf.pending == map[]
  {
    hide Net.Safe, DecoderSafety.Genuine, DecoderSpec.Inv, StreamsGood, Caught;
    var b := p.rx.ring.buf;
    assert 1 <= b.expected <= |h| ==> Seen(b, b.expected);
    if |h| > 0 { assert Seen(b, 1); }
    assert b.expected > |h| || |h| == 0;
    PendingAhead(h, b);
    assert |p.out| <= |h| by {
      if |p.out| > 0 { assert Real(h, p.out[|p.out| - 1]); }
    }
    forall i | 0 <= i < |p.out| ensures p.out[i] == RS.Item(i + 1, h[i].data) { assert Real(h, p.out[i]); }
  }

  lemma PendingAhead(h: seq<Dispatch>, b: RS.Buf)
    requires Stocked(h, b)
    ensures forall s | s in b.pending :: b.expected < s <= |h|
  {
    forall s | s in b.pending ensures s <= |h| { assert Real(h, RS.Item(s, b.pending[s])); }
  }

  // ---------- short sessions ----------

  /** Nothing is dropped, no stream is lost, the timer finds nothing expired, and the first data record to arrive is
      frame 1 or rebuilds it. */
  ghost predicate Undisturbed(ic: Option<Cipher>, p: Plane, s: PlaneStep)
    requires Net.Safe(p.t.net) && p.rx.Ready()
  {
    match s
    case Tick(now) => NotExpired(p, now)
    case Network(step, _) =>
      && Keeps(p.t.net, step)
      && var r := Arriving(p.t.net, step);
         p.rx.ring.buf.expected == 0 && r.Some? && r.value.sn > 0 ==>
           1 in RA.Brought(p.rx.fec, 0, ic, r.value.sn, r.value.payload)
  }

  ghost predicate UndisturbedRun(ic: Option<Cipher>, p: Plane, steps: seq<PlaneStep>)
    requires Net.Safe(p.t.net)
    decreases |steps|
  {
    |steps| > 0 && p.rx.Ready() ==> Undisturbed(ic, p, steps[0]) && UndisturbedRun(ic, Advance(ic, p, steps[0]), steps[1..])
  }

  /** Before the first data frame the decoder holds parity alone. */
  predicate Blank(fec: Option<DecoderSpec.Dec>, b: RS.Buf) {
    b.expected == 0 && fec.Some? ==> DecoderSafety.NoMembers(fec.value)
  }

  /** With fewer frames than the window no arrival is too far ahead. */
  lemma ReachShort(k: nat, ic: Option<Cipher>, h: seq<Dispatch>, h': seq<Dispatch>, rx: RA.Rx, r: Net.Record)
    requires 2 <= k <= 64 && h <= h' && Sizes(h') && SoundCipher(ic) && Trusted(k, h', rx) && Good(k, ic, h, r)
    requires |h'| < RS.MAX_WINDOW && Blank(rx.fec, rx.buf)
    requires rx.buf.expected == 0 && r.sn > 0 ==> 1 in RA.Brought(rx.fec, 0, ic, r.sn, r.payload)
    ensures RA.InReach(RA.Brought(rx.fec, rx.buf.expected, ic, r.sn, r.payload), rx.buf.expected)
  {
    hide DecoderSafety.Genuine, DecoderSpec.Inv, Good, DecoderSpec.OnControl, RA.DecodeData, DecoderSpec.Structured,
      DecoderSafety.NoMembers, Stocked, SoundCipher, OnStarts, RS.Orderly;
    RebuiltReal(k, ic, h, h', rx, r);
    if rx.buf.expected == 0 && r.sn == 0 {
      DecoderSafety.InvStructured(rx.fec.value);
      SizedOf(rx.fec.value);
      DecoderSafety.BlankControl(rx.fec.value, ic, r.payload, Some(0));
    }
  }

  /** Once data has arrived there is a position. */
  lemma BlankKept(k: nat, ic: Option<Cipher>, h: seq<Dispatch>, h': seq<Dispatch>, rx: RA.Rx, r: Net.Record, now: nat,
                  out: seq<RS.Item>)
    requires 2 <= k <= 64 && h <= h' && Sizes(h') && SoundCipher(ic) && Trusted(k, h', rx) && Good(k, ic, h, r)
    requires SlotsSeen(rx.slots, rx.buf) && Gapless(out, rx.buf) && Near(rx.buf, RA.Decode(rx, ic, r.sn, r.payload).items)
    requires rx.buf.expected <= |h'| + 1 && Blank(rx.fec, rx.buf)
    ensures var rx' := RA.Process(rx, ic, r.sn, r.payload, now).0; Blank(rx'.fec, rx'.buf)
  {
    hide DecoderSafety.Genuine, DecoderSpec.Inv, Good, DecoderSpec.OnControl, RA.DecodeData, DecoderSpec.Structured,
      DecoderSafety.NoMembers, Stocked, SoundCipher, OnStarts, RS.Orderly, RS.InsertAll, Near, Gapless, SlotsSeen, Seen, Released, RA.PairItems;
    ProcessReal(k, ic, h, h', rx, r, now);
    ProcessSeen(k, ic, h, h', rx, r, now, out);
    var rx' := RA.Process(rx, ic, r.sn, r.payload, now).0;
    if r.sn > 0 {
      SeenPositioned(h', rx'.buf, r.sn);
    } else if rx.buf.expected == 0 {
      DecoderSafety.InvStructured(rx.fec.value);
      SizedOf(rx.fec.value);
      DecoderSafety.BlankControl(rx.fec.value, ic, r.payload, Some(0));
    }
  }

  lemma {:induction false} ShortCalm(k: nat, ic: Option<Cipher>, h: seq<Dispatch>, p: Plane, steps: seq<PlaneStep>)
    requires Net.Safe(p.t.net) && Sizes(h) && |h| < RS.MAX_WINDOW && SoundCipher(ic) && Sound(k, ic, h, p)
    requires Accounted(p) && Blank(p.rx.fec, p.rx.ring.buf)
    requires UndisturbedRun(ic, p, steps) && Play(ic, p, steps).t.history <= h
    ensures CalmRun(ic, p, steps)
    decreases |steps|
  {
    hide Net.Safe, Advance, Faithful, Accounted, Sound, Calm, Undisturbed, Blank;
    if |steps| == 0 || !p.rx.Ready() {
    } else {
      PlayExtends(ic, Advance(ic, p, steps[0]), steps[1..]);
      StepCalm(k, ic, h, p, steps[0]);
      AdvanceSound(k, ic, h, p, steps[0]);
      AdvanceAccounted(k, ic, h, p, steps[0]);
      ShortCalm(k, ic, h, Advance(ic, p, steps[0]), steps[1..]);
    }
  }

  lemma StepCalm(k: nat, ic: Option<Cipher>, h: seq<Dispatch>, p: Plane, s: PlaneStep)
    requires Net.Safe(p.t.net) && Sizes(h) && |h| < RS.MAX_WINDOW && SoundCipher(ic) && Sound(k, ic, h, p)
    requires Accounted(p) && Blank(p.rx.fec, p.rx.ring.buf) && Undisturbed(ic, p, s)
    ensures Calm(ic, p, s)
    ensures var p' := Advance(ic, p, s); Blank(p'.rx.fec, p'.rx.ring.buf)
  {
    hide Net.Safe, Faithful, RA.Process, RA.ProcessRing, RA.Decoding, RA.Quiet, Released, Net.Next, DecoderSpec.Inv,
      DecoderSafety.Genuine, InFlight, Gapless, SlotsSeen, Seen, Near, Keeps, RA.Brought, RA.InReach, Blank;
    if s.Tick? {
      NothingExpires(ic, p, s.now);
    } else if Arriving(p.t.net, s.step).Some? {
      var r := Arriving(p.t.net, s.step).value;
      FaithfulK(k, ic, p.t);
      ArrivingGood(k, ic, p.t, s.step);
      GoodNumber(k, ic, p.t.history, r);
      ReachShort(k, ic, p.t.history, h, p.rx.Plain(), r);
      ReachNear(k, ic, p.t.history, h, p.rx.Plain(), r);
      ProcessReal(k, ic, p.t.history, h, p.rx.Plain(), r, s.now);
      RA.ProcessPlain(p.rx, ic, r.sn, r.payload, s.now);
      BlankKept(k, ic, p.t.history, h, p.rx.Plain(), r, s.now, p.out);
    }
  }

  /** The same for every session of fewer than 65536 frames, with conditions on the network, the timer and the first
      data record alone. */
  lemma ExactlyOnceShort(k: nat, ic: Option<Cipher>, steps: seq<PlaneStep>)
    requires 2 <= k <= 64 && SoundCipher(ic) && UndisturbedRun(ic, Begin(k, ic), steps)
    requires var p := Play(ic, Begin(k, ic), steps);
             && Sizes(p.t.history) && |p.t.history| < RS.MAX_WINDOW
             && forall x | 1 <= x <= p.t.net.lastSn :: !InFlight(p.t.net, x)
    ensures var p := Play(ic, Begin(k, ic), steps);
            p.out == Everything(p.t.history) && p.rx.ring.buf.pending == map[]
  {
    hide Net.Safe, Play, InFlight, CalmRun, UndisturbedRun;
    var h := Play(ic, Begin(k, ic), steps).t.history;
    BeginSound(k, ic, h);
    BeginAccounted(k, ic);
    ShortCalm(k, ic, h, Begin(k, ic), steps);
    ExactlyOnce(k, ic, steps);
  }
}
