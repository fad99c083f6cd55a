/** The receive actor of a session: FEC decoder, duplicate filter and reorder buffer behind one lock. */
module RxActor {
  import opened Bytes
  import opened Parity
  import DecoderSpec
  import FecMode
  import DecoderSafety
  import opened ReorderSpec
  import opened RingSpec
  import RB = ReorderBuffer
  import FD = FecDecoder

  // ---------- duplicate filter ----------

  const DEDUP_WINDOW: nat := 4096

  /** `is_duplicate`: the slot remembers the last number that fell on it. */
  function CheckDuplicate(slots: seq<nat>, sn: nat): (r: (seq<nat>, bool))
    requires |slots| == DEDUP_WINDOW
    ensures |r.0| == DEDUP_WINDOW
  {
    if sn == 0 then (slots, false) else (slots[sn % DEDUP_WINDOW := sn], slots[sn % DEDUP_WINDOW] == sn)
  }

  /** The filter after these numbers, one after the other. */
  function Filtered(numbers: seq<nat>): (slots: seq<nat>)
    ensures |slots| == DEDUP_WINDOW
  {
    if |numbers| == 0 then seq(DEDUP_WINDOW, _ => 0)
    else CheckDuplicate(Filtered(numbers[..|numbers| - 1]), numbers[|numbers| - 1]).0
  }

  /** `sn` came, and no later number is congruent to it modulo 4096. */
  predicate Remembered(numbers: seq<nat>, sn: nat) {
    exists i :: 0 <= i < |numbers| && numbers[i] == sn && NoneSince(numbers, i, sn)
  }

  predicate NoneSince(numbers: seq<nat>, i: nat, sn: nat) {
    forall j | i < j < |numbers| :: numbers[j] == 0 || numbers[j] % 4096 != sn % 4096
  }

  /** A number is reported as a duplicate exactly if it came before and none of the numbers since then has taken its
      place. */
  lemma {:induction false} DuplicateExactly(numbers: seq<nat>, sn: nat)
    requires sn > 0
    ensures CheckDuplicate(Filtered(numbers), sn).1 <==> Remembered(numbers, sn)
  {
    if |numbers| == 0 {
    } else {
      var front, last := numbers[..|numbers| - 1], numbers[|numbers| - 1];
      DuplicateExactly(front, sn);
      RememberedNext(front, last, sn);
      assert numbers == front + [last];
    }
  }

  lemma RememberedNext(front: seq<nat>, last: nat, sn: nat)
    requires sn > 0
    ensures Remembered(front + [last], sn) <==>
              last == sn || (Remembered(front, sn) && (last == 0 || last % 4096 != sn % 4096))
  {
    var numbers := front + [last];
    if last == sn {
      assert numbers[|front|] == sn && NoneSince(numbers, |front|, sn);
    } else {
      if Remembered(front, sn) && (last == 0 || last % 4096 != sn % 4096) {
        var i :| 0 <= i < |front| && front[i] == sn && NoneSince(front, i, sn);
        assert numbers[i] == sn && NoneSince(numbers, i, sn);
      }
      if Remembered(numbers, sn) {
        var i :| 0 <= i < |numbers| && numbers[i] == sn && NoneSince(numbers, i, sn);
        assert front[i] == sn && numbers[|front|] == last;
        assert NoneSince(front, i, sn) by { assert forall j | i < j < |front| :: numbers[j] == front[j]; }
      }
    }
  }

  /** A lossy cache: it may forget a number, but never invents one. */
  class DeDuplicator {
    var slots: seq<nat>
    ghost var recorded: set<nat>

    ghost predicate Valid()
      reads this
    {
      |slots| == DEDUP_WINDOW && forall i | 0 <= i < |slots| && slots[i] != 0 :: slots[i] in recorded
    }

    constructor ()
      ensures Valid() && slots == seq(DEDUP_WINDOW, _ => 0) && recorded == {}
    {
      slots := seq(DEDUP_WINDOW, _ => 0);
      recorded := {};
    }

    method IsDuplicate(sn: nat) returns (duplicate: bool)
      requires Valid()
      modifies this
      ensures Valid() && (slots, duplicate) == CheckDuplicate(old(slots), sn)
      ensures duplicate ==> sn in old(recorded)
      ensures recorded == old(recorded) + (if sn == 0 then {} else {sn})
    {
      if sn == 0 {
        return false;
      }
      var i := sn % DEDUP_WINDOW;
      duplicate := slots[i] == sn;
      slots := slots[i := sn];
      recorded := recorded + {sn};
    }

    method Reset()
      requires Valid()
      modifies this
      ensures Valid() && slots == seq(DEDUP_WINDOW, _ => 0) && recorded == {}
    {
      slots := seq(DEDUP_WINDOW, _ => 0);
      recorded := {};
    }
  }

  // ---------- meaning ----------

  datatype Rx = Rx(fec: Option<DecoderSpec.Dec>, buf: Buf, slots: seq<nat>)
  {
    predicate Ready() {
      && (fec.Some? ==> DecoderSpec.Inv(fec.value))
      && Orderly(buf)
      && |slots| == DEDUP_WINDOW
    }
  }

  /** The 32-bit number of a recovered frame. */
  function Narrow(rec: Option<DecoderSpec.Recovered>): (r: Option<DecoderSpec.Recovered>)
    ensures rec.Some? && rec.value.sn <= U32_MAX ==> r == rec
    ensures r.Some? ==> r.value.sn <= U32_MAX
  {
    if rec.Some? then Some(DecoderSpec.Recovered(rec.value.sn % SEQ_SPACE, rec.value.data)) else None
  }

  function RecoveredItems(rec: Option<DecoderSpec.Recovered>): seq<Item> {
    if rec.Some? then [Item(rec.value.sn, rec.value.data)] else []
  }

  /** `insert_pair`: a frame and the one it recovered, in sequence order. */
  function PairItems(sn: nat, data: Frame, rec: Option<DecoderSpec.Recovered>): seq<Item> {
    if rec.Some? && rec.value.sn < sn then [Item(rec.value.sn, rec.value.data), Item(sn, data)]
    else if rec.Some? && rec.value.sn > sn then [Item(sn, data), Item(rec.value.sn, rec.value.data)]
    else [Item(sn, data)]
  }

  /** What one record makes of the session before the reorder buffer sees it: the frames to insert. */
  datatype Decoded = Decoded(fec: Option<DecoderSpec.Dec>, slots: seq<nat>, items: seq<Item>, error: Option<string>)

  /** The decoder's part on data, if FEC was negotiated. */
  ghost function DecodeData(fec: Option<DecoderSpec.Dec>, sn: nat, data: Frame, expected: nat)
    : (Option<DecoderSpec.Dec>, Option<DecoderSpec.Recovered>)
    requires fec.Some? ==> DecoderSpec.Inv(fec.value)
  {
    if fec.None? then (None, None)
    else
      DecoderSafety.InvStructured(fec.value);
      var (d, rec) := DecoderSpec.OnData(fec.value, sn, data, Some(expected));
      (Some(d), rec)
  }

  /** What one record makes of decoder and duplicate filter, given the reorder position. */
  ghost function Decoding(fec: Option<DecoderSpec.Dec>, slots: seq<nat>, expected: nat, ic: Option<Cipher>, sn: nat, data: Frame): Decoded
    requires (fec.Some? ==> DecoderSpec.Inv(fec.value)) && |slots| == DEDUP_WINDOW
  {
    if sn > 0 then
      var (fec', rec) := DecodeData(fec, sn, data, expected);
      var (slots', duplicate) := CheckDuplicate(slots, sn);
      Decoded(fec', slots', if duplicate then RecoveredItems(Narrow(rec)) else PairItems(sn, data, Narrow(rec)), None)
    else if fec.None? then
      Decoded(None, slots, [], Some("typed control without negotiated FEC"))
    else
      DecoderSafety.InvStructured(fec.value);
      var (d, r) := DecoderSpec.OnControl(fec.value, ic, data, Some(expected));
      if r.Err? then Decoded(Some(d), slots, [], Some(r.message))
      else Decoded(Some(d), slots, RecoveredItems(Narrow(r.value)), None)
  }

  ghost function Decode(rx: Rx, ic: Option<Cipher>, sn: nat, data: Frame): Decoded
    requires rx.Ready()
  {
    Decoding(rx.fec, rx.slots, rx.buf.expected, ic, sn, data)
  }

  /** One record through decoder, duplicate filter and the reorder buffer taken as a map. */
  ghost function Process(rx: Rx, ic: Option<Cipher>, sn: nat, data: Frame, now: nat): (Rx, seq<Item>, Option<string>)
    requires rx.Ready()
  {
    var x := Decode(rx, ic, sn, data);
    var (buf, items) := InsertAll(rx.buf, x.items, now);
    (Rx(x.fec, buf, x.slots), items, x.error)
  }

  /** No number that this record hands to the reorder buffer is a wrapped arrival. */
  ghost predicate Quiet(rx: Rx, ic: Option<Cipher>, sn: nat, data: Frame, now: nat)
    requires rx.Ready()
  {
    NoWrappedArrival(rx.buf, Decode(rx, ic, sn, data).items, now)
  }

  lemma {:induction false} InsertAllKeepsOrderly(b: Buf, items: seq<Item>, now: nat)
    requires Orderly(b) && forall i | 0 <= i < |items| :: items[i].sn <= U32_MAX
    ensures Orderly(InsertAll(b, items, now).0)
    decreases |items|
  {
    hide Insert, Orderly;
    if |items| == 0 {
    } else {
      InsertKeepsOrderly(b, items[0].sn, items[0].data, now);
      InsertAllKeepsOrderly(Insert(b, items[0].sn, items[0].data, now).0, items[1..], now);
    }
  }

  lemma DecodingKeepsInv(fec: Option<DecoderSpec.Dec>, slots: seq<nat>, expected: nat, ic: Option<Cipher>, sn: nat, data: Frame)
    requires (fec.Some? ==> DecoderSpec.Inv(fec.value)) && |slots| == DEDUP_WINDOW && sn <= U32_MAX
    ensures var x := Decoding(fec, slots, expected, ic, sn, data);
            && (x.fec.Some? <==> fec.Some?) && (x.fec.Some? ==> DecoderSpec.Inv(x.fec.value)) && |x.slots| == DEDUP_WINDOW
            && forall i | 0 <= i < |x.items| :: x.items[i].sn <= U32_MAX
  {
    hide DecoderSpec.OnData, DecoderSpec.OnControl, DecoderSpec.Inv;
    if fec.Some? {
      var e := if sn > 0 then DecoderSafety.Data(sn, data, Some(expected)) else DecoderSafety.Typed(data, Some(expected));
      DecoderSafety.StepKeepsInv(fec.value, ic, e);
    }
  }

  lemma DecodeKeepsInv(rx: Rx, ic: Option<Cipher>, sn: nat, data: Frame)
    requires rx.Ready() && sn <= U32_MAX
    ensures var x := Decode(rx, ic, sn, data);
            && (x.fec.Some? <==> rx.fec.Some?) && (x.fec.Some? ==> DecoderSpec.Inv(x.fec.value)) && |x.slots| == DEDUP_WINDOW
            && forall i | 0 <= i < |x.items| :: x.items[i].sn <= U32_MAX
  {
    hide Decoding, DecoderSpec.Inv;
    DecodingKeepsInv(rx.fec, rx.slots, rx.buf.expected, ic, sn, data);
  }

  // ---------- with the ring ----------

  /** The session as it is: decoder, ring and duplicate filter. */
  datatype Session = Session(fec: Option<DecoderSpec.Dec>, ring: Ring, slots: seq<nat>)
  {
    ghost predicate Ready() {
      && (fec.Some? ==> DecoderSpec.Inv(fec.value))
      && IsWindow(ring.size) && ring.buf.expected <= U32_MAX
      && |slots| == DEDUP_WINDOW
    }

    /** With the ring read as a map. */
    function Plain(): Rx {
      Rx(fec, ring.buf, slots)
    }
  }

  /** `process_item`, for every record. */
  ghost function ProcessRing(s: Session, ic: Option<Cipher>, sn: nat, data: Frame, now: nat): (Session, seq<Item>, Option<string>)
    requires s.Ready()
  {
    var x := Decoding(s.fec, s.slots, s.ring.buf.expected, ic, sn, data);
    var (ring, items) := RingInsertAll(s.ring, x.items, now);
    (Session(x.fec, ring, x.slots), items, x.error)
  }

  /** Without wrapped arrivals the session works as if its ring were a map, and stays so. */
  lemma ProcessPlain(s: Session, ic: Option<Cipher>, sn: nat, data: Frame, now: nat)
    requires s.Ready() && Fits(s.ring) && sn <= U32_MAX && Quiet(s.Plain(), ic, sn, data, now)
    ensures var (s', items, error) := ProcessRing(s, ic, sn, data, now);
            (s'.Plain(), items, error) == Process(s.Plain(), ic, sn, data, now) && s'.Ready() && Fits(s'.ring)
  {
    hide Decoding, RingInsertAll, InsertAll, NoWrappedArrival, DecoderSpec.Inv;
    DecodingKeepsInv(s.fec, s.slots, s.ring.buf.expected, ic, sn, data);
    InsertAllPlain(s.ring, Decode(s.Plain(), ic, sn, data).items, now);
  }

  /** What `reconfigure` leaves of a session that gets the decoder `next`. */
  function Reconfigured(s: Session, next: Option<DecoderSpec.Dec>): Session {
    Session(if next.Some? then Some(DecoderSpec.ResetState(next.value)) else None, Ring(s.ring.size, ReorderSpec.Reset(s.ring.buf)),
            seq(DEDUP_WINDOW, _ => 0))
  }

  // ---------- the pair ----------

  /** The numbers a record brings: its own, and the one that the decoder rebuilds with it. */
  ghost function Brought(fec: Option<DecoderSpec.Dec>, expected: nat, ic: Option<Cipher>, sn: nat, data: Frame): set<nat>
    requires fec.Some? ==> DecoderSpec.Inv(fec.value)
  {
    if sn > 0 then {sn} + DecoderSpec.OutSet(DecodeData(fec, sn, data, expected).1)
    else if fec.None? then {}
    else
      DecoderSafety.InvStructured(fec.value);
      var r := DecoderSpec.OnControl(fec.value, ic, data, Some(expected)).1;
      if r.Err? then {} else DecoderSpec.OutSet(r.value)
  }

  /** The first record that brings a number brings frame 1, and no number is 65536 or more ahead of the position. */
  predicate InReach(numbers: set<nat>, expected: nat) {
    && (expected == 0 && numbers != {} ==> 1 in numbers)
    && forall y | y in numbers :: y < Max(expected, 1) + MAX_WINDOW
  }

  /** The pair goes in by ascending number, and it is the frame and the rebuilt one. */
  lemma PairAscends(sn: nat, data: Frame, rec: Option<DecoderSpec.Recovered>)
    ensures var p := PairItems(sn, data, rec);
            && 0 < |p| <= 2 && (|p| == 2 ==> p[0].sn < p[1].sn)
            && Item(sn, data) in p
            && (rec.Some? && rec.value.sn != sn ==> Item(rec.value.sn, rec.value.data) in p)
            && forall x | x in p :: x == Item(sn, data) || (rec.Some? && x == Item(rec.value.sn, rec.value.data))
  {
    var p := PairItems(sn, data, rec);
    assert p[0] in p && p[|p| - 1] in p;
  }

  /** What a data record hands to the reorder buffer: itself unless its slot holds its number, and the frame it rebuilds
      under the low 32 bits of its number; its slot then holds its number. */
  lemma HandedExactly(fec: Option<DecoderSpec.Dec>, slots: seq<nat>, expected: nat, ic: Option<Cipher>, sn: nat, data: Frame, x: Item)
    requires (fec.Some? ==> DecoderSpec.Inv(fec.value)) && |slots| == 4096 && sn > 0
    ensures var decoded := Decoding(fec, slots, expected, ic, sn, data);
            var rec := DecodeData(fec, sn, data, expected).1;
            var unseen := slots[sn % 4096] != sn;
            && decoded.slots == slots[sn % 4096 := sn]
            && (x in decoded.items <==>
                  || (unseen && x == Item(sn, data))
                  || (rec.Some? && x == Item(rec.value.sn % 0x1_0000_0000, rec.value.data) && (unseen ==> x.sn != sn)))
  {
    hide DecoderSpec.OnData, DecoderSpec.OnControl, DecoderSpec.Inv;
    var rec := DecodeData(fec, sn, data, expected).1;
    PairAscends(sn, data, Narrow(rec));
    if rec.Some? { assert RecoveredItems(Narrow(rec))[0] in RecoveredItems(Narrow(rec)); }
  }

  lemma PartnerRecovered(d: DecoderSpec.Dec, start: nat)
    requires d.Sized() && (start in d.groups && d.groups[start].parity.Some? ==> |d.groups[start].parity.value.lens| == d.k)
    ensures var out := DecoderSpec.TryRecover(d, start).1;
            out.Some? ==> start in d.groups && start <= out.value.sn < start + d.k && out.value.sn - start !in d.groups[start].members
  {
    if start in d.groups && d.groups[start].parity.Some? {
      var missing := DecoderSpec.Missing(d.groups[start], d.k);
      if |missing| == 1 { assert DecoderSpec.Only(missing) in missing; }
    }
  }

  /** What a data frame rebuilds is another member of its own group. */
  lemma Partner(d: DecoderSpec.Dec, sn: nat, frame: Frame, progress: Option<nat>)
    requires DecoderSpec.Inv(d) && DecoderSpec.Structured(d)
    ensures var out := DecoderSpec.OnData(d, sn, frame, progress).1;
            var start := FecMode.GroupStart(sn, d.k);
            out.Some? ==> out.value.sn != sn && 0 < start <= out.value.sn < start + d.k && start <= sn < start + d.k <= start + 64
  {
    hide DecoderSpec.Admit, DecoderSpec.Retire, FecMode.IsStart, FecMode.GroupStart, DecoderSpec.Structured, DecoderSpec.Inv;
    SizedOf(d);
    if sn > 0 && |frame| > 0 && DecoderSpec.OnData(d, sn, frame, progress).1.Some? {
      AdmittedPartner(d, sn, frame);
      FecMode.StartPositive(FecMode.GroupStart(sn, d.k), d.k);
    }
  }

  lemma SizedOf(d: DecoderSpec.Dec)
    requires DecoderSpec.Inv(d)
    ensures d.Sized() && FecMode.ClampGroup(d.k) == d.k
  {
  }

  lemma AdmittedPartner(d: DecoderSpec.Dec, sn: nat, frame: Frame)
    requires d.Sized() && FecMode.ClampGroup(d.k) == d.k && DecoderSpec.Structured(d) && sn > 0
    ensures var out := DecoderSpec.Admit(d, sn, frame).1;
            var start := FecMode.GroupStart(sn, d.k);
            out.Some? ==> out.value.sn != sn && start <= out.value.sn < start + d.k
  {
    hide DecoderSpec.TryRecover, DecoderSpec.Missing, DecoderSpec.IsDone, DecoderSpec.MarkDone, FecMode.IsStart;
    var start := FecMode.GroupStart(sn, d.k);
    var groups := DecoderSpec.Entry(d.groups, start);
    var g := groups[start].(members := groups[start].members[sn - start := frame]);
    if g.parity.Some? { assert start in d.groups; }
    PartnerRecovered(d.(groups := groups[start := g]), start);
  }

  /** A pair at a buffer without a position: the lower number sets the position, and neither frame is lost. */
  lemma PairInserts(b: Buf, lo: Item, hi: Item, now: nat)
    requires Orderly(b) && b.expected == 0 && 0 < lo.sn < hi.sn <= U32_MAX && hi.sn < lo.sn + MAX_WINDOW
    ensures var (b', out) := InsertAll(b, [lo, hi], now);
            out == (if hi.sn == lo.sn + 1 then [lo, hi] else [lo])
            && b'.pending == (if hi.sn == lo.sn + 1 then map[] else map[hi.sn := hi.data])
    ensures NoWrappedArrival(b, [lo, hi], now)
  {
    hide Flush;
    assert b.pending == map[];
    var (b1, out1) := Insert(b, lo.sn, lo.data, now);
    OneReleased(b.(expected := lo.sn, pending := map[lo.sn := lo.data]), lo, now);
    assert [lo, hi][1..] == [hi];
    var (b2, out2) := Insert(b1, hi.sn, hi.data, now);
    if hi.sn == lo.sn + 1 { OneReleased(b1.(pending := map[hi.sn := hi.data]), hi, now); }
    assert [hi][1..] == [];
    assert InsertAll(b1, [hi], now) == (b2, out2 + []);
    assert InsertAll(b, [lo, hi], now) == (b2, out1 + (out2 + []));
    assert NoWrappedArrival(b1, [hi], now);
  }

  lemma OneReleased(b: Buf, x: Item, now: nat)
    requires b.expected == x.sn && b.pending == map[x.sn := x.data]
    ensures Flush(b, now) == (b.(expected := Succ(x.sn), pending := map[], gap := None), [x])
  {
    var rest := b.pending - {x.sn};
    assert rest == map[];
    assert Drain(Succ(x.sn), rest) == (Succ(x.sn), rest, []);
    assert Drain(b.expected, b.pending) == (Succ(x.sn), rest, [x] + []) && [x] + [] == [x];
  }

  predicate Held(b: Buf, out: seq<Item>, x: Item) {
    x in out || (x.sn in b.pending && b.pending[x.sn] == x.data)
  }

  /** At a session without a position, a data record that rebuilds its partner loses neither: both frames are
      released or pending. */
  lemma FirstPairHeld(s: Session, ic: Option<Cipher>, sn: nat, data: Frame, now: nat)
    requires s.Ready() && Fits(s.ring) && s.ring.buf.expected == 0 && 0 < sn <= U32_MAX
    requires s.slots[sn % DEDUP_WINDOW] != sn
    requires var rec := DecodeData(s.fec, sn, data, 0).1; rec.Some? && rec.value.sn <= U32_MAX
    ensures var rec := DecodeData(s.fec, sn, data, 0).1.value;
            var (s', out, error) := ProcessRing(s, ic, sn, data, now);
            && error.None? && rec.sn != sn
            && Held(s'.ring.buf, out, Item(sn, data)) && Held(s'.ring.buf, out, Item(rec.sn, rec.data))
  {
    hide DecoderSpec.OnData, DecoderSpec.OnControl, RingInsertAll, InsertAll, NoWrappedArrival, DecoderSpec.Inv, PairItems, Narrow,
      DecoderSpec.Structured, IsWindow;
    var rec := DecodeData(s.fec, sn, data, 0).1.value;
    DecoderSafety.InvStructured(s.fec.value);
    Partner(s.fec.value, sn, data, Some(0));
    PairAscends(sn, data, Some(rec));
    var p := PairItems(sn, data, Some(rec));
    assert |p| == 2 ==> p == [p[0], p[1]];
    FitsOrderly(s.ring);
    PairInserts(s.ring.buf, p[0], p[1], now);
    ProcessPlain(s, ic, sn, data, now);
  }

  lemma FitsOrderly(r: Ring)
    requires Fits(r)
    ensures Orderly(r.buf)
  {
  }

  // ---------- the actor object ----------

  datatype RxFrame = RxFrame(sn: nat, data: Frame)

  class RxSessionActor {
    var generation: nat
    var fec: FD.FecDecoder?
    var reorder: RB.ReorderBuffer
    var dedup: DeDuplicator

    ghost function Repr(): set<object>
      reads this, fec
    {
      {this, reorder, dedup} + (if fec != null then {fec as FD.FecDecoder, fec.fence} else {})
    }

    ghost predicate Valid()
      reads this, fec, Repr()
    {
      (fec != null ==> fec.Valid()) && reorder.Valid() && dedup.Valid()
    }

    ghost function Model(): (s: Session)
      requires Valid()
      reads this, fec, Repr()
      ensures s.Ready()
    {
      Session(if fec == null then None else Some(fec.Model()), reorder.View(), dedup.slots)
    }

    ghost function Ic(): Option<Cipher>
      reads this, fec
    {
      if fec == null then None else fec.ic
    }

    constructor (initial: FD.FecDecoder?)
      requires initial != null ==> initial.Valid()
      ensures Valid() && generation == 1 && fec == initial
      ensures Model().ring == EMPTY_RING
      ensures fresh(reorder) && fresh(dedup)
    {
      generation, fec := 1, initial;
      reorder := new RB.ReorderBuffer();
      dedup := new DeDuplicator();
    }

    /** `insert_pair`. */
    method InsertPair(sn: nat, data: Frame, rec: Option<DecoderSpec.Recovered>, ready: seq<Frame>, now: nat)
      returns (ready': seq<Frame>, ghost items: seq<Item>)
      requires reorder.Valid() && sn <= U32_MAX && (rec.Some? ==> rec.value.sn <= U32_MAX)
      modifies reorder
      ensures reorder.Valid()
      ensures (reorder.View(), items) == RingInsertAll(old(reorder.View()), PairItems(sn, data, rec), now)
      ensures ready' == ready + ReorderSpec.Ready(items)
    {
      hide RingInsert, ReorderSpec.Ready, RB.RingOk, RB.BitmapOk, RB.Pending;
      InsertOne(reorder.View(), Item(sn, data), now);
      if rec.Some? && rec.value.sn < sn {
        InsertTwo(reorder.View(), Item(rec.value.sn, rec.value.data), Item(sn, data), now);
        ghost var more;
        ready', items := reorder.InsertInto(rec.value.sn, rec.value.data, ready, now);
        ready', more := reorder.InsertInto(sn, data, ready', now);
        ReadyConcat(items, more);
        items := items + more;
      } else if rec.Some? && rec.value.sn > sn {
        InsertTwo(reorder.View(), Item(sn, data), Item(rec.value.sn, rec.value.data), now);
        ghost var more;
        ready', items := reorder.InsertInto(sn, data, ready, now);
        ready', more := reorder.InsertInto(rec.value.sn, rec.value.data, ready', now);
        ReadyConcat(items, more);
        items := items + more;
      } else {
        ready', items := reorder.InsertInto(sn, data, ready, now);
      }
    }

    method InsertRecovered(rec: Option<DecoderSpec.Recovered>, ready: seq<Frame>, now: nat)
      returns (ready': seq<Frame>, ghost items: seq<Item>)
      requires reorder.Valid() && (rec.Some? ==> rec.value.sn <= U32_MAX)
      modifies reorder
      ensures reorder.Valid()
      ensures (reorder.View(), items) == RingInsertAll(old(reorder.View()), RecoveredItems(rec), now)
      ensures ready' == ready + ReorderSpec.Ready(items)
    {
      hide RingInsert, RB.RingOk, RB.BitmapOk, RB.Pending;
      ready', items := ready, [];
      if rec.Some? {
        InsertOne(reorder.View(), Item(rec.value.sn, rec.value.data), now);
        ready', items := reorder.InsertInto(rec.value.sn, rec.value.data, ready, now);
      }
    }

    /** `process_item`. */
    method ProcessItem(item: RxFrame, ready: seq<Frame>, now: nat)
      returns (ready': seq<Frame>, ghost items: seq<Item>, error: Option<string>)
      requires Valid() && item.sn <= U32_MAX
      modifies Repr() - {this}
      ensures Valid() && Repr() == old(Repr()) && fec == old(fec)
      ensures (Model(), items, error) == ProcessRing(old(Model()), Ic(), item.sn, item.data, now)
      ensures ready' == ready + ReorderSpec.Ready(items)
    {
      hide DecoderSpec.OnData, DecoderSpec.OnControl, RingInsertAll, PairItems, RecoveredItems, ReorderSpec.Ready,
        DecoderSpec.Inv, CheckDuplicate, Narrow;
      var sn, data := item.sn, item.data;
      ready', items, error := ready, [], None;
      NothingToInsert(reorder.View(), now);
      if sn == 0 {
        var expected := reorder.expectedSeq;
        if fec == null {
          return ready, [], Some("typed control without negotiated FEC");
        }
        var r := fec.OnControlActor(data, expected);
        if r.Err? {
          return ready, [], Some(r.message);
        }
        ready', items := InsertRecovered(Narrow(r.value), ready, now);
        return;
      }
      var expected := reorder.expectedSeq;
      var rec: Option<DecoderSpec.Recovered> := None;
      if fec != null {
        rec := fec.OnDataActor(sn, data, expected);
      }
      var duplicate := dedup.IsDuplicate(sn);
      if !duplicate {
        ready', items := InsertPair(sn, data, Narrow(rec), ready, now);
      } else {
        ready', items := InsertRecovered(Narrow(rec), ready, now);
      }
    }

    /** `process_batch`: a batch of an older generation is discarded; an error discards the rest. */
    method ProcessBatch(batchGeneration: nat, frames: seq<RxFrame>, ready: seq<Frame>, now: nat)
      returns (ready': seq<Frame>, ghost items: seq<Item>, error: Option<string>)
      requires Valid() && forall i | 0 <= i < |frames| :: frames[i].sn <= U32_MAX
      modifies Repr() - {this}
      ensures Valid() && Repr() == old(Repr()) && fec == old(fec)
      ensures batchGeneration != generation ==> Model() == old(Model()) && ready' == ready && error == None
      ensures batchGeneration == generation ==>
                (Model(), items, error) == ProcessAll(old(Model()), Ic(), frames, now)
      ensures ready' == ready + ReorderSpec.Ready(items)
    {
      hide ProcessRing, ReorderSpec.Ready, DecoderSpec.Inv;
      NothingToInsert(reorder.View(), now);
      ready', items, error := ready, [], None;
      if |frames| == 0 {
        return;
      }
      if batchGeneration != generation {
        return;
      }
      ghost var total := ProcessAll(Model(), Ic(), frames, now);
      assert [] + total.1 == total.1;
      for i := 0 to |frames|
        invariant Valid() && Repr() == old(Repr()) && fec == old(fec)
        invariant error == None
        invariant var rest := ProcessAll(Model(), Ic(), frames[i..], now); total == (rest.0, items + rest.1, rest.2)
        invariant ready' == ready + ReorderSpec.Ready(items)
      {
        ghost var more;
        ghost var rest := frames[i..];
        assert rest[0] == frames[i] && rest[1..] == frames[i + 1..];
        ready', more, error := ProcessItem(frames[i], ready', now);
        ReadyConcat(items, more);
        if error.Some? {
          items := items + more;
          break;
        }
        assert items + (more + ProcessAll(Model(), Ic(), frames[i + 1..], now).1)
            == (items + more) + ProcessAll(Model(), Ic(), frames[i + 1..], now).1;
        items := items + more;
      }
      assert frames[|frames|..] == [];
      assert items + [] == items;
    }

    /** `reconfigure`: a new generation, a fresh decoder, an empty reorder buffer and duplicate filter. */
    method Reconfigure(next: FD.FecDecoder?)
      requires Valid() && (next != null ==> next.Valid() && next != fec)
      modifies Repr(), if next != null then {next as FD.FecDecoder, next.fence} else {}
      ensures Valid() && generation == old(generation) + 1 && fec == next
      ensures reorder == old(reorder) && dedup == old(dedup)
      ensures Model() == Reconfigured(old(Model()), if next == null then None else Some(old(next.Model())))
    {
      hide DecoderSpec.Inv, RB.RingOk, RB.BitmapOk, RB.Pending;
      generation := generation + 1;
      if next != null {
        next.Reset();
      }
      fec := next;
      reorder.Reset();
      dedup.Reset();
    }
  }

  /** A batch item by item, up to the first error. */
  ghost function ProcessAll(s: Session, ic: Option<Cipher>, frames: seq<RxFrame>, now: nat): (Session, seq<Item>, Option<string>)
    requires s.Ready() && forall i | 0 <= i < |frames| :: frames[i].sn <= U32_MAX
    decreases |frames|
  {
    if |frames| == 0 then (s, [], None)
    else
      ProcessKeepsReady(s, ic, frames[0].sn, frames[0].data, now);
      var (s1, out1, error) := ProcessRing(s, ic, frames[0].sn, frames[0].data, now);
      if error.Some? then (s1, out1, error)
      else
        var (s2, out2, error2) := ProcessAll(s1, ic, frames[1..], now);
        (s2, out1 + out2, error2)
  }

  lemma ProcessKeepsReady(s: Session, ic: Option<Cipher>, sn: nat, data: Frame, now: nat)
    requires s.Ready() && sn <= U32_MAX
    ensures ProcessRing(s, ic, sn, data, now).0.Ready()
  {
    hide Decoding, RingInsertAll, DecoderSpec.Inv;
    DecodingKeepsInv(s.fec, s.slots, s.ring.buf.expected, ic, sn, data);
    InsertAllKeepsRange(s.ring, Decoding(s.fec, s.slots, s.ring.buf.expected, ic, sn, data).items, now);
  }

  /** Records one after the other, whatever they report. */
  ghost function EachRecord(s: Session, ic: Option<Cipher>, frames: seq<RxFrame>, now: nat): (Session, seq<Item>)
    requires s.Ready() && forall i | 0 <= i < |frames| :: frames[i].sn <= U32_MAX
    decreases |frames|
  {
    if |frames| == 0 then (s, [])
    else
      ProcessKeepsReady(s, ic, frames[0].sn, frames[0].data, now);
      var (s1, out1, _) := ProcessRing(s, ic, frames[0].sn, frames[0].data, now);
      var (s2, out2) := EachRecord(s1, ic, frames[1..], now);
      (s2, out1 + out2)
  }

  /** The error of the record after the first `i`, if there is one. */
  ghost function ErrorAt(s: Session, ic: Option<Cipher>, frames: seq<RxFrame>, now: nat, i: nat): Option<string>
    requires s.Ready() && i < |frames| && forall j | 0 <= j < |frames| :: frames[j].sn <= U32_MAX
    decreases |frames|
  {
    ProcessKeepsReady(s, ic, frames[0].sn, frames[0].data, now);
    var (s1, _, error) := ProcessRing(s, ic, frames[0].sn, frames[0].data, now);
    if i == 0 then error else ErrorAt(s1, ic, frames[1..], now, i - 1)
  }

  /** A batch is processed record by record up to and including the first that is refused, and reports its error; without
      one it is processed to the end. */
  lemma {:induction false} BatchStops(s: Session, ic: Option<Cipher>, frames: seq<RxFrame>, now: nat) returns (n: nat)
    requires s.Ready() && forall i | 0 <= i < |frames| :: frames[i].sn <= U32_MAX
    ensures n <= |frames|
    ensures var (s', items, error) := ProcessAll(s, ic, frames, now);
            && (s', items) == EachRecord(s, ic, frames[..n], now)
            && (error.None? ==> n == |frames|)
            && (error.Some? ==> n > 0 && ErrorAt(s, ic, frames, now, n - 1) == error)
            && forall i | 0 <= i < n && (i < n - 1 || error.None?) :: ErrorAt(s, ic, frames, now, i).None?
    decreases |frames|
  {
    hide ProcessRing, Session.Ready;
    if |frames| == 0 {
      n := 0;
    } else {
      ProcessKeepsReady(s, ic, frames[0].sn, frames[0].data, now);
      var (s1, out1, error) := ProcessRing(s, ic, frames[0].sn, frames[0].data, now);
      if error.Some? {
        n := 1;
        assert frames[..1][1..] == [];
        assert EachRecord(s1, ic, [], now) == (s1, []) && out1 + [] == out1;
      } else {
        var m := BatchStops(s1, ic, frames[1..], now);
        n := m + 1;
        assert frames[..n][1..] == frames[1..][..m];
        forall i | 0 < i < n ensures ErrorAt(s, ic, frames, now, i) == ErrorAt(s1, ic, frames[1..], now, i - 1) {}
      }
    }
  }

  /** Only a record without a number can be refused, and exactly if there is no decoder, or it is no control, or a mode
      control that does not parse, or parity with a bad header or, unless its group is retired, a bad body. */
  lemma RefusedRecord(fec: Option<DecoderSpec.Dec>, slots: seq<nat>, expected: nat, ic: Option<Cipher>, sn: nat, data: Frame)
    requires (fec.Some? ==> DecoderSpec.Inv(fec.value)) && |slots| == DEDUP_WINDOW
    ensures Decoding(fec, slots, expected, ic, sn, data).error.Some? <==>
              && sn == 0
              && (fec.None? || |data| == 0 || (data[0] != 1 && data[0] != 2)
                  || (data[0] == 2 && FecMode.Parse(data).Err?)
                  || (data[0] == 1 && BadParity(fec.value, expected, ic, data)))
  {
    hide FecMode.Parse, ParseHeader, ParseBody, DecoderSpec.OnMode, DecoderSpec.Inv;
    if sn == 0 && fec.Some? {
      SizedOf(fec.value);
      DecoderSafety.InvStructured(fec.value);
      ParityErrors(fec.value, ic, data, Some(expected));
    }
  }

  predicate BadParity(d: DecoderSpec.Dec, expected: nat, ic: Option<Cipher>, data: Frame)
    requires DecoderSpec.Inv(d)
  {
    && !d.single
    && var header := ParseHeader(d.k, data);
       || header.Err?
       || (!DecoderSpec.IsRetired(DecoderSpec.Retire(d, Some(expected)), header.value)
           && ParseBody(d.k, ic, data, header.value).Err?)
  }

  lemma ParityErrors(d: DecoderSpec.Dec, ic: Option<Cipher>, data: Frame, progress: Option<nat>)
    requires DecoderSpec.Inv(d) && d.Sized() && DecoderSpec.Structured(d) && progress.Some?
    ensures DecoderSpec.OnParity(d, ic, data, progress).1.Err? <==> BadParity(d, progress.value, ic, data)
  {
    hide ParseHeader, ParseBody, DecoderSpec.TryRecover, DecoderSpec.Entry, DecoderSpec.IsDone, DecoderSpec.Retire, DecoderSpec.Inv,
      DecoderSpec.Structured;
    SizedOf(d);
  }

  lemma NothingToInsert(r: Ring, now: nat)
    requires IsWindow(r.size)
    ensures RingInsertAll(r, [], now) == (r, []) && ReorderSpec.Ready([]) == []
  {
  }

  lemma InsertOne(r: Ring, item: Item, now: nat)
    requires IsWindow(r.size)
    ensures RingInsertAll(r, [item], now) == RingInsert(r, item.sn, item.data, now)
  {
    hide RingInsert;
    var (r1, out) := RingInsert(r, item.sn, item.data, now);
    assert RingInsertAll(r1, [item][1..], now) == (r1, []);
    assert out + [] == out;
  }

  lemma InsertTwo(r: Ring, x: Item, y: Item, now: nat)
    requires IsWindow(r.size)
    ensures var (r1, out1) := RingInsert(r, x.sn, x.data, now);
            var (r2, out2) := RingInsert(r1, y.sn, y.data, now);
            RingInsertAll(r, [x, y], now) == (r2, out1 + out2)
  {
    hide RingInsert;
    var (r1, out1) := RingInsert(r, x.sn, x.data, now);
    InsertOne(r1, y, now);
    assert [x, y][1..] == [y];
  }
}
