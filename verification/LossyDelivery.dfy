/** Whole-system delivery with losses: through suspensions and resumptions, exactly which frames come out when some
    never arrive (src/net.rs, src/fec.rs, src/rx_actor.rs, src/buffer.rs). */
module LossyDelivery {
  import opened Bytes
  import opened Parity
  import opened FecMode
  import opened FecEncoder
  import opened FenceWindows
  import opened FencedBypass
  import opened RealFrames
  import opened DataPlane
  import opened Delivery
  import opened LossBooks
  import opened LossLedger
  import Net = FencedDispatch
  import DS = DecoderSpec
  import DecoderSafety
  import E = EndToEnd
  import RS = ReorderSpec
  import RA = RxActor

  // ---------- what has been seen ----------

  function SeenSet(b: RS.Buf): set<nat> {
    DS.Below(b.expected) + b.pending.Keys
  }

  lemma SeenIs(b: RS.Buf, x: nat)
    ensures x in SeenSet(b) <==> Seen(b, x)
  {
  }

  ghost function Counted(k: nat, ic: Option<Cipher>, h: seq<Dispatch>, b: RS.Buf): set<nat>
    requires 2 <= k <= 64
  {
    SeenSet(b) + Exempt(k, ic, h)
  }

  lemma CountedPassed(k: nat, ic: Option<Cipher>, h: seq<Dispatch>, b: RS.Buf)
    requires 2 <= k <= 64
    ensures Passed(b.expected, Counted(k, ic, h, b))
  {
    hide Exempt;
  }

  lemma ExemptCounted(k: nat, ic: Option<Cipher>, h: seq<Dispatch>, b: RS.Buf)
    requires 2 <= k <= 64
    ensures Exempt(k, ic, h) <= Counted(k, ic, h, b)
  {
    hide Exempt;
  }

  /** The frame arrived, or was the only loss of a group whose parity came in time. */
  ghost predicate Explained(k: nat, ic: Option<Cipher>, h: seq<Dispatch>, bk: Books, x: nat)
    requires 2 <= k <= 64
  {
    x in bk.data || OnlyLoss(k, ic, h, bk.data, bk.timely, x)
  }

  lemma ExplainedGrows(k: nat, ic: Option<Cipher>, h: seq<Dispatch>, bk: Books, bk': Books, x: nat)
    requires 2 <= k <= 64 && Explained(k, ic, h, bk, x) && bk.data <= bk'.data && bk.timely <= bk'.timely
    ensures Explained(k, ic, h, bk', x)
  {
    hide Protected, GroupStart;
    if x !in bk.data {
      var s := GroupStart(x, k);
      forall j | 0 <= j < k && s + j != x ensures E.Has(bk'.data, s, j) { assert E.Has(bk.data, s, j); }
    }
  }

  // ---------- one record through the receiver ----------

  lemma RecoveredCovered(h: seq<Dispatch>, rec: Option<DS.Recovered>)
    requires Sizes(h) && DecoderSafety.GenuineOutput(rec, Sent(h))
    ensures DS.OutSet(rec) <= E.Numbers(RA.RecoveredItems(RA.Narrow(rec)))
  {
    var items := RA.RecoveredItems(RA.Narrow(rec));
    if rec.Some? { assert items[0].sn == rec.value.sn; }
  }

  lemma PairCovered(h: seq<Dispatch>, sn: nat, data: Frame, rec: Option<DS.Recovered>)
    requires Sizes(h) && DecoderSafety.GenuineOutput(rec, Sent(h))
    ensures DS.OutSet(rec) <= {sn} + E.Numbers(RA.PairItems(sn, data, RA.Narrow(rec)))
  {
    var items := RA.PairItems(sn, data, RA.Narrow(rec));
    if rec.Some? && rec.value.sn < sn { assert items[0].sn == rec.value.sn; }
    if rec.Some? && rec.value.sn > sn { assert items[1].sn == rec.value.sn; }
  }

  lemma RecoveredNumbers(h: seq<Dispatch>, rec: Option<DS.Recovered>, y: nat)
    requires Sizes(h) && DecoderSafety.GenuineOutput(rec, Sent(h)) && Among(RA.RecoveredItems(RA.Narrow(rec)), y)
    ensures rec.Some? && y == rec.value.sn
  {
  }

  lemma PairNumbers(h: seq<Dispatch>, sn: nat, data: Frame, rec: Option<DS.Recovered>, y: nat)
    requires Sizes(h) && DecoderSafety.GenuineOutput(rec, Sent(h)) && Among(RA.PairItems(sn, data, RA.Narrow(rec)), y)
    ensures y == sn || (rec.Some? && y == rec.value.sn)
  {
  }

  lemma DecodeDataBooked(k: nat, ic: Option<Cipher>, h: seq<Dispatch>, h': seq<Dispatch>, rx: RA.Rx, r: Net.Record, bk: Books)
    requires 2 <= k <= 64 && h <= h' && Sizes(h') && SoundCipher(ic) && Trusted(k, h', rx) && Good(k, ic, h, r)
    requires r.sn > 0 && r.gen <= rx.fec.value.fence.generation && Caught(k, h, rx.fec.value.fence)
    requires DS.Inv(rx.fec.value) && rx.fec.value.Sized() && !DataEvicts(rx.fec.value, r.sn)
    requires Booked(k, ic, h', rx.fec.value, rx.buf.expected, Counted(k, ic, h', rx.buf), bk)
    ensures var x := RA.Decode(rx, ic, r.sn, r.payload);
            var bk' := bk.(data := bk.data + {r.sn});
            && x.fec.Some?
            && Booked(k, ic, h', x.fec.value, rx.buf.expected, Counted(k, ic, h', rx.buf) + {r.sn} + E.Numbers(x.items), bk')
            && forall y | Among(x.items, y) :: Explained(k, ic, h', bk', y)
  {
    hide DS.OnData, DS.Inv, DS.Structured, OnStarts, Booked, Exempt, DataEvicts, Caught, Passed, Among, OnlyLoss,
      DS.OutSet, E.Numbers, RA.PairItems, RA.RecoveredItems, RA.Narrow, DecoderSafety.Genuine, DecoderSafety.GenuineOutput, Good,
      Counted, RS.Orderly, Stocked, Sizes;
    var d, expected := rx.fec.value, rx.buf.expected;
    var i := Counted(k, ic, h', rx.buf);
    CountedPassed(k, ic, h', rx.buf);
    DecoderSafety.InvStructured(d);
    ExemptCounted(k, ic, h', rx.buf);
    DataBooked(k, ic, h, h', d, r, expected, i, bk);
    DataSound(k, ic, h, h', d, r, expected);
    var rec := DS.OnData(d, r.sn, r.payload, Some(expected)).1;
    RecoveredCovered(h', rec);
    PairCovered(h', r.sn, r.payload, rec);
    var x := RA.Decode(rx, ic, r.sn, r.payload);
    var bk' := bk.(data := bk.data + {r.sn});
    BookedGrows(k, ic, h', x.fec.value, expected, i + {r.sn} + DS.OutSet(rec), expected, i + {r.sn} + E.Numbers(x.items), bk');
    forall y | Among(x.items, y) ensures Explained(k, ic, h', bk', y) {
      if x.items == RA.PairItems(r.sn, r.payload, RA.Narrow(rec)) {
        PairNumbers(h', r.sn, r.payload, rec, y);
      } else {
        RecoveredNumbers(h', rec, y);
      }
    }
  }

  lemma DataSound(k: nat, ic: Option<Cipher>, h: seq<Dispatch>, h': seq<Dispatch>, d: DS.Dec, r: Net.Record, expected: nat)
    requires 2 <= k <= 64 && h <= h' && Sizes(h') && SoundCipher(ic) && Good(k, ic, h, r) && r.sn > 0
    requires DS.Inv(d) && d.Sized() && DS.Structured(d) && d.k == k && DecoderSafety.Genuine(d, Sent(h'))
    ensures DecoderSafety.GenuineOutput(DS.OnData(d, r.sn, r.payload, Some(expected)).1, Sent(h'))
  {
    hide DS.OnData, DS.Inv, DS.Structured, DecoderSafety.Genuine, DecoderSafety.GenuineOutput, TxAfter;
    ExtendedSent(h, h', r.sn);
    DecoderSafety.StepSound(d, ic, DecoderSafety.Data(r.sn, r.payload, Some(expected)), Sent(h'));
  }

  lemma DecodeControlBooked(k: nat, ic: Option<Cipher>, h: seq<Dispatch>, h': seq<Dispatch>, rx: RA.Rx, r: Net.Record, bk: Books)
    returns (bk': Books)
    requires 2 <= k <= 64 && h <= h' && Sizes(h') && SoundCipher(ic) && Trusted(k, h', rx) && Good(k, ic, h, r) && r.sn == 0
    requires IsMode(r) ==> var fence := Apply(rx.fec.value.fence, Parse(r.payload).value);
                           Caught(k, h, fence) && fence.generation <= rx.fec.value.fence.generation + 1
    requires DS.Inv(rx.fec.value) && rx.fec.value.Sized() && !Evicts(rx.fec.value, rx.buf.expected, r)
    requires Booked(k, ic, h', rx.fec.value, rx.buf.expected, Counted(k, ic, h', rx.buf), bk)
    ensures bk'.data == bk.data && bk'.timely == bk.timely + HeardInTime(k, h, rx.fec.value.fence, r)
    ensures var x := RA.Decode(rx, ic, 0, r.payload);
            && x.fec.Some?
            && Booked(k, ic, h', x.fec.value, rx.buf.expected, Counted(k, ic, h', rx.buf) + E.Numbers(x.items), bk')
            && forall y | Among(x.items, y) :: Explained(k, ic, h', bk', y)
  {
    hide DS.OnParity, DS.OnMode, DS.Inv, DS.Structured, OnStarts, Booked, Exempt, Caught, Passed, Evicts, Among, OnlyLoss,
      DS.OutSet, E.Numbers, RA.RecoveredItems, RA.Narrow, DecoderSafety.Genuine, DecoderSafety.GenuineOutput,
      Counted, RS.Orderly, Stocked, HeardInTime, Apply, Parse, Emitted, EmittedParity, Sizes, ControlKind;
    var d, expected := rx.fec.value, rx.buf.expected;
    var i := Counted(k, ic, h', rx.buf);
    CountedPassed(k, ic, h', rx.buf);
    DecoderSafety.InvStructured(d);
    ExemptCounted(k, ic, h', rx.buf);
    var x := RA.Decode(rx, ic, 0, r.payload);
    var out := DS.OnControl(d, ic, r.payload, Some(expected)).1;
    if IsMode(r) {
      bk' := ModeBooked(k, ic, h, h', d, Parse(r.payload).value, expected, i, bk);
      ModeHeard(k, h, d.fence, r);
      assert bk.timely + {} == bk.timely;
      BookedGrows(k, ic, h', x.fec.value, expected, i, expected, i + E.Numbers(x.items), bk');
      NothingRecovered(x.items);
    } else {
      bk' := ParityBooked(k, ic, h, h', d, r, expected, i, bk);
      ParitySound(k, ic, h, h', d, r, expected);
      RecoveredCovered(h', out.value);
      BookedGrows(k, ic, h', x.fec.value, expected, i + DS.OutSet(out.value), expected, i + E.Numbers(x.items), bk');
      forall y | Among(x.items, y) ensures Explained(k, ic, h', bk', y) { RecoveredNumbers(h', out.value, y); }
    }
  }

  lemma NothingRecovered(items: seq<RS.Item>)
    requires items == RA.RecoveredItems(RA.Narrow(None))
    ensures forall y :: !Among(items, y)
  {
  }

  lemma ModeHeard(k: nat, h: seq<Dispatch>, rx: Fence, r: Net.Record)
    requires k > 0 && IsMode(r)
    ensures HeardInTime(k, h, rx, r) == {}
  {
    hide IsMode, TxAfter;
  }

  lemma ParitySound(k: nat, ic: Option<Cipher>, h: seq<Dispatch>, h': seq<Dispatch>, d: DS.Dec, r: Net.Record, expected: nat)
    requires 2 <= k <= 64 && h <= h' && Sizes(h') && SoundCipher(ic) && Good(k, ic, h, r) && r.sn == 0 && !IsMode(r)
    requires DS.Inv(d) && d.Sized() && DS.Structured(d) && d.k == k && DecoderSafety.Genuine(d, Sent(h'))
    ensures var out := DS.OnControl(d, ic, r.payload, Some(expected)).1;
            out.Ok? ==> DecoderSafety.GenuineOutput(out.value, Sent(h'))
  {
    hide DS.OnParity, DS.Inv, DS.Structured, DecoderSafety.Genuine, DecoderSafety.GenuineOutput, IsMode, ParseHeader, ParityOf,
      EmittedParity, Good, MemberOf;
    var start := ParityStartOf(k, ic, h, h', r);
    DecoderSafety.OnParitySound(d, ic, r.payload, Some(expected), start, Sent(h'));
  }

  /** One record of either kind. */
  lemma DecodeBooked(k: nat, ic: Option<Cipher>, h: seq<Dispatch>, h': seq<Dispatch>, rx: RA.Rx, r: Net.Record, bk: Books)
    returns (bk': Books)
    requires 2 <= k <= 64 && h <= h' && Sizes(h') && SoundCipher(ic) && Trusted(k, h', rx) && Good(k, ic, h, r)
    requires r.sn > 0 ==> r.gen <= rx.fec.value.fence.generation
    requires Caught(k, h, rx.fec.value.fence) && Caught(k, h, Net.Received(rx.fec.value.fence, r))
    requires Net.Received(rx.fec.value.fence, r).generation <= rx.fec.value.fence.generation + 1
    requires DS.Inv(rx.fec.value) && rx.fec.value.Sized() && !Evicts(rx.fec.value, rx.buf.expected, r)
    requires Booked(k, ic, h', rx.fec.value, rx.buf.expected, Counted(k, ic, h', rx.buf), bk)
    ensures bk'.data == bk.data + HeardData(r) && bk'.timely == bk.timely + HeardInTime(k, h, rx.fec.value.fence, r)
    ensures var x := RA.Decode(rx, ic, r.sn, r.payload);
            && x.fec.Some?
            && Booked(k, ic, h', x.fec.value, rx.buf.expected,
                      Counted(k, ic, h', rx.buf) + HeardData(r) + E.Numbers(x.items), bk')
            && forall y | Among(x.items, y) :: Explained(k, ic, h', bk', y)
  {
    hide RA.Decode, DS.Inv, Booked, Counted, Caught, OnStarts, DecoderSafety.Genuine, Stocked, RS.Orderly, DataEvicts,
      ParityEvicts, Good, E.Numbers, ParseHeader, ControlKind, Parse, Apply, Explained, Among, Sizes;
    if r.sn > 0 {
      DecodeDataBooked(k, ic, h, h', rx, r, bk);
      bk' := bk.(data := bk.data + {r.sn});
      assert bk.timely + {} == bk.timely;
    } else {
      bk' := DecodeControlBooked(k, ic, h, h', rx, r, bk);
      assert bk.data + {} == bk.data;
      assert Counted(k, ic, h', rx.buf) + {} == Counted(k, ic, h', rx.buf);
    }
  }

  // ---------- whole runs ----------

  /** Streams may be lost and frames refused. The timer finds nothing expired, frames arrive within the window, the first
      of them frame 1, and no group is pushed out. */
  ghost predicate Ordinary(ic: Option<Cipher>, p: Plane, s: PlaneStep)
    requires Net.Safe(p.t.net) && p.rx.Ready()
  {
    match s
    case Tick(now) => NotExpired(p, now)
    case Network(step, _) =>
      var r := Arriving(p.t.net, step);
      r.Some? && p.rx.fec.Some? ==>
        && WithinReach(ic, p.rx, r.value)
        && !Evicts(p.rx.fec.value, p.rx.ring.buf.expected, r.value)
  }

  ghost predicate OrdinaryRun(ic: Option<Cipher>, p: Plane, steps: seq<PlaneStep>)
    requires Net.Safe(p.t.net)
    decreases |steps|
  {
    |steps| > 0 && p.rx.Ready() ==> Ordinary(ic, p, steps[0]) && OrdinaryRun(ic, Advance(ic, p, steps[0]), steps[1..])
  }

  function DataOfStep(p: Plane, s: PlaneStep): set<nat> {
    if s.Network? && Arriving(p.t.net, s.step).Some? then HeardData(Arriving(p.t.net, s.step).value) else {}
  }

  function ParityOfStep(k: nat, p: Plane, s: PlaneStep): set<nat>
    requires k > 0
  {
    if s.Network? && Arriving(p.t.net, s.step).Some? then HeardParity(k, Arriving(p.t.net, s.step).value) else {}
  }

  ghost function InTimeOfStep(k: nat, p: Plane, s: PlaneStep): set<nat>
    requires k > 0
  {
    if s.Network? && Arriving(p.t.net, s.step).Some?
    then HeardInTime(k, p.t.history, p.t.net.rx, Arriving(p.t.net, s.step).value) else {}
  }

  /** The numbers of the data frames that arrive in a run. */
  ghost function DataArrived(ic: Option<Cipher>, p: Plane, steps: seq<PlaneStep>): set<nat>
    requires Net.Safe(p.t.net)
    decreases |steps|
  {
    if |steps| == 0 || !p.rx.Ready() then {}
    else DataOfStep(p, steps[0]) + DataArrived(ic, Advance(ic, p, steps[0]), steps[1..])
  }

  /** The starts of the groups whose parity arrives in a run. */
  ghost function ParityArrived(k: nat, ic: Option<Cipher>, p: Plane, steps: seq<PlaneStep>): set<nat>
    requires Net.Safe(p.t.net) && k > 0
    decreases |steps|
  {
    if |steps| == 0 || !p.rx.Ready() then {}
    else ParityOfStep(k, p, steps[0]) + ParityArrived(k, ic, Advance(ic, p, steps[0]), steps[1..])
  }

  /** Of these, the starts whose parity comes in time: at its arrival at most one mode change is outstanding before the
      group. */
  ghost function ParityInTime(k: nat, ic: Option<Cipher>, p: Plane, steps: seq<PlaneStep>): set<nat>
    requires Net.Safe(p.t.net) && k > 0
    decreases |steps|
  {
    if |steps| == 0 || !p.rx.Ready() then {}
    else InTimeOfStep(k, p, steps[0]) + ParityInTime(k, ic, Advance(ic, p, steps[0]), steps[1..])
  }

  ghost predicate Kept(k: nat, ic: Option<Cipher>, h: seq<Dispatch>, p: Plane, bk: Books)
    requires 2 <= k <= 64
  {
    && SlotsSeen(p.rx.slots, p.rx.ring.buf) && Gapless(p.out, p.rx.ring.buf)
    && (forall x | x in bk.data :: Seen(p.rx.ring.buf, x))
    && (forall x | x > 0 && Seen(p.rx.ring.buf, x) :: Explained(k, ic, h, bk, x))
    && p.rx.fec.Some?
    && Booked(k, ic, h, p.rx.fec.value, p.rx.ring.buf.expected, Counted(k, ic, h, p.rx.ring.buf), bk)
  }

  /** The receiver stands at a prefix of the run's controls before and after the record, at most one control later. */
  lemma ArrivingCaught(k: nat, ic: Option<Cipher>, t: Traced, step: Net.Step)
    requires Net.Safe(t.net) && Faithful(k, ic, t) && Arriving(t.net, step).Some? && !Step(t, step).skipped
    ensures var r := Arriving(t.net, step).value;
            && Caught(k, t.history, t.net.rx) && Caught(k, t.history, Net.Received(t.net.rx, r))
            && Net.Received(t.net.rx, r).generation <= t.net.rx.generation + 1
            && (r.sn > 0 ==> r.gen <= t.net.rx.generation)
  {
    hide Good, Caught, TxAfter, After, Net.Received, Net.BackendOk, Net.Fenced, Net.Raises, AllGood;
    StepFaithful(k, ic, t, step);
    FenceFollows(t, step);
    var r := Arriving(t.net, step).value;
    assert t.history + [] == t.history;
    assert Net.AtHead(t.net, r);
    HeadRecord(k, ic, t.history, t.net, r);
    Net.ReceivedRaises(t.net.rx, r);
  }

  /** What is counted before, with the record and what it hands over, is counted afterwards. */
  lemma CountedNext(k: nat, ic: Option<Cipher>, h: seq<Dispatch>, b: RS.Buf, b': RS.Buf, heard: set<nat>, items: seq<RS.Item>)
    requires 2 <= k <= 64
    requires forall x | Seen(b, x) || Among(items, x) || x in heard :: Seen(b', x)
    ensures Counted(k, ic, h, b) + heard + E.Numbers(items) <= Counted(k, ic, h, b')
  {
    hide Exempt, Seen, SeenSet;
    forall x | x in Counted(k, ic, h, b) + heard + E.Numbers(items) ensures x in Counted(k, ic, h, b') {
      SeenIs(b, x);
      SeenIs(b', x);
      if x in E.Numbers(items) {
        var j :| 0 <= j < |items| && items[j].sn == x;
        assert Among(items, x);
      }
    }
  }

  /** What is seen stays explained. */
  lemma ExplainedNext(k: nat, ic: Option<Cipher>, h: seq<Dispatch>, b: RS.Buf, b': RS.Buf, items: seq<RS.Item>, bk: Books, bk': Books)
    requires 2 <= k <= 64 && bk.data <= bk'.data && bk.timely <= bk'.timely
    requires forall x | x > 0 && Seen(b, x) :: Explained(k, ic, h, bk, x)
    requires forall x | Among(items, x) :: Explained(k, ic, h, bk', x)
    requires forall x: nat | x > 0 :: Seen(b', x) ==> Seen(b, x) || Among(items, x)
    ensures forall x | x > 0 && Seen(b', x) :: Explained(k, ic, h, bk', x)
  {
    hide Seen, Among, Explained;
    forall x | x > 0 && Seen(b', x) ensures Explained(k, ic, h, bk', x) {
      if Seen(b, x) { ExplainedGrows(k, ic, h, bk, bk', x); }
    }
  }

  lemma ProcessSeenOnly(k: nat, ic: Option<Cipher>, h: seq<Dispatch>, h': seq<Dispatch>, rx: RA.Rx, r: Net.Record, now: nat)
    requires 2 <= k <= 64 && h <= h' && Sizes(h') && SoundCipher(ic) && Trusted(k, h', rx) && Good(k, ic, h, r)
    requires Near(rx.buf, RA.Decode(rx, ic, r.sn, r.payload).items)
    ensures var b' := RA.Process(rx, ic, r.sn, r.payload, now).0.buf;
            forall x: nat | x > 0 :: Seen(b', x) ==> Seen(rx.buf, x) || Among(RA.Decode(rx, ic, r.sn, r.payload).items, x)
  {
    hide RA.Decode, DecoderSafety.Genuine, RS.InsertAll, DS.Inv, Seen, Good, AllReal, Among;
    DecodeReal(k, ic, h, h', rx, r);
    var items := RA.Decode(rx, ic, r.sn, r.payload).items;
    forall x: nat | x > 0 ensures Seen(RS.InsertAll(rx.buf, items, now).0, x) ==> Seen(rx.buf, x) || Among(items, x) {
      InsertAllSeenOnly(h', rx.buf, items, now, x);
    }
  }

  lemma AdvanceKept(k: nat, ic: Option<Cipher>, h: seq<Dispatch>, p: Plane, s: PlaneStep, bk: Books) returns (bk': Books)
    requires Net.Safe(p.t.net) && Sizes(h) && SoundCipher(ic) && 2 <= k <= 64 && Sound(k, ic, h, p)
    requires Kept(k, ic, h, p, bk) && Ordinary(ic, p, s) && !Advance(ic, p, s).t.skipped
    ensures bk'.data == bk.data + DataOfStep(p, s) && bk'.timely == bk.timely + InTimeOfStep(k, p, s)
    ensures Kept(k, ic, h, Advance(ic, p, s), bk')
  {
    hide Net.Safe, Faithful, RA.Process, RA.ProcessRing, RA.Decoding, RA.Quiet, Released, DS.Inv, DecoderSafety.Genuine,
      Gapless, SlotsSeen, Seen, Near, Booked, Counted, Evicts, Step, Net.Received, HeardData, HeardInTime, Caught, Good, Among,
      Explained, Sizes, NotExpired;
    if s.Tick? {
      NothingExpires(ic, p, s.now);
    }
    if s.Tick? || Arriving(p.t.net, s.step).None? {
      bk' := bk;
      assert bk.data + {} == bk.data && bk.timely + {} == bk.timely;
    } else {
      bk' := ArrivalKept(k, ic, h, p, s.step, s.now, bk);
    }
  }

  lemma ArrivalKept(k: nat, ic: Option<Cipher>, h: seq<Dispatch>, p: Plane, step: Net.Step, now: nat, bk: Books) returns (bk': Books)
    requires Net.Safe(p.t.net) && Sizes(h) && SoundCipher(ic) && 2 <= k <= 64 && Sound(k, ic, h, p)
    requires Arriving(p.t.net, step).Some? && Kept(k, ic, h, p, bk)
    requires Ordinary(ic, p, Network(step, now)) && !Advance(ic, p, Network(step, now)).t.skipped
    ensures var r := Arriving(p.t.net, step).value;
            bk'.data == bk.data + HeardData(r) && bk'.timely == bk.timely + HeardInTime(k, p.t.history, p.t.net.rx, r)
    ensures Kept(k, ic, h, Advance(ic, p, Network(step, now)), bk')
  {
    hide Net.Safe, Faithful, RA.Process, RA.ProcessRing, RA.Decoding, RA.Quiet, Released, DS.Inv, DecoderSafety.Genuine,
      Gapless, SlotsSeen, Seen, Near, Booked, Counted, Evicts, Step, Net.Received, HeardData, HeardInTime, Caught, Good, Among,
      Explained, Sizes, NotExpired, RA.Brought, RA.InReach;
    var r := Arriving(p.t.net, step).value;
    var p' := Advance(ic, p, Network(step, now));
    var rx := p.rx.Plain();
    ArrivingGood(k, ic, p.t, step);
    SizesNonEmpty(h);
    GoodNumber(k, ic, p.t.history, r);
    ArrivingCaught(k, ic, p.t, step);
    ProcessReal(k, ic, p.t.history, h, rx, r, now);
    RA.ProcessPlain(p.rx, ic, r.sn, r.payload, now);
    ReachNear(k, ic, p.t.history, h, rx, r);
    ProcessSeen(k, ic, p.t.history, h, rx, r, now, p.out);
    ProcessSeenOnly(k, ic, p.t.history, h, rx, r, now);
    SizedOf(p.rx.fec.value);
    bk' := DecodeBooked(k, ic, p.t.history, h, rx, r, bk);
    ProcessParts(rx, ic, r.sn, r.payload, now);
    var x := RA.Decode(rx, ic, r.sn, r.payload);
    HeardIs(r);
    CountedNext(k, ic, h, p.rx.ring.buf, p'.rx.ring.buf, HeardData(r), x.items);
    ExplainedNext(k, ic, h, p.rx.ring.buf, p'.rx.ring.buf, x.items, bk, bk');
    BookedGrows(k, ic, h, x.fec.value, p.rx.ring.buf.expected,
                Counted(k, ic, h, p.rx.ring.buf) + HeardData(r) + E.Numbers(x.items),
                p'.rx.ring.buf.expected, Counted(k, ic, h, p'.rx.ring.buf), bk');
  }

  lemma HeardIs(r: Net.Record)
    ensures forall x | x in HeardData(r) :: r.sn > 0 && x == r.sn
  {
  }

  lemma ProcessParts(rx: RA.Rx, ic: Option<Cipher>, sn: nat, data: Frame, now: nat)
    requires rx.Ready()
    ensures RA.Process(rx, ic, sn, data, now).0.fec == RA.Decode(rx, ic, sn, data).fec
  {
    hide RA.Decode, RS.InsertAll;
  }

  lemma {:induction false} PlaySkipped(ic: Option<Cipher>, p: Plane, steps: seq<PlaneStep>)
    requires Net.Safe(p.t.net) && p.t.skipped
    ensures Play(ic, p, steps).t.skipped
    decreases |steps|
  {
    hide Net.Safe, RA.ProcessRing, Net.Next, Skips;
    if |steps| == 0 || !p.rx.Ready() {
    } else {
      PlaySkipped(ic, Advance(ic, p, steps[0]), steps[1..]);
    }
  }

  lemma {:induction false} PlayKept(k: nat, ic: Option<Cipher>, h: seq<Dispatch>, p: Plane, steps: seq<PlaneStep>, bk: Books)
    returns (bk': Books)
    requires Net.Safe(p.t.net) && Sizes(h) && SoundCipher(ic) && 2 <= k <= 64 && Sound(k, ic, h, p)
    requires Kept(k, ic, h, p, bk) && OrdinaryRun(ic, p, steps)
    requires Play(ic, p, steps).t.history <= h && !Play(ic, p, steps).t.skipped
    ensures bk'.data == bk.data + DataArrived(ic, p, steps) && bk'.timely == bk.timely + ParityInTime(k, ic, p, steps)
    ensures Kept(k, ic, h, Play(ic, p, steps), bk')
    decreases |steps|
  {
    hide Net.Safe, Sound, Advance, Kept, Ordinary, DataOfStep, InTimeOfStep;
    if |steps| == 0 || !p.rx.Ready() {
      bk' := bk;
      assert bk.data + {} == bk.data && bk.timely + {} == bk.timely;
    } else {
      var s := steps[0];
      var p' := Advance(ic, p, s);
      PlayExtends(ic, p', steps[1..]);
      if p'.t.skipped { PlaySkipped(ic, p', steps[1..]); }
      AdvanceSound(k, ic, h, p, s);
      var bk1 := AdvanceKept(k, ic, h, p, s, bk);
      bk' := PlayKept(k, ic, h, p', steps[1..], bk1);
      assert bk1.data + DataArrived(ic, p', steps[1..]) == bk.data + DataArrived(ic, p, steps);
      assert bk1.timely + ParityInTime(k, ic, p', steps[1..]) == bk.timely + ParityInTime(k, ic, p, steps);
    }
  }

  lemma BeginKept(k: nat, ic: Option<Cipher>, h: seq<Dispatch>)
    requires 2 <= k <= 64
    ensures Kept(k, ic, h, Begin(k, ic), NO_BOOKS)
  {
    hide Exempt;
    var d := DS.NewDec(k);
    forall s | IsStart(s, d.k) ensures E.Accounted(d, s, Counted(k, ic, h, Begin(k, ic).rx.ring.buf), {}, {}) {
    }
  }

  /** A lost frame is seen all the same. */
  lemma LostSeen(k: nat, ic: Option<Cipher>, h: seq<Dispatch>, d: DS.Dec, b: RS.Buf, data: set<nat>, held: set<nat>,
                 parity: set<nat>, x: nat)
    requires 2 <= k <= 64 && DS.Inv(d) && d.k == k && 1 <= x <= |h| && OnlyLoss(k, ic, h, data, parity, x)
    requires E.Ledger(d, Counted(k, ic, h, b), data, held) && parity <= held
    ensures Seen(b, x)
  {
    hide IsStart, GroupStart, Protected, DS.IsDone, Seen, SeenSet, DS.Missing;
    var s := GroupStart(x, k);
    var i := Counted(k, ic, h, b);
    ProtectedStart(k, ic, h, s);
    assert E.Accounted(d, s, i, data, held);
    if E.AllIn(i, s, k) {
      assert E.Has(i, s, x - s);
      SeenIs(b, x);
    } else {
      OneMissing(d, s, k, data, held, x);
    }
  }

  lemma ProtectedStart(k: nat, ic: Option<Cipher>, h: seq<Dispatch>, s: nat)
    requires 2 <= k <= 64 && Protected(k, ic, h, s)
    ensures IsStart(s, k)
  {
  }

  /** A stored group with its parity and all members but one would have been finished. */
  lemma OneMissing(d: DS.Dec, s: nat, k: nat, data: set<nat>, parity: set<nat>, x: nat)
    requires DS.Inv(d) && d.k == k && s in parity && s <= x < s + k
    requires forall j | 0 <= j < k && s + j != x :: E.Has(data, s, j)
    ensures !E.Matches(d.groups, s, k, data, parity)
  {
    if s in d.groups {
      var missing := DS.Missing(d.groups[s], k);
      if missing <= {x - s} { DecoderSafety.SubsetSize(missing, {x - s}); }
    }
  }

  /** Exactly which frames the receiver has. In every run in which it skips no generation, evicts no group, does not time
      out and sees no frame far ahead, through any suspensions and resumptions and with any losses: a frame has been
      released or is pending if and only if it arrived, or is the only one missing from a group whose parity was sent and
      came in time. */
  lemma SeenExactly(k: nat, ic: Option<Cipher>, steps: seq<PlaneStep>, x: nat)
    requires 2 <= k <= 64 && SoundCipher(ic) && OrdinaryRun(ic, Begin(k, ic), steps)
    requires var p := Play(ic, Begin(k, ic), steps); Sizes(p.t.history) && !p.t.skipped && 1 <= x <= |p.t.history|
    ensures var p := Play(ic, Begin(k, ic), steps);
            var data := DataArrived(ic, Begin(k, ic), steps);
            Seen(p.rx.ring.buf, x) <==>
              x in data || OnlyLoss(k, ic, p.t.history, data, ParityInTime(k, ic, Begin(k, ic), steps), x)
  {
    hide Net.Safe, Play, Begin, OrdinaryRun, DataArrived, ParityInTime, Sound, Gapless, SlotsSeen, Seen, OnlyLoss, E.Ledger,
      Counted, Backed, RetiredBehind, Sourced;
    var p := Play(ic, Begin(k, ic), steps);
    var h := p.t.history;
    BeginSound(k, ic, h);
    BeginKept(k, ic, h);
    PlaySound(k, ic, h, Begin(k, ic), steps);
    var bk := PlayKept(k, ic, h, Begin(k, ic), steps, NO_BOOKS);
    assert bk.data == DataArrived(ic, Begin(k, ic), steps) && bk.timely == ParityInTime(k, ic, Begin(k, ic), steps);
    SoundDecoder(k, ic, h, p);
    if OnlyLoss(k, ic, h, bk.data, bk.timely, x) {
      LostSeen(k, ic, h, p.rx.fec.value, p.rx.ring.buf, bk.data, bk.held, bk.timely, x);
    }
  }

  lemma AlwaysGapless(k: nat, ic: Option<Cipher>, steps: seq<PlaneStep>)
    requires 2 <= k <= 64 && SoundCipher(ic) && OrdinaryRun(ic, Begin(k, ic), steps)
    requires var p := Play(ic, Begin(k, ic), steps); Sizes(p.t.history) && !p.t.skipped
    ensures Gapless(Play(ic, Begin(k, ic), steps).out, Play(ic, Begin(k, ic), steps).rx.ring.buf)
  {
    hide Net.Safe, Play, Begin, OrdinaryRun, Sound, Gapless, Seen, Sizes, Booked, SlotsSeen;
    var p := Play(ic, Begin(k, ic), steps);
    BeginSound(k, ic, p.t.history);
    BeginKept(k, ic, p.t.history);
    var bk := PlayKept(k, ic, p.t.history, Begin(k, ic), steps, NO_BOOKS);
  }

  /** The released frames are the written ones up to the first that has not been seen. */
  lemma ReleasedPrefix(k: nat, ic: Option<Cipher>, h: seq<Dispatch>, p: Plane)
    requires Net.Safe(p.t.net) && Sound(k, ic, h, p) && h == p.t.history && Gapless(p.out, p.rx.ring.buf)
    ensures |p.out| <= |h| && p.out == Everything(h)[..|p.out|]
    ensures forall x | 1 <= x <= |p.out| :: Seen(p.rx.ring.buf, x)
    ensures !Seen(p.rx.ring.buf, |p.out| + 1)
    ensures |p.out| == |h| ==> p.rx.ring.buf.pending == map[]
  {
    hide Net.Safe, Faithful, DecoderSafety.Genuine, DS.Inv;
    PendingAhead(h, p.rx.ring.buf);
    if |p.out| > 0 { assert Real(h, p.out[|p.out| - 1]); }
    forall i | 0 <= i < |p.out| ensures p.out[i] == Everything(h)[i] { assert Real(h, p.out[i]); }
  }

  /** Exactly what comes out: in every such run the released frames are the written frames, in order, up to the first one
      that neither arrived nor is the only loss of a group whose parity was sent and came in time. */
  lemma ReleasedExactly(k: nat, ic: Option<Cipher>, steps: seq<PlaneStep>)
    requires 2 <= k <= 64 && SoundCipher(ic) && OrdinaryRun(ic, Begin(k, ic), steps)
    requires var p := Play(ic, Begin(k, ic), steps); Sizes(p.t.history) && !p.t.skipped
    ensures var p := Play(ic, Begin(k, ic), steps);
            var h, n := p.t.history, |p.out|;
            var data, parity := DataArrived(ic, Begin(k, ic), steps), ParityInTime(k, ic, Begin(k, ic), steps);
            && n <= |h| && p.out == Everything(h)[..n]
            && (forall x | 1 <= x <= n :: x in data || OnlyLoss(k, ic, h, data, parity, x))
            && (n < |h| ==> n + 1 !in data && !OnlyLoss(k, ic, h, data, parity, n + 1))
            && (n == |h| ==> p.rx.ring.buf.pending == map[])
  {
    hide Net.Safe, Play, Begin, OrdinaryRun, DataArrived, ParityInTime, Sound, Seen, OnlyLoss, Sizes, Gapless, Everything;
    var p := Play(ic, Begin(k, ic), steps);
    var h, n := p.t.history, |p.out|;
    BeginSound(k, ic, h);
    PlaySound(k, ic, h, Begin(k, ic), steps);
    AlwaysGapless(k, ic, steps);
    ReleasedPrefix(k, ic, h, p);
    forall x | 1 <= x <= n
      ensures || x in DataArrived(ic, Begin(k, ic), steps)
              || OnlyLoss(k, ic, h, DataArrived(ic, Begin(k, ic), steps), ParityInTime(k, ic, Begin(k, ic), steps), x)
    {
      SeenExactly(k, ic, steps, x);
    }
    if n < |h| { SeenExactly(k, ic, steps, n + 1); }
  }

  /** Exactly once, in order, in spite of losses: in every such run the released frames are exactly the written frames if
      and only if every frame that did not arrive is the only loss of a group whose parity was sent and came in time. */
  lemma RecoveredExactly(k: nat, ic: Option<Cipher>, steps: seq<PlaneStep>)
    requires 2 <= k <= 64 && SoundCipher(ic) && OrdinaryRun(ic, Begin(k, ic), steps)
    requires var p := Play(ic, Begin(k, ic), steps); Sizes(p.t.history) && !p.t.skipped
    ensures var p := Play(ic, Begin(k, ic), steps);
            p.out == Everything(p.t.history) <==>
              Covered(k, ic, p.t.history, DataArrived(ic, Begin(k, ic), steps), ParityInTime(k, ic, Begin(k, ic), steps))
  {
    hide Net.Safe, Play, Begin, OrdinaryRun, DataArrived, ParityInTime, OnlyLoss, Sizes;
    ReleasedExactly(k, ic, steps);
    var p := Play(ic, Begin(k, ic), steps);
    assert Everything(p.t.history)[..|p.t.history|] == Everything(p.t.history);
  }

  lemma SoundDecoder(k: nat, ic: Option<Cipher>, h: seq<Dispatch>, p: Plane)
    requires Sound(k, ic, h, p)
    ensures p.rx.fec.Some? && DS.Inv(p.rx.fec.value) && p.rx.fec.value.k == k
  {
    hide Faithful, DS.Inv, Released;
  }
}
