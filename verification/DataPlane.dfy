/** The whole data plane in one state machine: dispatch over paths that come and go, streams that are delayed
    or lost, mode changes, the FEC decoder, the duplicate filter, the reorder buffer and its timer. Whatever
    happens, what comes out is what went in, in order and at most once (src/net.rs, src/protocol.rs,
    src/fec.rs, src/rx_actor.rs, src/buffer.rs). */
module DataPlane {
  import opened Bytes
  import opened Parity
  import opened FecMode
  import opened FecEncoder
  import opened FenceWindows
  import opened FencedBypass
  import opened RealFrames
  import Net = FencedDispatch
  import DS = DecoderSpec
  import DecoderSafety
  import RS = ReorderSpec
  import RingSpec
  import RA = RxActor

  // ---------- the decoder on records of the run ----------

  lemma ExtendedSent(h: seq<Dispatch>, h': seq<Dispatch>, sn: nat)
    requires h <= h' && 0 < sn <= |h|
    ensures Sent(h')(sn) == Sent(h)(sn) == Nth(h, sn).data
  {
  }

  /** A parity record of the run is genuine for everything that is ever sent. */
  lemma ParityRecordGenuine(k: nat, ic: Option<Cipher>, h: seq<Dispatch>, h': seq<Dispatch>, payload: Frame)
    requires 2 <= k <= 64 && h <= h' && Sizes(h') && EmittedParity(k, ic, h, payload)
    ensures exists start :: DecoderSafety.GenuineParity(payload, ic, k, start, Sent(h'))
  {
    hide ParityAt, ParityOf, IsStart, Multipath;
    var e :| 0 < e <= |h| && ParityAt(k, ic, h, e) == Some(payload);
    assert NonEmpty(h) by { forall i | 0 <= i < |h| ensures |h[i].data| > 0 { assert h[i] == h'[i]; } }
    ParityExactly(k, ic, h, e);
    var start := e - k + 1;
    forall j: nat | j < k
      ensures MemberOf(Sent(h'), start, j) == MemberOf(Sent(h), start, j)
      ensures 0 < |MemberOf(Sent(h'), start, j)| <= U32_MAX
    {
      ExtendedSent(h, h', start + j);
      assert h[start + j - 1] == h'[start + j - 1];
    }
    SameParity(ic, Sent(h), Sent(h'), start, k);
    assert DecoderSafety.GenuineParity(payload, ic, k, start, Sent(h'));
  }

  lemma SameParity(ic: Option<Cipher>, sent: nat -> Frame, sent': nat -> Frame, start: nat, k: nat)
    requires 0 < k < 256 && forall j: nat | j < k :: MemberOf(sent', start, j) == MemberOf(sent, start, j)
    ensures ParityOf(ic, sent', start, k) == ParityOf(ic, sent, start, k)
  {
    hide Build, XorBody, MaxOf;
    assert LensOf(sent', start, k) == LensOf(sent, start, k);
    assert GroupOf(sent', start, k) == GroupOf(sent, start, k);
  }

  predicate SameSettings(d: DS.Dec, d': DS.Dec) {
    d'.fence == d.fence && d'.k == d.k && d'.single == d.single && d'.cleanup == d.cleanup
  }

  lemma RecoverKeepsSettings(d: DS.Dec, start: nat)
    requires d.Sized()
    requires start in d.groups && d.groups[start].parity.Some? ==> |d.groups[start].parity.value.lens| == d.k
    ensures SameSettings(d, DS.TryRecover(d, start).0)
  {
    hide DS.MarkDone, DS.Rebuild, DS.Missing;
  }

  lemma DataKeepsSettings(d: DS.Dec, sn: nat, frame: Frame, progress: Option<nat>)
    requires d.Sized() && DS.Structured(d)
    ensures SameSettings(d, DS.OnData(d, sn, frame, progress).0)
  {
    hide DS.Entry, DS.MarkDone, DS.Rebuild, DS.Missing, DS.IsDone, GroupStart, IsStart;
  }

  lemma ParityKeepsSettings(d: DS.Dec, ic: Option<Cipher>, payload: Frame, progress: Option<nat>)
    requires d.Sized() && DS.Structured(d)
    ensures SameSettings(d, DS.OnParity(d, ic, payload, progress).0)
  {
    hide DS.TryRecover, DS.Retire, DS.Entry, DS.IsDone, ParseBody, ParseHeader, IsStart;
    DecoderSafety.RetireKeepsSettings(d, progress);
    RetireSized(d, progress);
    var header := ParseHeader(d.k, payload);
    if !d.single && header.Ok? {
      var start := header.value;
      var d1 := DS.Retire(d, progress);
      var body := ParseBody(d.k, ic, payload, start);
      if !DS.IsRetired(d1, start) && body.Ok? && !DS.IsDone(d1.done, start, d.k) {
        var groups := DS.Entry(d1.groups, start);
        if groups[start].parity.None? {
          var d2 := d1.(groups := groups[start := groups[start].(parity := Some(body.value))]);
          RecoverKeepsSettings(d2, start);
          DecoderSafety.RetireKeepsSettings(DS.TryRecover(d2, start).0, progress);
        }
      }
    }
  }

  lemma RetireSized(d: DS.Dec, progress: Option<nat>)
    requires d.Sized()
    ensures DS.Retire(d, progress).Sized()
  {
  }

  lemma ModeSetsFence(d: DS.Dec, c: Control, progress: Option<nat>)
    ensures var d' := DS.OnMode(d, c, progress);
            && d'.fence == Apply(d.fence, c) && d'.k == d.k && d'.single == d.single
            && (d'.cleanup == d.cleanup || d'.cleanup == d'.fence.from)
  {
    hide DS.DropRange, DS.KeepFrom, Apply;
  }

  // ---------- the receiver on records of the run ----------

  /** The bypass window and the retirement mark of a decoder lie on group starts. */
  predicate OnStarts(d: DS.Dec) {
    d.k > 0 && Aligned(d.fence, d.k) && (d.cleanup == 0 || IsStart(d.cleanup, d.k))
  }

  /** A receiver with FEC whose groups hold only frames of the run. */
  ghost predicate Trusted(k: nat, h: seq<Dispatch>, rx: RA.Rx) {
    && rx.Ready() && rx.fec.Some? && rx.fec.value.k == k && !rx.fec.value.single && OnStarts(rx.fec.value)
    && DecoderSafety.Genuine(rx.fec.value, Sent(h))
    && Stocked(h, rx.buf)
  }

  lemma RecoveredReal(h: seq<Dispatch>, rec: Option<DS.Recovered>)
    requires Sizes(h) && DecoderSafety.GenuineOutput(rec, Sent(h))
    ensures AllReal(h, RA.RecoveredItems(RA.Narrow(rec)))
  {
  }

  lemma PairReal(h: seq<Dispatch>, sn: nat, data: Frame, rec: Option<DS.Recovered>)
    requires Sizes(h) && DecoderSafety.GenuineOutput(rec, Sent(h)) && Real(h, RS.Item(sn, data))
    ensures AllReal(h, RA.PairItems(sn, data, RA.Narrow(rec)))
  {
  }

  lemma DecodeDataReal(k: nat, ic: Option<Cipher>, h: seq<Dispatch>, h': seq<Dispatch>, rx: RA.Rx, r: Net.Record)
    requires 2 <= k <= 64 && h <= h' && Sizes(h') && SoundCipher(ic) && Trusted(k, h', rx) && Good(k, ic, h, r) && r.sn > 0
    ensures var x := RA.Decode(rx, ic, r.sn, r.payload);
            && x.error.None? && AllReal(h', x.items)
            && x.fec.Some? && x.fec.value.k == k && !x.fec.value.single && x.fec.value.fence == rx.fec.value.fence
            && OnStarts(x.fec.value)
            && DecoderSafety.Genuine(x.fec.value, Sent(h'))
  {
    hide DS.OnData, DS.Inv, DS.Structured, DecoderSafety.Genuine, DecoderSafety.GenuineOutput, RA.PairItems, RA.RecoveredItems,
      RA.Narrow, RS.Orderly, TxAfter, Real, DS.OnControl;
    ExtendedSent(h, h', r.sn);
    assert Real(h', RS.Item(r.sn, r.payload)) by { RealRecord(k, ic, h, h', r); }
    var d := rx.fec.value;
    var progress := Some(rx.buf.expected);
    DecoderSafety.InvStructured(d);
    SizedOf(d);
    DataKeepsSettings(d, r.sn, r.payload, progress);
    DecoderSafety.StepSound(d, ic, DecoderSafety.Data(r.sn, r.payload, progress), Sent(h'));
    var rec := DS.OnData(d, r.sn, r.payload, progress).1;
    RecoveredReal(h', rec);
    PairReal(h', r.sn, r.payload, rec);
  }

  lemma RealRecord(k: nat, ic: Option<Cipher>, h: seq<Dispatch>, h': seq<Dispatch>, r: Net.Record)
    requires 2 <= k <= 64 && h <= h' && Good(k, ic, h, r) && r.sn > 0
    ensures Real(h', RS.Item(r.sn, r.payload))
  {
    hide TxAfter;
  }

  lemma DecodeParityReal(k: nat, ic: Option<Cipher>, h: seq<Dispatch>, h': seq<Dispatch>, rx: RA.Rx, payload: Frame)
    requires 2 <= k <= 64 && h <= h' && Sizes(h') && SoundCipher(ic) && Trusted(k, h', rx) && EmittedParity(k, ic, h, payload)
    requires ControlKind(payload) == Ok(KIND_FEC_PARITY)
    ensures var x := RA.Decode(rx, ic, 0, payload);
            && x.error.None? && AllReal(h', x.items)
            && x.fec.Some? && x.fec.value.k == k && !x.fec.value.single && x.fec.value.fence == rx.fec.value.fence
            && OnStarts(x.fec.value)
            && DecoderSafety.Genuine(x.fec.value, Sent(h'))
  {
    hide DS.OnParity, DS.Inv, DS.Structured, DecoderSafety.Genuine, DecoderSafety.GenuineOutput, RA.RecoveredItems,
      RA.Narrow, RS.Orderly, Real, ControlKind, DecoderSafety.GenuineParity, EmittedParity;
    ParityRecordGenuine(k, ic, h, h', payload);
    var start :| DecoderSafety.GenuineParity(payload, ic, k, start, Sent(h'));
    var d := rx.fec.value;
    var progress := Some(rx.buf.expected);
    DecoderSafety.InvStructured(d);
    SizedOf(d);
    ParityKeepsSettings(d, ic, payload, progress);
    DecoderSafety.OnParitySound(d, ic, payload, progress, start, Sent(h'));
    RecoveredReal(h', DS.OnParity(d, ic, payload, progress).1.value);
  }

  lemma SizedOf(d: DS.Dec)
    requires DS.Inv(d)
    ensures d.Sized()
  {
  }

  lemma ModeOnStarts(k: nat, h: seq<Dispatch>, f: Fence, c: Control)
    requires 2 <= k <= 64 && Aligned(f, k) && Emitted(k, h, c)
    ensures Aligned(Apply(f, c), k)
  {
    hide IsStart, EmittedAt;
    var m :| 0 < m <= |h| && EmittedAt(k, h, m) == Some(c);
    EmittedAligned(k, h, m);
  }

  lemma DecodeModeReal(k: nat, ic: Option<Cipher>, h: seq<Dispatch>, h': seq<Dispatch>, rx: RA.Rx, r: Net.Record)
    requires 2 <= k <= 64 && Trusted(k, h', rx) && IsMode(r) && Emitted(k, h, Parse(r.payload).value)
    ensures var x := RA.Decode(rx, ic, 0, r.payload);
            && x.error.None? && x.items == []
            && x.fec.Some? && x.fec.value.k == k && !x.fec.value.single
            && x.fec.value.fence == Net.Received(rx.fec.value.fence, r)
            && OnStarts(x.fec.value)
            && DecoderSafety.Genuine(x.fec.value, Sent(h'))
  {
    hide DS.OnMode, DS.OnParity, DS.Inv, DS.Structured, DecoderSafety.Genuine, RS.Orderly, ControlKind, Parse, Apply;
    var d := rx.fec.value;
    var c := Parse(r.payload).value;
    DecoderSafety.InvStructured(d);
    ModeSetsFence(d, c, Some(rx.buf.expected));
    ModeOnStarts(k, h, d.fence, c);
    DecoderSafety.OnModeSound(d, c, Some(rx.buf.expected), Sent(h'));
  }

  /** A record of the run that is no mode control and has no number is a parity record. */
  lemma ParityKind(k: nat, ic: Option<Cipher>, h: seq<Dispatch>, payload: Frame)
    requires 2 <= k <= 64 && EmittedParity(k, ic, h, payload)
    ensures ControlKind(payload) == Ok(KIND_FEC_PARITY)
  {
    hide SetPaths, After, Sealed, EncodeLens, XorBody, IsStart;
    var e :| 0 < e <= |h| && ParityAt(k, ic, h, e) == Some(payload);
  }

  /** Decoding any record of the run raises no error, moves the decoder's fence as the protocol says, and hands
      over only real frames. */
  lemma DecodeReal(k: nat, ic: Option<Cipher>, h: seq<Dispatch>, h': seq<Dispatch>, rx: RA.Rx, r: Net.Record)
    requires 2 <= k <= 64 && h <= h' && Sizes(h') && SoundCipher(ic) && Trusted(k, h', rx) && Good(k, ic, h, r)
    ensures var x := RA.Decode(rx, ic, r.sn, r.payload);
            && x.error.None? && AllReal(h', x.items)
            && x.fec.Some? && x.fec.value.k == k && !x.fec.value.single
            && x.fec.value.fence == Net.Received(rx.fec.value.fence, r)
            && OnStarts(x.fec.value)
            && DecoderSafety.Genuine(x.fec.value, Sent(h'))
  {
    hide RA.Decode, DecoderSafety.Genuine, AllReal, DS.Inv, Parse, ControlKind, EmittedParity, Emitted, TxAfter, Stocked;
    if r.sn > 0 {
      DecodeDataReal(k, ic, h, h', rx, r);
    } else if IsMode(r) {
      DecodeModeReal(k, ic, h, h', rx, r);
      NothingReal(h');
    } else {
      ParityKind(k, ic, h, r.payload);
      DecodeParityReal(k, ic, h, h', rx, r.payload);
    }
  }

  /** Any record of the run leaves the receiver trusted, raises no error, moves the decoder's fence as the
      protocol says, and releases only real frames, in order, from the position on. No frame it hands over is a
      wrapped arrival. */
  lemma ProcessReal(k: nat, ic: Option<Cipher>, h: seq<Dispatch>, h': seq<Dispatch>, rx: RA.Rx, r: Net.Record, now: nat)
    requires 2 <= k <= 64 && h <= h' && Sizes(h') && SoundCipher(ic) && Trusted(k, h', rx) && Good(k, ic, h, r)
    requires rx.buf.expected <= |h'| + 1
    ensures RA.Quiet(rx, ic, r.sn, r.payload, now)
    ensures var (rx', items, error) := RA.Process(rx, ic, r.sn, r.payload, now);
            && error.None? && Trusted(k, h', rx')
            && rx'.fec.value.fence == Net.Received(rx.fec.value.fence, r)
            && rx.buf.expected <= rx'.buf.expected <= |h'| + 1
            && Released(h', items, rx.buf.expected, rx'.buf.expected)
  {
    hide RA.Decode, DecoderSafety.Genuine, RS.InsertAll, Released, AllReal, DS.Inv, RingSpec.NoWrappedArrival, Good;
    GoodNumber(k, ic, h, r);
    DecodeReal(k, ic, h, h', rx, r);
    RA.DecodeKeepsInv(rx, ic, r.sn, r.payload);
    NeverWrapped(h', rx.buf, RA.Decode(rx, ic, r.sn, r.payload).items, now);
    InsertAllReal(h', rx.buf, RA.Decode(rx, ic, r.sn, r.payload).items, now);
  }

  lemma GoodNumber(k: nat, ic: Option<Cipher>, h: seq<Dispatch>, r: Net.Record)
    requires 2 <= k <= 64 && Good(k, ic, h, r)
    ensures r.sn <= |h|
  {
    hide TxAfter, IsMode, Emitted, EmittedParity;
  }

  lemma NothingReal(h: seq<Dispatch>)
    ensures AllReal(h, [])
  {
  }

  // ---------- the machine ----------

  /** The network with its trace, the receiving session with its ring, everything released, and whether a record was
      refused. */
  datatype Plane = Plane(t: Traced, rx: RA.Session, out: seq<RS.Item>, failed: bool)

  /** A step of the network at some time, or the reorder timer. */
  datatype PlaneStep = Network(step: Net.Step, now: nat) | Tick(now: nat)

  /** The record a step hands to the receiver. */
  function Arriving(n: Net.Net, step: Net.Step): Option<Net.Record> {
    match step
    case ReceiveLive(i) => if i < |n.live| && |n.live[i].fifo| > 0 then Some(n.live[i].fifo[0]) else None
    case ReceiveOrphan(i) => if i < |n.orphans| && |n.orphans[i]| > 0 then Some(n.orphans[i][0]) else None
    case _ => None
  }

  ghost function Advance(ic: Option<Cipher>, p: Plane, s: PlaneStep): (p': Plane)
    requires Net.Safe(p.t.net) && p.rx.Ready()
    ensures Net.Safe(p'.t.net)
  {
    match s
    case Tick(now) =>
      var (ring, items) := RingSpec.RingTimeout(p.rx.ring, now);
      p.(rx := p.rx.(ring := ring), out := p.out + items)
    case Network(step, now) =>
      var r := Arriving(p.t.net, step);
      if r.None? then p.(t := Step(p.t, step))
      else
        var (rx, items, error) := RA.ProcessRing(p.rx, ic, r.value.sn, r.value.payload, now);
        Plane(Step(p.t, step), rx, p.out + items, p.failed || error.Some?)
  }

  /** A run; it would stop at a receiver state that is not ready, which never happens. */
  ghost function Play(ic: Option<Cipher>, p: Plane, steps: seq<PlaneStep>): (p': Plane)
    requires Net.Safe(p.t.net)
    ensures Net.Safe(p'.t.net)
    decreases |steps|
  {
    if |steps| == 0 || !p.rx.Ready() then p else Play(ic, Advance(ic, p, steps[0]), steps[1..])
  }

  // ---------- the invariant ----------

  /** Everything so far is true to what the whole run sends, `h`. */
  ghost predicate Sound(k: nat, ic: Option<Cipher>, h: seq<Dispatch>, p: Plane) {
    && Faithful(k, ic, p.t) && p.t.history <= h
    && p.rx.Ready() && RingSpec.Fits(p.rx.ring)
    && Trusted(k, h, p.rx.Plain()) && p.rx.fec.value.fence == p.t.net.rx
    && p.rx.ring.buf.expected <= |h| + 1
    && Released(h, p.out, 0, p.rx.ring.buf.expected)
    && !p.failed
  }

  lemma ArrivingGood(k: nat, ic: Option<Cipher>, t: Traced, step: Net.Step)
    requires Faithful(k, ic, t) && Arriving(t.net, step).Some?
    ensures Good(k, ic, t.history, Arriving(t.net, step).value)
  {
    hide Good, Caught, TxAfter, After;
    match step
    case ReceiveLive(i) => HeadGood(k, ic, t.history, t.net.live[i].fifo);
    case ReceiveOrphan(i) => HeadGood(k, ic, t.history, t.net.orphans[i]);
  }

  /** The network's fence moves with the record that arrives. */
  lemma FenceFollows(t: Traced, step: Net.Step)
    requires Net.Safe(t.net)
    ensures var r := Arriving(t.net, step);
            Step(t, step).net.rx == if r.Some? then Net.Received(t.net.rx, r.value) else t.net.rx
  {
    hide Net.Received, Net.SendToAny, Added, Observed, Net.BackendOk, Net.Fenced;
  }

  lemma AdvanceSound(k: nat, ic: Option<Cipher>, h: seq<Dispatch>, p: Plane, s: PlaneStep)
    requires Net.Safe(p.t.net) && Sizes(h) && SoundCipher(ic) && Sound(k, ic, h, p)
    requires Advance(ic, p, s).t.history <= h
    ensures Sound(k, ic, h, Advance(ic, p, s))
  {
    hide Net.Safe, Faithful, RA.Process, RA.ProcessRing, Released, Step, RS.Timeout, RingSpec.RingTimeout, DS.Inv,
      DecoderSafety.Genuine, Net.Received, RA.Quiet;
    var b := p.rx.ring.buf;
    match s
    case Tick(now) =>
      RingSpec.TimeoutPlain(p.rx.ring, now);
      TimeoutReal(h, b, now);
      var (b', items) := RS.Timeout(b, now);
      ReleasedMore(h, p.out, items, 0, b.expected, b'.expected);
    case Network(step, now) =>
      StepFaithful(k, ic, p.t, step) by { FaithfulK(k, ic, p.t); }
      FenceFollows(p.t, step);
      var r := Arriving(p.t.net, step);
      if r.Some? {
        FaithfulK(k, ic, p.t);
        ArrivingGood(k, ic, p.t, step);
        GoodNumber(k, ic, p.t.history, r.value);
        ProcessReal(k, ic, p.t.history, h, p.rx.Plain(), r.value, now);
        RA.ProcessPlain(p.rx, ic, r.value.sn, r.value.payload, now);
        var (rx, items, error) := RA.ProcessRing(p.rx, ic, r.value.sn, r.value.payload, now);
        ReleasedMore(h, p.out, items, 0, b.expected, rx.ring.buf.expected);
      }
  }

  lemma FaithfulK(k: nat, ic: Option<Cipher>, t: Traced)
    requires Faithful(k, ic, t)
    ensures 2 <= k <= 64
  {
  }

  lemma {:induction false} PlayExtends(ic: Option<Cipher>, p: Plane, steps: seq<PlaneStep>)
    requires Net.Safe(p.t.net)
    ensures p.t.history <= Play(ic, p, steps).t.history
    decreases |steps|
  {
    hide Net.Safe, Step, RA.ProcessRing, RingSpec.RingTimeout;
    if |steps| == 0 || !p.rx.Ready() {
    } else {
      if steps[0].Network? { StepExtends(p.t, steps[0].step); }
      PlayExtends(ic, Advance(ic, p, steps[0]), steps[1..]);
    }
  }

  lemma {:induction false} PlaySound(k: nat, ic: Option<Cipher>, h: seq<Dispatch>, p: Plane, steps: seq<PlaneStep>)
    requires Net.Safe(p.t.net) && Sizes(h) && SoundCipher(ic) && Sound(k, ic, h, p)
    requires Play(ic, p, steps).t.history <= h
    ensures Sound(k, ic, h, Play(ic, p, steps))
    decreases |steps|
  {
    hide Net.Safe, Sound, Advance;
    if |steps| == 0 || !p.rx.Ready() {
    } else {
      PlayExtends(ic, Advance(ic, p, steps[0]), steps[1..]);
      AdvanceSound(k, ic, h, p, steps[0]);
      PlaySound(k, ic, h, Advance(ic, p, steps[0]), steps[1..]);
    }
  }

  ghost function Begin(k: nat, ic: Option<Cipher>): (p: Plane)
    ensures Net.Safe(p.t.net)
  {
    Plane(Start(k, ic), RA.Session(Some(DS.NewDec(k)), RingSpec.EMPTY_RING, seq(RA.DEDUP_WINDOW, _ => 0)), [], false)
  }

  lemma BeginSound(k: nat, ic: Option<Cipher>, h: seq<Dispatch>)
    requires 2 <= k <= 64
    ensures Sound(k, ic, h, Begin(k, ic))
  {
    hide Faithful, Net.Safe, DS.Inv;
    StartFaithful(k, ic);
    DecoderSafety.NewDecInv(k);
  }

  /** Whole-system safety. In every run, with any number of paths joining, leaving, filling up and falling
      back, streams delayed or lost, mode changes skipped or not, recoveries, evictions and timeouts: no
      record is refused; the released sequence numbers strictly increase; and each released frame is the one
      that was written under its number. */
  lemma DeliveredIsSent(k: nat, ic: Option<Cipher>, steps: seq<PlaneStep>)
    requires 2 <= k <= 64 && SoundCipher(ic)
    requires Sizes(Play(ic, Begin(k, ic), steps).t.history)
    ensures var p := Play(ic, Begin(k, ic), steps);
            && !p.failed
            && RS.Increasing(p.out)
            && (forall i | 0 <= i < |p.out| ::
                  0 < p.out[i].sn <= |p.t.history| && p.out[i].data == Nth(p.t.history, p.out[i].sn).data)
            && p.rx.fec.Some? && p.rx.fec.value.fence == p.t.net.rx
  {
    hide Net.Safe, Play, Begin, Faithful, Trusted;
    var h := Play(ic, Begin(k, ic), steps).t.history;
    BeginSound(k, ic, h);
    PlaySound(k, ic, h, Begin(k, ic), steps);
    TrustedFec(k, h, Play(ic, Begin(k, ic), steps).rx.Plain());
  }

  lemma TrustedFec(k: nat, h: seq<Dispatch>, rx: RA.Rx)
    requires Trusted(k, h, rx)
    ensures rx.fec.Some?
  {
  }

  /** In every run, a group that the decoder gives up because the reorder buffer passed its retirement mark lies
      wholly behind the reorder position: nothing that could still be released is given up. */
  lemma RetirementHarmless(k: nat, ic: Option<Cipher>, steps: seq<PlaneStep>, s: nat)
    requires 2 <= k <= 64 && SoundCipher(ic)
    requires Sizes(Play(ic, Begin(k, ic), steps).t.history)
    ensures var p := Play(ic, Begin(k, ic), steps);
            && p.rx.fec.Some?
            && var d := p.rx.fec.value;
               s in d.groups && s !in DS.Retire(d, Some(p.rx.ring.buf.expected)).groups ==> s + k <= p.rx.ring.buf.expected
  {
    hide Net.Safe, Play, Begin, Faithful, DecoderSafety.Genuine, IsStart;
    var h := Play(ic, Begin(k, ic), steps).t.history;
    BeginSound(k, ic, h);
    PlaySound(k, ic, h, Begin(k, ic), steps);
    var p := Play(ic, Begin(k, ic), steps);
    var d := p.rx.fec.value;
    if s in d.groups && s !in DS.Retire(d, Some(p.rx.ring.buf.expected)).groups {
      StoredStart(d, s);
      StartsApart(s, d.cleanup, k);
    }
  }

  lemma StoredStart(d: DS.Dec, s: nat)
    requires DS.Inv(d) && s in d.groups
    ensures d.k > 0 && IsStart(s, d.k)
  {
  }
}
