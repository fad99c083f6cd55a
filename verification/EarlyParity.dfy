/** A run in which a parity record overtakes two mode controls and is thrown away with the suspension, so that the one
    frame it protects is never recovered (src/net.rs, src/protocol.rs, src/fec.rs). */
module EarlyParity {
  import opened Bytes
  import opened Parity
  import opened FecMode
  import opened FecEncoder
  import opened FencedDispatch
  import opened SkippedGeneration
  import FB = FencedBypass
  import DP = DataPlane
  import DL = Delivery
  import LB = LossBooks
  import LD = LossyDelivery
  import RealFrames
  import E = EndToEnd
  import FD = FecDecoder
  import DS = DecoderSpec
  import DecoderSafety
  import RS = ReorderSpec
  import RingSpec
  import RA = RxActor

  // ---------- what the network holds ----------

  /** Frame 1 over two paths, frame 2 over one, frames 3 and 4 over two again, all on A. The parity of 3 and 4 goes on the
      other path, C, which has carried no control. Then A leaves. */
  function Sending(data: Frame): seq<Step> {
    [Register(9, true), Register(9, true), Write(data, Some(0), None),
     Unregister(1), Write(data, Some(0), None),
     Register(9, true), Write(data, Some(0), None),
     Write(data, Some(0), Some(1)),
     Unregister(0)]
  }

  /** Frame 1 from what A left in flight, the parity from C, then the rest of what A left but frame 4, which is lost. */
  const RECEIVING := [ReceiveOrphan(1), ReceiveLive(0), ReceiveOrphan(1), ReceiveOrphan(1), ReceiveOrphan(1), ReceiveOrphan(1)]

  function Queue(data: Frame): seq<Record> {
    [Record(1, data, 0), ControlRecord(1, MODE_SUSPEND, 1), Record(2, data, 1), ControlRecord(2, MODE_RESUME, 3),
     Record(3, data, 2), Record(4, data, 2)]
  }

  function Sent3(ic: Option<Cipher>, data: Frame): Net {
    Net(ic, 3, RESUMED_2, Enc(2, [Member(3, data)], true, true), [Path(2, 4, Queue(data)[..5]), Path(0, 9, [])], [[]],
        OPEN_FENCE, 0)
  }

  function Sent4(ic: Option<Cipher>, data: Frame): Net {
    Net(ic, 4, RESUMED_2, Enc(2, [], true, true), [Path(2, 3, Queue(data)), Path(0, 8, [ParityRecord(ic, data)])],
        [[]], OPEN_FENCE, 0)
  }

  function Alone(ic: Option<Cipher>, data: Frame): Net {
    Sent4(ic, data).(live := [Path(0, 8, [ParityRecord(ic, data)])], orphans := [[], Queue(data)])
  }

  lemma Send3(ic: Option<Cipher>, data: Frame)
    requires |data| > 0
    ensures Next(Written2(ic, data), Register(9, true)) == Ready3(ic, data)
    ensures Next(Ready3(ic, data), Write(data, Some(0), None)) == Sent3(ic, data)
  {
    hide Encode;
    Write3(ic, data);
    assert [] + [Member(3, data)] == [Member(3, data)];
    assert FifoA(data) + [ControlRecord(2, MODE_RESUME, 3)] + [Record(3, data, 2)] == Queue(data)[..5];
    Writes(Ready3(ic, data), data, 0, RESUMED_2, Enc(2, [Member(3, data)], true, true), Path(2, 4, Queue(data)[..5]));
  }

  lemma Send4(ic: Option<Cipher>, data: Frame)
    requires |data| > 0
    ensures Next(Sent3(ic, data), Write(data, Some(0), Some(1))) == Sent4(ic, data)
  {
    hide Encode, GroupParity, Fallback;
    var n := Sent3(ic, data);
    assert n.live[0].healthy;
    assert [] + [ParityRecord(ic, data)] == [ParityRecord(ic, data)];
    assert [Member(3, data)] + [Member(4, data)] == [Member(3, data), Member(4, data)];
    assert Queue(data)[..5] + [Record(4, data, 2)] == Queue(data);
    var live := [Path(2, 3, Queue(data)), Path(0, 9, [])];
    assert n.live[0 := live[0]] == live;
    assert live[1 := Path(0, 8, [ParityRecord(ic, data)])] == Sent4(ic, data).live;
  }

  lemma Leave(ic: Option<Cipher>, data: Frame)
    ensures Next(Sent4(ic, data), Unregister(0)) == Alone(ic, data)
  {
    hide Encode, GroupParity;
  }

  lemma SendingRun(ic: Option<Cipher>, data: Frame)
    requires |data| > 0
    ensures FB.Run(FB.Start(2, ic), Sending(data)) == FB.Traced(Alone(ic, data), Counts(data)[..4], false)
  {
    hide Safe, FB.Run, Next, GroupParity, Encode, FifoA, Queue;
    var t0 := FB.Start(2, ic);
    var r, u, w, w', v := Register(9, true), Unregister(1), Write(data, Some(0), None), Write(data, Some(0), Some(1)), Unregister(0);
    var t1 := FB.Step(t0, r);
    assert t1 == FB.Traced(Next(Start(2, ic), r), [], false);
    Write1(ic, data);
    Pair(t1, r, w, Ready1(ic), Written1(ic, data));
    var t2 := FB.Run(t1, [r, w]);
    Write2(ic, data);
    Pair(t2, u, w, Ready2(ic, data), Written2(ic, data));
    var t3 := FB.Run(t2, [u, w]);
    Send3(ic, data);
    Pair(t3, r, w, Ready3(ic, data), Sent3(ic, data));
    var t4 := FB.Run(t3, [r, w]);
    Send4(ic, data);
    Single(t4, w', Sent4(ic, data));
    var t5 := FB.Run(t4, [w']);
    Leave(ic, data);
    assert Sending(data) == [r] + ([r, w] + ([u, w] + ([r, w] + ([w'] + ([v] + [])))));
    RunStep(t0, r, [r, w] + ([u, w] + ([r, w] + ([w'] + ([v] + [])))));
    RunBoth(t1, [r, w], [u, w] + ([r, w] + ([w'] + ([v] + []))));
    RunBoth(t2, [u, w], [r, w] + ([w'] + ([v] + [])));
    RunBoth(t3, [r, w], [w'] + ([v] + []));
    RunBoth(t4, [w'], [v] + []);
    RunStep(t5, v, []);
    Done(FB.Step(t5, v));
    assert [] + [Dispatch(2, data)] + [Dispatch(1, data)] + [Dispatch(2, data)] + [Dispatch(2, data)] + [] == Counts(data)[..4];
  }

  // ---------- runs of the whole system ----------

  /** An ordinary run from `p` to `p'`, and what arrives in it. */
  ghost predicate Yields(ic: Option<Cipher>, p: DP.Plane, steps: seq<DP.PlaneStep>, p': DP.Plane, data: set<nat>, parity: set<nat>)
  {
    && Safe(p.t.net) && p'.rx.Ready()
    && DP.Play(ic, p, steps) == p' && LD.OrdinaryRun(ic, p, steps)
    && LD.DataArrived(ic, p, steps) == data && LD.ParityArrived(2, ic, p, steps) == parity
  }

  lemma {:induction false} Compose(ic: Option<Cipher>, p: DP.Plane, a: seq<DP.PlaneStep>, p1: DP.Plane, data1: set<nat>, parity1: set<nat>,
                                   b: seq<DP.PlaneStep>, p2: DP.Plane, data2: set<nat>, parity2: set<nat>)
    requires Yields(ic, p, a, p1, data1, parity1) && Yields(ic, p1, b, p2, data2, parity2)
    ensures Yields(ic, p, a + b, p2, data1 + data2, parity1 + parity2)
    decreases |a|
  {
    hide Safe, DP.Advance, LD.Ordinary, LD.DataOfStep, LD.ParityOfStep;
    if |a| == 0 {
      assert a + b == b && {} + data2 == data2 && {} + parity2 == parity2;
    } else {
      var p' := DP.Advance(ic, p, a[0]);
      assert (a + b)[1..] == a[1..] + b && (a + b)[0] == a[0];
      Compose(ic, p', a[1..], p1, LD.DataArrived(ic, p', a[1..]), LD.ParityArrived(2, ic, p', a[1..]), b, p2, data2, parity2);
    }
  }

  lemma One(ic: Option<Cipher>, p: DP.Plane, s: DP.PlaneStep, p': DP.Plane)
    requires Safe(p.t.net) && p.rx.Ready() && LD.Ordinary(ic, p, s) && DP.Advance(ic, p, s) == p' && p'.rx.Ready()
    ensures Yields(ic, p, [s], p', LD.DataOfStep(p, s), LD.ParityOfStep(2, p, s))
  {
    hide Safe, DP.Advance, LD.Ordinary, LD.DataOfStep, LD.ParityOfStep;
    assert [s][1..] == [] && [s][0] == s;
    assert DP.Play(ic, p', []) == p' && LD.OrdinaryRun(ic, p', []);
    assert LD.DataArrived(ic, p', []) == {} && LD.ParityArrived(2, ic, p', []) == {};
    assert DP.Play(ic, p, [s]) == DP.Play(ic, p', []);
    assert LD.DataOfStep(p, s) + {} == LD.DataOfStep(p, s) && LD.ParityOfStep(2, p, s) + {} == LD.ParityOfStep(2, p, s);
  }

  function Lift(steps: seq<Step>): seq<DP.PlaneStep> {
    seq(|steps|, i requires 0 <= i < |steps| => DP.Network(steps[i], 0))
  }

  /** Steps of the network that hand the receiver nothing. */
  lemma {:induction false} Silent(ic: Option<Cipher>, p: DP.Plane, steps: seq<Step>)
    requires Safe(p.t.net) && p.rx.Ready() && forall i | 0 <= i < |steps| :: !steps[i].ReceiveLive? && !steps[i].ReceiveOrphan?
    ensures Yields(ic, p, Lift(steps), p.(t := FB.Run(p.t, steps)), {}, {})
    decreases |steps|
  {
    hide Safe, FB.Step, RA.Session.Ready, RA.ProcessRing;
    if |steps| == 0 {
    } else {
      assert Lift(steps)[0] == DP.Network(steps[0], 0) && Lift(steps)[1..] == Lift(steps[1..]);
      Silent(ic, p.(t := FB.Step(p.t, steps[0])), steps[1..]);
    }
  }

  // ---------- the decoder, record by record ----------

  function Opened(start: nat, data: Frame): map<nat, DS.Group> {
    map[start := DS.Group(map[0 := data], None)]
  }

  function Decoder1(data: Frame): DS.Dec {
    DS.NewDec(2).(groups := Opened(1, data))
  }

  function Decoder2(data: Frame, held: Held): DS.Dec {
    DS.NewDec(2).(groups := Opened(1, data)[3 := DS.Group(map[], Some(held))])
  }

  const DECODER3 := DS.NewDec(2).(fence := Fence(1, 1, 0), cleanup := 1, retired := 1)

  const DECODER5 := DECODER3.(fence := Fence(2, 1, 3))

  function Decoder6(data: Frame): DS.Dec {
    DECODER5.(groups := Opened(3, data))
  }

  /** The first frame of a group opens it. */
  lemma Opens(d: DS.Dec, start: nat, data: Frame)
    requires d.k == 2 && d.Sized() && d.groups == map[] && !DS.IsDone(d.done, start, 2) && GroupStart(start, 2) == start > 0
    ensures DS.Admit(d, start, data) == (d.(groups := Opened(start, data)), None)
  {
    hide DS.IsDone, GroupStart, DS.Entry;
    FD.EntryCases(d.groups, start);
    var g := DS.Group(map[][0 := data], None);
    assert 1 in DS.Missing(g, 2);
    assert map[start := DS.NEW_GROUP][start := g] == Opened(start, data);
  }

  lemma NotDone(d: DS.Dec, start: nat)
    requires d.done == seq(DS.DONE_CACHE, _ => 0) && d.k > 0
    ensures !DS.IsDone(d.done, start, d.k)
  {
    hide DS.DoneSlot;
  }

  lemma Decode1(data: Frame)
    requires |data| > 0
    ensures DS.OnData(DS.NewDec(2), 1, data, Some(0)) == (Decoder1(data), None)
  {
    hide DS.Admit, DS.IsDone;
    NotDone(DS.NewDec(2), 1);
    Opens(DS.NewDec(2), 1, data);
  }

  lemma Decode3(data: Frame, held: Held, ic: Option<Cipher>)
    requires |held.lens| == 2
    ensures DS.OnControl(Decoder2(data, held), ic, Encode(Control(1, MODE_SUSPEND, 1)), Some(2)) == (DECODER3, Ok(None))
  {
    hide Encode;
    ModeDecodes(Control(1, MODE_SUSPEND, 1));
    var d := Decoder2(data, held);
    assert DS.DropRange(d.groups, 1, 0) == map[];
    assert DS.KeepFrom(map[], 1) == map[];
  }

  lemma ModeDecodes(c: Control)
    requires c.InRange() && c.WellFormed()
    ensures Parse(Encode(c)) == Ok(c) && ControlKind(Encode(c)) == Ok(KIND_FEC_MODE)
  {
    EncodeParse(c);
  }

  lemma Decode4(data: Frame)
    ensures DS.OnData(DECODER3, 2, data, Some(2)) == (DECODER3, None)
  {
  }

  lemma Decode5(ic: Option<Cipher>)
    ensures DS.OnControl(DECODER3, ic, Encode(Control(2, MODE_RESUME, 3)), Some(3)) == (DECODER5, Ok(None))
  {
    hide Encode;
    ModeDecodes(Control(2, MODE_RESUME, 3));
    assert DS.DropRange(DECODER3.groups, 1, 3) == map[];
  }

  lemma Decode6(data: Frame)
    requires |data| > 0
    ensures DS.OnData(DECODER5, 3, data, Some(3)) == (Decoder6(data), None)
  {
    hide DS.Admit, DS.IsDone;
    NotDone(DECODER5, 3);
    Opens(DECODER5, 3, data);
  }

  /** The parity record of frames 3 and 4 is what the encoder made of them. */
  lemma ParityIs(ic: Option<Cipher>, data: Frame)
    requires |data| > 0
    ensures var h := Counts(data)[..4];
            && ParityAt(2, ic, h, 4).Some?
            && ParityRecord(ic, data).payload == ParityOf(ic, Sent(h), 3, 2)
  {
    hide ParityOf, GroupParity;
    var h := Counts(data)[..4];
    assert After(2, ic, h, 0) == Fresh(2);
    assert After(2, ic, h, 1) == Enc(2, [Member(1, data)], true, true);
    assert After(2, ic, h, 2) == Enc(2, [], false, false);
    assert After(2, ic, h, 3) == Enc(2, [Member(3, data)], true, true);
    assert [Member(3, data)] + [Member(4, data)] == [Member(3, data), Member(4, data)];
    ParityExactly(2, ic, h, 4);
  }

  lemma ParityGenuine(ic: Option<Cipher>, data: Frame)
    requires 0 < |data| <= U32_MAX && SoundCipher(ic)
    ensures var payload := ParityRecord(ic, data).payload;
            && payload == ParityOf(ic, Sent(Counts(data)[..4]), 3, 2)
            && DecoderSafety.GenuineParity(payload, ic, 2, 3, Sent(Counts(data)[..4]))
            && ParseHeader(2, payload) == Ok(3)
  {
    hide ParityOf, GroupParity, ParseHeader, ParseBody, ParityAt;
    var sent := Sent(Counts(data)[..4]);
    ParityIs(ic, data);
    forall j: nat | j < 2 ensures 0 < |MemberOf(sent, 3, j)| <= U32_MAX { assert sent(3 + j) == data; }
    ParityParses(ic, sent, 3, 2);
  }

  lemma Decode2(ic: Option<Cipher>, data: Frame, sent: nat -> Frame)
    requires SoundCipher(ic) && DecoderSafety.GenuineParity(ParityOf(ic, sent, 3, 2), ic, 2, 3, sent)
    ensures var held := DecoderSafety.HeldOf(sent, 3, 2);
            && |held.lens| == 2 && DS.Structured(Decoder1(data))
            && DS.OnControl(Decoder1(data), ic, ParityOf(ic, sent, 3, 2), Some(2)) == (Decoder2(data, held), Ok(None))
  {
    hide ParityOf, DS.OnControl, DS.Entry, DS.TryRecover, DS.IsDone, DecoderSafety.HeldOf, DecoderSafety.GenuineParity;
    var d := Decoder1(data);
    NotDone(d, 3);
    E.ParityCases(d, ic, sent, 3, Some(2));
    var held := DecoderSafety.HeldOf(sent, 3, 2);
    E.HeldSize(sent, 3, 2);
    FD.EntryCases(d.groups, 3);
    assert d.groups[3 := DS.NEW_GROUP][3 := DS.Group(map[], Some(held))] == Decoder2(data, held).groups;
    NothingYet(Decoder2(data, held), 3, held);
  }

  lemma NothingYet(d: DS.Dec, start: nat, held: Held)
    requires d.k == 2 && d.Sized() && start in d.groups && d.groups[start] == DS.Group(map[], Some(held)) && |held.lens| == 2
    ensures DS.TryRecover(d, start) == (d, None)
  {
    var missing := DS.Missing(d.groups[start], 2);
    assert missing == {0, 1};
  }

  // ---------- the receiving session, record by record ----------

  /** The decoder is `d`, nothing is pending, and position `e` comes next. */
  ghost predicate At(s: RA.Session, d: DS.Dec, e: nat) {
    && s.fec == Some(d) && s.Ready() && RingSpec.Fits(s.ring)
    && s.ring.buf.expected == e && s.ring.buf.pending == map[]
    && forall j | 0 <= j < |s.slots| :: s.slots[j] < Max(e, 1)
  }

  lemma InsertNext(r: RingSpec.Ring, sn: nat, data: Frame)
    requires RingSpec.Fits(r) && r.buf.pending == map[] && sn == Max(r.buf.expected, 1) < 100
    ensures var (r', items) := RingSpec.RingInsertAll(r, [RS.Item(sn, data)], 0);
            && items == [RS.Item(sn, data)] && RingSpec.Fits(r')
            && r'.buf.expected == sn + 1 && r'.buf.pending == map[]
  {
    hide RingSpec.RingInsert, RS.Orderly;
    RingSpec.InsertPlain(r, sn, data, 0);
    var one := map[sn := data];
    assert r.buf.pending[sn := data] == one && one - {sn} == map[];
    assert RS.Drain(sn + 1, map[]) == (sn + 1, map[], []);
    assert RS.Succ(sn) == sn + 1 && [RS.Item(sn, data)] + [] == [RS.Item(sn, data)];
    assert RS.Drain(sn, one) == (sn + 1, map[], [RS.Item(sn, data)]);
    var (r1, items) := RingSpec.RingInsert(r, sn, data, 0);
    assert RingSpec.RingInsertAll(r1, [], 0) == (r1, []);
    assert [RS.Item(sn, data)][1..] == [] && items + [] == items;
  }

  /** The next frame in order, when the decoder makes no more of it. */
  lemma InOrder(s: RA.Session, d: DS.Dec, e: nat, ic: Option<Cipher>, data: Frame, d': DS.Dec)
    requires At(s, d, e) && e < 100 && d.Sized() && DS.Structured(d)
    requires DS.OnData(d, Max(e, 1), data, Some(e)) == (d', None)
    ensures RA.InReach(RA.Brought(s.fec, e, ic, Max(e, 1), data), e)
    ensures var (s', items, error) := RA.ProcessRing(s, ic, Max(e, 1), data, 0);
            items == [RS.Item(Max(e, 1), data)] && error.None? && At(s', d', Max(e, 1) + 1)
  {
    hide DS.OnData, DS.Inv, DS.Structured, RingSpec.RingInsertAll, RingSpec.Fits;
    var sn := Max(e, 1);
    InsertNext(s.ring, sn, data);
    RA.DecodingKeepsInv(s.fec, s.slots, e, ic, sn, data);
    var slots := RA.CheckDuplicate(s.slots, sn).0;
    forall j | 0 <= j < |slots| ensures slots[j] < sn + 1 { assert j != sn % RA.DEDUP_WINDOW ==> slots[j] == s.slots[j]; }
  }

  /** A control that recovers nothing. */
  lemma ControlIn(s: RA.Session, d: DS.Dec, e: nat, ic: Option<Cipher>, payload: Frame, d': DS.Dec)
    requires At(s, d, e) && d.Sized() && DS.Structured(d) && DS.OnControl(d, ic, payload, Some(e)) == (d', Ok(None))
    ensures RA.InReach(RA.Brought(s.fec, e, ic, 0, payload), e)
    ensures var (s', items, error) := RA.ProcessRing(s, ic, 0, payload, 0);
            items == [] && error.None? && At(s', d', e)
  {
    hide DS.OnControl, DS.Inv, DS.Structured, RingSpec.Fits;
    RA.DecodingKeepsInv(s.fec, s.slots, e, ic, 0, payload);
  }

  lemma AtInv(s: RA.Session, d: DS.Dec, e: nat)
    requires At(s, d, e)
    ensures DS.Inv(d) && d.Sized() && DS.Structured(d)
  {
    hide RingSpec.Fits;
    DecoderSafety.InvStructured(d);
    DP.SizedOf(d);
  }

  // ---------- the network, record by record ----------

  /** What is left once C has handed over its record, or not yet, and `i` of the records that A left have arrived. */
  function Left(ic: Option<Cipher>, data: Frame, waiting: seq<Record>, i: nat, rx: Fence): Net
    requires i <= 6
  {
    Sent4(ic, data).(live := [Path(0, 8, waiting)], orphans := [[], Queue(data)[i..]], rx := rx)
  }

  lemma Hands(ic: Option<Cipher>, data: Frame, waiting: seq<Record>, i: nat, rx: Fence)
    requires i < 6
    ensures var n := Left(ic, data, waiting, i, rx);
            && DP.Arriving(n, ReceiveOrphan(1)) == Some(Queue(data)[i])
            && Next(n, ReceiveOrphan(1)) == Left(ic, data, waiting, i + 1, Received(rx, Queue(data)[i]))
  {
    hide Encode, Received, GroupParity;
    assert Queue(data)[i..][1..] == Queue(data)[i + 1..];
  }

  lemma HandsParity(ic: Option<Cipher>, data: Frame)
    ensures var n := Left(ic, data, [ParityRecord(ic, data)], 1, OPEN_FENCE);
            && DP.Arriving(n, ReceiveLive(0)) == Some(ParityRecord(ic, data))
            && Next(n, ReceiveLive(0)) == Left(ic, data, [], 1, OPEN_FENCE)
  {
    hide Encode, Received, GroupParity;
    ParityMoves(ic, data);
    assert [ParityRecord(ic, data)][1..] == [];
  }

  lemma Untouched(ic: Option<Cipher>, data: Frame)
    ensures Alone(ic, data) == Left(ic, data, [ParityRecord(ic, data)], 0, OPEN_FENCE)
  {
    hide Encode, GroupParity;
  }

  lemma ParityMoves(ic: Option<Cipher>, data: Frame)
    ensures Received(OPEN_FENCE, ParityRecord(ic, data)) == OPEN_FENCE && !FB.IsMode(ParityRecord(ic, data))
  {
    hide Sealed, EncodeLens;
  }

  // ---------- the run ----------

  /** A step that hands over a data record. */
  lemma DataStep(ic: Option<Cipher>, p: DP.Plane, step: Step, r: Record, n': Net, d: DS.Dec, e: nat, d': DS.Dec)
    returns (p': DP.Plane)
    requires Safe(p.t.net) && DP.Arriving(p.t.net, step) == Some(r) && Next(p.t.net, step) == n'
    requires !FB.Skips(p.t.net, step) && At(p.rx, d, e) && e < 100 && r.sn == Max(e, 1)
    requires d.Sized() && DS.Structured(d) && |d.groups| < 512 && DS.OnData(d, r.sn, r.payload, Some(e)) == (d', None)
    ensures Yields(ic, p, [DP.Network(step, 0)], p', {r.sn}, {}) && At(p'.rx, d', r.sn + 1)
    ensures p'.t == FB.Traced(n', p.t.history, p.t.skipped) && p'.out == p.out + [RS.Item(r.sn, r.payload)]
  {
    hide Safe, Next, DS.OnData, DS.Structured, RA.ProcessRing, RA.InReach, RA.Brought, FB.Skips, RingSpec.Fits;
    var s := DP.Network(step, 0);
    InOrder(p.rx, d, e, ic, r.payload, d');
    p' := DP.Advance(ic, p, s);
    assert p.t.history + [] == p.t.history;
    One(ic, p, s, p');
  }

  lemma ControlStep(ic: Option<Cipher>, p: DP.Plane, step: Step, r: Record, n': Net, d: DS.Dec, e: nat, d': DS.Dec)
    returns (p': DP.Plane)
    requires Safe(p.t.net) && DP.Arriving(p.t.net, step) == Some(r) && Next(p.t.net, step) == n'
    requires !FB.Skips(p.t.net, step) && At(p.rx, d, e) && r.sn == 0
    requires d.Sized() && DS.Structured(d) && DS.OnControl(d, ic, r.payload, Some(e)) == (d', Ok(None))
    requires d.k == 2 && (LB.ParityStart(2, r).Some? ==> d.cleanup == 0 && |d.groups| < 512)
    ensures Yields(ic, p, [DP.Network(step, 0)], p', {}, LB.HeardParity(2, r)) && At(p'.rx, d', e)
    ensures p'.t == FB.Traced(n', p.t.history, p.t.skipped) && p'.out == p.out
  {
    hide Safe, Next, DS.OnControl, DS.Structured, RA.ProcessRing, RA.InReach, RA.Brought, FB.Skips, RingSpec.Fits, LB.ParityStart;
    var s := DP.Network(step, 0);
    ControlIn(p.rx, d, e, ic, r.payload, d');
    p' := DP.Advance(ic, p, s);
    assert p.t.history + [] == p.t.history && p.out + [] == p.out;
    One(ic, p, s, p');
  }

  lemma NoSkip(n: Net, step: Step, r: Record)
    requires DP.Arriving(n, step) == Some(r) && Raises(r) <= n.rx.generation + 1
    ensures !FB.Skips(n, step)
  {
    hide Raises;
  }

  lemma Reach(r: Record, rx: Fence)
    requires Received(OPEN_FENCE, r).generation <= rx.generation + 1
    ensures Raises(r) <= rx.generation + 1
  {
  }

  /** The state while path A still holds its records from the `i`-th on. */
  ghost predicate Stands(ic: Option<Cipher>, data: Frame, p: DP.Plane, n: Net, d: DS.Dec, e: nat) {
    p.t == FB.Traced(n, Counts(data)[..4], false) && Safe(p.t.net) && At(p.rx, d, e)
  }

  /** Frame 1. */
  lemma Step1(ic: Option<Cipher>, data: Frame, p: DP.Plane) returns (p': DP.Plane)
    requires |data| > 0 && Stands(ic, data, p, Left(ic, data, [ParityRecord(ic, data)], 0, OPEN_FENCE), DS.NewDec(2), 0)
    ensures Yields(ic, p, [DP.Network(ReceiveOrphan(1), 0)], p', {1}, {})
    ensures Stands(ic, data, p', Left(ic, data, [ParityRecord(ic, data)], 1, OPEN_FENCE), Decoder1(data), 2) && p'.out == p.out + [RS.Item(1, data)]
  {
    hide Safe, Next, DS.OnData, DS.OnControl, DS.Structured, FB.Skips, At, Raises, Received, Encode, GroupParity, Yields;
    var q := Queue(data);
    Hands(ic, data, [ParityRecord(ic, data)], 0, OPEN_FENCE);
    DataArrives(OPEN_FENCE, q[0]);
    Reach(q[0], OPEN_FENCE);
    NoSkip(p.t.net, ReceiveOrphan(1), q[0]);
    AtInv(p.rx, DS.NewDec(2), 0);
    Decode1(data);
    p' := DataStep(ic, p, ReceiveOrphan(1), q[0], Left(ic, data, [ParityRecord(ic, data)], 1, OPEN_FENCE), DS.NewDec(2), 0, Decoder1(data));
    YieldsSafe(ic, p, [DP.Network(ReceiveOrphan(1), 0)], p', {1}, {});
  }

  function HeldParity(data: Frame): Held {
    DecoderSafety.HeldOf(Sent(Counts(data)[..4]), 3, 2)
  }

  /** The parity of the group that starts at 3. */
  lemma Step2(ic: Option<Cipher>, data: Frame, p: DP.Plane) returns (p': DP.Plane)
    requires 0 < |data| <= U32_MAX && SoundCipher(ic) && Stands(ic, data, p, Left(ic, data, [ParityRecord(ic, data)], 1, OPEN_FENCE), Decoder1(data), 2)
    ensures Yields(ic, p, [DP.Network(ReceiveLive(0), 0)], p', {}, {3})
    ensures Stands(ic, data, p', Left(ic, data, [], 1, OPEN_FENCE), Decoder2(data, HeldParity(data)), 2) && p'.out == p.out
    ensures |HeldParity(data).lens| == 2
  {
    hide Safe, Next, DS.OnData, DS.OnControl, DS.Structured, FB.Skips, At, Raises, Received, Encode, GroupParity, Yields, ParityOf,
      ParseHeader, FB.IsMode, DecoderSafety.HeldOf, DecoderSafety.GenuineParity;
    var r := ParityRecord(ic, data);
    HandsParity(ic, data);
    ParityMoves(ic, data);
    Reach(r, OPEN_FENCE);
    NoSkip(p.t.net, ReceiveLive(0), r);
    AtInv(p.rx, Decoder1(data), 2);
    ParityGenuine(ic, data);
    Decode2(ic, data, Sent(Counts(data)[..4]));
    p' := ControlStep(ic, p, ReceiveLive(0), r, Left(ic, data, [], 1, OPEN_FENCE), Decoder1(data), 2, Decoder2(data, HeldParity(data)));
    YieldsSafe(ic, p, [DP.Network(ReceiveLive(0), 0)], p', {}, {3});
  }

  /** The suspension, which throws that group away. */
  lemma Step3(ic: Option<Cipher>, data: Frame, p: DP.Plane, held: Held) returns (p': DP.Plane)
    requires |held.lens| == 2 && Stands(ic, data, p, Left(ic, data, [], 1, OPEN_FENCE), Decoder2(data, held), 2)
    ensures Yields(ic, p, [DP.Network(ReceiveOrphan(1), 0)], p', {}, {})
    ensures Stands(ic, data, p', Left(ic, data, [], 2, Fence(1, 1, 0)), DECODER3, 2) && p'.out == p.out
  {
    hide Safe, Next, DS.OnData, DS.OnControl, DS.Structured, FB.Skips, At, Raises, Received, Encode, GroupParity, Yields;
    var c := ControlRecord(1, MODE_SUSPEND, 1);
    ControlArrives(OPEN_FENCE, 1, MODE_SUSPEND, 1);
    Reach(c, OPEN_FENCE);
    Hands(ic, data, [], 1, OPEN_FENCE);
    NoSkip(p.t.net, ReceiveOrphan(1), c);
    AtInv(p.rx, Decoder2(data, held), 2);
    Decode3(data, held, ic);
    ModeStart(1, MODE_SUSPEND, 1);
    p' := ControlStep(ic, p, ReceiveOrphan(1), c, Left(ic, data, [], 2, Fence(1, 1, 0)), Decoder2(data, held), 2, DECODER3);
    YieldsSafe(ic, p, [DP.Network(ReceiveOrphan(1), 0)], p', {}, {});
  }

  /** Frame 2, which bypasses. */
  lemma Step4(ic: Option<Cipher>, data: Frame, p: DP.Plane) returns (p': DP.Plane)
    requires Stands(ic, data, p, Left(ic, data, [], 2, Fence(1, 1, 0)), DECODER3, 2)
    ensures Yields(ic, p, [DP.Network(ReceiveOrphan(1), 0)], p', {2}, {})
    ensures Stands(ic, data, p', Left(ic, data, [], 3, Fence(1, 1, 0)), DECODER3, 3) && p'.out == p.out + [RS.Item(2, data)]
  {
    hide Safe, Next, DS.OnData, DS.OnControl, DS.Structured, FB.Skips, At, Raises, Received, Encode, GroupParity, Yields;
    var r := Queue(data)[2];
    DataArrives(OPEN_FENCE, r);
    DataArrives(Fence(1, 1, 0), r);
    Reach(r, Fence(1, 1, 0));
    Hands(ic, data, [], 2, Fence(1, 1, 0));
    NoSkip(p.t.net, ReceiveOrphan(1), r);
    AtInv(p.rx, DECODER3, 2);
    Decode4(data);
    p' := DataStep(ic, p, ReceiveOrphan(1), r, Left(ic, data, [], 3, Fence(1, 1, 0)), DECODER3, 2, DECODER3);
    YieldsSafe(ic, p, [DP.Network(ReceiveOrphan(1), 0)], p', {2}, {});
  }

  /** The resumption. */
  lemma Step5(ic: Option<Cipher>, data: Frame, p: DP.Plane) returns (p': DP.Plane)
    requires Stands(ic, data, p, Left(ic, data, [], 3, Fence(1, 1, 0)), DECODER3, 3)
    ensures Yields(ic, p, [DP.Network(ReceiveOrphan(1), 0)], p', {}, {})
    ensures Stands(ic, data, p', Left(ic, data, [], 4, Fence(2, 1, 3)), DECODER5, 3) && p'.out == p.out
  {
    hide Safe, Next, DS.OnData, DS.OnControl, DS.Structured, FB.Skips, At, Raises, Received, Encode, GroupParity, Yields;
    var c := ControlRecord(2, MODE_RESUME, 3);
    ControlArrives(OPEN_FENCE, 2, MODE_RESUME, 3);
    ControlArrives(Fence(1, 1, 0), 2, MODE_RESUME, 3);
    Reach(c, Fence(1, 1, 0));
    Hands(ic, data, [], 3, Fence(1, 1, 0));
    NoSkip(p.t.net, ReceiveOrphan(1), c);
    AtInv(p.rx, DECODER3, 3);
    Decode5(ic);
    ModeStart(2, MODE_RESUME, 3);
    p' := ControlStep(ic, p, ReceiveOrphan(1), c, Left(ic, data, [], 4, Fence(2, 1, 3)), DECODER3, 3, DECODER5);
    YieldsSafe(ic, p, [DP.Network(ReceiveOrphan(1), 0)], p', {}, {});
  }

  /** Frame 3; nothing is left to recover frame 4 from. */
  lemma Step6(ic: Option<Cipher>, data: Frame, p: DP.Plane) returns (p': DP.Plane)
    requires |data| > 0 && Stands(ic, data, p, Left(ic, data, [], 4, Fence(2, 1, 3)), DECODER5, 3)
    ensures Yields(ic, p, [DP.Network(ReceiveOrphan(1), 0)], p', {3}, {})
    ensures Stands(ic, data, p', Left(ic, data, [], 5, Fence(2, 1, 3)), Decoder6(data), 4) && p'.out == p.out + [RS.Item(3, data)]
  {
    hide Safe, Next, DS.OnData, DS.OnControl, DS.Structured, FB.Skips, At, Raises, Received, Encode, GroupParity, Yields;
    var r := Queue(data)[4];
    DataArrives(OPEN_FENCE, r);
    DataArrives(Fence(2, 1, 3), r);
    Reach(r, Fence(2, 1, 3));
    Hands(ic, data, [], 4, Fence(2, 1, 3));
    NoSkip(p.t.net, ReceiveOrphan(1), r);
    AtInv(p.rx, DECODER5, 3);
    Decode6(data);
    p' := DataStep(ic, p, ReceiveOrphan(1), r, Left(ic, data, [], 5, Fence(2, 1, 3)), DECODER5, 3, Decoder6(data));
    YieldsSafe(ic, p, [DP.Network(ReceiveOrphan(1), 0)], p', {3}, {});
  }

  lemma ReceivingRun(ic: Option<Cipher>, data: Frame, p: DP.Plane) returns (p': DP.Plane)
    requires 0 < |data| <= U32_MAX && SoundCipher(ic) && Stands(ic, data, p, Alone(ic, data), DS.NewDec(2), 0)
    ensures Yields(ic, p, Lift(RECEIVING), p', {1, 2, 3}, {3})
    ensures Stands(ic, data, p', Left(ic, data, [], 5, Fence(2, 1, 3)), Decoder6(data), 4)
    ensures p'.out == p.out + [RS.Item(1, data), RS.Item(2, data), RS.Item(3, data)]
  {
    hide Stands, Yields, DecoderSafety.HeldOf;
    var a, b := DP.Network(ReceiveOrphan(1), 0), DP.Network(ReceiveLive(0), 0);
    Untouched(ic, data);
    var p1 := Step1(ic, data, p);
    var p2 := Step2(ic, data, p1);
    var p3 := Step3(ic, data, p2, HeldParity(data));
    var p4 := Step4(ic, data, p3);
    var p5 := Step5(ic, data, p4);
    p' := Step6(ic, data, p5);
    Compose(ic, p, [a], p1, {1}, {}, [b], p2, {}, {3});
    Compose(ic, p, [a] + [b], p2, {1} + {}, {} + {3}, [a], p3, {}, {});
    Compose(ic, p, [a] + [b] + [a], p3, {1} + {} + {}, {} + {3} + {}, [a], p4, {2}, {});
    Compose(ic, p, [a] + [b] + [a] + [a], p4, {1} + {} + {} + {2}, {} + {3} + {} + {}, [a], p5, {}, {});
    Compose(ic, p, [a] + [b] + [a] + [a] + [a], p5, {1} + {} + {} + {2} + {}, {} + {3} + {} + {} + {}, [a], p', {3}, {});
    assert Lift(RECEIVING) == [a] + [b] + [a] + [a] + [a] + [a];
    assert {1} + {} + {} + {2} + {} + {3} == {1, 2, 3} && {} + {3} + {} + {} + {} + {} == {3};
    assert p.out + [RS.Item(1, data)] + [RS.Item(2, data)] + [RS.Item(3, data)]
        == p.out + [RS.Item(1, data), RS.Item(2, data), RS.Item(3, data)];
  }

  /** What is left of A's stream is lost. */
  lemma Lose(ic: Option<Cipher>, data: Frame, p: DP.Plane)
    requires Stands(ic, data, p, Left(ic, data, [], 5, Fence(2, 1, 3)), Decoder6(data), 4)
    ensures Yields(ic, p, Lift([LoseOrphan(1)]), p.(t := FB.Run(p.t, [LoseOrphan(1)])), {}, {})
    ensures var t := FB.Run(p.t, [LoseOrphan(1)]);
            t.history == Counts(data)[..4] && !t.skipped && !DL.InFlight(t.net, 4)
  {
    hide At, Safe;
    AtReady(p.rx, Decoder6(data), 4);
    Silent(ic, p, [LoseOrphan(1)]);
    RunStep(p.t, LoseOrphan(1), []);
    assert [LoseOrphan(1)] + [] == [LoseOrphan(1)];
    Done(FB.Step(p.t, LoseOrphan(1)));
    var n := p.t.net;
    assert n.orphans[..1] + n.orphans[2..] == [[]];
  }

  lemma AtReady(s: RA.Session, d: DS.Dec, e: nat)
    requires At(s, d, e)
    ensures s.Ready()
  {
  }

  /** The condition on parity is needed. In this run nothing is skipped, evicted or timed out, frame 4 is the only loss
      of a group whose parity was sent and arrived, and yet frame 4 does not come out: the parity overtook the two mode
      controls before its group, and the suspension threw it away. */
  lemma EarlyParityWasted(ic: Option<Cipher>, data: Frame)
    requires 0 < |data| <= U32_MAX && SoundCipher(ic)
    ensures var steps := Lift(Sending(data) + RECEIVING + [LoseOrphan(1)]);
            var p := DP.Play(ic, DP.Begin(2, ic), steps);
            && LD.OrdinaryRun(ic, DP.Begin(2, ic), steps) && RealFrames.Sizes(p.t.history) && !p.t.skipped
            && LB.Covered(2, ic, p.t.history, LD.DataArrived(ic, DP.Begin(2, ic), steps),
                          LD.ParityArrived(2, ic, DP.Begin(2, ic), steps))
            && |p.t.history| == 4 && p.out == DL.Everything(p.t.history)[..3] && !DL.InFlight(p.t.net, 4)
  {
    hide Safe, DP.Play, LD.OrdinaryRun, LD.DataArrived, LD.ParityArrived, Sending, FB.Run, LB.Covered,
      RingSpec.Fits, DS.Inv, DL.InFlight;
    var p0 := DP.Begin(2, ic);
    var h := Counts(data)[..4];
    BeginAt(ic);
    Silent(ic, p0, Sending(data)) by { SendingSilent(data); }
    SendingRun(ic, data);
    var p1 := p0.(t := FB.Run(p0.t, Sending(data)));
    YieldsSafe(ic, p0, Lift(Sending(data)), p1, {}, {});
    var p2 := ReceivingRun(ic, data, p1);
    Lose(ic, data, p2);
    var p3 := p2.(t := FB.Run(p2.t, [LoseOrphan(1)]));
    Compose(ic, p0, Lift(Sending(data)), p1, {}, {}, Lift(RECEIVING), p2, {1, 2, 3}, {3});
    Compose(ic, p0, Lift(Sending(data)) + Lift(RECEIVING), p2, {} + {1, 2, 3}, {} + {3}, Lift([LoseOrphan(1)]), p3, {}, {});
    assert Lift(Sending(data)) + Lift(RECEIVING) + Lift([LoseOrphan(1)]) == Lift(Sending(data) + RECEIVING + [LoseOrphan(1)]);
    assert {} + {1, 2, 3} + {} == {1, 2, 3} && {} + {3} + {} == {3};
    OneLoss(ic, data);
    assert p3.out == DL.Everything(h)[..3];
  }

  lemma OneLoss(ic: Option<Cipher>, data: Frame)
    requires |data| > 0
    ensures LB.Covered(2, ic, Counts(data)[..4], {1, 2, 3}, {3})
  {
    hide ParityAt, ParityOf, GroupParity;
    ParityIs(ic, data);
    assert GroupStart(4, 2) == 3;
    assert LB.OnlyLoss(2, ic, Counts(data)[..4], {1, 2, 3}, {3}, 4) by { assert E.Has({1, 2, 3}, 3, 0); }
  }

  lemma BeginAt(ic: Option<Cipher>)
    ensures At(DP.Begin(2, ic).rx, DS.NewDec(2), 0)
  {
    DecoderSafety.NewDecInv(2);
  }

  lemma SendingSilent(data: Frame)
    ensures forall i | 0 <= i < |Sending(data)| :: !Sending(data)[i].ReceiveLive? && !Sending(data)[i].ReceiveOrphan?
  {
  }

  lemma ModeStart(generation: nat, op: byte, boundary: nat)
    requires Control(generation, op, boundary).InRange() && Control(generation, op, boundary).WellFormed()
    ensures var r := ControlRecord(generation, op, boundary); LB.ParityStart(2, r).None? && LB.HeardParity(2, r) == {}
  {
    hide Encode, ParseHeader;
    ModeDecodes(Control(generation, op, boundary));
  }

  lemma YieldsSafe(ic: Option<Cipher>, p: DP.Plane, steps: seq<DP.PlaneStep>, p': DP.Plane, data: set<nat>, parity: set<nat>)
    requires Yields(ic, p, steps, p', data, parity)
    ensures Safe(p'.t.net)
  {
    hide Safe, LD.OrdinaryRun, LD.DataArrived, LD.ParityArrived, DP.Advance;
  }
}
