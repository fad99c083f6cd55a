/** Runs of the network in which the receiver skips one or two generations and bypasses a group whose parity was sent
    (src/net.rs, src/protocol.rs, src/fec.rs). */
module SkippedGeneration {
  import opened Bytes
  import opened Parity
  import opened FecMode
  import opened FecEncoder
  import opened FencedDispatch
  import FB = FencedBypass

  function ControlRecord(generation: nat, op: byte, boundary: nat): Record {
    Record(0, Encode(Control(generation, op, boundary)), generation)
  }

  function Path(fence: nat, free: nat, fifo: seq<Record>): Backend {
    Backend(fence, free, true, fifo)
  }

  /** Path counts 2 1 2 2 1 2. A and B join and frame 1 goes on A. B leaves, and frame 2 goes on A behind the first
      suspension. C joins, frames 3 and 4 go on C behind the first resumption, and their parity goes on A. C leaves, and
      frame 5 goes on A behind the second suspension. D joins, and frame 6 goes on D behind the second resumption. */
  function Sends(data: Frame): seq<Step> {
    [Register(9, true), Register(9, true), Write(data, Some(0), None),
     Unregister(1), Write(data, Some(0), None),
     Register(9, true), Write(data, Some(1), None), Write(data, Some(1), Some(0)),
     Unregister(1), Write(data, Some(0), None),
     Register(9, true), Write(data, Some(1), None)]
  }

  /** Frame 1 and the first suspension arrive from A. Then the second resumption arrives from D and the first one from what
      C left in flight, the first one late or in time. */
  function Arrivals(late: bool): seq<Step> {
    [ReceiveLive(0), ReceiveLive(0)] + if late then [ReceiveLive(1), ReceiveOrphan(1)] else [ReceiveOrphan(1), ReceiveLive(1)]
  }

  function WastingRun(data: Frame, late: bool): seq<Step> {
    Sends(data) + Arrivals(late)
  }

  const SUSPENDED_1 := TxMode(true, true, 1, Some(Control(1, MODE_SUSPEND, 1)))
  const RESUMED_2 := TxMode(true, false, 2, Some(Control(2, MODE_RESUME, 3)))
  const SUSPENDED_3 := TxMode(true, true, 3, Some(Control(3, MODE_SUSPEND, 5)))
  const RESUMED_4 := TxMode(true, false, 4, Some(Control(4, MODE_RESUME, 7)))

  function FifoA(data: Frame): seq<Record> {
    [Record(1, data, 0), ControlRecord(1, MODE_SUSPEND, 1), Record(2, data, 1)]
  }

  function FifoC(data: Frame): seq<Record> {
    [ControlRecord(2, MODE_RESUME, 3), Record(3, data, 2), Record(4, data, 2)]
  }

  function ParityRecord(ic: Option<Cipher>, data: Frame): Record {
    Record(0, GroupParity(ic, [Member(3, data), Member(4, data)]), 2)
  }

  function FifoA'(ic: Option<Cipher>, data: Frame): seq<Record> {
    FifoA(data) + [ParityRecord(ic, data), ControlRecord(3, MODE_SUSPEND, 5), Record(5, data, 3)]
  }

  function FifoD(data: Frame): seq<Record> {
    [ControlRecord(4, MODE_RESUME, 7), Record(6, data, 4)]
  }

  // ---------- the states in between ----------

  function Ready1(ic: Option<Cipher>): Net {
    Net(ic, 0, FRESH_TX, Fresh(2), [Path(0, 9, []), Path(0, 9, [])], [], OPEN_FENCE, 0)
  }

  function Written1(ic: Option<Cipher>, data: Frame): Net {
    Net(ic, 1, TxMode(true, false, 0, None), Enc(2, [Member(1, data)], true, true),
        [Path(0, 8, [Record(1, data, 0)]), Path(0, 9, [])], [], OPEN_FENCE, 0)
  }

  function Ready2(ic: Option<Cipher>, data: Frame): Net {
    Written1(ic, data).(live := [Path(0, 8, [Record(1, data, 0)])], orphans := [[]])
  }

  function Written2(ic: Option<Cipher>, data: Frame): Net {
    Net(ic, 2, SUSPENDED_1, Enc(2, [], false, false), [Path(1, 6, FifoA(data))], [[]], OPEN_FENCE, 0)
  }

  function Ready3(ic: Option<Cipher>, data: Frame): Net {
    Written2(ic, data).(live := [Path(1, 6, FifoA(data)), Path(0, 9, [])])
  }

  function Written3(ic: Option<Cipher>, data: Frame): Net {
    Net(ic, 3, RESUMED_2, Enc(2, [Member(3, data)], true, true),
        [Path(1, 6, FifoA(data)), Path(2, 7, FifoC(data)[..2])], [[]], OPEN_FENCE, 0)
  }

  function Written4(ic: Option<Cipher>, data: Frame): Net {
    Net(ic, 4, RESUMED_2, Enc(2, [], true, true),
        [Path(1, 5, FifoA(data) + [ParityRecord(ic, data)]), Path(2, 6, FifoC(data))], [[]], OPEN_FENCE, 0)
  }

  function Ready5(ic: Option<Cipher>, data: Frame): Net {
    Written4(ic, data).(live := [Written4(ic, data).live[0]], orphans := [[], FifoC(data)])
  }

  function Written5(ic: Option<Cipher>, data: Frame): Net {
    Net(ic, 5, SUSPENDED_3, Enc(2, [], false, false), [Path(3, 3, FifoA'(ic, data))], [[], FifoC(data)], OPEN_FENCE, 0)
  }

  function Ready6(ic: Option<Cipher>, data: Frame): Net {
    Written5(ic, data).(live := [Written5(ic, data).live[0], Path(0, 9, [])])
  }

  function Written6(ic: Option<Cipher>, data: Frame): Net {
    Net(ic, 6, RESUMED_4, Enc(2, [], true, false), [Path(3, 3, FifoA'(ic, data)), Path(4, 7, FifoD(data))],
        [[], FifoC(data)], OPEN_FENCE, 0)
  }

  /** After frame 1 and the first suspension. */
  function Arrived(ic: Option<Cipher>, data: Frame): Net {
    Written6(ic, data).(live := [Path(3, 3, FifoA'(ic, data)[2..]), Path(4, 7, FifoD(data))], rx := Fence(1, 1, 0))
  }

  /** After the first resumption too. */
  function Caught(ic: Option<Cipher>, data: Frame): Net {
    Arrived(ic, data).(orphans := [[], FifoC(data)[1..]], rx := Fence(2, 1, 3))
  }

  function Skipped(ic: Option<Cipher>, data: Frame): Net {
    Net(ic, 6, RESUMED_4, Enc(2, [], true, false), [Path(3, 3, FifoA'(ic, data)[2..]), Path(4, 7, FifoD(data)[1..])],
        [[], FifoC(data)[1..]], Fence(4, 1, 7), 0)
  }

  /** A write that takes the preferred path and completes no group. */
  lemma Writes(n: Net, data: Frame, p: nat, tx: TxMode, enc: Enc, b: Backend)
    requires 2 <= n.enc.k <= 64 && |n.enc.group| < n.enc.k && |data| > 0 && n.lastSn < U32_MAX
    requires p < |n.live| && n.live[0].healthy
    requires Observed(n.tx, |n.live|, n.lastSn + 1, n.enc.k).0 == tx
    requires Added(SetPaths(n.enc, |n.live|), n.ic, n.lastSn + 1, data) == (enc, None)
    requires TrySendFenced(n.live[p], n.lastSn + 1, data, tx) == (b, true)
    ensures Next(n, Write(data, Some(p), None)) == n.(lastSn := n.lastSn + 1, tx := tx, enc := enc, live := n.live[p := b])
  {
    hide Observed, Added, SetPaths, TrySendFenced, Fallback;
  }

  lemma Write1(ic: Option<Cipher>, data: Frame)
    requires |data| > 0
    ensures Next(Next(Start(2, ic), Register(9, true)), Register(9, true)) == Ready1(ic)
    ensures Next(Ready1(ic), Write(data, Some(0), None)) == Written1(ic, data)
  {
    var n := Ready1(ic);
    assert [] + [Member(1, data)] == [Member(1, data)] && [] + [Record(1, data, 0)] == [Record(1, data, 0)];
    Writes(n, data, 0, TxMode(true, false, 0, None), Enc(2, [Member(1, data)], true, true), Path(0, 8, [Record(1, data, 0)]));
  }

  lemma Write2(ic: Option<Cipher>, data: Frame)
    requires |data| > 0
    ensures Next(Written1(ic, data), Unregister(1)) == Ready2(ic, data)
    ensures Next(Ready2(ic, data), Write(data, Some(0), None)) == Written2(ic, data)
  {
    hide Encode;
    var n := Ready2(ic, data);
    assert [Record(1, data, 0)] + [ControlRecord(1, MODE_SUSPEND, 1)] + [Record(2, data, 1)] == FifoA(data);
    Writes(n, data, 0, SUSPENDED_1, Enc(2, [], false, false), Path(1, 6, FifoA(data)));
  }

  lemma Write3(ic: Option<Cipher>, data: Frame)
    requires |data| > 0
    ensures Next(Written2(ic, data), Register(9, true)) == Ready3(ic, data)
    ensures Next(Ready3(ic, data), Write(data, Some(1), None)) == Written3(ic, data)
  {
    hide Encode;
    var n := Ready3(ic, data);
    assert [] + [Member(3, data)] == [Member(3, data)];
    assert [] + [ControlRecord(2, MODE_RESUME, 3)] + [Record(3, data, 2)] == FifoC(data)[..2];
    Writes(n, data, 1, RESUMED_2, Enc(2, [Member(3, data)], true, true), Path(2, 7, FifoC(data)[..2]));
  }

  lemma Write4(ic: Option<Cipher>, data: Frame)
    requires |data| > 0
    ensures Next(Written3(ic, data), Write(data, Some(1), Some(0))) == Written4(ic, data)
  {
    hide Encode, GroupParity, Fallback;
    var n := Written3(ic, data);
    assert n.live[0].healthy;
    assert FifoC(data)[..2] + [Record(4, data, 2)] == FifoC(data);
    assert [Member(3, data)] + [Member(4, data)] == [Member(3, data), Member(4, data)];
    assert n.live[1 := Path(2, 6, FifoC(data))] == [Path(1, 6, FifoA(data)), Path(2, 6, FifoC(data))];
  }

  lemma Write5(ic: Option<Cipher>, data: Frame)
    requires |data| > 0
    ensures Next(Written4(ic, data), Unregister(1)) == Ready5(ic, data)
    ensures Next(Ready5(ic, data), Write(data, Some(0), None)) == Written5(ic, data)
  {
    hide Encode, GroupParity;
    var n := Ready5(ic, data);
    assert FifoA(data) + [ParityRecord(ic, data)] + [ControlRecord(3, MODE_SUSPEND, 5)] + [Record(5, data, 3)]
        == FifoA'(ic, data);
    Writes(n, data, 0, SUSPENDED_3, Enc(2, [], false, false), Path(3, 3, FifoA'(ic, data)));
  }

  lemma Write6(ic: Option<Cipher>, data: Frame)
    requires |data| > 0
    ensures Next(Written5(ic, data), Register(9, true)) == Ready6(ic, data)
    ensures Next(Ready6(ic, data), Write(data, Some(1), None)) == Written6(ic, data)
  {
    hide Encode, GroupParity;
    var n := Ready6(ic, data);
    assert [] + [ControlRecord(4, MODE_RESUME, 7)] + [Record(6, data, 4)] == FifoD(data);
    Writes(n, data, 1, RESUMED_4, Enc(2, [], true, false), Path(4, 7, FifoD(data)));
  }

  lemma ControlArrives(rx: Fence, generation: nat, op: byte, boundary: nat)
    requires Control(generation, op, boundary).InRange() && Control(generation, op, boundary).WellFormed()
    ensures Received(rx, ControlRecord(generation, op, boundary)) == Apply(rx, Control(generation, op, boundary))
  {
    EncodeParse(Control(generation, op, boundary));
  }

  lemma Arrive(ic: Option<Cipher>, data: Frame)
    ensures Next(Next(Written6(ic, data), ReceiveLive(0)), ReceiveLive(0)) == Arrived(ic, data)
    ensures Next(Next(Arrived(ic, data), ReceiveLive(1)), ReceiveOrphan(1)) == Skipped(ic, data)
    ensures Next(Arrived(ic, data), ReceiveOrphan(1)) == Caught(ic, data)
    ensures Next(Caught(ic, data), ReceiveLive(1)) == Skipped(ic, data)
  {
    hide Encode, GroupParity, Received;
    var n := Written6(ic, data);
    var a, c, d := FifoA'(ic, data), FifoC(data), FifoD(data);
    ControlArrives(OPEN_FENCE, 1, MODE_SUSPEND, 1);
    ControlArrives(Fence(1, 1, 0), 4, MODE_RESUME, 7);
    ControlArrives(Fence(4, 1, 7), 2, MODE_RESUME, 3);
    ControlArrives(Fence(1, 1, 0), 2, MODE_RESUME, 3);
    ControlArrives(Fence(2, 1, 3), 4, MODE_RESUME, 7);
    DataArrives(OPEN_FENCE, a[0]);
    assert Next(n, ReceiveLive(0)) == n.(live := [Path(3, 3, a[1..]), n.live[1]]);
    assert a[1..][1..] == a[2..] && a[1..][0] == a[1];
    var n3 := n.(live := [Path(3, 3, a[2..]), Path(4, 7, d[1..])], rx := Fence(4, 1, 7));
    assert Next(Arrived(ic, data), ReceiveLive(1)) == n3;
    assert Next(n3, ReceiveOrphan(1)) == n3.(orphans := [[], c[1..]]);
  }

  lemma DataArrives(rx: Fence, r: Record)
    requires r.sn > 0
    ensures Received(rx, r) == rx
  {
  }

  // ---------- the run ----------

  function Counts(data: Frame): seq<Dispatch> {
    [Dispatch(2, data), Dispatch(1, data), Dispatch(2, data), Dispatch(2, data), Dispatch(1, data), Dispatch(2, data)]
  }

  lemma RunStep(t: FB.Traced, s: Step, rest: seq<Step>)
    requires Safe(t.net)
    ensures FB.Run(t, [s] + rest) == FB.Run(FB.Step(t, s), rest)
  {
    hide Safe, FB.Step;
    assert ([s] + rest)[1..] == rest;
  }

  lemma {:induction false} RunBoth(t: FB.Traced, a: seq<Step>, b: seq<Step>)
    requires Safe(t.net)
    ensures FB.Run(t, a + b) == FB.Run(FB.Run(t, a), b)
    decreases |a|
  {
    hide Safe, FB.Step;
    if |a| == 0 {
      assert a + b == b;
    } else {
      assert (a + b)[1..] == a[1..] + b;
      RunBoth(FB.Step(t, a[0]), a[1..], b);
    }
  }

  /** A step that may change paths, then a write. */
  lemma Pair(t: FB.Traced, s: Step, w: Step, n: Net, n': Net)
    requires Safe(t.net) && !s.Write? && !s.ReceiveLive? && !s.ReceiveOrphan? && w.Write?
    requires Next(t.net, s) == n && Next(n, w) == n'
    requires |w.data| > 0 && |n.live| > 0 && n.live[0].healthy && n.lastSn < U32_MAX
    ensures FB.Run(t, [s, w]) == FB.Traced(n', t.history + [Dispatch(|n.live|, w.data)], t.skipped)
  {
    hide Safe, Next;
    RunStep(t, s, [w]);
    RunStep(FB.Step(t, s), w, []);
    assert [w] + [] == [w] && [s] + [w] == [s, w] && t.history + [] == t.history;
  }

  /** One write alone. */
  lemma Single(t: FB.Traced, w: Step, n': Net)
    requires Safe(t.net) && w.Write? && Next(t.net, w) == n'
    requires |w.data| > 0 && |t.net.live| > 0 && t.net.live[0].healthy && t.net.lastSn < U32_MAX
    ensures FB.Run(t, [w]) == FB.Traced(n', t.history + [Dispatch(|t.net.live|, w.data)], t.skipped)
  {
    hide Safe, Next;
    RunStep(t, w, []);
    assert [w] + [] == [w];
  }

  lemma FirstHalf(ic: Option<Cipher>, data: Frame)
    requires |data| > 0
    ensures FB.Run(FB.Start(2, ic), Sends(data)[..7]) == FB.Traced(Written3(ic, data), Counts(data)[..3], false)
  {
    hide Safe, FB.Run, Next, GroupParity, Encode, FifoA, FifoC;
    var t0 := FB.Start(2, ic);
    var r, u, w, w' := Register(9, true), Unregister(1), Write(data, Some(0), None), Write(data, Some(1), None);
    var t1 := FB.Step(t0, r);
    assert t1 == FB.Traced(Next(Start(2, ic), r), [], false);
    Write1(ic, data);
    Pair(t1, r, w, Ready1(ic), Written1(ic, data));
    var t2 := FB.Run(t1, [r, w]);
    Write2(ic, data);
    Pair(t2, u, w, Ready2(ic, data), Written2(ic, data));
    var t3 := FB.Run(t2, [u, w]);
    Write3(ic, data);
    Pair(t3, r, w', Ready3(ic, data), Written3(ic, data));
    assert Sends(data)[..7] == [r] + ([r, w] + ([u, w] + [r, w']));
    RunStep(t0, r, [r, w] + ([u, w] + [r, w']));
    RunBoth(t1, [r, w], [u, w] + [r, w']);
    RunBoth(t2, [u, w], [r, w']);
    assert [] + [Dispatch(2, data)] + [Dispatch(1, data)] + [Dispatch(2, data)] == Counts(data)[..3];
  }

  lemma SecondHalf(ic: Option<Cipher>, data: Frame, t: FB.Traced)
    requires |data| > 0 && t == FB.Traced(Written3(ic, data), Counts(data)[..3], false) && Safe(t.net)
    ensures FB.Run(t, Sends(data)[7..]) == FB.Traced(Written6(ic, data), Counts(data), false)
  {
    hide Safe, FB.Run, Next, GroupParity, Encode, FifoA, FifoC, FifoA', FifoD;
    var r, u, w, w' := Register(9, true), Unregister(1), Write(data, Some(0), None), Write(data, Some(1), None);
    var p := Write(data, Some(1), Some(0));
    Write4(ic, data);
    Single(t, p, Written4(ic, data));
    var t4 := FB.Run(t, [p]);
    Write5(ic, data);
    Pair(t4, u, w, Ready5(ic, data), Written5(ic, data));
    var t5 := FB.Run(t4, [u, w]);
    Write6(ic, data);
    Pair(t5, r, w', Ready6(ic, data), Written6(ic, data));
    assert Sends(data)[7..] == [p] + ([u, w] + [r, w']);
    RunBoth(t, [p], [u, w] + [r, w']);
    RunBoth(t4, [u, w], [r, w']);
    assert Counts(data)[..3] + [Dispatch(2, data)] + [Dispatch(1, data)] + [Dispatch(2, data)] == Counts(data);
  }

  lemma SecondResumptionSkips(ic: Option<Cipher>, data: Frame)
    ensures FB.Skips(Arrived(ic, data), ReceiveLive(1)) && FB.Skips(Caught(ic, data), ReceiveLive(1))
  {
    hide Encode, Received, GroupParity, FifoA';
    ControlArrives(OPEN_FENCE, 4, MODE_RESUME, 7);
  }

  lemma ArrivalsRun(ic: Option<Cipher>, data: Frame, t: FB.Traced, late: bool)
    requires t == FB.Traced(Written6(ic, data), Counts(data), false) && Safe(t.net)
    ensures FB.Run(t, Arrivals(late)) == FB.Traced(Skipped(ic, data), Counts(data), true)
  {
    hide Safe, FB.Run, Next, GroupParity, Encode, FifoA, FifoC, FifoA', FifoD, FB.Skips;
    var a := ReceiveLive(0);
    var b, c := if late then ReceiveLive(1) else ReceiveOrphan(1), if late then ReceiveOrphan(1) else ReceiveLive(1);
    Arrive(ic, data);
    SecondResumptionSkips(ic, data);
    var t1 := FB.Step(t, a);
    var t2 := FB.Step(t1, a);
    var t3 := FB.Step(t2, b);
    var t4 := FB.Step(t3, c);
    assert Arrivals(late) == [a] + ([a] + ([b] + ([c] + [])));
    RunStep(t, a, [a] + ([b] + ([c] + [])));
    RunStep(t1, a, [b] + ([c] + []));
    RunStep(t2, b, [c] + []);
    RunStep(t3, c, []);
    Done(t4);
    assert Counts(data) + [] + [] + [] + [] == Counts(data);
  }

  lemma Done(t: FB.Traced)
    requires Safe(t.net)
    ensures FB.Run(t, []) == t
  {
  }

  /** The bypass happens: in these runs the receiver applies generations 1 and 4, or 1, 2 and 4. Frame 3 is next in
      line, the parity of its group was emitted, and the frame bypasses FEC. */
  lemma SkippingWastes(ic: Option<Cipher>, data: Frame, late: bool)
    requires |data| > 0
    ensures var t := FB.Run(FB.Start(2, ic), WastingRun(data, late));
            && t.skipped
            && AtHead(t.net, Record(3, data, 2)) && t.net.rx.Bypasses(3)
            && |t.history| >= 4 && GroupStart(3, 2) + 2 - 1 == 4 && ParityAt(2, ic, t.history, 4).Some?
  {
    hide Safe, FB.Run, ParityAt, Encode, FifoA', FifoD, Arrivals;
    var t0, s := FB.Start(2, ic), Sends(data);
    FirstHalf(ic, data);
    SecondHalf(ic, data, FB.Run(t0, s[..7]));
    RunBoth(t0, s[..7], s[7..]);
    assert s[..7] + s[7..] == s;
    ArrivalsRun(ic, data, FB.Run(t0, s), late);
    RunBoth(t0, s, Arrivals(late));
    var n := Skipped(ic, data);
    assert n.orphans[1] == FifoC(data)[1..] && n.orphans[1][0] == Record(3, data, 2);
    ParityExactly(2, ic, Counts(data), 4);
  }
}
