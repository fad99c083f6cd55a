/** The fence protocol and the bypass windows together: in every run of the network in which the receiver has
    skipped no generation, data of a protected group does not bypass FEC (src/net.rs, src/protocol.rs,
    src/fec.rs). */
module FencedBypass {
  import opened Bytes
  import opened Parity
  import opened FecMode
  import opened FecEncoder
  import opened FenceWindows
  import Net = FencedDispatch

  // ---------- what a run dispatched ----------

  /** The dispatch a step makes, if it consumes a sequence number. */
  function Dispatched(n: Net.Net, step: Net.Step): seq<Dispatch> {
    if step.Write? && |step.data| > 0 && |n.live| > 0 && (exists i :: 0 <= i < |n.live| && n.live[i].healthy)
       && n.lastSn < U32_MAX
    then [Dispatch(|n.live|, step.data)] else []
  }

  /** The step makes the receiver apply a generation that is not the next one. */
  predicate Skips(n: Net.Net, step: Net.Step) {
    match step
    case ReceiveLive(i) => i < |n.live| && |n.live[i].fifo| > 0 && Net.Raises(n.live[i].fifo[0]) > n.rx.generation + 1
    case ReceiveOrphan(i) => i < |n.orphans| && |n.orphans[i]| > 0 && Net.Raises(n.orphans[i][0]) > n.rx.generation + 1
    case _ => false
  }

  /** The state of a run, everything it dispatched, and whether the receiver skipped a generation. */
  datatype Traced = Traced(net: Net.Net, history: seq<Dispatch>, skipped: bool)

  ghost function Step(t: Traced, step: Net.Step): (t': Traced)
    requires Net.Safe(t.net)
    ensures Net.Safe(t'.net)
  {
    Net.StepKeepsSafe(t.net, step);
    Traced(Net.Next(t.net, step), t.history + Dispatched(t.net, step), t.skipped || Skips(t.net, step))
  }

  ghost function Run(t: Traced, steps: seq<Net.Step>): (t': Traced)
    requires Net.Safe(t.net)
    ensures Net.Safe(t'.net)
    decreases |steps|
  {
    if |steps| == 0 then t else Run(Step(t, steps[0]), steps[1..])
  }

  // ---------- the invariant ----------

  predicate IsMode(r: Net.Record) {
    r.sn == 0 && ControlKind(r.payload) == Ok(KIND_FEC_MODE) && Parse(r.payload).Ok?
  }

  /** A control of the run. */
  ghost predicate Emitted(k: nat, h: seq<Dispatch>, c: Control) {
    exists m :: 0 < m <= |h| && EmittedAt(k, h, m) == Some(c)
  }

  /** A parity record of the run. */
  ghost predicate EmittedParity(k: nat, ic: Option<Cipher>, h: seq<Dispatch>, payload: Frame)
    requires 2 <= k <= 64
  {
    exists e :: 0 < e <= |h| && ParityAt(k, ic, h, e) == Some(payload)
  }

  /** A data record is what was dispatched under its number, in the generation of that dispatch; any other
      record is a control or a parity record of the run. */
  ghost predicate Good(k: nat, ic: Option<Cipher>, h: seq<Dispatch>, r: Net.Record)
    requires 2 <= k <= 64
  {
    if r.sn > 0 then r.sn <= |h| && r.gen == TxAfter(k, h, r.sn).generation && r.payload == Nth(h, r.sn).data
    else if IsMode(r) then Emitted(k, h, Parse(r.payload).value)
    else EmittedParity(k, ic, h, r.payload)
  }

  ghost predicate AllGood(k: nat, ic: Option<Cipher>, h: seq<Dispatch>, fifo: seq<Net.Record>)
    requires 2 <= k <= 64
  {
    forall i | 0 <= i < |fifo| :: Good(k, ic, h, fifo[i])
  }

  ghost predicate StreamsGood(k: nat, ic: Option<Cipher>, h: seq<Dispatch>, n: Net.Net)
    requires 2 <= k <= 64
  {
    && (forall i | 0 <= i < |n.live| :: AllGood(k, ic, h, n.live[i].fifo))
    && (forall i | 0 <= i < |n.orphans| :: AllGood(k, ic, h, n.orphans[i]))
  }

  /** The receiver stands where some prefix of the run's controls leaves it. */
  ghost predicate Caught(k: nat, h: seq<Dispatch>, rx: Fence) {
    exists m :: 0 <= m <= |h| && RxAt(k, h, m) == rx
  }

  ghost predicate Faithful(k: nat, ic: Option<Cipher>, t: Traced) {
    && 2 <= k <= 64
    && t.net.enc.k == k && t.net.ic == ic
    && |t.history| == t.net.lastSn <= U32_MAX && NonEmpty(t.history)
    && t.net.tx == TxAfter(k, t.history, |t.history|)
    && t.net.enc == After(k, ic, t.history, |t.history|)
    && StreamsGood(k, ic, t.history, t.net)
    && (!t.skipped ==> Caught(k, t.history, t.net.rx))
  }

  // ---------- histories only grow ----------

  lemma {:induction false} ModeOfPrefix(k: nat, h: seq<Dispatch>, d: Dispatch, n: nat)
    requires n <= |h|
    ensures TxAfter(k, h + [d], n) == TxAfter(k, h, n) && RxAt(k, h + [d], n) == RxAt(k, h, n)
    ensures n > 0 ==> EmittedAt(k, h + [d], n) == EmittedAt(k, h, n) && Nth(h + [d], n) == Nth(h, n)
  {
    hide Observed, Apply;
    if n == 0 {
    } else {
      ModeOfPrefix(k, h, d, n - 1);
    }
  }

  lemma {:induction false} EncoderOfPrefix(k: nat, ic: Option<Cipher>, h: seq<Dispatch>, d: Dispatch, n: nat)
    requires 2 <= k <= 64 && n <= |h|
    ensures After(k, ic, h + [d], n) == After(k, ic, h, n)
    ensures n > 0 ==> ParityAt(k, ic, h + [d], n) == ParityAt(k, ic, h, n)
  {
    hide Added, SetPaths;
    if n == 0 {
    } else {
      EncoderOfPrefix(k, ic, h, d, n - 1);
    }
  }

  lemma GoodGrows(k: nat, ic: Option<Cipher>, h: seq<Dispatch>, d: Dispatch, r: Net.Record)
    requires 2 <= k <= 64
    requires Good(k, ic, h, r)
    ensures Good(k, ic, h + [d], r)
  {
    hide TxAfter, EmittedAt, ParityAt;
    if r.sn > 0 {
      ModeOfPrefix(k, h, d, r.sn);
    } else if IsMode(r) {
      var m :| 0 < m <= |h| && EmittedAt(k, h, m) == Some(Parse(r.payload).value);
      ModeOfPrefix(k, h, d, m);
    } else {
      var e :| 0 < e <= |h| && ParityAt(k, ic, h, e) == Some(r.payload);
      EncoderOfPrefix(k, ic, h, d, e);
      assert ParityAt(k, ic, h + [d], e) == Some(r.payload);
    }
  }

  lemma StreamsGrow(k: nat, ic: Option<Cipher>, h: seq<Dispatch>, d: Dispatch, n: Net.Net)
    requires 2 <= k <= 64
    requires StreamsGood(k, ic, h, n)
    ensures StreamsGood(k, ic, h + [d], n)
  {
    hide Good;
    forall i, j | 0 <= i < |n.live| && 0 <= j < |n.live[i].fifo| ensures Good(k, ic, h + [d], n.live[i].fifo[j]) {
      assert AllGood(k, ic, h, n.live[i].fifo);
      GoodGrows(k, ic, h, d, n.live[i].fifo[j]);
    }
    forall i, j | 0 <= i < |n.orphans| && 0 <= j < |n.orphans[i]| ensures Good(k, ic, h + [d], n.orphans[i][j]) {
      assert AllGood(k, ic, h, n.orphans[i]);
      GoodGrows(k, ic, h, d, n.orphans[i][j]);
    }
  }

  lemma CaughtGrows(k: nat, h: seq<Dispatch>, d: Dispatch, rx: Fence)
    requires Caught(k, h, rx)
    ensures Caught(k, h + [d], rx)
  {
    hide RxAt;
    var m :| 0 <= m <= |h| && RxAt(k, h, m) == rx;
    ModeOfPrefix(k, h, d, m);
    assert RxAt(k, h + [d], m) == rx;
  }

  // ---------- sending ----------

  /** The sender's current control is one of the run. */
  lemma {:induction false} CurrentEmitted(k: nat, h: seq<Dispatch>, n: nat)
    requires n <= |h|
    ensures TxAfter(k, h, n).current.Some? ==> Emitted(k, h, TxAfter(k, h, n).current.value)
  {
    hide GroupStart, NextGroupStart, IsStart;
    if n == 0 {
    } else {
      CurrentEmitted(k, h, n - 1);
      if TxAfter(k, h, n).current != TxAfter(k, h, n - 1).current {
        assert EmittedAt(k, h, n) == TxAfter(k, h, n).current;
      }
    }
  }

  lemma SendKeepsGood(k: nat, ic: Option<Cipher>, h: seq<Dispatch>, b: Net.Backend, r: Net.Record)
    requires 2 <= k <= 64
    requires AllGood(k, ic, h, b.fifo) && Good(k, ic, h, r)
    ensures AllGood(k, ic, h, Net.TrySend(b, r).0.fifo)
  {
    hide Good;
  }

  lemma FencedKeepsGood(k: nat, ic: Option<Cipher>, h: seq<Dispatch>, b: Net.Backend, sn: nat, data: Frame, tx: TxMode)
    requires 2 <= k <= 64
    requires AllGood(k, ic, h, b.fifo) && Good(k, ic, h, Net.Record(sn, data, tx.generation))
    requires tx.current.Some? ==> Good(k, ic, h, Net.Record(0, Encode(tx.current.value), tx.generation))
    ensures AllGood(k, ic, h, Net.TrySendFenced(b, sn, data, tx).0.fifo)
  {
    hide Good, AllGood, Encode;
    var r := Net.Record(sn, data, tx.generation);
    SendKeepsGood(k, ic, h, b, r);
    if tx.current.Some? {
      var c := Net.Record(0, Encode(tx.current.value), tx.generation);
      SendKeepsGood(k, ic, h, b, c);
      SendKeepsGood(k, ic, h, Net.TrySend(b, c).0.(fence := tx.current.value.generation), r);
    }
  }

  ghost predicate BackendsGood(k: nat, ic: Option<Cipher>, h: seq<Dispatch>, bs: seq<Net.Backend>)
    requires 2 <= k <= 64
  {
    forall i | 0 <= i < |bs| :: AllGood(k, ic, h, bs[i].fifo)
  }

  lemma {:induction false} FallbackKeepsGood(k: nat, ic: Option<Cipher>, h: seq<Dispatch>, bs: seq<Net.Backend>,
                                             preferred: Option<nat>, i: nat, sn: nat, data: Frame, tx: TxMode)
    requires 2 <= k <= 64
    requires i <= |bs| && BackendsGood(k, ic, h, bs) && Good(k, ic, h, Net.Record(sn, data, tx.generation))
    requires tx.current.Some? ==> Good(k, ic, h, Net.Record(0, Encode(tx.current.value), tx.generation))
    ensures BackendsGood(k, ic, h, Net.Fallback(bs, preferred, i, sn, data, tx).0)
    decreases |bs| - i
  {
    hide Good, AllGood, Encode, Net.TrySendFenced;
    if i >= |bs| {
    } else {
      if preferred == Some(i) || !bs[i].healthy {
        FallbackKeepsGood(k, ic, h, bs, preferred, i + 1, sn, data, tx);
      } else {
        FencedKeepsGood(k, ic, h, bs[i], sn, data, tx);
        FallbackKeepsGood(k, ic, h, bs[i := Net.TrySendFenced(bs[i], sn, data, tx).0], preferred, i + 1, sn, data, tx);
      }
    }
  }

  lemma SendAnyKeepsGood(k: nat, ic: Option<Cipher>, h: seq<Dispatch>, bs: seq<Net.Backend>, preferred: Option<nat>,
                         sn: nat, data: Frame, tx: TxMode)
    requires 2 <= k <= 64
    requires BackendsGood(k, ic, h, bs) && Good(k, ic, h, Net.Record(sn, data, tx.generation))
    requires tx.current.Some? ==> Good(k, ic, h, Net.Record(0, Encode(tx.current.value), tx.generation))
    ensures BackendsGood(k, ic, h, Net.SendToAny(bs, preferred, sn, data, tx).0)
  {
    hide Good, AllGood, Encode, Net.TrySendFenced, Net.Fallback;
    if preferred.Some? && preferred.value < |bs| {
      var p := preferred.value;
      FencedKeepsGood(k, ic, h, bs[p], sn, data, tx);
      FallbackKeepsGood(k, ic, h, bs[p := Net.TrySendFenced(bs[p], sn, data, tx).0], preferred, 0, sn, data, tx);
    } else {
      FallbackKeepsGood(k, ic, h, bs, preferred, 0, sn, data, tx);
    }
  }

  /** A parity record is no mode control. */
  lemma ParityNoMode(e: Enc, ic: Option<Cipher>, sn: nat, data: Frame, gen: nat)
    requires 2 <= e.k <= 64 && |e.group| < e.k && Added(e, ic, sn, data).1.Some?
    ensures !IsMode(Net.Record(0, Added(e, ic, sn, data).1.value, gen))
  {
    hide Sealed, EncodeLens, XorBody, IsStart;
  }

  /** The parity made ready by the latest dispatch. */
  lemma ParityIsGood(k: nat, ic: Option<Cipher>, h: seq<Dispatch>, d: Dispatch, gen: nat)
    requires 2 <= k <= 64
    ensures var parity := Added(SetPaths(After(k, ic, h, |h|), d.paths), ic, |h| + 1, d.data).1;
            parity.Some? ==> Good(k, ic, h + [d], Net.Record(0, parity.value, gen))
  {
    hide Added, TxAfter, After, IsMode;
    var h' := h + [d];
    EncoderOfPrefix(k, ic, h, d, |h|);
    assert Nth(h', |h'|) == d;
    var e := SetPaths(After(k, ic, h, |h|), d.paths);
    if Added(e, ic, |h'|, d.data).1.Some? {
      assert ParityAt(k, ic, h', |h'|) == Added(e, ic, |h'|, d.data).1;
      ParityNoMode(e, ic, |h'|, d.data, gen);
    }
  }

  lemma ControlIsGood(k: nat, ic: Option<Cipher>, h: seq<Dispatch>, c: Control, gen: nat)
    requires 2 <= k <= 64
    requires Emitted(k, h, c) && c.WellFormed() && c.InRange()
    ensures Good(k, ic, h, Net.Record(0, Encode(c), gen))
  {
    hide Emitted, Encode, Parse, TxAfter, EmittedParity;
    EncodeParse(c);
  }

  /** Writing: the new dispatch extends the history, and every record it enqueues is good. */
  lemma WriteFaithful(k: nat, ic: Option<Cipher>, t: Traced, data: Frame, preferred: Option<nat>, parityIndex: Option<nat>)
    requires Net.Safe(t.net) && Faithful(k, ic, t)
    ensures Faithful(k, ic, Step(t, Net.Write(data, preferred, parityIndex)))
  {
    hide Net.Safe, Net.SendToAny, Added, Observed, TxValid, StreamsGood, Caught, Good, AllGood, TxAfter, After, Net.TrySend;
    var n, h := t.net, t.history;
    var step := Net.Write(data, preferred, parityIndex);
    SafeParts(n);
    if |Dispatched(n, step)| > 0 {
      var d := Dispatch(|n.live|, data);
      var h' := h + [d];
      var sn := |h'|;
      var tx := Observed(n.tx, |n.live|, sn, k).0;
      NextMode'(k, h, d);
      assert tx == TxAfter(k, h', sn);
      var e := SetPaths(n.enc, |n.live|);
      Net.AddedShrinks(n.enc, ic, sn, data, |n.live|);
      var live := Net.SendToAny(n.live, preferred, sn, data, tx).0;
      DispatchGood(k, ic, h, d, n, preferred, tx);
      StreamsGrow(k, ic, h, d, n);
      SplitStreams(k, ic, h', n);
      ParityIsGood(k, ic, h, d, tx.generation);
      if Added(e, ic, sn, data).1.Some? && parityIndex.Some? && parityIndex.value < |live| {
        ParityKeepsGood(k, ic, h', live, parityIndex.value, Net.Record(0, Added(e, ic, sn, data).1.value, tx.generation));
      }
      NextEncoder(k, ic, h, d);
      JoinStreams(k, ic, h', n, Net.Next(n, step));
      if !t.skipped { CaughtGrows(k, h, d, n.rx); }
    } else {
      assert Dispatched(n, step) == [] && h + [] == h;
      SameStreams(k, ic, h, n, Net.Next(n, step));
    }
  }

  lemma SafeParts(n: Net.Net)
    requires Net.Safe(n)
    ensures 2 <= n.enc.k <= 64 && |n.enc.group| < n.enc.k && TxValid(n.tx)
    ensures |SetPaths(n.enc, |n.live|).group| < n.enc.k && SetPaths(n.enc, |n.live|).k == n.enc.k
  {
  }

  lemma NextMode'(k: nat, h: seq<Dispatch>, d: Dispatch)
    ensures TxAfter(k, h + [d], |h| + 1) == Observed(TxAfter(k, h, |h|), d.paths, |h| + 1, k).0
  {
    hide Observed;
    ModeOfPrefix(k, h, d, |h|);
  }

  lemma NextEncoder(k: nat, ic: Option<Cipher>, h: seq<Dispatch>, d: Dispatch)
    requires 2 <= k <= 64
    ensures After(k, ic, h + [d], |h| + 1) == Added(SetPaths(After(k, ic, h, |h|), d.paths), ic, |h| + 1, d.data).0
  {
    hide Added, SetPaths;
    EncoderOfPrefix(k, ic, h, d, |h|);
  }

  lemma SplitStreams(k: nat, ic: Option<Cipher>, h: seq<Dispatch>, n: Net.Net)
    requires 2 <= k <= 64
    requires StreamsGood(k, ic, h, n)
    ensures BackendsGood(k, ic, h, n.live)
  {
    hide AllGood;
  }

  lemma JoinStreams(k: nat, ic: Option<Cipher>, h: seq<Dispatch>, n: Net.Net, n': Net.Net)
    requires 2 <= k <= 64
    requires StreamsGood(k, ic, h, n) && n'.orphans == n.orphans && BackendsGood(k, ic, h, n'.live)
    ensures StreamsGood(k, ic, h, n')
  {
    hide AllGood;
  }

  lemma SameStreams(k: nat, ic: Option<Cipher>, h: seq<Dispatch>, n: Net.Net, n': Net.Net)
    requires 2 <= k <= 64
    requires StreamsGood(k, ic, h, n) && n'.orphans == n.orphans && n'.live == n.live
    ensures StreamsGood(k, ic, h, n')
  {
    hide AllGood;
  }

  lemma ParityKeepsGood(k: nat, ic: Option<Cipher>, h: seq<Dispatch>, bs: seq<Net.Backend>, i: nat, r: Net.Record)
    requires 2 <= k <= 64
    requires i < |bs| && BackendsGood(k, ic, h, bs) && Good(k, ic, h, r)
    ensures BackendsGood(k, ic, h, bs[i := Net.TrySend(bs[i], r).0])
  {
    hide Good, AllGood, Net.TrySend;
    SendKeepsGood(k, ic, h, bs[i], r);
  }

  lemma DispatchGood(k: nat, ic: Option<Cipher>, h: seq<Dispatch>, d: Dispatch, n: Net.Net, preferred: Option<nat>, tx: TxMode)
    requires 2 <= k <= 64
    requires StreamsGood(k, ic, h, n) && TxValid(n.tx) && |h| < U32_MAX
    requires n.tx == TxAfter(k, h, |h|) && tx == Observed(n.tx, d.paths, |h| + 1, k).0 == TxAfter(k, h + [d], |h| + 1)
    ensures BackendsGood(k, ic, h + [d], Net.SendToAny(n.live, preferred, |h| + 1, d.data, tx).0)
  {
    hide Net.SendToAny, AllGood, Observed, TxAfter, Encode, Parse, EmittedParity, IsMode;
    var h', sn := h + [d], |h| + 1;
    StreamsGrow(k, ic, h, d, n);
    SplitStreams(k, ic, h', n);
    ObserveKeepsValid(n.tx, d.paths, sn, k);
    CurrentEmitted(k, h', sn);
    if tx.current.Some? { ControlIsGood(k, ic, h', tx.current.value, tx.generation); }
    assert Nth(h', sn) == d;
    SendAnyKeepsGood(k, ic, h', n.live, preferred, sn, d.data, tx);
  }

  // ---------- receiving ----------

  /** Applying the next generation lands on the next prefix of the run's controls. */
  lemma CaughtNext(k: nat, h: seq<Dispatch>, rx: Fence, c: Control)
    requires |h| <= U32_MAX && Caught(k, h, rx) && Emitted(k, h, c) && c.generation == rx.generation + 1
    ensures Caught(k, h, Apply(rx, c))
  {
    hide TxAfter, EmittedAt, PhaseAt, Apply;
    var m :| 0 <= m <= |h| && RxAt(k, h, m) == rx;
    var m' :| 0 < m' <= |h| && EmittedAt(k, h, m') == Some(c);
    GenerationStep(k, h, m');
    PhaseConsistent(k, h, m);
    if m <= m' - 1 { GenerationMonotone(k, h, m, m' - 1); } else { GenerationMonotone(k, h, m' - 1, m); }
    assert RxAt(k, h, m') == Apply(rx, c);
  }

  /** Receiving one record keeps the receiver caught up unless it skips. */
  lemma ReceiveCaught(k: nat, ic: Option<Cipher>, h: seq<Dispatch>, rx: Fence, r: Net.Record)
    requires 2 <= k <= 64
    requires |h| <= U32_MAX && Caught(k, h, rx) && Good(k, ic, h, r) && Net.Raises(r) <= rx.generation + 1
    ensures Caught(k, h, Net.Received(rx, r))
  {
    hide Caught, Emitted, TxAfter, Parse, ControlKind, EmittedParity;
    if IsMode(r) {
      ParseEncode(r.payload);
      var c := Parse(r.payload).value;
      if c.generation == rx.generation + 1 { CaughtNext(k, h, rx, c); }
    }
  }

  lemma HeadGood(k: nat, ic: Option<Cipher>, h: seq<Dispatch>, fifo: seq<Net.Record>)
    requires 2 <= k <= 64
    requires AllGood(k, ic, h, fifo) && |fifo| > 0
    ensures Good(k, ic, h, fifo[0]) && AllGood(k, ic, h, fifo[1..])
  {
    hide Good;
  }

  lemma StepFaithful(k: nat, ic: Option<Cipher>, t: Traced, step: Net.Step)
    requires Net.Safe(t.net) && Faithful(k, ic, t)
    ensures Faithful(k, ic, Step(t, step))
  {
    hide Net.Safe, Net.Written, Net.Received, Net.Raises, Good, AllGood, Caught, TxAfter, After, NonEmpty, Net.BackendOk, Net.Fenced;
    var n, h := t.net, t.history;
    assert step.Write? || (Dispatched(n, step) == [] && h + [] == h);
    match step
    case Write(data, preferred, parityIndex) => WriteFaithful(k, ic, t, data, preferred, parityIndex);
    case Register(free, healthy) => NothingGood(k, ic, h);
    case ReceiveLive(i) =>
      if i < |n.live| && |n.live[i].fifo| > 0 {
        HeadGood(k, ic, h, n.live[i].fifo);
        if !t.skipped && !Skips(n, step) { ReceiveCaught(k, ic, h, n.rx, n.live[i].fifo[0]); }
      }
    case ReceiveOrphan(i) =>
      if i < |n.orphans| && |n.orphans[i]| > 0 {
        HeadGood(k, ic, h, n.orphans[i]);
        if !t.skipped && !Skips(n, step) { ReceiveCaught(k, ic, h, n.rx, n.orphans[i][0]); }
      }
    case _ =>
  }

  lemma NothingGood(k: nat, ic: Option<Cipher>, h: seq<Dispatch>)
    requires 2 <= k <= 64
    ensures AllGood(k, ic, h, [])
  {
  }

  // ---------- whole runs ----------

  lemma StartSafe(k: nat, ic: Option<Cipher>)
    ensures Net.Safe(Net.Start(k, ic))
  {
  }

  ghost function Start(k: nat, ic: Option<Cipher>): (t: Traced)
    ensures Net.Safe(t.net) && t == Traced(Net.Start(k, ic), [], false)
  {
    StartSafe(k, ic);
    Traced(Net.Start(k, ic), [], false)
  }

  lemma StartFaithful(k: nat, ic: Option<Cipher>)
    requires 2 <= k <= 64
    ensures Faithful(k, ic, Start(k, ic))
  {
    assert RxAt(k, [], 0) == OPEN_FENCE;
  }

  lemma {:induction false} RunFaithful(k: nat, ic: Option<Cipher>, t: Traced, steps: seq<Net.Step>)
    requires Net.Safe(t.net) && Faithful(k, ic, t)
    ensures Faithful(k, ic, Run(t, steps))
    ensures t.history <= Run(t, steps).history
    decreases |steps|
  {
    hide Net.Safe, Faithful, Step;
    if |steps| == 0 {
    } else {
      StepFaithful(k, ic, t, steps[0]);
      StepExtends(t, steps[0]);
      RunFaithful(k, ic, Step(t, steps[0]), steps[1..]);
    }
  }

  lemma StepExtends(t: Traced, step: Net.Step)
    requires Net.Safe(t.net)
    ensures t.history <= Step(t, step).history
  {
    hide Net.Safe, Net.Next;
  }

  lemma {:induction false} ModeOfExtension(k: nat, h: seq<Dispatch>, h': seq<Dispatch>, n: nat)
    requires h <= h' && n <= |h|
    ensures TxAfter(k, h', n) == TxAfter(k, h, n) && RxAt(k, h', n) == RxAt(k, h, n)
    decreases |h'|
  {
    hide TxAfter, RxAt;
    if |h'| > |h| {
      var front := h'[..|h'| - 1];
      assert h' == front + [h'[|h'| - 1]];
      ModeOfExtension(k, h, front, n);
      ModeOfPrefix(k, front, h'[|h'| - 1], n);
    } else {
      assert h' == h;
    }
  }

  /** In every run of the network, over any number of paths that come, go, fill up and fall back: as long as
      the receiver has skipped no generation, data that it may process next, and whose group's parity the
      encoder emits now or later, does not bypass FEC; and the data is what was written under its number. */
  lemma ProtectedNeverBypasses(k: nat, ic: Option<Cipher>, steps: seq<Net.Step>, more: seq<Net.Step>, r: Net.Record)
    requires 2 <= k <= 64
    requires var t := Run(Start(k, ic), steps);
             !t.skipped && Net.AtHead(t.net, r) && r.sn > 0
    requires var h := Run(Run(Start(k, ic), steps), more).history;
             var e := GroupStart(r.sn, k) + k - 1;
             e <= |h| && ParityAt(k, ic, h, e).Some?
    ensures !Run(Start(k, ic), steps).net.rx.Bypasses(r.sn)
    ensures var h := Run(Start(k, ic), steps).history; r.sn <= |h| && r.payload == Nth(h, r.sn).data
  {
    hide Net.Safe, Run, ParityAt, GroupStart, TxAfter, RxAt, NonEmpty, PhaseAt, After, IsMode;
    StartFaithful(k, ic);
    RunFaithful(k, ic, Start(k, ic), steps);
    var t := Run(Start(k, ic), steps);
    RunFaithful(k, ic, t, more);
    var h, h' := t.history, Run(t, more).history;
    HeadRecord(k, ic, h, t.net, r);
    var m :| 0 <= m <= |h| && RxAt(k, h, m) == t.net.rx;
    ModeOfExtension(k, h, h', m);
    ModeOfExtension(k, h, h', r.sn);
    PhaseConsistent(k, h, m);
    EmittedNeverBypasses(k, ic, h', m, r.sn);
  }

  /** The head of a stream is good, and no newer than the receiver. */
  lemma HeadRecord(k: nat, ic: Option<Cipher>, h: seq<Dispatch>, n: Net.Net, r: Net.Record)
    requires 2 <= k <= 64
    requires Net.Safe(n) && StreamsGood(k, ic, h, n) && Net.AtHead(n, r)
    ensures Good(k, ic, h, r) && (r.sn > 0 ==> r.gen <= n.rx.generation)
  {
    hide Good, Net.BackendOk, Net.Fenced, Net.Raises;
    if i :| 0 <= i < |n.live| && |n.live[i].fifo| > 0 && n.live[i].fifo[0] == r {
      Net.OkTail(n.live[i], n.rx.generation);
      assert AllGood(k, ic, h, n.live[i].fifo);
    } else {
      var i :| 0 <= i < |n.orphans| && |n.orphans[i]| > 0 && n.orphans[i][0] == r;
      Net.FencedTail(n.orphans[i], n.rx.generation);
      assert AllGood(k, ic, h, n.orphans[i]);
    }
  }

  // ---------- with skipped generations ----------

  /** The receiver has applied some controls of the run. */
  ghost predicate Applied(k: nat, h: seq<Dispatch>, rx: Fence) {
    exists controls :: AllEmitted(k, h, controls) && ApplyAll(OPEN_FENCE, controls) == rx
  }

  lemma EmittedGrows(k: nat, h: seq<Dispatch>, h': seq<Dispatch>, c: Control)
    requires Emitted(k, h, c) && h <= h'
    ensures Emitted(k, h', c)
  {
    hide TxAfter, RxAt, Observed;
    var n :| 0 < n <= |h| && EmittedAt(k, h, n) == Some(c);
    ModeOfExtension(k, h, h', n - 1);
    assert EmittedAt(k, h', n) == Some(c);
  }

  lemma AppliedGrows(k: nat, h: seq<Dispatch>, h': seq<Dispatch>, rx: Fence)
    requires Applied(k, h, rx) && h <= h'
    ensures Applied(k, h', rx)
  {
    hide EmittedAt, ApplyAll;
    var controls :| AllEmitted(k, h, controls) && ApplyAll(OPEN_FENCE, controls) == rx;
    forall c | c in controls ensures exists n :: 0 < n <= |h'| && EmittedAt(k, h', n) == Some(c) {
      assert Emitted(k, h, c);
      EmittedGrows(k, h, h', c);
    }
    assert AllEmitted(k, h', controls);
  }

  lemma AppliedNext(k: nat, h: seq<Dispatch>, rx: Fence, c: Control)
    requires Applied(k, h, rx) && Emitted(k, h, c)
    ensures Applied(k, h, Apply(rx, c))
  {
    hide EmittedAt, Apply;
    var controls :| AllEmitted(k, h, controls) && ApplyAll(OPEN_FENCE, controls) == rx;
    var more := controls + [c];
    assert more[..|controls|] == controls;
    assert AllEmitted(k, h, more);
  }

  lemma ReceiveApplied(k: nat, ic: Option<Cipher>, h: seq<Dispatch>, rx: Fence, r: Net.Record)
    requires 2 <= k <= 64 && Applied(k, h, rx) && Good(k, ic, h, r)
    ensures Applied(k, h, Net.Received(rx, r))
  {
    hide Applied, Emitted, TxAfter, Parse, ControlKind, EmittedParity, Apply;
    if IsMode(r) { AppliedNext(k, h, rx, Parse(r.payload).value); }
  }

  lemma StepApplied(k: nat, ic: Option<Cipher>, t: Traced, step: Net.Step)
    requires Net.Safe(t.net) && Faithful(k, ic, t) && Applied(k, t.history, t.net.rx)
    ensures Applied(k, Step(t, step).history, Step(t, step).net.rx)
  {
    hide Net.Safe, Net.Written, Net.Received, Good, AllGood, Caught, TxAfter, After, NonEmpty, Applied, Skips;
    var n, h := t.net, t.history;
    StepExtends(t, step);
    match step {
      case ReceiveLive(i) =>
        if i < |n.live| && |n.live[i].fifo| > 0 {
          HeadGood(k, ic, h, n.live[i].fifo);
          ReceiveApplied(k, ic, h, n.rx, n.live[i].fifo[0]);
        }
      case ReceiveOrphan(i) =>
        if i < |n.orphans| && |n.orphans[i]| > 0 {
          HeadGood(k, ic, h, n.orphans[i]);
          ReceiveApplied(k, ic, h, n.rx, n.orphans[i][0]);
        }
      case Write(data, preferred, parityIndex) => WriteKeepsRx(n, data, preferred, parityIndex);
      case _ =>
    }
    AppliedGrows(k, h, Step(t, step).history, Step(t, step).net.rx);
  }

  lemma WriteKeepsRx(n: Net.Net, data: Frame, preferred: Option<nat>, parityIndex: Option<nat>)
    requires 2 <= n.enc.k <= 64 && |n.enc.group| < n.enc.k
    ensures Net.Written(n, data, preferred, parityIndex).rx == n.rx
  {
    hide Net.SendToAny, Added, Observed;
  }

  lemma {:induction false} RunApplied(k: nat, ic: Option<Cipher>, t: Traced, steps: seq<Net.Step>)
    requires Net.Safe(t.net) && Faithful(k, ic, t) && Applied(k, t.history, t.net.rx)
    ensures Applied(k, Run(t, steps).history, Run(t, steps).net.rx)
    decreases |steps|
  {
    hide Net.Safe, Faithful, Step, Applied;
    if |steps| == 0 {
    } else {
      StepFaithful(k, ic, t, steps[0]);
      StepApplied(k, ic, t, steps[0]);
      RunApplied(k, ic, Step(t, steps[0]), steps[1..]);
    }
  }

  lemma StartApplied(k: nat, ic: Option<Cipher>)
    ensures Applied(k, Start(k, ic).history, Start(k, ic).net.rx)
  {
    assert AllEmitted(k, [], []) && ApplyAll(OPEN_FENCE, []) == OPEN_FENCE;
  }

  /** In every run of the network, whatever generations the receiver has skipped: data that it may process next, and
      whose group's parity the encoder emits now or later, bypasses FEC if and only if the receiver's window spans a
      resumption and the next suspension that left room for the group. */
  lemma BypassesExactly(k: nat, ic: Option<Cipher>, steps: seq<Net.Step>, more: seq<Net.Step>, r: Net.Record)
    requires 2 <= k <= 64
    requires Net.AtHead(Run(Start(k, ic), steps).net, r) && r.sn > 0
    requires var h := Run(Run(Start(k, ic), steps), more).history;
             var e := GroupStart(r.sn, k) + k - 1;
             e <= |h| && ParityAt(k, ic, h, e).Some?
    ensures var t := Run(Start(k, ic), steps);
            t.net.rx.Bypasses(r.sn) <==> SkippedOver(k, Run(t, more).history, t.net.rx, GroupStart(r.sn, k))
  {
    hide Net.Safe, Run, ParityAt, GroupStart, TxAfter, RxAt, NonEmpty, After, IsMode, IsStart, AllEmitted, ApplyAll, SkippedOver,
      Applied, StreamsGood, Caught;
    StartFaithful(k, ic);
    StartApplied(k, ic);
    RunFaithful(k, ic, Start(k, ic), steps);
    RunApplied(k, ic, Start(k, ic), steps);
    var t := Run(Start(k, ic), steps);
    RunFaithful(k, ic, t, more);
    var h, h' := t.history, Run(t, more).history;
    HeadRecord(k, ic, h, t.net, r);
    BypassesAt(k, ic, h, h', t.net.rx, r);
  }

  lemma BypassesAt(k: nat, ic: Option<Cipher>, h: seq<Dispatch>, h': seq<Dispatch>, rx: Fence, r: Net.Record)
    requires 2 <= k <= 64 && h <= h' && |h'| <= U32_MAX && NonEmpty(h') && Applied(k, h, rx)
    requires Good(k, ic, h, r) && 0 < r.sn && r.gen <= rx.generation
    requires var e := GroupStart(r.sn, k) + k - 1; e <= |h'| && ParityAt(k, ic, h', e).Some?
    ensures rx.Bypasses(r.sn) <==> SkippedOver(k, h', rx, GroupStart(r.sn, k))
  {
    hide ParityAt, GroupStart, TxAfter, RxAt, NonEmpty, IsStart, AllEmitted, ApplyAll, SkippedOver;
    var s := GroupStart(r.sn, k);
    StartPositive(s, k);
    ModeOfExtension(k, h, h', r.sn);
    GenerationMonotone(k, h', s, r.sn);
    AppliedGrows(k, h, h', rx);
    var controls :| AllEmitted(k, h', controls) && ApplyAll(OPEN_FENCE, controls) == rx;
    BypassExactly(k, ic, h', controls, s);
    GroupsBypassWhole(k, h', controls, s, r.sn);
  }
}
