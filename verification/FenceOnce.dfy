/** Mode controls travel once per path: over every run the controls enqueued on one path have strictly increasing
    generations (src/net.rs). */
module FenceOnce {
  import opened Bytes
  import opened Parity
  import opened FecMode
  import opened FecEncoder
  import opened FencedDispatch
  import FencedBypass

  /** The generations of the mode controls strictly increase. */
  predicate Once(log: seq<Record>) {
    forall i, j | 0 <= i < j < |log| && Raises(log[i]) > 0 && Raises(log[j]) > 0 :: Raises(log[i]) < Raises(log[j])
  }

  predicate Above(log: seq<Record>, fence: nat) {
    forall i | 0 <= i < |log| && Raises(log[i]) > 0 :: Raises(log[i]) > fence
  }

  predicate UpTo(log: seq<Record>, fence: nat) {
    forall i | 0 <= i < |log| :: Raises(log[i]) <= fence
  }

  // ---------- one send ----------

  /** A send on one path: records are only added, and controls among them are newer than the path's fence, which moves up
      to them. */
  predicate Extends(b: Backend, b': Backend) {
    && b.fifo <= b'.fifo && b.fence <= b'.fence
    && var e := b'.fifo[|b.fifo|..];
       Once(e) && Above(e, b.fence) && UpTo(e, b'.fence)
  }

  lemma ExtendsBoth(b: Backend, b1: Backend, b2: Backend)
    requires Extends(b, b1) && Extends(b1, b2)
    ensures Extends(b, b2)
  {
    hide Raises;
    var e1, e2, e := b1.fifo[|b.fifo|..], b2.fifo[|b1.fifo|..], b2.fifo[|b.fifo|..];
    assert e == e1 + e2;
  }

  lemma SendExtends(b: Backend, r: Record)
    requires Raises(r) == 0
    ensures Extends(b, TrySend(b, r).0)
  {
    hide Raises;
    assert (b.fifo + [r])[|b.fifo|..] == [r];
    assert b.fifo[|b.fifo|..] == [];
  }

  lemma ControlExtends(b: Backend, r: Record)
    requires Raises(r) > b.fence && b.free > 0
    ensures Extends(b, TrySend(b, r).0.(fence := Raises(r)))
  {
    hide Raises;
    assert (b.fifo + [r])[|b.fifo|..] == [r];
  }

  lemma ControlRaises(c: Control, gen: nat)
    requires c.WellFormed() && c.InRange()
    ensures Raises(Record(0, Encode(c), gen)) == c.generation
  {
    EncodeParse(c);
  }

  /** A frame that is accepted under a published control leaves the path fenced: the next frame needs no control. A path
      without room for the control stays as it is; one that took the control remembers it even if the frame does not fit. */
  lemma FenceRecorded(b: Backend, sn: nat, data: Frame, tx: TxMode)
    requires tx.current.Some? && sn > 0
    ensures var (b', ok) := TrySendFenced(b, sn, data, tx);
            && (ok ==> b'.fence >= tx.current.value.generation && Needs(b', tx) == 1)
            && (ok ==> b'.free + Needs(b, tx) == b.free)
            && (!ok ==> b' == b || (Needs(b, tx) == 2 && Needs(b', tx) == 1 && b'.free == 0 && |b'.fifo| == |b.fifo| + 1))
    ensures b.free >= Needs(b, tx) + 1 ==>
              var b' := TrySendFenced(b, sn, data, tx).0; TrySendFenced(b', sn + 1, data, tx).1
  {
    hide Encode;
  }

  lemma TrySendFencedExtends(b: Backend, sn: nat, data: Frame, tx: TxMode)
    requires TxValid(tx) && sn > 0
    ensures Extends(b, TrySendFenced(b, sn, data, tx).0)
  {
    hide Extends, Raises, Encode;
    var r := Record(sn, data, tx.generation);
    DataRaises(r);
    if tx.current.None? || b.fence >= tx.current.value.generation {
      SendExtends(b, r);
    } else {
      var c := Record(0, Encode(tx.current.value), tx.generation);
      ControlRaises(tx.current.value, tx.generation);
      if b.free > 0 {
        ControlExtends(b, c);
        var b1 := TrySend(b, c).0.(fence := tx.current.value.generation);
        SendExtends(b1, r);
        ExtendsBoth(b, b1, TrySend(b1, r).0);
      } else {
        ExtendsItself(b);
      }
    }
  }

  lemma DataRaises(r: Record)
    requires r.sn > 0
    ensures Raises(r) == 0
  {
  }

  lemma ExtendsItself(b: Backend)
    ensures Extends(b, b)
  {
    assert b.fifo[|b.fifo|..] == [];
  }

  // ---------- one write ----------

  predicate AllExtend(bs: seq<Backend>, bs': seq<Backend>) {
    |bs'| == |bs| && forall j | 0 <= j < |bs| :: Extends(bs[j], bs'[j])
  }

  lemma AllExtendBoth(bs: seq<Backend>, bs1: seq<Backend>, bs2: seq<Backend>)
    requires AllExtend(bs, bs1) && AllExtend(bs1, bs2)
    ensures AllExtend(bs, bs2)
  {
    hide Extends;
    forall j | 0 <= j < |bs| ensures Extends(bs[j], bs2[j]) { ExtendsBoth(bs[j], bs1[j], bs2[j]); }
  }

  lemma OneExtends(bs: seq<Backend>, i: nat, b: Backend)
    requires i < |bs| && Extends(bs[i], b)
    ensures AllExtend(bs, bs[i := b])
  {
    hide Extends;
    forall j | 0 <= j < |bs| ensures Extends(bs[j], bs[i := b][j]) { if j != i { ExtendsItself(bs[j]); } }
  }

  lemma {:induction false} FallbackExtends(bs: seq<Backend>, preferred: Option<nat>, i: nat, sn: nat, data: Frame, tx: TxMode)
    requires i <= |bs| && sn > 0 && TxValid(tx)
    ensures AllExtend(bs, Fallback(bs, preferred, i, sn, data, tx).0)
    decreases |bs| - i
  {
    hide Extends, TrySendFenced, TxValid;
    if i == |bs| {
      forall j | 0 <= j < |bs| ensures Extends(bs[j], bs[j]) { ExtendsItself(bs[j]); }
    } else if preferred == Some(i) || !bs[i].healthy {
      FallbackExtends(bs, preferred, i + 1, sn, data, tx);
    } else {
      TrySendFencedExtends(bs[i], sn, data, tx);
      var (b, ok) := TrySendFenced(bs[i], sn, data, tx);
      OneExtends(bs, i, b);
      if !ok {
        FallbackExtends(bs[i := b], preferred, i + 1, sn, data, tx);
        AllExtendBoth(bs, bs[i := b], Fallback(bs[i := b], preferred, i + 1, sn, data, tx).0);
      }
    }
  }

  lemma SendAnyExtends(bs: seq<Backend>, preferred: Option<nat>, sn: nat, data: Frame, tx: TxMode)
    requires sn > 0 && TxValid(tx)
    ensures AllExtend(bs, SendToAny(bs, preferred, sn, data, tx).0)
  {
    hide Extends, TrySendFenced, TxValid, Fallback;
    if preferred.Some? && preferred.value < |bs| {
      var p := preferred.value;
      TrySendFencedExtends(bs[p], sn, data, tx);
      var b := TrySendFenced(bs[p], sn, data, tx).0;
      OneExtends(bs, p, b);
      FallbackExtends(bs[p := b], preferred, 0, sn, data, tx);
      AllExtendBoth(bs, bs[p := b], Fallback(bs[p := b], preferred, 0, sn, data, tx).0);
    } else {
      FallbackExtends(bs, preferred, 0, sn, data, tx);
    }
  }

  lemma ParityRaises(e: Enc, ic: Option<Cipher>, sn: nat, data: Frame, gen: nat)
    requires 2 <= e.k <= 64 && |e.group| < e.k && Added(e, ic, sn, data).1.Some?
    ensures Raises(Record(0, Added(e, ic, sn, data).1.value, gen)) == 0
  {
    hide Added;
    FencedBypass.ParityNoMode(e, ic, sn, data, gen);
  }

  lemma WriteExtends(n: Net, data: Frame, preferred: Option<nat>, parityIndex: Option<nat>)
    requires 2 <= n.enc.k <= 64 && |n.enc.group| < n.enc.k && TxValid(n.tx) && n.lastSn <= U32_MAX
    ensures AllExtend(n.live, Written(n, data, preferred, parityIndex).live)
  {
    hide Extends, SendToAny, Added, Observed, TxValid, TrySend, Raises;
    forall j | 0 <= j < |n.live| ensures Extends(n.live[j], n.live[j]) { ExtendsItself(n.live[j]); }
    if |data| > 0 && n.lastSn < U32_MAX {
      var sn := n.lastSn + 1;
      ObserveKeepsValid(n.tx, |n.live|, sn, n.enc.k);
      var tx := Observed(n.tx, |n.live|, sn, n.enc.k).0;
      SendAnyExtends(n.live, preferred, sn, data, tx);
      var live := SendToAny(n.live, preferred, sn, data, tx).0;
      var e := SetPaths(n.enc, |n.live|);
      var parity := Added(e, n.ic, sn, data).1;
      if parity.Some? && parityIndex.Some? && parityIndex.value < |live| {
        var r := Record(0, parity.value, tx.generation);
        ParityRaises(e, n.ic, sn, data, tx.generation);
        SendExtends(live[parityIndex.value], r);
        OneExtends(live, parityIndex.value, TrySend(live[parityIndex.value], r).0);
        AllExtendBoth(n.live, live, live[parityIndex.value := TrySend(live[parityIndex.value], r).0]);
      }
    }
  }

  // ---------- whole runs ----------

  /** The network, and everything that was ever enqueued on each path that is still there. */
  datatype Logged = Logged(net: Net, logs: seq<seq<Record>>)

  ghost function LogStep(l: Logged, step: Step): (l': Logged)
    requires Safe(l.net) && |l.logs| == |l.net.live|
    ensures Safe(l'.net) && |l'.logs| == |l'.net.live|
  {
    StepKeepsSafe(l.net, step);
    var net := Next(l.net, step);
    match step
    case Register(_, _) => Logged(net, l.logs + [[]])
    case Unregister(i) => if i >= |l.logs| then Logged(net, l.logs) else Logged(net, l.logs[..i] + l.logs[i + 1..])
    case Write(data, preferred, parityIndex) =>
      WriteExtends(l.net, data, preferred, parityIndex);
      Logged(net, seq(|l.logs|, j requires 0 <= j < |l.logs| =>
        if |l.net.live[j].fifo| <= |net.live[j].fifo| then l.logs[j] + net.live[j].fifo[|l.net.live[j].fifo|..] else l.logs[j]))
    case _ => Logged(net, l.logs)
  }

  ghost function LogRun(l: Logged, steps: seq<Step>): (l': Logged)
    requires Safe(l.net) && |l.logs| == |l.net.live|
    ensures Safe(l'.net) && |l'.logs| == |l'.net.live|
    decreases |steps|
  {
    if |steps| == 0 then l else LogRun(LogStep(l, steps[0]), steps[1..])
  }

  /** The log of a path: its controls are each newer than the one before, none is newer than the path's fence, and what has
      not been processed yet is its end. */
  predicate LogOk(log: seq<Record>, b: Backend) {
    && Once(log) && UpTo(log, b.fence)
    && |b.fifo| <= |log| && log[|log| - |b.fifo|..] == b.fifo
  }

  ghost predicate LogsOk(l: Logged) {
    |l.logs| == |l.net.live| && forall j | 0 <= j < |l.logs| :: LogOk(l.logs[j], l.net.live[j])
  }

  lemma LogExtends(log: seq<Record>, b: Backend, b': Backend)
    requires LogOk(log, b) && Extends(b, b')
    ensures LogOk(log + b'.fifo[|b.fifo|..], b')
  {
    hide Raises;
    var e := b'.fifo[|b.fifo|..];
    assert b'.fifo == b.fifo + e;
    assert (log + e)[|log + e| - |b'.fifo|..] == log[|log| - |b.fifo|..] + e;
  }

  lemma LogTail(log: seq<Record>, b: Backend)
    requires LogOk(log, b) && |b.fifo| > 0
    ensures LogOk(log, b.(fifo := b.fifo[1..]))
  {
    hide Raises, Once, UpTo;
    assert log[|log| - |b.fifo| + 1..] == log[|log| - |b.fifo|..][1..];
  }

  lemma LogRefreshed(log: seq<Record>, b: Backend, free: nat, healthy: bool)
    requires LogOk(log, b)
    ensures LogOk(log, b.(free := free, healthy := healthy))
  {
  }

  lemma StepLogsOk(l: Logged, step: Step)
    requires Safe(l.net) && LogsOk(l)
    ensures LogsOk(LogStep(l, step))
  {
    hide LogOk, Safe, Received, Written, Extends;
    var n := l.net;
    match step
    case Register(free, healthy) => LogNew(Backend(0, free, healthy, []));
    case Refresh(i, free, healthy) => if i < |n.live| { LogRefreshed(l.logs[i], n.live[i], free, healthy); }
    case ReceiveLive(i) => if i < |n.live| && |n.live[i].fifo| > 0 { LogTail(l.logs[i], n.live[i]); }
    case Write(data, preferred, parityIndex) =>
      SafeFacts(n);
      WriteExtends(n, data, preferred, parityIndex);
      var live := Written(n, data, preferred, parityIndex).live;
      forall j | 0 <= j < |l.logs| ensures LogOk(LogStep(l, step).logs[j], live[j]) {
        ExtendsLength(n.live[j], live[j]);
        LogExtends(l.logs[j], n.live[j], live[j]);
      }
    case _ =>
  }

  lemma SafeFacts(n: Net)
    requires Safe(n)
    ensures 2 <= n.enc.k <= 64 && |n.enc.group| < n.enc.k && TxValid(n.tx) && n.lastSn <= U32_MAX
  {
  }

  lemma ExtendsLength(b: Backend, b': Backend)
    requires Extends(b, b')
    ensures |b.fifo| <= |b'.fifo|
  {
  }

  lemma LogNew(b: Backend)
    requires b.fifo == []
    ensures LogOk([], b)
  {
  }

  lemma {:induction false} RunLogsOk(l: Logged, steps: seq<Step>)
    requires Safe(l.net) && LogsOk(l)
    ensures |l.logs| == |l.net.live| && LogsOk(LogRun(l, steps))
    decreases |steps|
  {
    hide Safe, LogStep, LogsOk;
    LogsSized(l);
    if |steps| == 0 {
    } else {
      StepLogsOk(l, steps[0]);
      RunLogsOk(LogStep(l, steps[0]), steps[1..]);
    }
  }

  lemma LogsSized(l: Logged)
    requires LogsOk(l)
    ensures |l.logs| == |l.net.live|
  {
  }

  /** In every run, over any number of paths that come, go, fill up and fall back, the mode controls that were ever
      enqueued on one path have strictly increasing generations: none is sent twice on a path, and none after a newer one.
      No control on a path is newer than the fence the path remembers. */
  lemma ControlsOnce(k: nat, ic: Option<Cipher>, steps: seq<Step>, i: nat)
    requires Safe(Start(k, ic)) && i < |LogRun(Logged(Start(k, ic), []), steps).logs|
    ensures var l := LogRun(Logged(Start(k, ic), []), steps);
            LogOk(l.logs[i], l.net.live[i])
  {
    hide Safe, LogRun, LogOk;
    RunLogsOk(Logged(Start(k, ic), []), steps);
  }
}
