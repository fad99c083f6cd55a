/** The books of the dispatcher: every frame and every parity record it was given is queued on exactly one path or
    counted as dropped (src/net.rs). */
module DispatchBooks {
  import opened Bytes
  import opened Parity
  import opened FecMode
  import opened FecEncoder
  import opened FencedDispatch

  // ---------- counting ----------

  /** A frame or a parity record, as opposed to a mode control. */
  predicate Cargo(r: Record) {
    r.sn > 0 || ControlKind(r.payload) == Ok(KIND_FEC_PARITY)
  }

  function Weight(fifo: seq<Record>): nat {
    if |fifo| == 0 then 0 else Weight(fifo[..|fifo| - 1]) + if Cargo(fifo[|fifo| - 1]) then 1 else 0
  }

  /** How many frames and parity records are queued on all paths together. */
  function Load(bs: seq<Backend>): nat {
    if |bs| == 0 then 0 else Load(bs[..|bs| - 1]) + Weight(bs[|bs| - 1].fifo)
  }

  lemma WeightNext(fifo: seq<Record>, r: Record)
    ensures Weight(fifo + [r]) == Weight(fifo) + if Cargo(r) then 1 else 0
  {
    assert (fifo + [r])[..|fifo|] == fifo;
  }

  lemma {:induction false} LoadAt(bs: seq<Backend>, i: nat, b: Backend)
    requires i < |bs|
    ensures Load(bs[i := b]) + Weight(bs[i].fifo) == Load(bs) + Weight(b.fifo)
  {
    var last := |bs| - 1;
    if i == last {
      assert bs[i := b][..last] == bs[..last];
    } else {
      assert bs[i := b][..last] == bs[..last][i := b];
      LoadAt(bs[..last], i, b);
    }
  }

  // ---------- one frame ----------

  lemma ModeIsNoCargo(c: Control, gen: nat)
    ensures !Cargo(Record(0, Encode(c), gen))
  {
  }

  lemma SendWeight(b: Backend, sn: nat, data: Frame, tx: TxMode)
    requires sn > 0
    ensures var (b', ok) := TrySendFenced(b, sn, data, tx);
            Weight(b'.fifo) == Weight(b.fifo) + if ok then 1 else 0
  {
    hide Weight, Encode, Cargo;
    var r := Record(sn, data, tx.generation);
    NumberIsCargo(r);
    WeightNext(b.fifo, r);
    if Needs(b, tx) == 2 {
      var c := Record(0, Encode(tx.current.value), tx.generation);
      ModeIsNoCargo(tx.current.value, tx.generation);
      WeightNext(b.fifo, c);
      WeightNext(b.fifo + [c], r);
    }
  }

  lemma NumberIsCargo(r: Record)
    ensures r.sn > 0 ==> Cargo(r)
  {
  }

  lemma {:induction false} FallbackLoad(bs: seq<Backend>, preferred: Option<nat>, i: nat, sn: nat, data: Frame, tx: TxMode)
    requires i <= |bs| && sn > 0
    ensures var (bs', sentOn) := Fallback(bs, preferred, i, sn, data, tx);
            Load(bs') == Load(bs) + if sentOn.Some? then 1 else 0
    decreases |bs| - i
  {
    hide TrySendFenced, Weight, Load;
    if i == |bs| {
    } else if preferred == Some(i) || !bs[i].healthy {
      FallbackLoad(bs, preferred, i + 1, sn, data, tx);
    } else {
      var (b, ok) := TrySendFenced(bs[i], sn, data, tx);
      SendWeight(bs[i], sn, data, tx);
      LoadAt(bs, i, b);
      if !ok { FallbackLoad(bs[i := b], preferred, i + 1, sn, data, tx); }
    }
  }

  lemma AnyLoad(bs: seq<Backend>, preferred: Option<nat>, sn: nat, data: Frame, tx: TxMode)
    requires sn > 0
    ensures var (bs', sentOn) := SendToAny(bs, preferred, sn, data, tx);
            Load(bs') == Load(bs) + if sentOn.Some? then 1 else 0
  {
    hide TrySendFenced, Weight, Load, Fallback;
    if preferred.Some? && preferred.value < |bs| {
      var p := preferred.value;
      var (b, ok) := TrySendFenced(bs[p], sn, data, tx);
      SendWeight(bs[p], sn, data, tx);
      LoadAt(bs, p, b);
      if !ok { FallbackLoad(bs[p := b], preferred, 0, sn, data, tx); }
    } else {
      FallbackLoad(bs, preferred, 0, sn, data, tx);
    }
  }

  lemma ParityIsCargo(ic: Option<Cipher>, e: Enc, sn: nat, data: Frame, gen: nat)
    requires 2 <= e.k <= 64 && |e.group| < e.k && Added(e, ic, sn, data).1.Some?
    ensures Cargo(Record(0, Added(e, ic, sn, data).1.value, gen))
  {
    hide Lens, Members, XorBody, MaxOf;
  }

  // ---------- a write ----------

  /** A frame gets a number exactly if it is not empty, some path is below its high-water mark, and numbers are left. */
  predicate Numbered(n: Net, data: Frame) {
    data != [] && n.lastSn < 0xFFFF_FFFF && exists i :: 0 <= i < |n.live| && n.live[i].healthy
  }

  /** The parity record that the frame completes, if it goes out: with fewer than two paths none does. */
  function Completes(n: Net, data: Frame): Option<Frame>
    requires 2 <= n.enc.k <= 64 && |n.enc.group| < n.enc.k
  {
    if |n.live| < 2 then None else Added(SetPaths(n.enc, |n.live|), n.ic, n.lastSn + 1, data).1
  }

  /** Nothing is lost without being counted: the frame and the parity record it completes are queued or dropped, an empty
      frame is neither, and a frame without a number is dropped. */
  lemma WriteConserves(n: Net, data: Frame, preferred: Option<nat>, parityIndex: Option<nat>)
    requires 2 <= n.enc.k <= 64 && |n.enc.group| < n.enc.k
    ensures var n' := Written(n, data, preferred, parityIndex);
            var made := if Numbered(n, data) && Completes(n, data).Some? then 1 else 0;
            && n'.lastSn == n.lastSn + (if Numbered(n, data) then 1 else 0)
            && n'.dropped >= n.dropped
            && Load(n'.live) + (n'.dropped - n.dropped) == Load(n.live) + (if data == [] then 0 else 1) + made
            && (!Numbered(n, data) ==> n'.(dropped := n.dropped) == n)
  {
    hide TrySendFenced, Weight, Load, SendToAny, Observed, Cargo, Added, SetPaths, Written;
    if Numbered(n, data) {
      NumberedConserves(n, data, preferred, parityIndex);
    } else {
      WrittenCases(n, data, preferred, parityIndex);
    }
  }

  lemma WrittenCases(n: Net, data: Frame, preferred: Option<nat>, parityIndex: Option<nat>)
    requires 2 <= n.enc.k <= 64 && |n.enc.group| < n.enc.k && !Numbered(n, data)
    ensures Written(n, data, preferred, parityIndex) == if data == [] then n else n.(dropped := n.dropped + 1)
  {
  }

  lemma NumberedConserves(n: Net, data: Frame, preferred: Option<nat>, parityIndex: Option<nat>)
    requires 2 <= n.enc.k <= 64 && |n.enc.group| < n.enc.k && Numbered(n, data)
    ensures var n' := Written(n, data, preferred, parityIndex);
            && n'.lastSn == n.lastSn + 1 && n'.dropped >= n.dropped
            && Load(n'.live) + (n'.dropped - n.dropped) == Load(n.live) + 1 + if Completes(n, data).Some? then 1 else 0
  {
    hide TrySendFenced, Weight, Load, SendToAny, Observed, Cargo, Added;
    var sn := n.lastSn + 1;
    var tx := Observed(n.tx, |n.live|, sn, n.enc.k).0;
    var (enc, parity) := Added(SetPaths(n.enc, |n.live|), n.ic, sn, data);
    var (live, sentOn) := SendToAny(n.live, preferred, sn, data, tx);
    AnyLoad(n.live, preferred, sn, data, tx);
    if parity.Some? && |live| >= 2 && parityIndex.Some? && parityIndex.value < |live| {
      var r := Record(0, parity.value, tx.generation);
      ParityIsCargo(n.ic, SetPaths(n.enc, |n.live|), sn, data, tx.generation);
      var i := parityIndex.value;
      WeightNext(live[i].fifo, r);
      LoadAt(live, i, TrySend(live[i], r).0);
    }
  }

  // ---------- whole runs ----------

  /** The same for streams whose path has gone. */
  function Stranded(orphans: seq<seq<Record>>): nat {
    if |orphans| == 0 then 0 else Stranded(orphans[..|orphans| - 1]) + Weight(orphans[|orphans| - 1])
  }

  /** Everything queued anywhere. */
  function Stock(n: Net): nat {
    Load(n.live) + Stranded(n.orphans)
  }

  /** What a step puts in: a frame and the parity it completes. */
  function Given(n: Net, step: Step): nat
    requires 2 <= n.enc.k <= 64 && |n.enc.group| < n.enc.k
  {
    if step.Write? then
      (if step.data == [] then 0 else 1) + if Numbered(n, step.data) && Completes(n, step.data).Some? then 1 else 0
    else 0
  }

  /** What a step takes out: the record that is processed, or the stream that is lost. */
  function Taken(n: Net, step: Step): nat {
    match step
    case ReceiveLive(i) => if i < |n.live| && |n.live[i].fifo| > 0 && Cargo(n.live[i].fifo[0]) then 1 else 0
    case ReceiveOrphan(i) => if i < |n.orphans| && |n.orphans[i]| > 0 && Cargo(n.orphans[i][0]) then 1 else 0
    case LoseOrphan(i) => if i < |n.orphans| then Weight(n.orphans[i]) else 0
    case _ => 0
  }

  lemma {:induction false} WeightHead(fifo: seq<Record>)
    requires |fifo| > 0
    ensures Weight(fifo) == (if Cargo(fifo[0]) then 1 else 0) + Weight(fifo[1..])
  {
    hide Cargo;
    if |fifo| == 1 {
      assert fifo[..0] == [] && fifo[1..] == [];
    } else {
      WeightHead(fifo[..|fifo| - 1]);
      assert fifo[1..][..|fifo| - 2] == fifo[..|fifo| - 1][1..];
    }
  }

  lemma LoadNext(bs: seq<Backend>, b: Backend)
    ensures Load(bs + [b]) == Load(bs) + Weight(b.fifo)
  {
    assert (bs + [b])[..|bs|] == bs;
  }

  lemma StrandedNext(orphans: seq<seq<Record>>, fifo: seq<Record>)
    ensures Stranded(orphans + [fifo]) == Stranded(orphans) + Weight(fifo)
  {
    assert (orphans + [fifo])[..|orphans|] == orphans;
  }

  lemma {:induction false} LoadWithout(bs: seq<Backend>, i: nat)
    requires i < |bs|
    ensures Load(bs[..i] + bs[i + 1..]) + Weight(bs[i].fifo) == Load(bs)
  {
    hide Weight;
    var last := |bs| - 1;
    var rest := bs[..i] + bs[i + 1..];
    if i == last {
      assert rest == bs[..last];
    } else {
      LoadWithout(bs[..last], i);
      assert rest[..|rest| - 1] == bs[..last][..i] + bs[..last][i + 1..];
    }
  }

  lemma {:induction false} StrandedWithout(orphans: seq<seq<Record>>, i: nat)
    requires i < |orphans|
    ensures Stranded(orphans[..i] + orphans[i + 1..]) + Weight(orphans[i]) == Stranded(orphans)
  {
    hide Weight;
    var last := |orphans| - 1;
    var rest := orphans[..i] + orphans[i + 1..];
    if i == last {
      assert rest == orphans[..last];
    } else {
      StrandedWithout(orphans[..last], i);
      assert rest[..|rest| - 1] == orphans[..last][..i] + orphans[..last][i + 1..];
    }
  }

  lemma {:induction false} StrandedAt(orphans: seq<seq<Record>>, i: nat, fifo: seq<Record>)
    requires i < |orphans|
    ensures Stranded(orphans[i := fifo]) + Weight(orphans[i]) == Stranded(orphans) + Weight(fifo)
  {
    hide Weight;
    var last := |orphans| - 1;
    if i == last {
      assert orphans[i := fifo][..last] == orphans[..last];
    } else {
      assert orphans[i := fifo][..last] == orphans[..last][i := fifo];
      StrandedAt(orphans[..last], i, fifo);
    }
  }

  lemma StepBalances(n: Net, step: Step)
    requires 2 <= n.enc.k <= 64 && |n.enc.group| < n.enc.k
    ensures var n' := Next(n, step);
            n'.dropped >= n.dropped && Stock(n') + Taken(n, step) + (n'.dropped - n.dropped) == Stock(n) + Given(n, step)
  {
    hide Weight, Load, Stranded, Written, Received, Cargo, Completes;
    match step
    case Register(free, healthy) =>
      LoadNext(n.live, Backend(0, free, healthy, []));
      NothingWeighs();
    case Unregister(i) =>
      if i < |n.live| {
        LoadWithout(n.live, i);
        StrandedNext(n.orphans, n.live[i].fifo);
      }
    case Refresh(i, free, healthy) => if i < |n.live| { LoadAt(n.live, i, n.live[i].(free := free, healthy := healthy)); }
    case Write(data, preferred, parityIndex) =>
      WriteConserves(n, data, preferred, parityIndex);
      WriteKeepsOrphans(n, data, preferred, parityIndex);
    case ReceiveLive(i) =>
      if i < |n.live| && |n.live[i].fifo| > 0 {
        WeightHead(n.live[i].fifo);
        LoadAt(n.live, i, n.live[i].(fifo := n.live[i].fifo[1..]));
      }
    case ReceiveOrphan(i) =>
      if i < |n.orphans| && |n.orphans[i]| > 0 {
        WeightHead(n.orphans[i]);
        StrandedAt(n.orphans, i, n.orphans[i][1..]);
      }
    case LoseOrphan(i) => if i < |n.orphans| { StrandedWithout(n.orphans, i); }
  }

  lemma NothingWeighs()
    ensures Weight([]) == 0
  {
  }

  lemma WriteKeepsOrphans(n: Net, data: Frame, preferred: Option<nat>, parityIndex: Option<nat>)
    requires 2 <= n.enc.k <= 64 && |n.enc.group| < n.enc.k
    ensures Written(n, data, preferred, parityIndex).orphans == n.orphans
  {
  }

  /** Everything put in and everything taken out over a run. */
  ghost function GivenIn(n: Net, steps: seq<Step>): nat
    requires Safe(n)
    decreases |steps|
  {
    if |steps| == 0 then 0
    else
      StepKeepsSafe(n, steps[0]);
      Given(n, steps[0]) + GivenIn(Next(n, steps[0]), steps[1..])
  }

  ghost function TakenIn(n: Net, steps: seq<Step>): nat
    requires Safe(n)
    decreases |steps|
  {
    if |steps| == 0 then 0
    else
      StepKeepsSafe(n, steps[0]);
      Taken(n, steps[0]) + TakenIn(Next(n, steps[0]), steps[1..])
  }

  /** Conservation, over every run of the network: what was written, with the parity made of it, has been processed, was
      lost with its stream, is still queued, or was counted as dropped; nothing is queued twice. */
  lemma {:induction false} RunBalances(n: Net, steps: seq<Step>)
    requires Safe(n)
    ensures var n' := Run(n, steps);
            && n'.dropped >= n.dropped
            && Stock(n') + TakenIn(n, steps) + (n'.dropped - n.dropped) == Stock(n) + GivenIn(n, steps)
    decreases |steps|
  {
    hide Stock, Taken, Given, Next, Safe;
    if |steps| == 0 {
    } else {
      SafeShape(n);
      StepKeepsSafe(n, steps[0]);
      StepBalances(n, steps[0]);
      RunBalances(Next(n, steps[0]), steps[1..]);
    }
  }

  lemma SafeShape(n: Net)
    requires Safe(n)
    ensures 2 <= n.enc.k <= 64 && |n.enc.group| < n.enc.k
  {
  }
}
