/** Fenced dispatch over any number of backends: generation-numbered mode controls travel lazily, once per
    backend, ahead of the data they govern (src/net.rs, src/protocol.rs). */
module FencedDispatch {
  import opened Bytes
  import opened Parity
  import opened FecMode
  import opened FecEncoder

  /** One queued record. `gen` is the sender's generation when the record was dispatched; it is not on the
      wire and only lets the theorem speak about it. */
  datatype Record = Record(sn: nat, payload: Frame, gen: nat)

  /** A physical path: its fence generation, the free slots of its queue, whether its queue is below the
      high-water mark, and everything enqueued and not yet processed by the receiver. */
  datatype Backend = Backend(fence: nat, free: nat, healthy: bool, fifo: seq<Record>)

  // ---------- sending ----------

  /** `try_send_payload_to`. */
  function TrySend(b: Backend, r: Record): (Backend, bool) {
    if b.free == 0 then (b, false) else (b.(free := b.free - 1, fifo := b.fifo + [r]), true)
  }

  /** `try_send_payload_to_fenced`: the control goes first on a backend that has not seen its generation. */
  function TrySendFenced(b: Backend, sn: nat, data: Frame, tx: TxMode): (Backend, bool) {
    var r := Record(sn, data, tx.generation);
    if tx.current.None? || b.fence >= tx.current.value.generation then TrySend(b, r)
    else
      var (b1, ok) := TrySend(b, Record(0, Encode(tx.current.value), tx.generation));
      if !ok then (b, false)
      else TrySend(b1.(fence := tx.current.value.generation), r)
  }

  /** The fallback loop from backend `i` on. */
  function Fallback(bs: seq<Backend>, preferred: Option<nat>, i: nat, sn: nat, data: Frame, tx: TxMode)
    : (r: (seq<Backend>, Option<nat>))
    requires i <= |bs|
    ensures |r.0| == |bs|
    decreases |bs| - i
  {
    if i == |bs| then (bs, None)
    else if preferred == Some(i) || !bs[i].healthy then Fallback(bs, preferred, i + 1, sn, data, tx)
    else
      var (b, ok) := TrySendFenced(bs[i], sn, data, tx);
      if ok then (bs[i := b], Some(i)) else Fallback(bs[i := b], preferred, i + 1, sn, data, tx)
  }

  /** `send_data_payload_to_any`. */
  function SendToAny(bs: seq<Backend>, preferred: Option<nat>, sn: nat, data: Frame, tx: TxMode)
    : (r: (seq<Backend>, Option<nat>))
    ensures |r.0| == |bs|
  {
    if preferred.Some? && preferred.value < |bs| then
      var (b, ok) := TrySendFenced(bs[preferred.value], sn, data, tx);
      if ok then (bs[preferred.value := b], preferred) else Fallback(bs[preferred.value := b], preferred, 0, sn, data, tx)
    else Fallback(bs, preferred, 0, sn, data, tx)
  }

  /** The same as the loop it is in the source. */
  method SendDataPayloadToAny(backends: array<Backend>, preferred: Option<nat>, sn: nat, data: Frame, tx: TxMode)
    returns (sentOn: Option<nat>)
    modifies backends
    ensures (backends[..], sentOn) == SendToAny(old(backends[..]), preferred, sn, data, tx)
  {
    hide TrySendFenced;
    ghost var was := backends[..];
    if preferred.Some? && preferred.value < backends.Length {
      var (b, ok) := TrySendFenced(backends[preferred.value], sn, data, tx);
      backends[preferred.value] := b;
      assert backends[..] == was[preferred.value := b];
      if ok {
        return preferred;
      }
    }
    ghost var total := Fallback(backends[..], preferred, 0, sn, data, tx);
    for i := 0 to backends.Length
      invariant Fallback(backends[..], preferred, i, sn, data, tx) == total
    {
      ghost var now := backends[..];
      if preferred == Some(i) || !backends[i].healthy {
        continue;
      }
      var (b, ok) := TrySendFenced(backends[i], sn, data, tx);
      backends[i] := b;
      assert backends[..] == now[i := b];
      if ok {
        return Some(i);
      }
    }
    return None;
  }

  /** The data records of a stream. */
  function DataOf(fifo: seq<Record>): seq<Record> {
    if |fifo| == 0 then []
    else
      var front := DataOf(fifo[..|fifo| - 1]);
      if fifo[|fifo| - 1].sn > 0 then front + [fifo[|fifo| - 1]] else front
  }

  /** The room a backend needs for one frame: a second slot when the control has to go first. */
  function Needs(b: Backend, tx: TxMode): nat {
    if tx.current.Some? && b.fence < tx.current.value.generation then 2 else 1
  }

  lemma DataOfNext(fifo: seq<Record>, r: Record)
    ensures DataOf(fifo + [r]) == if r.sn > 0 then DataOf(fifo) + [r] else DataOf(fifo)
  {
    assert (fifo + [r])[..|fifo|] == fifo;
  }

  lemma TrySendFencedExactly(b: Backend, sn: nat, data: Frame, tx: TxMode)
    requires sn > 0
    ensures var (b', ok) := TrySendFenced(b, sn, data, tx);
            && (ok <==> b.free >= Needs(b, tx))
            && DataOf(b'.fifo) == DataOf(b.fifo) + if ok then [Record(sn, data, tx.generation)] else []
  {
    hide DataOf;
    var r := Record(sn, data, tx.generation);
    DataOfNext(b.fifo, r);
    if Needs(b, tx) == 2 {
      var c := Record(0, Encode(tx.current.value), tx.generation);
      DataOfNext(b.fifo, c);
      DataOfNext(b.fifo + [c], r);
    }
  }

  /** Every backend holds the data it held before, plus the new record on the one that took it. */
  ghost predicate OneMore(bs: seq<Backend>, bs': seq<Backend>, sentOn: Option<nat>, r: Record) {
    && |bs'| == |bs|
    && (sentOn.Some? ==> sentOn.value < |bs|)
    && forall j | 0 <= j < |bs| ::
         DataOf(bs'[j].fifo) == DataOf(bs[j].fifo) + if sentOn == Some(j) then [r] else []
  }

  lemma OneMoreAt(bs: seq<Backend>, i: nat, b: Backend, taken: bool, r: Record)
    requires i < |bs| && DataOf(b.fifo) == DataOf(bs[i].fifo) + if taken then [r] else []
    ensures OneMore(bs, bs[i := b], if taken then Some(i) else None, r)
  {
    hide DataOf;
  }

  lemma OneMoreChain(bs: seq<Backend>, mid: seq<Backend>, bs': seq<Backend>, sentOn: Option<nat>, r: Record)
    requires OneMore(bs, mid, None, r) && OneMore(mid, bs', sentOn, r)
    ensures OneMore(bs, bs', sentOn, r)
  {
    hide DataOf;
    forall j | 0 <= j < |bs|
      ensures DataOf(bs'[j].fifo) == DataOf(bs[j].fifo) + if sentOn == Some(j) then [r] else []
    {
      assert DataOf(mid[j].fifo) == DataOf(bs[j].fifo) + [] == DataOf(bs[j].fifo);
    }
  }

  lemma {:induction false} FallbackOneMore(bs: seq<Backend>, preferred: Option<nat>, i: nat, sn: nat, data: Frame,
                                           tx: TxMode)
    requires i <= |bs| && sn > 0
    ensures var (bs', sentOn) := Fallback(bs, preferred, i, sn, data, tx);
            OneMore(bs, bs', sentOn, Record(sn, data, tx.generation))
    decreases |bs| - i
  {
    hide DataOf, TrySendFenced, Needs;
    var r := Record(sn, data, tx.generation);
    if i < |bs| {
      if preferred == Some(i) || !bs[i].healthy {
        FallbackOneMore(bs, preferred, i + 1, sn, data, tx);
      } else {
        TrySendFencedExactly(bs[i], sn, data, tx);
        var (b, ok) := TrySendFenced(bs[i], sn, data, tx);
        OneMoreAt(bs, i, b, ok, r);
        if !ok {
          var next := bs[i := b];
          FallbackOneMore(next, preferred, i + 1, sn, data, tx);
          var (bs', sentOn) := Fallback(next, preferred, i + 1, sn, data, tx);
          OneMoreChain(bs, next, bs', sentOn, r);
        }
      }
    } else {
      assert forall j | 0 <= j < |bs| :: DataOf(bs[j].fifo) == DataOf(bs[j].fifo) + [];
    }
  }

  /** Backend `j` would be tried and has room. */
  predicate Takes(bs: seq<Backend>, preferred: Option<nat>, tx: TxMode, j: nat) {
    j < |bs| && (preferred == Some(j) || bs[j].healthy) && bs[j].free >= Needs(bs[j], tx)
  }

  lemma {:induction false} FallbackTakes(bs: seq<Backend>, preferred: Option<nat>, i: nat, sn: nat, data: Frame,
                                         tx: TxMode)
    requires i <= |bs| && sn > 0
    ensures var sentOn := Fallback(bs, preferred, i, sn, data, tx).1;
            && (sentOn.Some? ==>
                  i <= sentOn.value && Some(sentOn.value) != preferred && Takes(bs, preferred, tx, sentOn.value))
            && forall j: nat | i <= j && Some(j) != preferred && (sentOn.Some? ==> j < sentOn.value) ::
                 !Takes(bs, preferred, tx, j)
    decreases |bs| - i
  {
    hide DataOf, TrySendFenced, Needs, OneMore;
    if i >= |bs| {
    } else {
      if preferred == Some(i) || !bs[i].healthy {
        FallbackTakes(bs, preferred, i + 1, sn, data, tx);
      } else {
        TrySendFencedExactly(bs[i], sn, data, tx);
        var (b, ok) := TrySendFenced(bs[i], sn, data, tx);
        if !ok {
          var next := bs[i := b];
          FallbackTakes(next, preferred, i + 1, sn, data, tx);
          assert forall j: nat | i < j :: Takes(next, preferred, tx, j) == Takes(bs, preferred, tx, j);
        }
      }
    }
  }

  /** A frame lands on exactly one backend or on none: on the preferred one if that has room, otherwise on
      the first other healthy one with room; it is dropped exactly when there is no such backend. */
  lemma SendExactly(bs: seq<Backend>, preferred: Option<nat>, sn: nat, data: Frame, tx: TxMode)
    requires sn > 0
    ensures var (bs', sentOn) := SendToAny(bs, preferred, sn, data, tx);
            && OneMore(bs, bs', sentOn, Record(sn, data, tx.generation))
            && (sentOn.Some? ==> Takes(bs, preferred, tx, sentOn.value))
            && (sentOn.None? ==> forall j :: !Takes(bs, preferred, tx, j))
            && (preferred.Some? && Takes(bs, preferred, tx, preferred.value) ==> sentOn == preferred)
            && (sentOn.Some? && sentOn != preferred ==> forall j | 0 <= j < sentOn.value :: !Takes(bs, preferred, tx, j))
  {
    hide DataOf, TrySendFenced, Needs, Fallback, OneMore;
    var r := Record(sn, data, tx.generation);
    if preferred.Some? && preferred.value < |bs| {
      var p := preferred.value;
      TrySendFencedExactly(bs[p], sn, data, tx);
      var (b, ok) := TrySendFenced(bs[p], sn, data, tx);
      OneMoreAt(bs, p, b, ok, r);
      if !ok {
        var next := bs[p := b];
        FallbackOneMore(next, preferred, 0, sn, data, tx);
        FallbackTakes(next, preferred, 0, sn, data, tx);
        var (bs', sentOn) := Fallback(next, preferred, 0, sn, data, tx);
        OneMoreChain(bs, next, bs', sentOn, r);
        assert forall j: nat | j != p :: Takes(next, preferred, tx, j) == Takes(bs, preferred, tx, j);
      }
    } else {
      FallbackOneMore(bs, preferred, 0, sn, data, tx);
      FallbackTakes(bs, preferred, 0, sn, data, tx);
    }
  }

  // ---------- the protocol as a state machine ----------

  datatype Net = Net(
    ic: Option<Cipher>,
    lastSn: nat,
    tx: TxMode,
    enc: Enc,
    live: seq<Backend>,
    orphans: seq<seq<Record>>,
    rx: Fence,
    dropped: nat)

  datatype Step =
    | Register(free: nat, healthy: bool)
    | Unregister(index: nat)
    | Refresh(index: nat, free: nat, healthy: bool)
    | Write(data: Frame, preferred: Option<nat>, parityIndex: Option<nat>)
    | ReceiveLive(index: nat)
    | ReceiveOrphan(index: nat)
    | LoseOrphan(index: nat)

  /** What the receiver's fence makes of one record. */
  function Received(rx: Fence, r: Record): Fence {
    if r.sn == 0 && ControlKind(r.payload) == Ok(KIND_FEC_MODE) && Parse(r.payload).Ok? then
      Apply(rx, Parse(r.payload).value)
    else rx
  }

  /** `write_payload` with an encoder attached. */
  function Written(n: Net, data: Frame, preferred: Option<nat>, parityIndex: Option<nat>): Net
    requires 2 <= n.enc.k <= 64 && |n.enc.group| < n.enc.k
  {
    if |data| == 0 then n
    else if |n.live| == 0 || (forall i | 0 <= i < |n.live| :: !n.live[i].healthy) || n.lastSn >= U32_MAX then
      n.(dropped := n.dropped + 1)
    else
      var sn := n.lastSn + 1;
      var tx := Observed(n.tx, |n.live|, sn, n.enc.k).0;
      var (enc, parity) := Added(SetPaths(n.enc, |n.live|), n.ic, sn, data);
      var (live, sentOn) := SendToAny(n.live, preferred, sn, data, tx);
      var lost: nat := if sentOn.Some? then 0 else 1;
      var n1 := n.(lastSn := sn, tx := tx, enc := enc, live := live, dropped := n.dropped + lost);
      if parity.None? || |live| < 2 then n1
      else if parityIndex.None? || parityIndex.value >= |live| then n1.(dropped := n1.dropped + 1)
      else
        var (b, ok) := TrySend(live[parityIndex.value], Record(0, parity.value, tx.generation));
        var lostParity: nat := if ok then 0 else 1;
        n1.(live := live[parityIndex.value := b], dropped := n1.dropped + lostParity)
  }

  /** One step; a step that is not enabled changes nothing. */
  function Next(n: Net, step: Step): Net
    requires 2 <= n.enc.k <= 64 && |n.enc.group| < n.enc.k
  {
    match step
    case Register(free, healthy) => n.(live := n.live + [Backend(0, free, healthy, [])])
    case Unregister(i) =>
      if i >= |n.live| then n
      else n.(live := n.live[..i] + n.live[i + 1..], orphans := n.orphans + [n.live[i].fifo])
    case Refresh(i, free, healthy) =>
      if i >= |n.live| then n else n.(live := n.live[i := n.live[i].(free := free, healthy := healthy)])
    case Write(data, preferred, parityIndex) => Written(n, data, preferred, parityIndex)
    case ReceiveLive(i) =>
      if i >= |n.live| || |n.live[i].fifo| == 0 then n
      else
        var b := n.live[i];
        n.(rx := Received(n.rx, b.fifo[0]), live := n.live[i := b.(fifo := b.fifo[1..])])
    case ReceiveOrphan(i) =>
      if i >= |n.orphans| || |n.orphans[i]| == 0 then n
      else
        var fifo := n.orphans[i];
        n.(rx := Received(n.rx, fifo[0]), orphans := n.orphans[i := fifo[1..]])
    case LoseOrphan(i) =>
      if i >= |n.orphans| then n else n.(orphans := n.orphans[..i] + n.orphans[i + 1..])
  }

  // ---------- the invariant ----------

  /** The generation a record raises the receiver to. */
  function Raises(r: Record): nat {
    Received(OPEN_FENCE, r).generation
  }

  /** The receiver's generation after it has processed a whole stream, starting from `g`. */
  function GenAfter(fifo: seq<Record>, g: nat): nat {
    if |fifo| == 0 then g else Max(GenAfter(fifo[..|fifo| - 1], g), Raises(fifo[|fifo| - 1]))
  }

  /** Processing the stream in order from generation `g`, every data record finds its own generation. */
  predicate Fenced(fifo: seq<Record>, g: nat) {
    |fifo| > 0 ==>
      && Fenced(fifo[..|fifo| - 1], g)
      && (fifo[|fifo| - 1].sn > 0 ==> fifo[|fifo| - 1].gen <= GenAfter(fifo[..|fifo| - 1], g))
  }

  predicate BackendOk(b: Backend, g: nat) {
    Fenced(b.fifo, g) && b.fence <= GenAfter(b.fifo, g)
  }

  ghost predicate Safe(n: Net) {
    && 2 <= n.enc.k <= 64 && |n.enc.group| < n.enc.k
    && n.lastSn <= U32_MAX
    && TxValid(n.tx)
    && (forall i | 0 <= i < |n.live| :: BackendOk(n.live[i], n.rx.generation))
    && (forall i | 0 <= i < |n.orphans| :: Fenced(n.orphans[i], n.rx.generation))
  }

  lemma ReceivedRaises(rx: Fence, r: Record)
    ensures Received(rx, r).generation == Max(rx.generation, Raises(r))
  {
    if Parse(r.payload).Ok? { ParseEncode(r.payload); }
  }

  lemma {:induction false} FencedGrows(fifo: seq<Record>, g: nat, g': nat)
    requires g <= g'
    ensures Fenced(fifo, g) ==> Fenced(fifo, g')
    ensures GenAfter(fifo, g) <= GenAfter(fifo, g')
  {
    if |fifo| == 0 {
    } else {
      FencedGrows(fifo[..|fifo| - 1], g, g');
    }
  }

  /** Processing the head of a stream. */
  lemma {:induction false} FencedTail(fifo: seq<Record>, g: nat)
    requires |fifo| > 0 && Fenced(fifo, g)
    ensures fifo[0].sn > 0 ==> fifo[0].gen <= g
    ensures Fenced(fifo[1..], Max(g, Raises(fifo[0])))
    ensures GenAfter(fifo[1..], Max(g, Raises(fifo[0]))) == GenAfter(fifo, g)
  {
    hide Raises;
    var front := fifo[..|fifo| - 1];
    if |front| == 0 {
      assert fifo[1..] == [];
    } else {
      FencedTail(front, g);
      assert fifo[1..][..|fifo| - 2] == front[1..];
    }
  }

  lemma TrySendKeepsOk(b: Backend, r: Record, g: nat)
    requires BackendOk(b, g) && (r.sn > 0 ==> r.gen <= GenAfter(b.fifo, g))
    ensures BackendOk(TrySend(b, r).0, g)
    ensures TrySend(b, r).1 ==> TrySend(b, r).0.fifo == b.fifo + [r]
    ensures GenAfter(TrySend(b, r).0.fifo, g) >= GenAfter(b.fifo, g)
  {
    hide Raises;
    assert (b.fifo + [r])[..|b.fifo|] == b.fifo;
  }

  lemma TrySendFencedKeepsOk(b: Backend, sn: nat, data: Frame, tx: TxMode, g: nat)
    requires BackendOk(b, g) && TxValid(tx)
    ensures BackendOk(TrySendFenced(b, sn, data, tx).0, g)
  {
    hide BackendOk, GenAfter, Encode;
    var r := Record(sn, data, tx.generation);
    if tx.current.None? || b.fence >= tx.current.value.generation {
      FenceCovers(b, g);
      TrySendKeepsOk(b, r, g);
    } else {
      var c := Record(0, Encode(tx.current.value), tx.generation);
      TrySendKeepsOk(b, c, g);
      var (b1, ok) := TrySend(b, c);
      if ok {
        ControlCovers(b, c, tx, g);
        var b2 := b1.(fence := tx.current.value.generation);
        FenceCovers(b2, g);
        TrySendKeepsOk(b2, r, g);
      }
    }
  }

  lemma FenceCovers(b: Backend, g: nat)
    requires BackendOk(b, g)
    ensures b.fence <= GenAfter(b.fifo, g)
  {
  }

  /** The control just enqueued raises the receiver to its generation before anything behind it. */
  lemma ControlCovers(b: Backend, c: Record, tx: TxMode, g: nat)
    requires BackendOk(b, g) && TxValid(tx) && tx.current.Some? && c.sn == 0 && c.payload == Encode(tx.current.value)
    ensures var fifo := b.fifo + [c];
            BackendOk(b.(fence := tx.current.value.generation, fifo := fifo, free := if b.free == 0 then 0 else b.free - 1), g)
  {
    var fifo := b.fifo + [c];
    EncodeParse(tx.current.value);
    assert Raises(c) == tx.current.value.generation;
    assert fifo[..|b.fifo|] == b.fifo;
  }

  ghost predicate AllOk(bs: seq<Backend>, g: nat) {
    forall i | 0 <= i < |bs| :: BackendOk(bs[i], g)
  }

  lemma {:induction false} FallbackKeepsOk(bs: seq<Backend>, preferred: Option<nat>, i: nat, sn: nat, data: Frame,
                                           tx: TxMode, g: nat)
    requires i <= |bs| && AllOk(bs, g) && TxValid(tx)
    ensures AllOk(Fallback(bs, preferred, i, sn, data, tx).0, g)
    decreases |bs| - i
  {
    hide BackendOk, TrySendFenced, TxValid;
    if i >= |bs| {
    } else {
      if preferred == Some(i) || !bs[i].healthy {
        FallbackKeepsOk(bs, preferred, i + 1, sn, data, tx, g);
      } else {
        TrySendFencedKeepsOk(bs[i], sn, data, tx, g);
        FallbackKeepsOk(bs[i := TrySendFenced(bs[i], sn, data, tx).0], preferred, i + 1, sn, data, tx, g);
      }
    }
  }

  lemma SendKeepsOk(bs: seq<Backend>, preferred: Option<nat>, sn: nat, data: Frame, tx: TxMode, g: nat)
    requires AllOk(bs, g) && TxValid(tx)
    ensures AllOk(SendToAny(bs, preferred, sn, data, tx).0, g)
  {
    hide BackendOk, TrySendFenced, TxValid, Fallback;
    if preferred.Some? && preferred.value < |bs| {
      TrySendFencedKeepsOk(bs[preferred.value], sn, data, tx, g);
      FallbackKeepsOk(bs[preferred.value := TrySendFenced(bs[preferred.value], sn, data, tx).0], preferred, 0, sn,
                      data, tx, g);
    } else {
      FallbackKeepsOk(bs, preferred, 0, sn, data, tx, g);
    }
  }

  lemma AddedShrinks(e: Enc, ic: Option<Cipher>, sn: nat, data: Frame, paths: nat)
    requires 2 <= e.k <= 64 && |e.group| < e.k
    ensures var e' := Added(SetPaths(e, paths), ic, sn, data).0; e'.k == e.k && |e'.group| < e.k
  {
    hide GroupParity;
  }

  lemma WriteKeepsSafe(n: Net, data: Frame, preferred: Option<nat>, parityIndex: Option<nat>)
    requires Safe(n)
    ensures Safe(Written(n, data, preferred, parityIndex))
  {
    hide BackendOk, TxValid, SendToAny, Fenced, Added, Observed, TrySend, GenAfter;
    if |data| > 0 && |n.live| > 0 && n.lastSn < U32_MAX {
      var sn := n.lastSn + 1;
      ObserveKeepsValid(n.tx, |n.live|, sn, n.enc.k);
      var tx := Observed(n.tx, |n.live|, sn, n.enc.k).0;
      AddedShrinks(n.enc, n.ic, sn, data, |n.live|);
      assert AllOk(n.live, n.rx.generation);
      SendKeepsOk(n.live, preferred, sn, data, tx, n.rx.generation);
      var live := SendToAny(n.live, preferred, sn, data, tx).0;
      var parity := Added(SetPaths(n.enc, |n.live|), n.ic, sn, data).1;
      if parity.Some? && parityIndex.Some? && parityIndex.value < |live| {
        TrySendKeepsOk(live[parityIndex.value], Record(0, parity.value, tx.generation), n.rx.generation);
      }
    }
  }

  lemma ReceiveKeepsSafe(n: Net, r: Record)
    requires Safe(n)
    ensures Received(n.rx, r).generation == Max(n.rx.generation, Raises(r))
    ensures Safe(n.(rx := Received(n.rx, r)))
  {
    hide BackendOk, TxValid, Fenced, GenAfter, Received;
    ReceivedRaises(n.rx, r);
    var g := n.rx.generation;
    var g' := Received(n.rx, r).generation;
    forall i | 0 <= i < |n.live| ensures BackendOk(n.live[i], g') { OkGrows(n.live[i], g, g'); }
    forall i | 0 <= i < |n.orphans| ensures Fenced(n.orphans[i], g') { FencedGrows(n.orphans[i], g, g'); }
  }

  lemma OkGrows(b: Backend, g: nat, g': nat)
    requires g <= g' && BackendOk(b, g)
    ensures BackendOk(b, g')
  {
    FencedGrows(b.fifo, g, g');
  }

  lemma OkTail(b: Backend, g: nat)
    requires |b.fifo| > 0 && BackendOk(b, g)
    ensures BackendOk(b.(fifo := b.fifo[1..]), Max(g, Raises(b.fifo[0])))
    ensures b.fifo[0].sn > 0 ==> b.fifo[0].gen <= g
  {
    FencedTail(b.fifo, g);
  }

  lemma OkFenced(b: Backend, g: nat)
    requires BackendOk(b, g)
    ensures Fenced(b.fifo, g)
  {
  }

  lemma OkFresh(b: Backend, g: nat)
    requires b.fence == 0 && b.fifo == []
    ensures BackendOk(b, g)
  {
  }

  lemma OkRefreshed(b: Backend, g: nat, free: nat, healthy: bool)
    requires BackendOk(b, g)
    ensures BackendOk(b.(free := free, healthy := healthy), g)
  {
  }

  lemma StepKeepsSafe(n: Net, step: Step)
    requires Safe(n)
    ensures Safe(Next(n, step))
  {
    hide BackendOk, TxValid, Fenced, Received, Raises, Written;
    var g := n.rx.generation;
    match step
    case Register(free, healthy) => OkFresh(Backend(0, free, healthy, []), g);
    case Unregister(i) => if i < |n.live| { OkFenced(n.live[i], g); }
    case Refresh(i, free, healthy) => if i < |n.live| { OkRefreshed(n.live[i], g, free, healthy); }
    case Write(data, preferred, parityIndex) => WriteKeepsSafe(n, data, preferred, parityIndex);
    case ReceiveLive(i) =>
      if i < |n.live| && |n.live[i].fifo| > 0 {
        ReceiveKeepsSafe(n, n.live[i].fifo[0]);
        OkTail(n.live[i], g);
      }
    case ReceiveOrphan(i) =>
      if i < |n.orphans| && |n.orphans[i]| > 0 {
        ReceiveKeepsSafe(n, n.orphans[i][0]);
        FencedTail(n.orphans[i], g);
      }
    case LoseOrphan(i) =>
  }

  // ---------- whole runs ----------

  function Start(k: nat, ic: Option<Cipher>): Net {
    Net(ic, 0, FRESH_TX, Fresh(k), [], [], OPEN_FENCE, 0)
  }

  ghost function Run(n: Net, steps: seq<Step>): Net
    requires Safe(n)
    ensures Safe(Run(n, steps))
    decreases |steps|
  {
    if |steps| == 0 then n
    else
      StepKeepsSafe(n, steps[0]);
      Run(Next(n, steps[0]), steps[1..])
  }

  /** The stream heads: what the receiver may process next. */
  ghost predicate AtHead(n: Net, r: Record) {
    || (exists i :: 0 <= i < |n.live| && |n.live[i].fifo| > 0 && n.live[i].fifo[0] == r)
    || (exists i :: 0 <= i < |n.orphans| && |n.orphans[i]| > 0 && n.orphans[i][0] == r)
  }

  /** In every run, over any number of paths that come, go, fill up and fall back, data that the receiver
      may process next finds the receiver at or past the generation the sender was in when it dispatched
      that data. */
  lemma ControlPrecedesData(k: nat, ic: Option<Cipher>, steps: seq<Step>, r: Record)
    ensures Safe(Start(k, ic))
    ensures var n := Run(Start(k, ic), steps);
            AtHead(n, r) && r.sn > 0 ==> r.gen <= n.rx.generation
  {
    hide BackendOk, Fenced, Run, Raises;
    var n := Run(Start(k, ic), steps);
    var g := n.rx.generation;
    forall i | 0 <= i < |n.live| && |n.live[i].fifo| > 0
      ensures n.live[i].fifo[0].sn > 0 ==> n.live[i].fifo[0].gen <= g
    {
      OkTail(n.live[i], g);
    }
    forall i | 0 <= i < |n.orphans| && |n.orphans[i]| > 0
      ensures n.orphans[i][0].sn > 0 ==> n.orphans[i][0].gen <= g
    {
      FencedTail(n.orphans[i], g);
    }
  }
}
