/** After a reset nothing of the past matters: reorder buffer, ring, decoder and the whole receiving session then do
    exactly what new ones do (src/buffer.rs, src/fec.rs, src/rx_actor.rs). */
module FreshStart {
  import opened Bytes
  import opened Parity
  import opened FecMode
  import opened ReorderSpec
  import opened RingSpec
  import opened RingOrder
  import DS = DecoderSpec
  import DecoderSafety
  import FD = FecDecoder
  import RA = RxActor

  // ---------- the reorder buffer ----------

  /** Equal but for the statistics. */
  predicate Alike(a: Buf, b: Buf) {
    a.expected == b.expected && a.pending == b.pending && a.gap == b.gap
  }

  lemma StepAlike(a: Buf, b: Buf, op: Op)
    requires Alike(a, b)
    ensures Alike(Step(a, op).0, Step(b, op).0) && Step(a, op).1 == Step(b, op).1
  {
    hide Drain, Least;
  }

  lemma {:induction false} RunAlike(a: Buf, b: Buf, ops: seq<Op>)
    requires Alike(a, b)
    ensures Alike(Run(a, ops).0, Run(b, ops).0) && Run(a, ops).1 == Run(b, ops).1
    decreases |ops|
  {
    hide Step, Alike;
    if |ops| == 0 {
    } else {
      var front := ops[..|ops| - 1];
      RunAlike(a, b, front);
      StepAlike(Run(a, front).0, Run(b, front).0, ops[|ops| - 1]);
    }
  }

  /** Whatever was received before, a reset buffer releases exactly what a new one does. */
  lemma ResetBuffer(b: Buf, ops: seq<Op>)
    ensures Run(Reset(b), ops).1 == Run(EMPTY, ops).1
  {
    hide Run;
    RunAlike(Reset(b), EMPTY, ops);
  }

  // ---------- the ring ----------

  lemma RefreshAlike(size: nat, a: Buf, b: Buf, now: nat)
    requires size > 0 && Alike(a, b)
    ensures Alike(RingRefresh(size, a, now), RingRefresh(size, b, now))
  {
    hide Taken;
  }

  lemma FlushAlike(size: nat, a: Buf, b: Buf, now: nat)
    requires size > 0 && Alike(a, b)
    ensures Alike(RingFlush(size, a, now).0, RingFlush(size, b, now).0) && RingFlush(size, a, now).1 == RingFlush(size, b, now).1
  {
    hide RingDrain, RingRefresh;
    var (e, p, items) := RingDrain(size, a.expected, a.pending);
    RefreshAlike(size, a.(expected := e, pending := p, gap := None), b.(expected := e, pending := p, gap := None), now);
  }

  /** The stored arrival, before the flush or the gap mark. */
  function Stored(b: Buf, sn: nat, data: Frame): Buf {
    Learn(b, sn).(pending := Learn(b, sn).pending[sn := data])
  }

  /** The size of the ring for an arrival at this distance. */
  function SizeFor(size: nat, diff: int): (n: nat)
    requires IsWindow(size) && diff >= 0
    ensures n > 0
  {
    if diff >= size then Doubled(size, diff + 1) else size
  }

  lemma InsertCases(size: nat, b: Buf, sn: nat, data: Frame, now: nat)
    requires IsWindow(size)
    ensures var e := Learn(b, sn).expected;
            var diff := SignedDistance(sn, e);
            var r := RingInsert(Ring(size, b), sn, data, now);
            if sn == 0 then r == (Ring(size, b), [])
            else if diff < 0 || diff >= MAX_WINDOW then r == (Ring(size, Learn(b, sn)), [])
            else
              var size' := SizeFor(size, diff);
              if Taken(size', b.pending, sn) then r == (Ring(size', Learn(b, sn)), [])
              else if sn == e then
                r == (Ring(size', RingFlush(size', Stored(b, sn, data), now).0), RingFlush(size', Stored(b, sn, data), now).1)
              else r == (Ring(size', RingRefresh(size', Stored(b, sn, data), now)), [])
  {
    hide RingFlush, RingRefresh, Taken, Doubled, SignedDistance;
  }

  lemma RingInsertAlike(size: nat, a: Buf, b: Buf, sn: nat, data: Frame, now: nat)
    requires IsWindow(size) && Alike(a, b)
    ensures var (ra, itemsA), (rb, itemsB) := RingInsert(Ring(size, a), sn, data, now), RingInsert(Ring(size, b), sn, data, now);
            ra.size == rb.size && Alike(ra.buf, rb.buf) && itemsA == itemsB
  {
    hide RingFlush, RingRefresh, Taken, Doubled, SignedDistance, RingInsert, SizeFor;
    InsertCases(size, a, sn, data, now);
    InsertCases(size, b, sn, data, now);
    var diff := SignedDistance(sn, Learn(a, sn).expected);
    if diff >= 0 {
      var size' := SizeFor(size, diff);
      FlushAlike(size', Stored(a, sn, data), Stored(b, sn, data), now);
      RefreshAlike(size', Stored(a, sn, data), Stored(b, sn, data), now);
    }
  }

  lemma RingStepAlike(size: nat, a: Buf, b: Buf, op: Op)
    requires IsWindow(size) && a.expected <= U32_MAX && Alike(a, b)
    ensures var (ra, itemsA), (rb, itemsB) := RingStep(Ring(size, a), op), RingStep(Ring(size, b), op);
            ra.size == rb.size && Alike(ra.buf, rb.buf) && itemsA == itemsB
  {
    hide RingFlush, Taken, Scan, RingInsert;
    match op
    case Arrive(sn, data, now) => RingInsertAlike(size, a, b, sn, data, now);
    case Tick(now) =>
      ScanAlike(size, a, b, 1);
      var d := Scan(size, a, 1);
      if d.Some? { FlushAlike(size, Jumped(a, d.value), Jumped(b, d.value), now); }
  }

  lemma {:induction false} ScanAlike(size: nat, a: Buf, b: Buf, delta: nat)
    requires IsWindow(size) && a.expected <= U32_MAX && Alike(a, b) && delta <= size
    ensures Scan(size, a, delta) == Scan(size, b, delta)
    decreases size - delta
  {
    hide Taken;
    if delta == size {
    } else {
      ScanAlike(size, a, b, delta + 1);
    }
  }

  lemma {:induction false} RingRunAlike(size: nat, a: Buf, b: Buf, ops: seq<Op>)
    requires IsWindow(size) && a.expected <= U32_MAX && Alike(a, b) && AllInRange(ops)
    ensures var (ra, itemsA), (rb, itemsB) := RingRun(Ring(size, a), ops), RingRun(Ring(size, b), ops);
            ra.size == rb.size && Alike(ra.buf, rb.buf) && itemsA == itemsB
    decreases |ops|
  {
    hide RingStep;
    if |ops| == 0 {
    } else {
      var front := ops[..|ops| - 1];
      RingRunAlike(size, a, b, front);
      var at := RingRun(Ring(size, a), front).0;
      RingStepAlike(at.size, at.buf, RingRun(Ring(size, b), front).0.buf, ops[|ops| - 1]);
    }
  }

  /** A reset ring keeps its size and releases exactly what a new one of that size does; without wrapped arrivals the size
      does not matter. */
  lemma ResetRing(r: Ring, ops: seq<Op>)
    requires IsWindow(r.size) && AllInRange(ops)
    ensures var after := Ring(r.size, Reset(r.buf));
            && RingRun(after, ops).1 == RingRun(Ring(r.size, EMPTY), ops).1
            && (NeverWrapped(EMPTY, ops) ==> RingRun(after, ops).1 == RingRun(EMPTY_RING, ops).1)
  {
    hide RingRun, NeverWrapped, Run;
    RingRunAlike(r.size, Reset(r.buf), EMPTY, ops);
    if NeverWrapped(EMPTY, ops) {
      RunPlain(Ring(r.size, EMPTY), ops);
      RunPlain(EMPTY_RING, ops);
    }
  }

  // ---------- the decoder ----------

  /** Equal but for the counters. */
  predicate SameDec(a: DS.Dec, b: DS.Dec) {
    b == a.(recovered := b.recovered, lost := b.lost)
  }

  lemma RecoverSame(a: DS.Dec, b: DS.Dec, start: nat)
    requires SameDec(a, b) && a.Sized()
    requires start in a.groups && a.groups[start].parity.Some? ==> |a.groups[start].parity.value.lens| == a.k
    ensures SameDec(DS.TryRecover(a, start).0, DS.TryRecover(b, start).0) && DS.TryRecover(a, start).1 == DS.TryRecover(b, start).1
  {
    hide DS.Rebuild, DS.MarkDone, DS.Missing;
  }

  lemma RetireSame(a: DS.Dec, b: DS.Dec, progress: Option<nat>)
    requires SameDec(a, b)
    ensures SameDec(DS.Retire(a, progress), DS.Retire(b, progress))
  {
  }

  lemma AdmitSame(a: DS.Dec, b: DS.Dec, sn: nat, frame: Frame)
    requires SameDec(a, b) && a.Sized() && DS.Structured(a) && sn > 0
    ensures var (a', outA), (b', outB) := DS.Admit(a, sn, frame), DS.Admit(b, sn, frame);
            SameDec(a', b') && outA == outB
  {
    hide DS.Admit, DS.TryRecover, DS.MarkDone, DS.IsDone, GroupStart, DS.Structured, FD.Absorption;
    StructuredSame(a, b);
    FD.AdmitCases(a, sn, frame);
    FD.AdmitCases(b, sn, frame);
    var start := GroupStart(sn, a.k);
    var (table, absorbed) := FD.Absorption(a.groups, start, sn - start, frame, a.k);
    if !DS.IsDone(a.done, start, a.k) && absorbed.Partial? {
      RecoverSame(a.(groups := table), b.(groups := table), start);
    }
  }

  lemma StructuredSame(a: DS.Dec, b: DS.Dec)
    requires SameDec(a, b) && DS.Structured(a)
    ensures DS.Structured(b)
  {
  }

  lemma DataSame(a: DS.Dec, b: DS.Dec, sn: nat, frame: Frame, progress: Option<nat>)
    requires SameDec(a, b) && a.Sized() && DS.Structured(a)
    ensures var (a', outA), (b', outB) := DS.OnData(a, sn, frame, progress), DS.OnData(b, sn, frame, progress);
            SameDec(a', b') && outA == outB
  {
    hide DS.Admit, DS.Retire;
    RetireSame(a, b, progress);
    if sn > 0 { AdmitSame(a, b, sn, frame); }
  }

  lemma ParitySame(a: DS.Dec, b: DS.Dec, ic: Option<Cipher>, payload: Frame, progress: Option<nat>)
    requires SameDec(a, b) && a.Sized() && DS.Structured(a)
    ensures var (a', outA), (b', outB) := DS.OnParity(a, ic, payload, progress), DS.OnParity(b, ic, payload, progress);
            SameDec(a', b') && outA == outB
  {
    hide DS.TryRecover, DS.Entry, DS.IsDone, ParseHeader, ParseBody, DS.Retire;
    RetireSame(a, b, progress);
    var header := ParseHeader(a.k, payload);
    if !a.single && header.Ok? {
      var start := header.value;
      var a1, b1 := DS.Retire(a, progress), DS.Retire(b, progress);
      DecoderSafety.RetireKeepsSettings(a, progress);
      var body := ParseBody(a.k, ic, payload, start);
      if !DS.IsRetired(a1, start) && body.Ok? && !DS.IsDone(a1.done, start, a.k) {
        var groups := DS.Entry(a1.groups, start);
        if groups[start].parity.None? {
          var g := groups[start].(parity := Some(body.value));
          var a2, b2 := a1.(groups := groups[start := g]), b1.(groups := groups[start := g]);
          RecoverSame(a2, b2, start);
          RetireSame(DS.TryRecover(a2, start).0, DS.TryRecover(b2, start).0, progress);
        }
      }
    }
  }

  lemma ControlSame(a: DS.Dec, b: DS.Dec, ic: Option<Cipher>, payload: Frame, progress: Option<nat>)
    requires SameDec(a, b) && a.Sized() && DS.Structured(a)
    ensures var (a', outA), (b', outB) := DS.OnControl(a, ic, payload, progress), DS.OnControl(b, ic, payload, progress);
            SameDec(a', b') && outA == outB
  {
    hide DS.OnParity, Apply, DS.DropRange, DS.KeepFrom, Parse, ControlKind;
    ParitySame(a, b, ic, payload, progress);
  }

  /** A reset decoder is a new one but for its counters and the static single-path flag. */
  lemma ResetDecoder(d: DS.Dec)
    requires 2 <= d.k <= 64
    ensures SameDec(DS.NewDec(d.k).(single := d.single), DS.ResetState(d))
  {
  }

  /** Whatever an old sender left in it, a reset decoder emits only frames of the new sender. */
  lemma ResetSound(d: DS.Dec, ic: Option<Cipher>, events: seq<DecoderSafety.Event>, sent: nat -> Frame)
    requires DS.Inv(d) && SoundCipher(ic)
    requires forall i | 0 <= i < |events| :: DecoderSafety.GenuineEvent(events[i], ic, d.k, sent)
    ensures DS.Inv(DS.ResetState(d))
    ensures forall i | 0 <= i < |DecoderSafety.Run(DS.ResetState(d), ic, events).1| ::
              var out := DecoderSafety.Run(DS.ResetState(d), ic, events).1[i];
              out.sn > 0 && |out.data| > 0 && out.data == sent(out.sn)
  {
    hide DecoderSafety.Run, DecoderSafety.GenuineEvent;
    DecoderSafety.RecoverySound(DS.ResetState(d), ic, events, sent);
  }

  // ---------- the session ----------

  /** A new session with a new decoder of that group size, if any, and a ring of that size. */
  function NewSession(k: Option<nat>, size: nat): RA.Session {
    RA.Session(if k.Some? then Some(DS.NewDec(k.value)) else None, Ring(size, EMPTY), seq(RA.DEDUP_WINDOW, _ => 0))
  }

  predicate SameSession(a: RA.Session, b: RA.Session) {
    && (a.fec.Some? <==> b.fec.Some?) && (a.fec.Some? ==> SameDec(a.fec.value, b.fec.value))
    && a.ring.size == b.ring.size && Alike(a.ring.buf, b.ring.buf) && a.slots == b.slots
  }

  lemma {:induction false} InsertAllAlike(size: nat, a: Buf, b: Buf, items: seq<Item>, now: nat)
    requires IsWindow(size) && Alike(a, b)
    ensures var (ra, outA), (rb, outB) := RingInsertAll(Ring(size, a), items, now), RingInsertAll(Ring(size, b), items, now);
            ra.size == rb.size && Alike(ra.buf, rb.buf) && outA == outB
    decreases |items|
  {
    hide RingInsert, Alike;
    if |items| == 0 {
    } else {
      RingInsertAlike(size, a, b, items[0].sn, items[0].data, now);
      var ra := RingInsert(Ring(size, a), items[0].sn, items[0].data, now).0;
      var rb := RingInsert(Ring(size, b), items[0].sn, items[0].data, now).0;
      InsertAllAlike(ra.size, ra.buf, rb.buf, items[1..], now);
    }
  }

  lemma ProcessSame(a: RA.Session, b: RA.Session, ic: Option<Cipher>, sn: nat, data: Frame, now: nat)
    requires a.Ready() && b.Ready() && SameSession(a, b)
    ensures var (a', outA, errorA), (b', outB, errorB) := RA.ProcessRing(a, ic, sn, data, now), RA.ProcessRing(b, ic, sn, data, now);
            SameSession(a', b') && outA == outB && errorA == errorB
  {
    hide DS.OnData, DS.OnControl, RingInsertAll, RA.PairItems, RA.RecoveredItems, RA.Narrow, RA.CheckDuplicate, DS.Inv, SameDec;
    var e := a.ring.buf.expected;
    if a.fec.Some? {
      DecoderSafety.InvStructured(a.fec.value);
      DecoderSafety.InvStructured(b.fec.value);
      SizedOf(a.fec.value);
      SizedOf(b.fec.value);
      if sn > 0 {
        DataSame(a.fec.value, b.fec.value, sn, data, Some(e));
      } else {
        ControlSame(a.fec.value, b.fec.value, ic, data, Some(e));
      }
    }
    var x := RA.Decoding(a.fec, a.slots, e, ic, sn, data);
    InsertAllAlike(a.ring.size, a.ring.buf, b.ring.buf, x.items, now);
  }

  lemma SizedOf(d: DS.Dec)
    requires DS.Inv(d)
    ensures d.Sized()
  {
  }

  lemma {:induction false} ProcessAllSame(a: RA.Session, b: RA.Session, ic: Option<Cipher>, frames: seq<RA.RxFrame>, now: nat)
    requires a.Ready() && b.Ready() && SameSession(a, b) && forall i | 0 <= i < |frames| :: frames[i].sn <= U32_MAX
    ensures var (a', outA, errorA), (b', outB, errorB) := RA.ProcessAll(a, ic, frames, now), RA.ProcessAll(b, ic, frames, now);
            SameSession(a', b') && outA == outB && errorA == errorB
    decreases |frames|
  {
    hide RA.ProcessRing, SameSession, RA.Session.Ready;
    if |frames| == 0 {
    } else {
      var f := frames[0];
      ProcessSame(a, b, ic, f.sn, f.data, now);
      RA.ProcessKeepsReady(a, ic, f.sn, f.data, now);
      RA.ProcessKeepsReady(b, ic, f.sn, f.data, now);
      var (a', _, error) := RA.ProcessRing(a, ic, f.sn, f.data, now);
      var b' := RA.ProcessRing(b, ic, f.sn, f.data, now).0;
      if error.None? { ProcessAllSame(a', b', ic, frames[1..], now); }
    }
  }

  /** What a session is asked to do: process a batch, or look for an expired gap. */
  datatype Call = Batch(frames: seq<RA.RxFrame>, now: nat) | Expire(now: nat)

  predicate Fine(calls: seq<Call>) {
    forall i | 0 <= i < |calls| && calls[i].Batch? :: InSpace(calls[i].frames)
  }

  predicate InSpace(frames: seq<RA.RxFrame>) {
    forall i | 0 <= i < |frames| :: frames[i].sn <= U32_MAX
  }

  ghost function Serve(s: RA.Session, ic: Option<Cipher>, c: Call): (RA.Session, seq<Item>, Option<string>)
    requires s.Ready() && (c.Batch? ==> InSpace(c.frames))
  {
    match c
    case Batch(frames, now) => RA.ProcessAll(s, ic, frames, now)
    case Expire(now) => var (ring, items) := RingTimeout(s.ring, now); (s.(ring := ring), items, None)
  }

  lemma {:induction false} AllKeepsReady(s: RA.Session, ic: Option<Cipher>, frames: seq<RA.RxFrame>, now: nat)
    requires s.Ready() && InSpace(frames)
    ensures RA.ProcessAll(s, ic, frames, now).0.Ready()
    decreases |frames|
  {
    hide RA.ProcessRing, RA.Session.Ready;
    if |frames| == 0 {
    } else {
      RA.ProcessKeepsReady(s, ic, frames[0].sn, frames[0].data, now);
      var (s1, _, error) := RA.ProcessRing(s, ic, frames[0].sn, frames[0].data, now);
      if error.None? { AllKeepsReady(s1, ic, frames[1..], now); }
    }
  }

  lemma ServeReady(s: RA.Session, ic: Option<Cipher>, c: Call)
    requires s.Ready() && (c.Batch? ==> InSpace(c.frames))
    ensures Serve(s, ic, c).0.Ready()
  {
    hide RA.ProcessAll, RingTimeout, DS.Inv;
    match c
    case Batch(frames, now) => AllKeepsReady(s, ic, frames, now);
    case Expire(now) => StepKeepsRange(s.ring, Tick(now));
  }

  lemma ServeSame(a: RA.Session, b: RA.Session, ic: Option<Cipher>, c: Call)
    requires a.Ready() && b.Ready() && SameSession(a, b) && (c.Batch? ==> InSpace(c.frames))
    ensures var x, y := Serve(a, ic, c), Serve(b, ic, c); SameSession(x.0, y.0) && x.1 == y.1 && x.2 == y.2
  {
    hide RA.ProcessAll, RingTimeout, DS.Inv, SameDec, Alike;
    match c
    case Batch(frames, now) => ProcessAllSame(a, b, ic, frames, now);
    case Expire(now) => RingStepAlike(a.ring.size, a.ring.buf, b.ring.buf, Tick(now));
  }

  /** What a session releases and reports, call by call. */
  ghost function Served(s: RA.Session, ic: Option<Cipher>, calls: seq<Call>): seq<(seq<Item>, Option<string>)>
    requires s.Ready() && Fine(calls)
    decreases |calls|
  {
    if |calls| == 0 then []
    else
      ServeReady(s, ic, calls[0]);
      var (s1, items, error) := Serve(s, ic, calls[0]);
      [(items, error)] + Served(s1, ic, calls[1..])
  }

  lemma {:induction false} ServedSame(a: RA.Session, b: RA.Session, ic: Option<Cipher>, calls: seq<Call>)
    requires a.Ready() && b.Ready() && SameSession(a, b) && Fine(calls)
    ensures Served(a, ic, calls) == Served(b, ic, calls)
    decreases |calls|
  {
    hide Serve, SameSession, RA.Session.Ready;
    if |calls| == 0 {
    } else {
      ServeReady(a, ic, calls[0]);
      ServeReady(b, ic, calls[0]);
      ServeSame(a, b, ic, calls[0]);
      ServedSame(Serve(a, ic, calls[0]).0, Serve(b, ic, calls[0]).0, ic, calls[1..]);
    }
  }

  /** After `reconfigure` with a decoder fresh from its constructor, whatever the session received before, it releases and
      reports for ever after exactly what a new session does, batch by batch and timeout by timeout. */
  lemma ReconfiguredIsNew(s: RA.Session, k: Option<nat>, ic: Option<Cipher>, calls: seq<Call>)
    requires s.Ready() && Fine(calls)
    ensures var next := if k.Some? then Some(DS.NewDec(k.value)) else None;
            var a, b := RA.Reconfigured(s, next), NewSession(k, s.ring.size);
            a.Ready() && b.Ready() && Served(a, ic, calls) == Served(b, ic, calls)
  {
    hide RA.ProcessAll, DS.Inv, Served, Fine;
    if k.Some? {
      DecoderSafety.NewDecInv(k.value);
      ResetInv(DS.NewDec(k.value));
      ResetDecoder(DS.NewDec(k.value));
    }
    var next := if k.Some? then Some(DS.NewDec(k.value)) else None;
    ServedSame(RA.Reconfigured(s, next), NewSession(k, s.ring.size), ic, calls);
  }

  lemma ResetInv(d: DS.Dec)
    requires DS.Inv(d)
    ensures DS.Inv(DS.ResetState(d))
  {
  }
}
