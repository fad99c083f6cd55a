/** Why the decoder lets a stored group go, over whole runs of the data plane (src/fec.rs). */
module GroupLoss {
  import opened Bytes
  import opened Parity
  import opened FecMode
  import opened DecoderSpec
  import opened DecoderSafety
  import opened DataPlane
  import opened RealFrames
  import opened FecEncoder
  import opened FenceWindows
  import FencedBypass
  import Net = FencedDispatch
  import RingSpec
  import RA = RxActor

  /** The table was full, and group `s` was its oldest. */
  predicate OldestOfFull(groups: map<nat, Group>, s: nat) {
    |groups| == 512 && forall t | t in groups :: s <= t
  }

  /** Group `s`, stored in `d` and absent from `d'`, is finished, or was the oldest of a full table, or lies in the
      bypass window that has just been opened, or lies wholly behind the reorder position. */
  predicate Excused(d: Dec, d': Dec, s: nat, expected: nat)
    requires d'.Sized()
  {
    || IsDone(d'.done, s, d'.k)
    || OldestOfFull(d.groups, s)
    || (d'.fence != d.fence && d'.fence.Bypasses(s))
    || s + d.k <= expected
  }

  lemma MarkedDone(done: seq<nat>, start: nat, k: nat)
    requires |done| == DONE_CACHE && k > 0 && start > 0
    ensures IsDone(MarkDone(done, start, k), start, k)
  {
    hide DoneSlot;
  }

  lemma EntryLoss(groups: map<nat, Group>, start: nat, s: nat)
    requires |groups| <= MAX_PENDING_GROUPS && s in groups && s !in Entry(groups, start)
    ensures OldestOfFull(groups, s)
  {
  }

  lemma FullAfterAll(groups: map<nat, Group>, kept: map<nat, Group>, s: nat)
    requires |groups| <= MAX_PENDING_GROUPS && kept.Keys <= groups.Keys && OldestOfFull(kept, s)
    ensures OldestOfFull(groups, s)
  {
    SubsetSize(groups.Keys - kept.Keys, groups.Keys);
    assert groups.Keys == kept.Keys + (groups.Keys - kept.Keys);
    assert |groups.Keys - kept.Keys| == 0;
    assert groups.Keys == kept.Keys;
  }

  lemma RecoverLoss(d: Dec, start: nat, s: nat)
    requires d.Sized() && start > 0 && s in d.groups
    requires start in d.groups && d.groups[start].parity.Some? ==> |d.groups[start].parity.value.lens| == d.k
    ensures var d' := TryRecover(d, start).0;
            d'.Sized() && (s !in d'.groups ==> IsDone(d'.done, s, d'.k))
  {
    hide Rebuild, Missing, MarkDone;
    MarkedDone(d.done, start, d.k);
  }

  /** What retirement drops lies wholly behind the position. */
  lemma RetireLoss(d: Dec, expected: nat, s: nat)
    requires Inv(d) && OnStarts(d) && s in d.groups && s !in Retire(d, Some(expected)).groups
    ensures s + d.k <= expected
  {
    hide IsStart, Lacking, GroupOk;
    StartsApart(s, d.cleanup, d.k);
  }

  lemma AdmitLoss(d: Dec, sn: nat, frame: Frame, s: nat)
    requires Inv(d) && Structured(d) && sn > 0 && s in d.groups
    ensures var d' := Admit(d, sn, frame).0;
            d'.Sized() && (s !in d'.groups ==> IsDone(d'.done, s, d'.k) || OldestOfFull(d.groups, s))
  {
    hide TryRecover, MarkDone, IsDone, OldestOfFull, IsStart, GroupStart, Lacking, Missing;
    var start := GroupStart(sn, d.k);
    StartOf(sn, d.k);
    if !IsDone(d.done, start, d.k) {
      var groups := Entry(d.groups, start);
      if s !in groups { EntryLoss(d.groups, start, s); }
      MarkedDone(d.done, start, d.k);
      var g' := groups[start].(members := groups[start].members[sn - start := frame]);
      var d1 := d.(groups := groups[start := g']);
      if s in groups && sn - start !in groups[start].members && Missing(g', d.k) != {} { RecoverLoss(d1, start, s); }
      RecoverSized(d1, start);
    }
  }

  lemma StartOf(sn: nat, k: nat)
    requires sn > 0 && k > 0
    ensures 0 < GroupStart(sn, k) <= sn
  {
  }

  lemma RecoverSized(d: Dec, start: nat)
    requires d.Sized()
    requires start in d.groups && d.groups[start].parity.Some? ==> |d.groups[start].parity.value.lens| == d.k
    ensures TryRecover(d, start).0.Sized()
  {
  }

  lemma DataLoss(d: Dec, sn: nat, frame: Frame, expected: nat, s: nat)
    requires Inv(d) && Structured(d) && OnStarts(d) && s in d.groups
    ensures var d' := OnData(d, sn, frame, Some(expected)).0;
            d'.Sized() && (s !in d'.groups ==> Excused(d, d', s, expected))
  {
    hide Admit, Retire, Inv, Structured, OnStarts, IsDone, OldestOfFull;
    SizedOf(d);
    RetireSized(d, Some(expected));
    if s !in Retire(d, Some(expected)).groups { RetireLoss(d, expected, s); }
    if sn > 0 { AdmitLoss(d, sn, frame, s); }
  }

  lemma ParityLoss(d: Dec, ic: Option<Cipher>, payload: Frame, expected: nat, s: nat)
    requires Inv(d) && Structured(d) && OnStarts(d) && s in d.groups
    ensures var d' := OnParity(d, ic, payload, Some(expected)).0;
            d'.Sized() && (s !in d'.groups ==> Excused(d, d', s, expected))
  {
    hide TryRecover, Retire, Inv, Structured, OnStarts, IsDone, OldestOfFull, ParseHeader, ParseBody, Entry, IsStart;
    SizedOf(d);
    var progress := Some(expected);
    OnParityKeepsInv(d, ic, payload, progress);
    SizedOf(OnParity(d, ic, payload, progress).0);
    RetireSized(d, progress);
    var header := ParseHeader(d.k, payload);
    if !d.single && header.Ok? {
      var start := header.value;
      HeaderIsStart(d.k, payload);
      var d1 := Retire(d, progress);
      RetireKeepsSettings(d, progress);
      var body := ParseBody(d.k, ic, payload, start);
      if s !in d1.groups {
        RetireLoss(d, expected, s);
      } else if !IsRetired(d1, start) && body.Ok? && !IsDone(d1.done, start, d.k) {
        if s !in Entry(d1.groups, start) {
          SizeOf(d);
          SubsetSize(d1.groups.Keys, d.groups.Keys);
          EntryLoss(d1.groups, start, s);
          FullAfterAll(d.groups, d1.groups, s);
        }
        var groups := Entry(d1.groups, start);
        var d2 := d1.(groups := groups[start := groups[start].(parity := Some(body.value))]);
        RecoverMarks(d2, start);
        RetireAgain(d, TryRecover(d2, start).0, progress);
        if s in groups { RecoverLoss(d2, start, s); }
      }
    }
  }

  lemma SizeOf(d: Dec)
    requires Inv(d)
    ensures |d.groups| <= MAX_PENDING_GROUPS
  {
  }

  lemma RecoverMarks(d: Dec, start: nat)
    requires d.Sized()
    requires start in d.groups && d.groups[start].parity.Some? ==> |d.groups[start].parity.value.lens| == d.k
    ensures var d' := TryRecover(d, start).0;
            d'.Sized() && d'.cleanup == d.cleanup && d'.retired == d.retired
  {
    hide Rebuild, Missing;
  }

  /** A second retirement at the same position drops nothing. */
  lemma RetireAgain(d: Dec, d': Dec, progress: Option<nat>)
    requires d'.cleanup == Retire(d, progress).cleanup && d'.retired == Retire(d, progress).retired
    ensures Retire(d', progress) == d'
  {
  }

  /** A mode control also retires, with the mark it has just raised. */
  lemma ModeLoss(d: Dec, c: Control, expected: nat, s: nat)
    requires Inv(d) && OnStarts(d) && Aligned(Apply(d.fence, c), d.k) && s in d.groups
    ensures var d' := OnMode(d, c, Some(expected));
            && d'.Sized()
            && (s !in d'.groups ==> (d'.fence != d.fence && d'.fence.Bypasses(s)) || s + d.k <= expected)
  {
    hide Apply, IsStart, Lacking, GroupOk;
    StoredStart(d, s);
    var fence := Apply(d.fence, c);
    var mark := Max(d.cleanup, fence.from);
    if s < mark { StartsApart(s, mark, d.k); }
  }

  lemma ControlLoss(d: Dec, ic: Option<Cipher>, payload: Frame, expected: nat, s: nat)
    requires Inv(d) && Structured(d) && OnStarts(d) && s in d.groups
    requires ControlKind(payload) != Ok(KIND_FEC_PARITY) && Parse(payload).Ok? ==>
               Aligned(Apply(d.fence, Parse(payload).value), d.k)
    ensures var d' := OnControl(d, ic, payload, Some(expected)).0;
            d'.Sized() && (s !in d'.groups ==> Excused(d, d', s, expected))
  {
    hide OnParity, OnMode, Inv, Structured, OnStarts, Apply, Parse, ControlKind, OldestOfFull, IsDone, Aligned;
    SizedOf(d);
    ParityLoss(d, ic, payload, expected, s);
    if ControlKind(payload) != Ok(KIND_FEC_PARITY) && Parse(payload).Ok? { ModeLoss(d, Parse(payload).value, expected, s); }
  }

  lemma RecordLoss(k: nat, ic: Option<Cipher>, h: seq<Dispatch>, d: Dec, slots: seq<nat>, r: Net.Record, expected: nat, s: nat)
    requires 2 <= k <= 64 && FencedBypass.Good(k, ic, h, r) && Inv(d) && d.k == k && OnStarts(d)
    requires |slots| == RA.DEDUP_WINDOW && s in d.groups
    ensures var fec := RA.Decoding(Some(d), slots, expected, ic, r.sn, r.payload).fec;
            fec.Some? && fec.value.Sized() && (s !in fec.value.groups ==> Excused(d, fec.value, s, expected))
  {
    hide OnData, OnControl, Inv, OnStarts, Excused, Structured, Aligned, Apply, Parse, ControlKind, FencedBypass.Emitted,
      FencedBypass.EmittedParity, TxAfter;
    InvStructured(d);
    if r.sn > 0 {
      DataLoss(d, r.sn, r.payload, expected, s);
    } else {
      if FencedBypass.IsMode(r) {
        FenceOnStarts(d);
        ModeOnStarts(k, h, d.fence, Parse(r.payload).value);
      } else {
        ParityKind(k, ic, h, r.payload);
      }
      ControlLoss(d, ic, r.payload, expected, s);
    }
  }

  lemma FenceOnStarts(d: Dec)
    requires OnStarts(d)
    ensures d.k > 0 && Aligned(d.fence, d.k)
  {
  }

  lemma AdvanceLoss(k: nat, ic: Option<Cipher>, p: Plane, step: PlaneStep, s: nat)
    requires Net.Safe(p.t.net) && Sizes(p.t.history) && Sound(k, ic, p.t.history, p)
    ensures var p' := Advance(ic, p, step);
            && p.rx.fec.Some? && p'.rx.fec.Some? && p'.rx.fec.value.Sized()
            && (s in p.rx.fec.value.groups && s !in p'.rx.fec.value.groups ==>
                  Excused(p.rx.fec.value, p'.rx.fec.value, s, p.rx.ring.buf.expected))
  {
    hide Net.Safe, FencedBypass.Faithful, Genuine, Inv, OnStarts, Excused, Released, FencedBypass.Step, RingSpec.Fits,
      RA.Decoding, RingSpec.RingInsertAll, RingSpec.RingTimeout, Stocked, FencedBypass.Good;
    SizedOf(p.rx.fec.value);
    match step
    case Tick(_) =>
    case Network(step, now) =>
      var r := Arriving(p.t.net, step);
      if r.Some? {
        FaithfulK(k, ic, p.t);
        ArrivingGood(k, ic, p.t, step);
        GoodNumber(k, ic, p.t.history, r.value);
        RA.DecodingKeepsInv(p.rx.fec, p.rx.slots, p.rx.ring.buf.expected, ic, r.value.sn, r.value.payload);
        SizedOf(RA.Decoding(p.rx.fec, p.rx.slots, p.rx.ring.buf.expected, ic, r.value.sn, r.value.payload).fec.value);
        if s in p.rx.fec.value.groups {
          RecordLoss(k, ic, p.t.history, p.rx.fec.value, p.rx.slots, r.value, p.rx.ring.buf.expected, s);
        }
      }
  }

  /** In every run, a stored group that the next record makes disappear is finished, or was the oldest of a table of
      512, or lies in the bypass window the record opens, or lies wholly behind the reorder position. */
  lemma WhyGroupsGo(k: nat, ic: Option<Cipher>, steps: seq<PlaneStep>, step: PlaneStep, s: nat)
    requires 2 <= k <= 64 && SoundCipher(ic)
    requires Sizes(Play(ic, Begin(k, ic), steps).t.history)
    ensures var p := Play(ic, Begin(k, ic), steps);
            && p.rx.Ready() && p.rx.fec.Some?
            && var p' := Advance(ic, p, step);
               && p'.rx.fec.Some? && p'.rx.fec.value.Sized()
               && (s in p.rx.fec.value.groups && s !in p'.rx.fec.value.groups ==>
                     Excused(p.rx.fec.value, p'.rx.fec.value, s, p.rx.ring.buf.expected))
  {
    hide Play, Begin, FencedBypass.Faithful, DecoderSafety.Genuine, Inv, OnStarts, Excused, RA.ProcessRing, Released, Advance,
      Net.Safe, RingSpec.Fits, Trusted;
    var p := Play(ic, Begin(k, ic), steps);
    BeginSound(k, ic, p.t.history);
    PlaySound(k, ic, p.t.history, Begin(k, ic), steps);
    AdvanceLoss(k, ic, p, step, s);
  }
}
