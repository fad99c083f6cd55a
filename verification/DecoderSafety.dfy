/** What holds of the decoder in every run: group bookkeeping, no confirmed loss, sound recovery. */
module DecoderSafety {
  import opened Bytes
  import opened Xor
  import opened Parity
  import opened FecMode
  import opened DecoderSpec

  // ---------- bookkeeping, for arbitrary input ----------

  lemma InvStructured(d: Dec)
    requires Inv(d)
    ensures Structured(d)
  {
  }

  lemma {:induction false} SubsetSize(a: set<nat>, b: set<nat>)
    requires a <= b
    ensures |a| <= |b|
  {
    if a == {} {
    } else {
      var x :| x in a;
      SubsetSize(a - {x}, b - {x});
    }
  }

  lemma NonEmptySize(a: set<nat>)
    requires a != {}
    ensures |a| >= 1
  {
  }

  lemma NewGroupOk(s: nat, k: nat)
    requires k >= 2 && IsStart(s, k)
    ensures StoredOk(s, NEW_GROUP, k)
  {
    assert 0 in Missing(NEW_GROUP, k);
    NonEmptySize(Missing(NEW_GROUP, k));
  }

  lemma StoredParts(s: nat, g: Group, k: nat)
    requires StoredOk(s, g, k)
    ensures IsStart(s, k) && GroupOk(g, k) && Missing(g, k) != {}
  {
  }

  lemma RemoveKeepsInv(d: Dec, start: nat, done: seq<nat>)
    requires d.Sized() && |d.groups| <= MAX_PENDING_GROUPS && d.lost == 0 && |done| == DONE_CACHE
    requires forall s | s in d.groups && s != start :: StoredOk(s, d.groups[s], d.k)
    ensures Inv(d.(groups := d.groups - {start}, done := done))
  {
    SubsetSize((d.groups - {start}).Keys, d.groups.Keys);
  }

  /** Finishing or keeping one group, given that every other stored group is in order. */
  lemma TryRecoverKeepsInv(d: Dec, start: nat)
    requires d.Sized() && |d.groups| <= MAX_PENDING_GROUPS && d.lost == 0
    requires start in d.groups && IsStart(start, d.k) && GroupOk(d.groups[start], d.k)
    requires Missing(d.groups[start], d.k) != {}
    requires forall s | s in d.groups && s != start :: StoredOk(s, d.groups[s], d.k)
    ensures Inv(TryRecover(d, start).0)
  {
    hide IsStart;
    var g := d.groups[start];
    var missing := Missing(g, d.k);
    NonEmptySize(missing);
    if g.parity.Some? && |missing| <= 1 {
      RemoveKeepsInv(d, start, MarkDone(d.done, start, d.k));
      assert |missing - {Only(missing)}| == 0;
    }
  }

  lemma RetireKeepsInv(d: Dec, progress: Option<nat>)
    requires Inv(d)
    ensures Inv(Retire(d, progress))
  {
    SubsetSize(Retire(d, progress).groups.Keys, d.groups.Keys);
  }

  lemma RetireKeepsSettings(d: Dec, progress: Option<nat>)
    ensures var r := Retire(d, progress);
            && r.k == d.k && r.done == d.done && r.fence == d.fence && r.single == d.single && r.cleanup == d.cleanup
            && r.recovered == d.recovered && r.lost == d.lost
            && (forall s | s in r.groups :: s in d.groups && r.groups[s] == d.groups[s])
  {
  }

  /** The table with one entry opened and replaced. */
  ghost function Put(d: Dec, start: nat, g: Group): Dec {
    d.(groups := Entry(d.groups, start)[start := g])
  }

  lemma EntryStored(d: Dec, start: nat)
    requires Inv(d) && IsStart(start, d.k)
    ensures StoredOk(start, Entry(d.groups, start)[start], d.k)
  {
    NewGroupOk(start, d.k);
  }

  /** Opening an entry and storing a group there: kept, finished or removed, the invariant holds. */
  lemma PutKeepsInv(d: Dec, start: nat, g: Group)
    requires Inv(d) && IsStart(start, d.k) && GroupOk(g, d.k)
    ensures Missing(g, d.k) != {} ==> Inv(TryRecover(Put(d, start, g), start).0)
    ensures Inv(d.(groups := Entry(d.groups, start) - {start}, done := MarkDone(d.done, start, d.k)))
    ensures Inv(d.(groups := Entry(d.groups, start)))
  {
    hide StoredOk, TryRecover, MarkDone, IsStart, Missing, GroupOk;
    var groups := Entry(d.groups, start);
    assert groups[start := g].Keys == groups.Keys;
    EntryStored(d, start);
    RemoveKeepsInv(d.(groups := groups), start, MarkDone(d.done, start, d.k));
    if Missing(g, d.k) != {} {
      TryRecoverKeepsInv(Put(d, start, g), start);
    }
  }

  lemma MemberKeepsGroupOk(g: Group, k: nat, j: nat, frame: Frame)
    requires GroupOk(g, k) && j < k
    ensures GroupOk(g.(members := g.members[j := frame]), k)
  {
  }

  lemma AdmitKeepsInv(d: Dec, sn: nat, frame: Frame)
    requires d.Sized() && Inv(d) && Structured(d) && sn > 0
    ensures Inv(Admit(d, sn, frame).0)
  {
    hide Inv, TryRecover, Entry, StoredOk, GroupOk, IsStart, GroupStart, MarkDone, Missing;
    var start := GroupStart(sn, d.k);
    if !IsDone(d.done, start, d.k) {
      var g := Entry(d.groups, start)[start];
      EntryStored(d, start);
      StoredParts(start, g, d.k);
      MemberKeepsGroupOk(g, d.k, sn - start, frame);
      PutKeepsInv(d, start, g.(members := g.members[sn - start := frame]));
    }
  }

  lemma HeaderIsStart(k: nat, payload: Frame)
    requires k > 0 && ParseHeader(k, payload).Ok?
    ensures IsStart(ParseHeader(k, payload).value, k)
  {
  }

  lemma ParityKeepsGroupOk(g: Group, k: nat, held: Held)
    requires GroupOk(g, k) && |held.lens| == k
    ensures GroupOk(g.(parity := Some(held)), k)
    ensures Missing(g.(parity := Some(held)), k) == Missing(g, k)
  {
  }

  lemma OnParityKeepsInv(d: Dec, ic: Option<Cipher>, payload: Frame, progress: Option<nat>)
    requires d.Sized() && Inv(d) && Structured(d)
    ensures Inv(OnParity(d, ic, payload, progress).0)
  {
    hide Inv, TryRecover, Entry, ParseHeader, ParseBody, Retire, StoredOk, GroupOk, IsStart, Missing, MarkDone;
    var header := ParseHeader(d.k, payload);
    if !d.single && header.Ok? {
      var start := header.value;
      HeaderIsStart(d.k, payload);
      RetireKeepsInv(d, progress);
      RetireKeepsSettings(d, progress);
      var d1 := Retire(d, progress);
      var body := ParseBody(d.k, ic, payload, start);
      if !IsRetired(d1, start) && body.Ok? && !IsDone(d1.done, start, d.k) {
        var g := Entry(d1.groups, start)[start];
        EntryStored(d1, start);
        StoredParts(start, g, d.k);
        ParityKeepsGroupOk(g, d.k, body.value);
        var g' := g.(parity := Some(body.value));
        PutKeepsInv(d1, start, g');
        if g.parity.None? {
          RetireKeepsInv(TryRecover(Put(d1, start, g'), start).0, progress);
        }
      }
    }
  }

  lemma OnModeKeepsInv(d: Dec, c: Control, progress: Option<nat>)
    requires Inv(d)
    ensures Inv(OnMode(d, c, progress))
  {
    hide Retire, StoredOk, Apply;
    var fence := Apply(d.fence, c);
    var d' := d.(fence := fence, cleanup := Max(d.cleanup, fence.from),
                 groups := DropRange(d.groups, fence.from, fence.until));
    SubsetSize(d'.groups.Keys, d.groups.Keys);
    RetireKeepsInv(d', progress);
  }

  // ---------- recovery, for genuine input ----------

  /** What the parity of a group of sent frames says. */
  function HeldOf(sent: nat -> Frame, start: nat, k: nat): Held {
    var lens := LensOf(sent, start, k);
    Held(lens, XorBody(GroupOf(sent, start, k), k, MaxOf(lens)))
  }

  /** The stored members are the frames the sender numbered so, and the parity is theirs. */
  ghost predicate GenuineGroup(s: nat, g: Group, k: nat, sent: nat -> Frame) {
    && (forall j | j in g.members :: g.members[j] == MemberOf(sent, s, j))
    && (g.parity.Some? ==> g.parity.value == HeldOf(sent, s, k) && forall j | 0 <= j < k :: |MemberOf(sent, s, j)| > 0)
  }

  ghost predicate Genuine(d: Dec, sent: nat -> Frame) {
    forall s | s in d.groups :: GenuineGroup(s, d.groups[s], d.k, sent)
  }

  ghost predicate GenuineOutput(out: Option<Recovered>, sent: nat -> Frame) {
    out.Some? ==> out.value.sn > 0 && out.value.data == sent(out.value.sn) && |out.value.data| > 0
  }

  /** The rebuilt frame is the sender's frame, byte for byte and in length. */
  lemma RebuildGenuine(s: nat, g: Group, k: nat, j: nat, sent: nat -> Frame)
    requires GroupOk(g, k) && Missing(g, k) == {j} && g.parity.Some? && GenuineGroup(s, g, k, sent)
    ensures Rebuild(g, k, j) == MemberOf(sent, s, j) && |MemberOf(sent, s, j)| > 0
  {
    hide XorByte;
    var data := MemberOf(sent, s, j);
    assert j in Missing(g, k);
    AllButOne(g, k, j);
    assert GroupOf(sent, s, k) == g.members[j := data];
    var held := g.parity.value;
    assert held.lens[j] == |data|;
    forall i | 0 <= i < |data| ensures Rebuild(g, k, j)[i] == data[i] {
      FoldRecovers(g.members, k, j, data, i);
      assert held.body[i] == FoldAt(GroupOf(sent, s, k), k, i);
    }
  }

  lemma AllButOne(g: Group, k: nat, j: nat)
    requires GroupOk(g, k) && Missing(g, k) == {j}
    ensures j < k && j !in g.members
    ensures forall i: nat :: i in g.members <==> i < k && i != j
  {
    forall i: nat | i < k && i != j ensures i in g.members {
      assert i !in Missing(g, k);
    }
    assert j in Missing(g, k);
  }

  lemma TryRecoverSound(d: Dec, start: nat, sent: nat -> Frame)
    requires d.Sized() && Genuine(d, sent)
    requires start in d.groups && IsStart(start, d.k) && GroupOk(d.groups[start], d.k)
    ensures Genuine(TryRecover(d, start).0, sent)
    ensures GenuineOutput(TryRecover(d, start).1, sent)
  {
    hide Rebuild, IsStart, GroupOk, MarkDone, GenuineGroup;
    StartPositive(start, d.k);
    var g := d.groups[start];
    var missing := Missing(g, d.k);
    if g.parity.Some? && |missing| == 1 {
      RebuildGenuine(start, g, d.k, Only(missing), sent);
    }
  }

  lemma RetireSound(d: Dec, progress: Option<nat>, sent: nat -> Frame)
    requires Genuine(d, sent)
    ensures Genuine(Retire(d, progress), sent)
  {
  }

  lemma PutSound(d: Dec, start: nat, g: Group, sent: nat -> Frame)
    requires d.Sized() && Genuine(d, sent) && GenuineGroup(start, g, d.k, sent)
    requires IsStart(start, d.k) && GroupOk(g, d.k)
    ensures Genuine(TryRecover(Put(d, start, g), start).0, sent)
    ensures GenuineOutput(TryRecover(Put(d, start, g), start).1, sent)
  {
    hide IsStart, GroupOk, GenuineGroup, GenuineOutput, TryRecover;
    TryRecoverSound(Put(d, start, g), start, sent);
  }

  lemma EntryGenuine(d: Dec, start: nat, done: seq<nat>, sent: nat -> Frame)
    requires Genuine(d, sent)
    ensures Genuine(d.(groups := Entry(d.groups, start)), sent)
    ensures Genuine(d.(groups := Entry(d.groups, start) - {start}, done := done), sent)
    ensures GenuineGroup(start, Entry(d.groups, start)[start], d.k, sent)
  {
  }

  lemma MemberGenuine(s: nat, g: Group, k: nat, j: nat, sent: nat -> Frame)
    requires GenuineGroup(s, g, k, sent)
    ensures GenuineGroup(s, g.(members := g.members[j := sent(s + j)]), k, sent)
  {
  }

  lemma NoOutputGenuine(sent: nat -> Frame)
    ensures GenuineOutput(None, sent)
  {
  }

  lemma AdmitSound(d: Dec, sn: nat, sent: nat -> Frame)
    requires d.Sized() && Inv(d) && Structured(d) && sn > 0 && Genuine(d, sent)
    ensures Genuine(Admit(d, sn, sent(sn)).0, sent)
    ensures GenuineOutput(Admit(d, sn, sent(sn)).1, sent)
  {
    hide Inv, TryRecover, Entry, StoredOk, GroupOk, IsStart, GroupStart, MarkDone, Missing, GenuineGroup, Genuine,
      GenuineOutput, IsDone;
    NoOutputGenuine(sent);
    var start := GroupStart(sn, d.k);
    if !IsDone(d.done, start, d.k) {
      var g := Entry(d.groups, start)[start];
      EntryGenuine(d, start, MarkDone(d.done, start, d.k), sent);
      EntryStored(d, start);
      StoredParts(start, g, d.k);
      MemberKeepsGroupOk(g, d.k, sn - start, sent(sn));
      MemberGenuine(start, g, d.k, sn - start, sent);
      PutSound(d, start, g.(members := g.members[sn - start := sent(sn)]), sent);
    }
  }

  /** A parity record as the sender's encoder builds it. */
  ghost predicate GenuineParity(payload: Frame, ic: Option<Cipher>, k: nat, start: nat, sent: nat -> Frame)
    requires k < 256
  {
    && k > 0 && IsStart(start, k) && start <= U32_MAX
    && (forall j | 0 <= j < k :: 0 < |MemberOf(sent, start, j)| <= U32_MAX)
    && payload == ParityOf(ic, sent, start, k)
  }

  lemma ParityGenuine(s: nat, g: Group, k: nat, sent: nat -> Frame)
    requires GenuineGroup(s, g, k, sent) && forall j | 0 <= j < k :: |MemberOf(sent, s, j)| > 0
    ensures GenuineGroup(s, g.(parity := Some(HeldOf(sent, s, k))), k, sent)
  {
  }

  lemma OnParitySound(d: Dec, ic: Option<Cipher>, payload: Frame, progress: Option<nat>, start: nat, sent: nat -> Frame)
    requires d.Sized() && Inv(d) && Structured(d) && Genuine(d, sent) && SoundCipher(ic)
    requires GenuineParity(payload, ic, d.k, start, sent)
    ensures Genuine(OnParity(d, ic, payload, progress).0, sent)
    ensures OnParity(d, ic, payload, progress).1.Ok?
    ensures GenuineOutput(OnParity(d, ic, payload, progress).1.value, sent)
  {
    hide Inv, TryRecover, Entry, ParseHeader, ParseBody, Retire, StoredOk, GroupOk, IsStart, Missing, MarkDone,
      GenuineGroup, Genuine, ParityOf;
    ParityParses(ic, sent, start, d.k);
    if !d.single {
      RetireKeepsInv(d, progress);
      RetireSound(d, progress, sent);
      RetireKeepsSettings(d, progress);
      var d1 := Retire(d, progress);
      if !IsRetired(d1, start) && !IsDone(d1.done, start, d.k) {
        var g := Entry(d1.groups, start)[start];
        EntryGenuine(d1, start, d1.done, sent);
        EntryStored(d1, start);
        StoredParts(start, g, d.k);
        ParityKeepsGroupOk(g, d.k, HeldOf(sent, start, d.k));
        ParityGenuine(start, g, d.k, sent);
        var g' := g.(parity := Some(HeldOf(sent, start, d.k)));
        PutSound(d1, start, g', sent);
        if g.parity.None? {
          RetireSound(TryRecover(Put(d1, start, g'), start).0, progress, sent);
        }
      }
    }
  }

  lemma OnModeSound(d: Dec, c: Control, progress: Option<nat>, sent: nat -> Frame)
    requires Genuine(d, sent)
    ensures Genuine(OnMode(d, c, progress), sent)
  {
  }

  // ---------- whole runs ----------

  datatype Event =
    | Data(sn: nat, frame: Frame, progress: Option<nat>)
    | Typed(payload: Frame, progress: Option<nat>)
    | Reset
    | StaticSingle(single: bool)

  /** One call into the decoder; an error closes the connection it came from but not the session. */
  ghost function Step(d: Dec, ic: Option<Cipher>, e: Event): (Dec, Option<Recovered>)
    requires d.Sized() && Structured(d)
  {
    match e
    case Data(sn, frame, progress) => OnData(d, sn, frame, progress)
    case Typed(payload, progress) =>
      var (d', r) := OnControl(d, ic, payload, progress);
      (d', if r.Ok? then r.value else None)
    case Reset => (ResetState(d), None)
    case StaticSingle(single) => (SetStaticSingle(d, single), None)
  }

  lemma StepKeepsInv(d: Dec, ic: Option<Cipher>, e: Event)
    requires Inv(d)
    ensures d.Sized() && Structured(d) && Inv(Step(d, ic, e).0)
  {
    hide OnParity, Admit, Retire, OnMode, StoredOk;
    InvStructured(d);
    match e
    case Data(sn, frame, progress) =>
      RetireKeepsInv(d, progress);
      if sn > 0 { AdmitKeepsInv(d, sn, frame); }
    case Typed(payload, progress) =>
      OnParityKeepsInv(d, ic, payload, progress);
      if Parse(payload).Ok? { OnModeKeepsInv(d, Parse(payload).value, progress); }
    case Reset =>
    case StaticSingle(_) =>
  }

  ghost function Run(d: Dec, ic: Option<Cipher>, events: seq<Event>): (r: (Dec, seq<Recovered>))
    requires Inv(d)
    ensures Inv(r.0)
    decreases |events|
  {
    if |events| == 0 then (d, [])
    else
      var (d1, outs) := Run(d, ic, events[..|events| - 1]);
      StepKeepsInv(d1, ic, events[|events| - 1]);
      var (d2, out) := Step(d1, ic, events[|events| - 1]);
      (d2, if out.Some? then outs + [out.value] else outs)
  }

  lemma NewDecInv(k: nat)
    ensures Inv(NewDec(k))
  {
  }

  /** Genuine input: data frames carry what the sender gave that number, parity records are the sender's.
      Mode controls, resets and malformed records are unrestricted. */
  ghost predicate GenuineEvent(e: Event, ic: Option<Cipher>, k: nat, sent: nat -> Frame)
    requires k < 256
  {
    match e
    case Data(sn, frame, _) => sn > 0 ==> frame == sent(sn)
    case Typed(payload, _) =>
      ControlKind(payload) == Ok(KIND_FEC_PARITY) ==> exists start :: GenuineParity(payload, ic, k, start, sent)
    case _ => true
  }

  lemma StepSound(d: Dec, ic: Option<Cipher>, e: Event, sent: nat -> Frame)
    requires Inv(d) && d.Sized() && Structured(d)
    requires Genuine(d, sent) && SoundCipher(ic) && GenuineEvent(e, ic, d.k, sent)
    ensures Genuine(Step(d, ic, e).0, sent)
    ensures GenuineOutput(Step(d, ic, e).1, sent)
  {
    hide Inv, OnParity, Admit, Retire, ParityOf, OnMode;
    match e
    case Data(sn, frame, progress) =>
      RetireSound(d, progress, sent);
      if sn > 0 { AdmitSound(d, sn, sent); }
    case Typed(payload, progress) =>
      if ControlKind(payload) == Ok(KIND_FEC_PARITY) {
        var start :| GenuineParity(payload, ic, d.k, start, sent);
        OnParitySound(d, ic, payload, progress, start, sent);
      } else if Parse(payload).Ok? {
        OnModeSound(d, Parse(payload).value, progress, sent);
      }
    case Reset =>
    case StaticSingle(_) =>
  }

  // The group size never changes, and the recovery counter counts the emitted frames.

  lemma TryRecoverCounts(d: Dec, start: nat)
    requires d.Sized()
    requires start in d.groups && d.groups[start].parity.Some? ==> |d.groups[start].parity.value.lens| == d.k
    ensures var (d', out) := TryRecover(d, start);
            d'.k == d.k && d'.recovered == d.recovered + if out.Some? then 1 else 0
  {
  }

  lemma AdmitCounts(d: Dec, sn: nat, frame: Frame)
    requires d.Sized() && Structured(d) && sn > 0
    ensures var (d', out) := Admit(d, sn, frame);
            d'.k == d.k && d'.recovered == d.recovered + if out.Some? then 1 else 0
  {
    hide Entry, MarkDone, TryRecover, GroupStart, IsStart, Missing;
    var start := GroupStart(sn, d.k);
    var groups := Entry(d.groups, start);
    TryRecoverCounts(d.(groups := groups[start := groups[start].(members := groups[start].members[sn - start := frame])]), start);
  }

  lemma OnParityCounts(d: Dec, ic: Option<Cipher>, payload: Frame, progress: Option<nat>)
    requires d.Sized() && Structured(d)
    ensures var (d', r) := OnParity(d, ic, payload, progress);
            d'.k == d.k && d'.recovered == d.recovered + if r.Ok? && r.value.Some? then 1 else 0
  {
    hide Entry, MarkDone, TryRecover, ParseHeader, ParseBody, Retire, IsStart;
    var header := ParseHeader(d.k, payload);
    if header.Ok? {
      var d1 := Retire(d, progress);
      RetireKeepsSettings(d, progress);
      var body := ParseBody(d.k, ic, payload, header.value);
      if body.Ok? {
        var groups := Entry(d1.groups, header.value);
        var d2 := d1.(groups := groups[header.value := groups[header.value].(parity := Some(body.value))]);
        TryRecoverCounts(d2, header.value);
        RetireKeepsSettings(TryRecover(d2, header.value).0, progress);
      }
    }
  }

  lemma OnModeCounts(d: Dec, c: Control, progress: Option<nat>)
    ensures OnMode(d, c, progress).k == d.k && OnMode(d, c, progress).recovered == d.recovered
  {
  }

  lemma StepCounts(d: Dec, ic: Option<Cipher>, e: Event)
    requires d.Sized() && Structured(d)
    ensures Step(d, ic, e).0.k == d.k
    ensures Step(d, ic, e).0.recovered == d.recovered + if Step(d, ic, e).1.Some? then 1 else 0
  {
    hide Admit, OnParity, OnMode, Retire;
    match e
    case Data(sn, frame, progress) =>
      RetireKeepsSettings(d, progress);
      if sn > 0 { AdmitCounts(d, sn, frame); }
    case Typed(payload, progress) =>
      OnParityCounts(d, ic, payload, progress);
      if Parse(payload).Ok? { OnModeCounts(d, Parse(payload).value, progress); }
    case Reset =>
    case StaticSingle(_) =>
  }

  /** Recovery soundness: whatever the loss, duplication, order, eviction, cache overwrite, retirement,
      suspension, resumption or reset, every frame the decoder emits is the sender's own. */
  lemma {:induction false} RecoverySound(d: Dec, ic: Option<Cipher>, events: seq<Event>, sent: nat -> Frame)
    requires Inv(d) && Genuine(d, sent) && SoundCipher(ic)
    requires forall i | 0 <= i < |events| :: GenuineEvent(events[i], ic, d.k, sent)
    ensures Run(d, ic, events).0.k == d.k && Genuine(Run(d, ic, events).0, sent)
    ensures forall i | 0 <= i < |Run(d, ic, events).1| ::
              var out := Run(d, ic, events).1[i];
              out.sn > 0 && |out.data| > 0 && out.data == sent(out.sn)
    decreases |events|
  {
    hide Inv, Step, Genuine, GenuineEvent;
    if |events| == 0 {
    } else {
      var front, last := events[..|events| - 1], events[|events| - 1];
      RecoverySound(d, ic, front, sent);
      var d1 := Run(d, ic, front).0;
      StepKeepsInv(d1, ic, last);
      StepSound(d1, ic, last, sent);
      StepCounts(d1, ic, last);
    }
  }

  /** Accounting, for arbitrary input: no loss is ever confirmed and every recovery is emitted. */
  lemma {:induction false} NothingLost(k: nat, ic: Option<Cipher>, events: seq<Event>)
    ensures Inv(NewDec(k)) && Run(NewDec(k), ic, events).0.lost == 0
    ensures Run(NewDec(k), ic, events).0.recovered == |Run(NewDec(k), ic, events).1|
    decreases |events|
  {
    hide Step;
    NewDecInv(k);
    if |events| == 0 {
    } else {
      var front, last := events[..|events| - 1], events[|events| - 1];
      NothingLost(k, ic, front);
      var d1 := Run(NewDec(k), ic, front).0;
      StepKeepsInv(d1, ic, last);
      StepCounts(d1, ic, last);
    }
  }

  // ---------- before the first data frame ----------

  predicate NoMembers(d: Dec) {
    forall s | s in d.groups :: d.groups[s].members == map[]
  }

  lemma TwoMissing(g: Group, k: nat)
    requires g.members == map[] && k >= 2
    ensures |Missing(g, k)| > 1
  {
    var missing := Missing(g, k);
    assert {0, 1} <= missing && |{0, 1}| == 2;
    SubsetSize({0, 1}, missing);
  }

  /** A control rebuilds nothing from parity alone. */
  lemma BlankControl(d: Dec, ic: Option<Cipher>, payload: Frame, progress: Option<nat>)
    requires d.Sized() && Structured(d) && NoMembers(d)
    ensures var (d', r) := OnControl(d, ic, payload, progress);
            NoMembers(d') && (r.Ok? ==> r.value.None?)
  {
    hide Structured, ControlKind, Parse, Apply, OnParity;
    if ControlKind(payload) == Ok(KIND_FEC_PARITY) { BlankParity(d, ic, payload, progress); }
  }

  lemma BlankParity(d: Dec, ic: Option<Cipher>, payload: Frame, progress: Option<nat>)
    requires d.Sized() && Structured(d) && NoMembers(d)
    ensures var (d', r) := OnParity(d, ic, payload, progress);
            NoMembers(d') && (r.Ok? ==> r.value.None?)
  {
    hide Missing, ParseHeader, ParseBody, IsDone, IsRetired, Retire;
    var header := ParseHeader(d.k, payload);
    if header.Ok? {
      var start := header.value;
      var d1 := Retire(d, progress);
      BlankRetire(d, progress);
      var body := ParseBody(d.k, ic, payload, start);
      var groups := Entry(d1.groups, start);
      if body.Ok? {
        TwoMissing(groups[start].(parity := Some(body.value)), d.k);
        BlankRetire(d1.(groups := groups[start := groups[start].(parity := Some(body.value))]), progress);
      }
    }
  }

  lemma BlankRetire(d: Dec, progress: Option<nat>)
    requires NoMembers(d)
    ensures var d' := Retire(d, progress); NoMembers(d') && d'.k == d.k
  {
  }
}
