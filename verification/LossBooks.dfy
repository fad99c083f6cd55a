/** The books of a receiver that meets losses and mode changes: what has arrived, which parity it holds, and which of it
    came in time (src/protocol.rs, src/fec.rs). */
module LossBooks {
  import opened Bytes
  import opened Parity
  import opened FecMode
  import opened FecEncoder
  import opened FenceWindows
  import opened FencedBypass
  import opened RealFrames
  import opened DataPlane
  import opened LossLedger
  import Net = FencedDispatch
  import DS = DecoderSpec
  import DecoderSafety
  import E = EndToEnd

  // ---------- protected groups ----------

  /** The run sends the parity of the group that starts at `s`. */
  ghost predicate Protected(k: nat, ic: Option<Cipher>, h: seq<Dispatch>, s: nat)
    requires 2 <= k <= 64
  {
    IsStart(s, k) && s + k <= |h| + 1 && ParityAt(k, ic, h, s + k - 1).Some?
  }

  /** The numbers of groups without parity; nothing is promised about losing them. */
  ghost function Exempt(k: nat, ic: Option<Cipher>, h: seq<Dispatch>): set<nat>
    requires 2 <= k <= 64
  {
    set x | 1 <= x <= |h| + k && !Protected(k, ic, h, GroupStart(x, k))
  }

  lemma ExemptIn(k: nat, ic: Option<Cipher>, h: seq<Dispatch>, i: set<nat>, s: nat)
    requires 2 <= k <= 64 && IsStart(s, k) && s <= |h| && !Protected(k, ic, h, s) && Exempt(k, ic, h) <= i
    ensures E.AllIn(i, s, k)
  {
    hide Protected, IsStart, GroupStart;
    StartPositive(s, k);
    forall j | 0 <= j < k ensures E.Has(i, s, j) {
      StartOfMember(s, s + j, k);
      assert s + j in Exempt(k, ic, h);
    }
  }

  /** A receiver that has skipped no generation does not bypass a frame of a protected group once it has applied the
      generation of that frame. */
  lemma ProtectedOpen(k: nat, ic: Option<Cipher>, h: seq<Dispatch>, h': seq<Dispatch>, rx: Fence, a: nat)
    requires 2 <= k <= 64 && h <= h' && |h'| <= U32_MAX && NonEmpty(h') && Caught(k, h, rx) && 0 < a <= |h'|
    requires Protected(k, ic, h', GroupStart(a, k)) && TxAfter(k, h', a).generation <= rx.generation
    ensures !rx.Bypasses(a)
  {
    hide ParityAt, GroupStart, TxAfter, RxAt, NonEmpty, PhaseAt, IsStart;
    var m :| 0 <= m <= |h| && RxAt(k, h, m) == rx;
    ModeOfExtension(k, h, h', m);
    PhaseConsistent(k, h', m);
    EmittedNeverBypasses(k, ic, h', m, a);
  }

  /** If the next generation resumes, the run is suspended now. */
  lemma {:induction false} SuspendedBefore(k: nat, run: seq<Dispatch>, m: nat, n: nat)
    requires m <= n <= |run| <= U32_MAX && TxAfter(k, run, n).generation == TxAfter(k, run, m).generation + 1
    requires !TxAfter(k, run, n).suspended
    ensures TxAfter(k, run, m).suspended
    decreases n
  {
    hide TxAfter, GroupStart, NextGroupStart;
    GenerationStep(k, run, n);
    if TxAfter(k, run, n - 1).generation == TxAfter(k, run, n).generation {
      SilentStep(k, run, n);
      SuspendedBefore(k, run, m, n - 1);
    } else {
      GenerationMonotone(k, run, m, n - 1);
      EmittedResumes(k, run, n);
    }
  }

  lemma EmittedResumes(k: nat, run: seq<Dispatch>, n: nat)
    requires 0 < n <= |run| && EmittedAt(k, run, n).Some? && !TxAfter(k, run, n).suspended
    ensures TxAfter(k, run, n - 1).suspended
  {
    hide GroupStart, NextGroupStart;
  }

  /** The first frame of a protected group is sent in a resumed mode. */
  lemma ProtectedResumed(k: nat, ic: Option<Cipher>, h: seq<Dispatch>, s: nat)
    requires 2 <= k <= 64 && |h| <= U32_MAX && NonEmpty(h) && Protected(k, ic, h, s)
    ensures 0 < s <= |h| && !TxAfter(k, h, s).suspended
  {
    hide GroupStart, NextGroupStart, IsStart, ParityAt, NonEmpty;
    ParityExactly(k, ic, h, s + k - 1);
    StartPositive(s, k);
    assert Nth(h, s).paths >= 2;
    FirstStart(k, s, s);
    PhaseConsistent(k, h, s - 1);
  }

  /** A receiver that stands two mode changes before a protected group, one of them a suspension it has just applied, has
      that group in its window. */
  lemma EarlyDropped(k: nat, ic: Option<Cipher>, h: seq<Dispatch>, h': seq<Dispatch>, rx: Fence, s: nat)
    requires 2 <= k <= 64 && h <= h' && |h'| <= U32_MAX && NonEmpty(h') && Caught(k, h, rx) && Protected(k, ic, h', s)
    requires TxAfter(k, h', s).generation == rx.generation + 1
    ensures rx.Bypasses(s)
  {
    hide TxAfter, RxAt, PhaseAt, Protected, GroupStart, NextGroupStart, NonEmpty;
    var m :| 0 <= m <= |h| && RxAt(k, h, m) == rx;
    ModeOfExtension(k, h, h', m);
    PhaseConsistent(k, h', m);
    ProtectedResumed(k, ic, h', s);
    if s <= m { GenerationMonotone(k, h', s, m); }
    SuspendedBefore(k, h', m, s);
    StartPositive(GroupStart(PhaseAt(k, h', m).q, k), k);
  }

  // ---------- the books ----------

  /** The numbers of the data that arrived, the starts of the groups whose parity is held or was used, and of these the
      ones whose parity came in time. */
  datatype Books = Books(data: set<nat>, held: set<nat>, timely: set<nat>)

  const NO_BOOKS := Books({}, {}, {})

  /** Data came in its generation or later. Parity came in time if and only if its group was sent no later than in the
      generation after the receiver's. */
  ghost predicate Dated(k: nat, ic: Option<Cipher>, h: seq<Dispatch>, generation: nat, bk: Books)
    requires 2 <= k <= 64
  {
    && bk.timely <= bk.held
    && (forall s | s in bk.held ::
          Protected(k, ic, h, s) && (s in bk.timely <==> TxAfter(k, h, s).generation <= generation + 1))
    && (forall x | x in bk.data :: 1 <= x <= |h| && TxAfter(k, h, x).generation <= generation)
  }

  /** Stored groups belong to the run; a protected one was sent no later than in the next generation, or came early. */
  ghost predicate Backed(k: nat, ic: Option<Cipher>, h: seq<Dispatch>, d: DS.Dec, held: set<nat>)
    requires 2 <= k <= 64
  {
    forall s | s in d.groups ::
      s <= |h| && (Protected(k, ic, h, s) ==> TxAfter(k, h, s).generation <= d.fence.generation + 1 || s in held)
  }

  /** The books are true to the decoder, given the numbers that have been passed on or do not matter. */
  ghost predicate Booked(k: nat, ic: Option<Cipher>, h: seq<Dispatch>, d: DS.Dec, expected: nat, i: set<nat>, bk: Books)
    requires 2 <= k <= 64
  {
    && E.Ledger(d, i, bk.data, bk.held) && Sourced(d, bk.data, bk.held) && RetiredBehind(d, expected)
    && Backed(k, ic, h, d, bk.held) && Dated(k, ic, h, d.fence.generation, bk)
  }

  lemma BookedGrows(k: nat, ic: Option<Cipher>, h: seq<Dispatch>, d: DS.Dec, expected: nat, i: set<nat>, expected': nat,
                    i': set<nat>, bk: Books)
    requires 2 <= k <= 64 && Booked(k, ic, h, d, expected, i, bk) && expected <= expected' && i <= i'
    ensures Booked(k, ic, h, d, expected', i', bk)
  {
    hide E.Ledger, Backed, IsStart, Dated, Sourced;
    LedgerGrows(d, i, i', bk.data, bk.held);
  }

  lemma BackedNext(k: nat, ic: Option<Cipher>, h: seq<Dispatch>, d: DS.Dec, held: set<nat>, d': DS.Dec, held': set<nat>, start: nat)
    requires 2 <= k <= 64 && Backed(k, ic, h, d, held) && d.fence.generation <= d'.fence.generation
    requires forall s | s in d'.groups && s !in d.groups :: s == start
    requires forall s | s in d'.groups && s in held :: s in held'
    requires start in d'.groups && start !in d.groups ==>
               && start <= |h|
               && (Protected(k, ic, h, start) ==> TxAfter(k, h, start).generation <= d'.fence.generation + 1 || start in held')
    ensures Backed(k, ic, h, d', held')
  {
    hide Protected, TxAfter;
  }

  lemma BackedAt(k: nat, ic: Option<Cipher>, h: seq<Dispatch>, d: DS.Dec, held: set<nat>, s: nat)
    requires 2 <= k <= 64 && Backed(k, ic, h, d, held) && s in d.groups
    ensures s <= |h| && (Protected(k, ic, h, s) ==> TxAfter(k, h, s).generation <= d.fence.generation + 1 || s in held)
  {
  }

  // ---------- what a loss needs ----------

  /** Every frame that did not arrive is the only one missing from a group whose parity was sent and arrived. */
  ghost predicate Covered(k: nat, ic: Option<Cipher>, h: seq<Dispatch>, data: set<nat>, parity: set<nat>)
    requires 2 <= k <= 64
  {
    forall x | 1 <= x <= |h| && x !in data :: OnlyLoss(k, ic, h, data, parity, x)
  }

  ghost predicate OnlyLoss(k: nat, ic: Option<Cipher>, h: seq<Dispatch>, data: set<nat>, parity: set<nat>, x: nat)
    requires 2 <= k <= 64
  {
    var s := GroupStart(x, k);
    && Protected(k, ic, h, s) && s in parity
    && forall j | 0 <= j < k && s + j != x :: E.Has(data, s, j)
  }

  /** A rebuilt frame was the only loss of a group whose parity came in time. */
  lemma RebuiltLoss(k: nat, ic: Option<Cipher>, h: seq<Dispatch>, generation: nat, bk: Books, start: nat, x: nat)
    requires 2 <= k <= 64 && |h| <= U32_MAX && Dated(k, ic, h, generation, bk) && Rebuilt(x, start, k, bk.data, bk.held)
    ensures OnlyLoss(k, ic, h, bk.data, bk.timely, x)
  {
    hide TxAfter, GroupStart, ParityAt, IsStart;
    StartOfMember(start, x, k);
    var j := if x == start then 1 else 0;
    assert E.Has(bk.data, start, j);
    GenerationMonotone(k, h, start, start + j);
  }

  /** Nothing of a group whose parity came early has arrived. */
  lemma EarlyAlone(k: nat, ic: Option<Cipher>, h: seq<Dispatch>, generation: nat, bk: Books, s: nat)
    requires 2 <= k <= 64 && |h| <= U32_MAX && Dated(k, ic, h, generation, bk) && s in bk.held && s !in bk.timely
    ensures NoneIn(bk.data, s, k)
  {
    hide TxAfter, ParityAt, IsStart;
    forall j | 0 <= j < k ensures !E.Has(bk.data, s, j) {
      if E.Has(bk.data, s, j) { GenerationMonotone(k, h, s, s + j); }
    }
  }

  // ---------- what has arrived ----------

  /** The start that a parity record names. */
  function ParityStart(k: nat, r: Net.Record): Option<nat>
    requires k > 0
  {
    if r.sn == 0 && !IsMode(r) && ParseHeader(k, r.payload).Ok? then Some(ParseHeader(k, r.payload).value) else None
  }

  function HeardData(r: Net.Record): set<nat> {
    if r.sn > 0 then {r.sn} else {}
  }

  function HeardParity(k: nat, r: Net.Record): set<nat>
    requires k > 0
  {
    if ParityStart(k, r).Some? then {ParityStart(k, r).value} else {}
  }

  /** The record would push a group out of the full table. */
  predicate Evicts(d: DS.Dec, expected: nat, r: Net.Record)
    requires d.Sized()
  {
    if r.sn > 0 then DataEvicts(d, r.sn)
    else ParityStart(d.k, r).Some? && ParityEvicts(d, ParityStart(d.k, r).value, expected)
  }

  /** A parity record comes in time: at most one mode change is outstanding before its group. */
  ghost predicate InTime(k: nat, h: seq<Dispatch>, rx: Fence, r: Net.Record)
    requires k > 0
  {
    var start := ParityStart(k, r);
    start.Some? && start.value <= |h| && TxAfter(k, h, start.value).generation <= rx.generation + 1
  }

  ghost function HeardInTime(k: nat, h: seq<Dispatch>, rx: Fence, r: Net.Record): set<nat>
    requires k > 0
  {
    if InTime(k, h, rx, r) then HeardParity(k, r) else {}
  }

  // ---------- data ----------

  lemma DatedData(k: nat, ic: Option<Cipher>, h: seq<Dispatch>, generation: nat, bk: Books, sn: nat)
    requires 2 <= k <= 64 && Dated(k, ic, h, generation, bk) && 1 <= sn <= |h| && TxAfter(k, h, sn).generation <= generation
    ensures Dated(k, ic, h, generation, bk.(data := bk.data + {sn}))
  {
    hide TxAfter, Protected;
  }

  lemma DataBooked(k: nat, ic: Option<Cipher>, h: seq<Dispatch>, h': seq<Dispatch>, d: DS.Dec, r: Net.Record, expected: nat,
                   i: set<nat>, bk: Books)
    requires 2 <= k <= 64 && h <= h' && Sizes(h') && Good(k, ic, h, r) && r.sn > 0 && r.gen <= d.fence.generation
    requires Caught(k, h, d.fence)
    requires DS.Inv(d) && d.Sized() && DS.Structured(d) && d.k == k && !d.single && OnStarts(d)
    requires Booked(k, ic, h', d, expected, i, bk) && Passed(expected, i)
    requires Exempt(k, ic, h') <= i && !DataEvicts(d, r.sn)
    ensures var (d', out) := DS.OnData(d, r.sn, r.payload, Some(expected));
            var bk' := bk.(data := bk.data + {r.sn});
            && Booked(k, ic, h', d', expected, i + {r.sn} + DS.OutSet(out), bk')
            && (out.Some? ==> OnlyLoss(k, ic, h', bk'.data, bk'.timely, out.value.sn))
  {
    hide DS.OnData, DS.Inv, DS.Structured, OnStarts, E.Ledger, Passed, RetiredBehind, Backed, Exempt, DataEvicts, Protected,
      TxAfter, GroupStart, Caught, E.AllIn, IsStart, NonEmpty, DS.OutSet, Dated, Sourced, OnlyLoss, Rebuilt;
    var start := GroupStart(r.sn, k);
    ModeOfExtension(k, h, h', r.sn);
    SizesNonEmpty(h');
    if d.fence.Bypasses(r.sn) {
      if Protected(k, ic, h', start) { ProtectedOpen(k, ic, h, h', d.fence, r.sn); }
      ExemptIn(k, ic, h', i, start);
    }
    RecordNonEmpty(h, h', r.sn);
    DataLedger(d, r.sn, r.payload, expected, i, bk.data, bk.held);
    DataSourced(d, r.sn, r.payload, expected, bk.data, bk.held);
    DataKeepsSettings(d, r.sn, r.payload, Some(expected));
    GenerationMonotone(k, h', start, r.sn);
    var (d', out) := DS.OnData(d, r.sn, r.payload, Some(expected));
    BackedNext(k, ic, h', d, bk.held, d', bk.held, start);
    DatedData(k, ic, h', d.fence.generation, bk, r.sn);
    if out.Some? { RebuiltLoss(k, ic, h', d.fence.generation, bk.(data := bk.data + {r.sn}), start, out.value.sn); }
  }

  lemma SizesNonEmpty(h: seq<Dispatch>)
    requires Sizes(h)
    ensures NonEmpty(h) && |h| <= U32_MAX
  {
  }

  lemma RecordNonEmpty(h: seq<Dispatch>, h': seq<Dispatch>, sn: nat)
    requires h <= h' && Sizes(h') && 0 < sn <= |h|
    ensures |Nth(h, sn).data| > 0
  {
    assert h[sn - 1] == h'[sn - 1];
  }

  // ---------- parity ----------

  lemma ParityStartOf(k: nat, ic: Option<Cipher>, h: seq<Dispatch>, h': seq<Dispatch>, r: Net.Record) returns (start: nat)
    requires 2 <= k <= 64 && h <= h' && Sizes(h') && SoundCipher(ic) && Good(k, ic, h, r) && r.sn == 0 && !IsMode(r)
    ensures DecoderSafety.GenuineParity(r.payload, ic, k, start, Sent(h'))
    ensures ParityStart(k, r) == Some(start) && 0 < start <= |h| && Protected(k, ic, h', start)
  {
    hide ParityAt, ParityOf, IsMode, ParseHeader, MemberOf, IsStart, EmittedParity, DecoderSafety.GenuineParity;
    ParityRecordGenuine(k, ic, h, h', r.payload);
    start :| DecoderSafety.GenuineParity(r.payload, ic, k, start, Sent(h'));
    GenuineParses(k, ic, Sent(h'), r.payload, start);
    ParityProtected(k, ic, h, h', r.payload, start);
  }

  lemma GenuineParses(k: nat, ic: Option<Cipher>, sent: nat -> Frame, payload: Frame, start: nat)
    requires 2 <= k <= 64 && SoundCipher(ic) && DecoderSafety.GenuineParity(payload, ic, k, start, sent)
    ensures ParseHeader(k, payload) == Ok(start)
  {
    hide ParityOf, ParseHeader, MemberOf, IsStart, ParseBody;
    ParityParses(ic, sent, start, k);
  }

  /** The group that a parity record of the run names is protected. */
  lemma ParityProtected(k: nat, ic: Option<Cipher>, h: seq<Dispatch>, h': seq<Dispatch>, payload: Frame, start: nat)
    requires 2 <= k <= 64 && h <= h' && Sizes(h') && SoundCipher(ic) && EmittedParity(k, ic, h, payload)
    requires ParseHeader(k, payload) == Ok(start)
    ensures 0 < start <= |h| && Protected(k, ic, h', start)
  {
    hide ParityAt, ParityOf, ParseHeader, ParseBody, MemberOf, IsStart, Multipath, Sizes, NonEmpty;
    var e :| 0 < e <= |h| && ParityAt(k, ic, h, e) == Some(payload);
    SizesPrefix(h, h');
    SizesNonEmpty(h);
    SizesNonEmpty(h');
    ParityExactly(k, ic, h, e);
    var s := e - k + 1;
    StartPositive(s, k);
    MembersSized(h, s, k);
    ParityParses(ic, Sent(h), s, k);
    MultipathGrows(h, h', s, e + 1);
    ParityExactly(k, ic, h', e);
  }

  lemma MembersSized(h: seq<Dispatch>, start: nat, k: nat)
    requires Sizes(h) && 0 < start && start + k <= |h| + 1
    ensures forall j | 0 <= j < k :: 0 < |MemberOf(Sent(h), start, j)| <= U32_MAX
  {
  }

  lemma MultipathGrows(h: seq<Dispatch>, h': seq<Dispatch>, from: nat, to: nat)
    requires h <= h' && 0 < from <= to <= |h| + 1 && Multipath(h, from, to)
    ensures Multipath(h', from, to)
  {
    forall sn | from <= sn < to ensures 0 < sn <= |h'| && Nth(h', sn).paths >= 2 { assert Nth(h, sn).paths >= 2; }
  }

  lemma SizesPrefix(h: seq<Dispatch>, h': seq<Dispatch>)
    requires h <= h' && Sizes(h')
    ensures Sizes(h)
  {
    forall i | 0 <= i < |h| ensures 0 < |h[i].data| <= U32_MAX { assert h[i] == h'[i]; }
  }

  function Hold(bk: Books, start: nat, timely: bool): Books {
    Books(bk.data, bk.held + {start}, if timely then bk.timely + {start} else bk.timely)
  }

  lemma DatedParity(k: nat, ic: Option<Cipher>, h: seq<Dispatch>, generation: nat, bk: Books, start: nat)
    requires 2 <= k <= 64 && Dated(k, ic, h, generation, bk) && Protected(k, ic, h, start)
    ensures Dated(k, ic, h, generation, Hold(bk, start, TxAfter(k, h, start).generation <= generation + 1))
  {
    hide TxAfter, ParityAt, IsStart;
  }

  lemma ParityBooked(k: nat, ic: Option<Cipher>, h: seq<Dispatch>, h': seq<Dispatch>, d: DS.Dec, r: Net.Record, expected: nat,
                     i: set<nat>, bk: Books) returns (bk': Books)
    requires 2 <= k <= 64 && h <= h' && Sizes(h') && SoundCipher(ic) && Good(k, ic, h, r) && r.sn == 0 && !IsMode(r)
    requires DS.Inv(d) && d.Sized() && DS.Structured(d) && d.k == k && !d.single && OnStarts(d)
    requires Booked(k, ic, h', d, expected, i, bk) && Passed(expected, i) && !Evicts(d, expected, r)
    ensures bk'.data == bk.data && bk'.timely == bk.timely + HeardInTime(k, h, d.fence, r)
    ensures var (d', out) := DS.OnControl(d, ic, r.payload, Some(expected));
            && out.Ok? && Booked(k, ic, h', d', expected, i + DS.OutSet(out.value), bk')
            && (out.value.Some? ==> OnlyLoss(k, ic, h', bk'.data, bk'.timely, out.value.value.sn))
  {
    hide DS.OnParity, DS.Inv, DS.Structured, OnStarts, E.Ledger, Passed, RetiredBehind, Backed, ParityEvicts, Protected,
      TxAfter, E.AllIn, IsStart, DS.OutSet, ParityOf, IsMode, ParseHeader, Good, EmittedParity, MemberOf, Dated, Sourced, OnlyLoss,
      Rebuilt;
    var start := ParityStartOf(k, ic, h, h', r);
    ModeOfExtension(k, h, h', start);
    bk' := Hold(bk, start, TxAfter(k, h', start).generation <= d.fence.generation + 1);
    ParityLedger(d, ic, Sent(h'), start, expected, i, bk.data, bk.held);
    ParitySourced(d, ic, r.payload, start, expected, bk.data, bk.held);
    ParityKeepsSettings(d, ic, r.payload, Some(expected));
    var (d', out) := DS.OnParity(d, ic, r.payload, Some(expected));
    BackedNext(k, ic, h', d, bk.held, d', bk'.held, start);
    DatedParity(k, ic, h', d.fence.generation, bk, start);
    SizesNonEmpty(h');
    if out.value.Some? { RebuiltLoss(k, ic, h', d.fence.generation, bk', start, out.value.value.sn); }
  }

  // ---------- mode changes ----------

  /** Early parity in the new window is forgotten. */
  function Forget(bk: Books, rx: Fence): Books {
    bk.(held := set s | s in bk.held && (s in bk.timely || !rx.Bypasses(s)))
  }

  lemma DatedMode(k: nat, ic: Option<Cipher>, h: seq<Dispatch>, h': seq<Dispatch>, rx: Fence, bk: Books)
    requires 2 <= k <= 64 && h <= h' && |h'| <= U32_MAX && NonEmpty(h') && Caught(k, h, rx) && rx.generation > 0
    requires Dated(k, ic, h', rx.generation - 1, bk)
    ensures Dated(k, ic, h', rx.generation, Forget(bk, rx))
  {
    hide TxAfter, ParityAt, IsStart, Caught, NonEmpty;
    var bk' := Forget(bk, rx);
    forall s | s in bk'.held
      ensures Protected(k, ic, h', s) && (s in bk'.timely <==> TxAfter(k, h', s).generation <= rx.generation + 1)
    {
      if TxAfter(k, h', s).generation == rx.generation + 1 { EarlyDropped(k, ic, h, h', rx, s); }
    }
  }

  /** What the new window covers has been passed on, does not matter, or is early parity that nothing has arrived for. */
  lemma WindowSpares(k: nat, ic: Option<Cipher>, h: seq<Dispatch>, h': seq<Dispatch>, d: DS.Dec, rx: Fence, i: set<nat>, bk: Books,
                     s: nat)
    requires 2 <= k <= 64 && h <= h' && Sizes(h') && Caught(k, h, rx) && rx.generation == d.fence.generation + 1
    requires DS.Inv(d) && d.k == k && s in d.groups && rx.Bypasses(s)
    requires Backed(k, ic, h', d, bk.held) && Dated(k, ic, h', d.fence.generation, bk) && Exempt(k, ic, h') <= i
    ensures E.AllIn(i, s, k) || (NoneIn(bk.data, s, k) && s !in Forget(bk, rx).held)
  {
    hide DS.Inv, Backed, Exempt, Protected, TxAfter, GroupStart, Caught, E.AllIn, IsStart, NonEmpty, NoneIn;
    SizesNonEmpty(h');
    StoredStart(d, s);
    BackedAt(k, ic, h', d, bk.held, s);
    StartPositive(s, k);
    StartOfMember(s, s, k);
    if !Protected(k, ic, h', s) {
      ExemptIn(k, ic, h', i, s);
    } else {
      if TxAfter(k, h', s).generation <= rx.generation { ProtectedOpen(k, ic, h, h', rx, s); }
      EarlyAlone(k, ic, h', d.fence.generation, bk, s);
    }
  }

  lemma ModeApplied(k: nat, ic: Option<Cipher>, h: seq<Dispatch>, h': seq<Dispatch>, d: DS.Dec, c: Control, expected: nat,
                    i: set<nat>, bk: Books)
    requires 2 <= k <= 64 && h <= h' && Sizes(h') && Emitted(k, h, c) && Apply(d.fence, c) != d.fence
    requires Caught(k, h, Apply(d.fence, c)) && Apply(d.fence, c).generation == d.fence.generation + 1
    requires DS.Inv(d) && d.Sized() && d.k == k && OnStarts(d)
    requires Booked(k, ic, h', d, expected, i, bk) && Passed(expected, i) && Exempt(k, ic, h') <= i
    ensures Booked(k, ic, h', DS.OnMode(d, c, Some(expected)), expected, i, Forget(bk, Apply(d.fence, c)))
  {
    hide DS.OnMode, DS.Inv, E.Ledger, Passed, RetiredBehind, Backed, Exempt, TxAfter, Caught, E.AllIn, IsStart, NonEmpty, Apply,
      Emitted, Sizes, Dated, Sourced, NoneIn, ParityAt;
    var fence := Apply(d.fence, c);
    var bk' := Forget(bk, fence);
    ModeOnStarts(k, h, d.fence, c);
    forall s | s in d.groups && fence.Bypasses(s) ensures E.AllIn(i, s, k) || (NoneIn(bk.data, s, k) && s !in bk'.held) {
      WindowSpares(k, ic, h, h', d, fence, i, bk, s);
    }
    ModeLedger(d, c, expected, i, bk.data, bk.held, bk'.held);
    ModeSetsFence(d, c, Some(expected));
    ModeDrops(d, c, expected);
    var d' := DS.OnMode(d, c, Some(expected));
    BackedNext(k, ic, h', d, bk.held, d', bk'.held, 0);
    SourcedFewer(d, d', bk.data, bk.held, bk'.held);
    SizesNonEmpty(h');
    DatedMode(k, ic, h, h', fence, bk);
  }

  lemma ModeBooked(k: nat, ic: Option<Cipher>, h: seq<Dispatch>, h': seq<Dispatch>, d: DS.Dec, c: Control, expected: nat,
                   i: set<nat>, bk: Books) returns (bk': Books)
    requires 2 <= k <= 64 && h <= h' && Sizes(h') && Emitted(k, h, c)
    requires Caught(k, h, Apply(d.fence, c)) && Apply(d.fence, c).generation <= d.fence.generation + 1
    requires DS.Inv(d) && d.Sized() && d.k == k && OnStarts(d)
    requires Booked(k, ic, h', d, expected, i, bk) && Passed(expected, i) && Exempt(k, ic, h') <= i
    ensures bk'.data == bk.data && bk'.timely == bk.timely
    ensures Booked(k, ic, h', DS.OnMode(d, c, Some(expected)), expected, i, bk')
  {
    hide DS.Retire, DS.DropRange, DS.Inv, Booked, Passed, Exempt, Caught, Emitted, Sizes, OnStarts, Apply;
    if Apply(d.fence, c) == d.fence {
      bk' := bk;
    } else {
      ApplyRaises(d.fence, c);
      ModeApplied(k, ic, h, h', d, c, expected, i, bk);
      bk' := Forget(bk, Apply(d.fence, c));
    }
  }

  lemma ApplyRaises(f: Fence, c: Control)
    ensures Apply(f, c) != f ==> f.generation < Apply(f, c).generation
  {
  }
}
