/** The FEC decoder object: running XOR accumulators and bit masks, updated in place.

    Every entry point is proved against module DecoderSpec. The locked, batched and actor entry points
    are written out separately, as in the source, and meet the same specification. A 64-bit mask is
    modelled as the set of its bit positions. */
module FecDecoder {
  import opened Bytes
  import opened Xor
  import opened Parity
  import opened FecMode
  import opened DecoderSpec
  import opened DecoderSafety

  datatype FecGroupState = FecGroupState(
    k: nat,
    lens: seq<nat>,
    gotMask: set<nat>,
    acc: seq<byte>,
    parity: Option<Frame>)

  const EMPTY_STATE := FecGroupState(0, [], {}, [], None)

  /** `acc` is the zero-extended XOR of exactly the received members. */
  ghost predicate Folds(acc: seq<byte>, members: map<nat, Frame>, k: nat) {
    forall i: nat :: At(acc, i) == FoldAt(members, k, i)
  }

  ghost predicate Tracks(g: FecGroupState, members: map<nat, Frame>, k: nat) {
    && g.gotMask == members.Keys
    && Folds(g.acc, members, k)
    && (if g.parity.Some? then g.k == k && |g.lens| == k else g.k == 0)
  }

  ghost function Meaning(g: FecGroupState, members: map<nat, Frame>): Group {
    Group(members, if g.parity.Some? then Some(Held(g.lens, g.parity.value)) else None)
  }

  // ---------- the group table ----------

  ghost predicate TracksAll(groups: map<nat, FecGroupState>, members: map<nat, map<nat, Frame>>, k: nat) {
    && members.Keys == groups.Keys
    && forall s | s in groups :: Tracks(groups[s], members[s], k)
  }

  ghost function MeaningOf(groups: map<nat, FecGroupState>, members: map<nat, map<nat, Frame>>): map<nat, Group> {
    map s | s in groups && s in members :: Meaning(groups[s], members[s])
  }

  lemma MeaningKeys(groups: map<nat, FecGroupState>, members: map<nat, map<nat, Frame>>, k: nat)
    requires TracksAll(groups, members, k)
    ensures MeaningOf(groups, members).Keys == groups.Keys
    ensures members.Keys == groups.Keys
    ensures |MeaningOf(groups, members)| == |groups|
  {
    assert MeaningOf(groups, members).Keys == groups.Keys;
  }

  lemma MeaningAt(groups: map<nat, FecGroupState>, members: map<nat, map<nat, Frame>>, k: nat, s: nat)
    requires TracksAll(groups, members, k) && s in groups
    ensures s in members && s in MeaningOf(groups, members)
    ensures Tracks(groups[s], members[s], k)
    ensures MeaningOf(groups, members)[s] == Meaning(groups[s], members[s])
  {
  }

  lemma MeaningPut(groups: map<nat, FecGroupState>, members: map<nat, map<nat, Frame>>, k: nat,
                   s: nat, g: FecGroupState, m: map<nat, Frame>)
    requires TracksAll(groups, members, k) && Tracks(g, m, k)
    ensures TracksAll(groups[s := g], members[s := m], k)
    ensures MeaningOf(groups[s := g], members[s := m]) == MeaningOf(groups, members)[s := Meaning(g, m)]
  {
  }

  lemma MeaningRemove(groups: map<nat, FecGroupState>, members: map<nat, map<nat, Frame>>, k: nat, doomed: set<nat>)
    requires TracksAll(groups, members, k)
    ensures TracksAll(groups - doomed, members - doomed, k)
    ensures MeaningOf(groups - doomed, members - doomed) == MeaningOf(groups, members) - doomed
  {
  }

  lemma RemoveBelow(groups: map<nat, FecGroupState>, members: map<nat, map<nat, Frame>>, k: nat,
                    boundary: nat, doomed: set<nat>)
    requires TracksAll(groups, members, k) && doomed == set s | s in groups && s < boundary
    ensures TracksAll(groups - doomed, members - doomed, k)
    ensures MeaningOf(groups - doomed, members - doomed) == KeepFrom(MeaningOf(groups, members), boundary)
  {
    MeaningRemove(groups, members, k, doomed);
  }

  lemma RemoveRange(groups: map<nat, FecGroupState>, members: map<nat, map<nat, Frame>>, k: nat,
                    from: nat, until: nat, doomed: set<nat>)
    requires TracksAll(groups, members, k)
    requires doomed == set s | s in groups && s >= from && (until == 0 || s < until)
    ensures TracksAll(groups - doomed, members - doomed, k)
    ensures MeaningOf(groups - doomed, members - doomed) == DropRange(MeaningOf(groups, members), from, until)
  {
    MeaningRemove(groups, members, k, doomed);
  }

  lemma NewStateTracks(k: nat)
    ensures Tracks(EMPTY_STATE, map[], k) && Meaning(EMPTY_STATE, map[]) == NEW_GROUP
  {
    FoldsNothing(k);
  }

  lemma FoldsNothing(k: nat)
    ensures Folds([], map[], k)
  {
    forall i: nat ensures At([], i) == FoldAt(map[], k, i) { FoldNothing(map[], k, i); }
  }

  /** XORing a new member into the extended accumulator keeps it exact. */
  lemma FoldsNext(acc: seq<byte>, members: map<nat, Frame>, k: nat, j: nat, data: Frame)
    requires Folds(acc, members, k) && j < k && j !in members
    ensures Folds(XorOnto(Extend(acc, |data|), data), members[j := data], k)
  {
    hide XorByte, FoldAt, Extend;
    var acc' := XorOnto(Extend(acc, |data|), data);
    forall i: nat ensures At(acc', i) == FoldAt(members[j := data], k, i) {
      FoldInsert(members, k, j, data, i);
      if i >= |acc'| { XorByteZero(0); }
    }
  }

  method XorSeq(acc: seq<byte>, data: seq<byte>) returns (r: seq<byte>)
    requires |data| <= |acc|
    ensures r == XorOnto(acc, data)
  {
    hide XorOnto;
    var buf := new byte[|acc|](i requires 0 <= i < |acc| => acc[i]);
    assert buf[..] == acc;
    XorInto(buf, data);
    r := buf[..];
  }

  /** Rebuilds member `j`: a zeroed buffer of its length, then parity XOR accumulator. */
  method RebuildFrame(g: FecGroupState, ghost members: map<nat, Frame>, k: nat, j: nat) returns (data: Frame)
    requires Tracks(g, members, k) && g.parity.Some? && j < k
    ensures data == Rebuild(Meaning(g, members), k, j)
  {
    hide XorByte, FoldAt;
    var n := g.lens[j];
    var acc := Extend(g.acc, n);
    var out := new byte[n](i => 0);
    XorCombine(out, g.parity.value, acc);
    data := out[..];
    forall i | 0 <= i < n ensures data[i] == Rebuild(Meaning(g, members), k, j)[i] {
      assert At(g.acc, i) == FoldAt(members, k, i);
    }
  }

  lemma EntryCases(groups: map<nat, Group>, start: nat)
    ensures start in groups ==> Entry(groups, start) == groups
    ensures start !in groups && |groups| < MAX_PENDING_GROUPS ==>
              Entry(groups, start) == groups[start := NEW_GROUP]
    ensures start !in groups && |groups| >= MAX_PENDING_GROUPS ==>
              Entry(groups, start) == (groups - {LeastOf(groups.Keys)})[start := NEW_GROUP]
  {
  }

  method MinKey(keys: set<nat>) returns (s: nat)
    requires keys != {}
    ensures s == LeastOf(keys)
  {
    s :| s in keys;
    var rest := keys - {s};
    while rest != {}
      invariant s in keys && rest <= keys
      invariant forall t | t in keys && t !in rest :: s <= t
      decreases |rest|
    {
      var x :| x in rest;
      if x < s { s := x; }
      rest := rest - {x};
    }
  }

  /** `entry`: evicts the oldest group when the table is full, then opens the group if it is new. */
  method OpenEntryIn(groups: map<nat, FecGroupState>, ghost members: map<nat, map<nat, Frame>>, ghost k: nat, start: nat)
    returns (table: map<nat, FecGroupState>, ghost seen: map<nat, map<nat, Frame>>)
    requires TracksAll(groups, members, k)
    ensures TracksAll(table, seen, k) && start in table
    ensures MeaningOf(table, seen) == Entry(MeaningOf(groups, members), start)
  {
    hide Tracks, TracksAll, MeaningOf, LeastOf, Meaning, Entry, Evict;
    table, seen := groups, members;
    MeaningKeys(table, seen, k);
    EntryCases(MeaningOf(table, seen), start);
    if |table| >= MAX_PENDING_GROUPS && start !in table {
      var oldest := MinKey(table.Keys);
      MeaningRemove(table, seen, k, {oldest});
      table := table - {oldest};
      seen := seen - {oldest};
    }
    if start !in table {
      NewStateTracks(k);
      MeaningPut(table, seen, k, start, EMPTY_STATE, map[]);
      table := table[start := EMPTY_STATE];
      seen := seen[start := map[]];
    }
  }

  /** The scan of `try_recover`: stops at the second missing member. */
  method ScanMissing(gotMask: set<nat>, k: nat, ghost g: Group) returns (atMostOne: bool, missing: Option<nat>)
    requires gotMask == g.members.Keys
    ensures atMostOne <==> |Missing(g, k)| <= 1
    ensures atMostOne && missing.None? ==> Missing(g, k) == {}
    ensures atMostOne && missing.Some? ==> Missing(g, k) == {missing.value}
  {
    missing := None;
    for i := 0 to k
      invariant missing.None? ==> forall j | 0 <= j < i :: j in gotMask
      invariant missing.Some? ==> missing.value < i && missing.value !in gotMask
      invariant missing.Some? ==> forall j | 0 <= j < i && j != missing.value :: j in gotMask
    {
      if i !in gotMask {
        if missing.Some? {
          assert {missing.value, i} <= Missing(g, k);
          SubsetSize({missing.value, i}, Missing(g, k));
          return false, missing;
        }
        missing := Some(i);
      }
    }
    if missing.Some? {
      assert Missing(g, k) == {missing.value};
    } else {
      assert Missing(g, k) == {};
    }
    return true, missing;
  }

  /** The members a finished group still lacks. */
  method CountMissing(gotMask: set<nat>, k: nat) returns (n: nat)
    ensures n == |set j: nat | j < k && j !in gotMask|
  {
    n := 0;
    ghost var seen: set<nat> := {};
    for i := 0 to k
      invariant seen == (set j: nat | j < i && j !in gotMask) && n == |seen|
    {
      if i !in gotMask {
        n := n + 1;
        seen := seen + {i};
      }
    }
  }

  lemma LackedIndex(g: Group, k: nat, j: nat)
    requires Missing(g, k) == {j}
    ensures j < k && |Missing(g, k)| == 1
  {
    assert j in Missing(g, k);
  }

  lemma LackedNow(g: Group, k: nat, missing: Option<nat>, gotMask: set<nat>)
    requires Missing(g, k) == (if missing.Some? then {missing.value} else {})
    requires gotMask == g.members.Keys + (if missing.Some? then {missing.value} else {})
    ensures |set j: nat | j < k && j !in gotMask| == 0
    ensures missing.Some? ==> |Missing(g, k) - {missing.value}| == 0
  {
    assert (set j: nat | j < k && j !in gotMask) == Missing(g, k) - gotMask;
    assert Missing(g, k) - gotMask == {};
  }

  /** The decision of `try_recover` on one group: finished or not, and with which rebuilt member. */
  method Resolve(g: FecGroupState, ghost m: map<nat, Frame>, k: nat)
    returns (finished: bool, missing: Option<nat>, data: Frame, stillMissing: nat)
    requires Tracks(g, m, k) && k > 0
    ensures finished <==> g.parity.Some? && |Missing(Meaning(g, m), k)| <= 1
    ensures finished ==> Missing(Meaning(g, m), k) == (if missing.Some? then {missing.value} else {})
    ensures finished && missing.Some? ==> missing.value < k && data == Rebuild(Meaning(g, m), k, missing.value)
    ensures finished ==> stillMissing == 0
  {
    hide Rebuild, Missing, Folds;
    finished, missing, data, stillMissing := false, None, [], 0;
    if g.k == 0 {
      return;
    }
    if g.parity.None? {
      return;
    }
    finished, missing := ScanMissing(g.gotMask, g.k, Meaning(g, m));
    if !finished {
      return;
    }
    var gotMask := g.gotMask;
    if missing.Some? {
      LackedIndex(Meaning(g, m), k, missing.value);
      data := RebuildFrame(g, m, k, missing.value);
      gotMask := gotMask + {missing.value};
    }
    stillMissing := CountMissing(gotMask, g.k);
    LackedNow(Meaning(g, m), k, missing, gotMask);
  }

  predicate Recoverable(d: Dec, start: nat) {
    && d.Sized()
    && (start in d.groups && d.groups[start].parity.Some? ==> |d.groups[start].parity.value.lens| == d.k)
  }

  lemma TracksShape(g: FecGroupState, m: map<nat, Frame>, k: nat)
    requires Tracks(g, m, k)
    ensures Meaning(g, m).parity.Some? <==> g.parity.Some?
    ensures g.parity.Some? ==> |Meaning(g, m).parity.value.lens| == k
    ensures Meaning(g, m).members == m && g.gotMask == m.Keys
  {
  }

  function Finish(d: Dec, start: nat): Dec
    requires d.Sized()
  {
    d.(groups := d.groups - {start}, done := MarkDone(d.done, start, d.k))
  }

  lemma RecoverCases(d: Dec, start: nat)
    requires Recoverable(d, start)
    ensures start !in d.groups || d.groups[start].parity.None? ==> DecoderSpec.TryRecover(d, start) == (d, None)
    ensures start in d.groups && d.groups[start].parity.Some? ==>
              var g, r := d.groups[start], DecoderSpec.TryRecover(d, start);
              && (|Missing(g, d.k)| > 1 ==> r == (d, None))
              && (Missing(g, d.k) == {} ==> r == (Finish(d, start), None))
              && forall j | Missing(g, d.k) == {j} && j < d.k ::
                   && r.0 == Finish(d, start).(recovered := d.recovered + 1)
                   && r.1 == Some(Recovered(start + j, Rebuild(g, d.k, j)))
  {
    hide Rebuild, MarkDone;
    if start in d.groups && d.groups[start].parity.Some? {
      var g := d.groups[start];
      forall j | Missing(g, d.k) == {j} && j < d.k
        ensures Only(Missing(g, d.k)) == j && |Missing(g, d.k) - {j}| == 0 && |Missing(g, d.k)| == 1
      {
        assert j in Missing(g, d.k);
        assert Missing(g, d.k) - {j} == {};
      }
    }
  }

  /** Counts one member into a group state; the XOR is skipped when the group becomes complete. */
  method AddMember(g: FecGroupState, ghost m: map<nat, Frame>, k: nat, bit: nat, frame: Frame, fullMask: set<nat>)
    returns (g': FecGroupState, complete: bool)
    requires Tracks(g, m, k) && bit < k && bit !in m && fullMask == Below(k) && m.Keys <= fullMask
    ensures complete <==> Missing(Meaning(g, m).(members := m[bit := frame]), k) == {}
    ensures !complete ==> Tracks(g', m[bit := frame], k)
    ensures !complete ==> Meaning(g', m[bit := frame]) == Meaning(g, m).(members := m[bit := frame])
  {
    hide Folds, XorOnto;
    g' := g.(gotMask := g.gotMask + {bit});
    complete := g'.gotMask == fullMask;
    ghost var after := Meaning(g, m).(members := m[bit := frame]);
    assert g'.gotMask == after.members.Keys;
    assert Missing(after, k) == fullMask - g'.gotMask;
    if !complete {
      var acc := g'.acc;
      if |frame| > |acc| {
        acc := Extend(acc, |frame|);
      }
      FoldsNext(g.acc, m, k, bit, frame);
      acc := XorSeq(acc, frame);
      g' := g'.(acc := acc);
    }
  }

  lemma IndicesBelow(g: Group, k: nat)
    requires GroupOk(g, k)
    ensures g.members.Keys <= Below(k)
  {
  }

  datatype Absorbed = Duplicate | Complete | Partial

  /** The group table after one data frame, before any recovery. */
  ghost function Absorption(groups: map<nat, Group>, start: nat, bit: nat, frame: Frame, k: nat)
    : (map<nat, Group>, Absorbed)
  {
    var table := Entry(groups, start);
    var g := table[start];
    var g' := g.(members := g.members[bit := frame]);
    if bit in g.members then (table, Duplicate)
    else if Missing(g', k) == {} then (table - {start}, Complete)
    else (table[start := g'], Partial)
  }

  lemma AdmitCases(d: Dec, sn: nat, frame: Frame)
    requires d.Sized() && Structured(d) && sn > 0
    ensures var start := GroupStart(sn, d.k);
            if IsDone(d.done, start, d.k) then Admit(d, sn, frame) == (d, None)
            else
              var (table, absorbed) := Absorption(d.groups, start, sn - start, frame, d.k);
              match absorbed
              case Duplicate => Admit(d, sn, frame) == (d.(groups := table), None)
              case Complete =>
                Admit(d, sn, frame) == (d.(groups := table, done := MarkDone(d.done, start, d.k)), None)
              case Partial =>
                && Recoverable(d.(groups := table), start)
                && Admit(d, sn, frame) == DecoderSpec.TryRecover(d.(groups := table), start)
  {
    hide MarkDone, DecoderSpec.TryRecover, Entry, IsStart, GroupStart;
  }

  lemma AdmitKeepsStructured(d: Dec, sn: nat, frame: Frame)
    requires d.Sized() && Inv(d) && Structured(d) && sn > 0
    ensures Structured(Admit(d, sn, frame).0)
  {
    hide Admit;
    AdmitKeepsInv(d, sn, frame);
    InvStructured(Admit(d, sn, frame).0);
  }

  /** The in-place update of the group table by one data frame. */
  method Absorb(groups: map<nat, FecGroupState>, ghost members: map<nat, map<nat, Frame>>, k: nat,
                start: nat, bit: nat, frame: Frame, fullMask: set<nat>)
    returns (table: map<nat, FecGroupState>, ghost seen: map<nat, map<nat, Frame>>, absorbed: Absorbed)
    requires TracksAll(groups, members, k) && bit < k && fullMask == Below(k)
    requires StoredOk(start, Entry(MeaningOf(groups, members), start)[start], k)
    ensures TracksAll(table, seen, k)
    ensures (MeaningOf(table, seen), absorbed) == Absorption(MeaningOf(groups, members), start, bit, frame, k)
  {
    hide TracksAll, Tracks, Meaning, MeaningOf, Below, Missing, Entry, GroupOk, StoredOk;
    table, seen := OpenEntryIn(groups, members, k, start);
    MeaningAt(table, seen, k, start);
    var g := table[start];
    ghost var m := seen[start];
    TracksShape(g, m, k);
    StoredParts(start, Meaning(g, m), k);
    IndicesBelow(Meaning(g, m), k);
    if bit in g.gotMask {
      return table, seen, Duplicate;
    }
    var g', complete := AddMember(g, m, k, bit, frame, fullMask);
    if complete {
      MeaningRemove(table, seen, k, {start});
      return table - {start}, seen - {start}, Complete;
    }
    MeaningPut(table, seen, k, start, g', m[bit := frame]);
    return table[start := g'], seen[start := m[bit := frame]], Partial;
  }

  lemma {:induction false} DecodeLensAt(s: seq<byte>, i: nat)
    requires 4 * i + 4 <= |s|
    ensures DecodeLens(s)[i] == DecodeBE(s[4 * i..4 * i + 4])
  {
    if i == 0 {
    } else {
      DecodeLensAt(s[4..], i - 1);
      assert s[4..][4 * (i - 1)..4 * (i - 1) + 4] == s[4 * i..4 * i + 4];
    }
  }

  lemma MaxOfNext(lens: seq<nat>, i: nat)
    requires i < |lens|
    ensures MaxOf(lens[..i + 1]) == Max(MaxOf(lens[..i]), lens[i])
  {
    assert lens[..i + 1][..i] == lens[..i];
  }

  /** The length table loop of `on_parity_strict`: every member must fit the rest of the record. */
  method ReadLens(k: nat, tag: nat, table: seq<byte>, room: nat) returns (ok: bool, lens: seq<nat>, maxLen: nat)
    requires |table| == 4 * k
    ensures ok <==> forall j | 0 <= j < k :: DecodeLens(table)[j] + tag <= room
    ensures ok ==> lens == DecodeLens(table) && maxLen == MaxOf(lens)
  {
    hide DecodeLens, MaxOf, DecodeBE;
    ghost var all := DecodeLens(table);
    lens, maxLen := [], 0;
    MaxOfNothing();
    for i := 0 to k
      invariant lens == all[..i] && maxLen == MaxOf(lens)
      invariant forall j | 0 <= j < i :: all[j] + tag <= room
    {
      var l := DecodeBE(table[4 * i..4 * i + 4]);
      DecodeLensAt(table, i);
      if l + tag > room {
        return false, [], 0;
      }
      MaxOfNext(all, i);
      lens := lens + [l];
      maxLen := if maxLen < l then l else maxLen;
    }
    assert lens == all;
    return true, lens, maxLen;
  }

  /** The descriptor and the XOR body behind it. */
  method ReadBody(k: nat, ic: Option<Cipher>, payload: Frame, start: nat) returns (r: Result<Held>)
    ensures r == ParseBody(k, ic, payload, start)
  {
    hide DecodeLens, MaxOf;
    var desc := 6 + 4 * k;
    var tag := TagLen(ic);
    if |payload| < desc + tag {
      return Err("truncated");
    }
    var rest := payload[desc..];
    var ok, lens, maxLen := ReadLens(k, tag, payload[6..desc], |rest|);
    if !ok {
      return Err("member length");
    }
    FitsBody(lens, tag, |rest|);
    var region := rest[..maxLen + tag];
    if ic.None? {
      return Ok(Held(lens, region));
    }
    var plain := ic.value.open(region, start, maxLen + tag);
    if plain.None? {
      return Err("AEAD failure");
    }
    return Ok(Held(lens, plain.value));
  }

  lemma MaxOfNothing()
    ensures MaxOf([]) == 0
  {
  }

  lemma ModeBoundaryKeepsInv(d: Dec, c: Control)
    requires Inv(d)
    ensures var fence := Apply(d.fence, c);
            && Inv(d.(fence := fence))
            && Inv(d.(fence := fence, cleanup := Max(d.cleanup, fence.from),
                      groups := DropRange(d.groups, fence.from, fence.until)))
  {
    var fence := Apply(d.fence, c);
    SubsetSize(DropRange(d.groups, fence.from, fence.until).Keys, d.groups.Keys);
  }

  /** Data frames one at a time. */
  ghost function OnDataEach(d: Dec, frames: seq<(nat, Frame)>, progress: Option<nat>): (r: (Dec, seq<Recovered>))
    requires Inv(d)
    ensures Inv(r.0) && Structured(r.0)
    decreases |frames|
  {
    InvStructured(d);
    if |frames| == 0 then (d, [])
    else
      var (d1, outs) := OnDataEach(d, frames[..|frames| - 1], progress);
      var (sn, frame) := frames[|frames| - 1];
      OnDataKeepsInv(d1, sn, frame, progress);
      var (d2, out) := DecoderSpec.OnData(d1, sn, frame, progress);
      InvStructured(d2);
      (d2, if out.Some? then outs + [out.value] else outs)
  }

  lemma OnDataKeepsInv(d: Dec, sn: nat, frame: Frame, progress: Option<nat>)
    requires Inv(d)
    ensures d.Sized() && Structured(d) && Inv(DecoderSpec.OnData(d, sn, frame, progress).0)
  {
    hide Admit, Retire;
    InvStructured(d);
    RetireKeepsInv(d, progress);
    if sn > 0 { AdmitKeepsInv(d, sn, frame); }
  }

  lemma {:induction false} SingleIgnoresAll(d: Dec, frames: seq<(nat, Frame)>, progress: Option<nat>)
    requires Inv(d) && (d.single || |frames| == 0)
    ensures OnDataEach(d, frames, progress) == (d, [])
    decreases |frames|
  {
    hide Inv;
    if |frames| == 0 {
    } else {
      SingleIgnoresAll(d, frames[..|frames| - 1], progress);
    }
  }

  /** The group table after a parity record was stored with its group; nothing for a second record. */
  ghost function Holding(groups: map<nat, Group>, start: nat, held: Held): (map<nat, Group>, bool) {
    var table := Entry(groups, start);
    if table[start].parity.Some? then (table, false)
    else (table[start := table[start].(parity := Some(held))], true)
  }

  lemma OnParityCases(d: Dec, ic: Option<Cipher>, payload: Frame, progress: Option<nat>)
    requires d.Sized() && Structured(d)
    ensures d.single ==> OnParity(d, ic, payload, progress) == (d, Ok(None))
    ensures !d.single ==>
              var header := ParseHeader(d.k, payload);
              if header.Err? then OnParity(d, ic, payload, progress) == (d, Err(header.message))
              else
                var d1 := Retire(d, progress);
                var start := header.value;
                var body := ParseBody(d.k, ic, payload, start);
                && d1.done == d.done && d1.Sized() && d1.k == d.k
                && if IsRetired(d1, start) then OnParity(d, ic, payload, progress) == (d1, Ok(None))
                   else if body.Err? then OnParity(d, ic, payload, progress) == (d1, Err(body.message))
                   else if IsDone(d1.done, start, d.k) then OnParity(d, ic, payload, progress) == (d1, Ok(None))
                   else
                     var (table, stored) := Holding(d1.groups, start, body.value);
                     if !stored then OnParity(d, ic, payload, progress) == (d1.(groups := table), Ok(None))
                     else
                       && Recoverable(d1.(groups := table), start)
                       && var (d2, out) := DecoderSpec.TryRecover(d1.(groups := table), start);
                          OnParity(d, ic, payload, progress) == (Retire(d2, progress), Ok(out))
  {
    hide MarkDone, DecoderSpec.TryRecover, Entry, IsStart, ParseHeader, ParseBody;
  }

  /** Storing a parity record and recovering keeps the invariant. */
  lemma HeldKeepsInv(d: Dec, start: nat, held: Held, payload: Frame)
    requires d.Sized() && Inv(d) && |held.lens| == d.k && ParseHeader(d.k, payload) == Ok(start)
    ensures var (table, stored) := Holding(d.groups, start, held);
            && (!stored ==> Inv(d.(groups := table)))
            && Recoverable(d.(groups := table), start)
            && (stored ==> Inv(DecoderSpec.TryRecover(d.(groups := table), start).0))
  {
    hide Inv, DecoderSpec.TryRecover, Entry, StoredOk, IsStart, Missing, ParseHeader;
    HeaderIsStart(d.k, payload);
    EntryStored(d, start);
    var g := Entry(d.groups, start)[start];
    StoredParts(start, g, d.k);
    ParityKeepsGroupOk(g, d.k, held);
    PutKeepsInv(d, start, g.(parity := Some(held)));
  }

  method HoldParity(groups: map<nat, FecGroupState>, ghost members: map<nat, map<nat, Frame>>, k: nat,
                    start: nat, held: Held)
    returns (table: map<nat, FecGroupState>, ghost seen: map<nat, map<nat, Frame>>, stored: bool)
    requires TracksAll(groups, members, k) && |held.lens| == k
    ensures TracksAll(table, seen, k)
    ensures (MeaningOf(table, seen), stored) == Holding(MeaningOf(groups, members), start, held)
  {
    hide TracksAll, MeaningOf, Entry, Folds;
    table, seen := OpenEntryIn(groups, members, k, start);
    MeaningAt(table, seen, k, start);
    var g := table[start];
    if g.parity.Some? {
      return table, seen, false;
    }
    var g' := g.(k := k, lens := held.lens, parity := Some(held.body));
    MeaningPut(table, seen, k, start, g', seen[start]);
    return table[start := g'], seen[start := seen[start]], true;
  }

  lemma EmptyTable(k: nat)
    ensures TracksAll(map[], map[], k) && MeaningOf(map[], map[]) == map[]
  {
  }

  lemma ResetKeepsInv(d: Dec)
    requires Inv(d)
    ensures Inv(ResetState(d)) && Structured(ResetState(d))
  {
  }

  class FecDecoder {
    const k: nat
    const ic: Option<Cipher>
    const fullMask: set<nat>
    const fence: FecRxFenceState
    var staticSingle: bool
    var cleanupBefore: nat
    var retiredBefore: nat
    var groups: map<nat, FecGroupState>
    var done: seq<nat>
    var recovered: nat
    var lost: nat
    ghost var members: map<nat, map<nat, Frame>>

    ghost predicate Consistent()
      reads this, fence
    {
      && 2 <= k <= 64 && |done| == DONE_CACHE
      && fullMask == Below(k)
      && fence.Valid()
      && TracksAll(groups, members, k)
    }

    ghost predicate Valid()
      reads this, fence
    {
      Consistent() && Inv(Model()) && Structured(Model())
    }

    ghost function Model(): Dec
      reads this, fence
    {
      Dec(k, staticSingle, fence.Model(), cleanupBefore, retiredBefore, MeaningOf(groups, members), done,
          recovered, lost)
    }

    constructor (groupSize: nat, cipher: Option<Cipher>)
      ensures Valid() && Model() == NewDec(groupSize) && ic == cipher
      ensures fresh(fence)
    {
      k, ic := ClampGroup(groupSize), cipher;
      fullMask := Below(ClampGroup(groupSize));
      fence := new FecRxFenceState();
      staticSingle, cleanupBefore, retiredBefore := false, 0, 0;
      groups, members := map[], map[];
      done := seq(DONE_CACHE, _ => 0);
      recovered, lost := 0, 0;
    }

    /** `try_recover`. */
    method TryRecover(start: nat) returns (out: Option<Recovered>)
      requires Consistent()
      modifies this`groups, this`members, this`done, this`recovered, this`lost
      ensures Consistent()
      ensures Recoverable(old(Model()), start)
      ensures (Model(), out) == DecoderSpec.TryRecover(old(Model()), start)
    {
      hide TracksAll, Tracks, Meaning, MeaningOf, Below, Rebuild, Missing, MarkDone, DecoderSpec.TryRecover;
      MeaningKeys(groups, members, k);
      if start !in groups {
        RecoverCases(Model(), start);
        return None;
      }
      MeaningAt(groups, members, k, start);
      TracksShape(groups[start], members[start], k);
      RecoverCases(Model(), start);
      var finished, missing, data, stillMissing := Resolve(groups[start], members[start], k);
      if !finished {
        return None;
      }
      MeaningRemove(groups, members, k, {start});
      groups := groups - {start};
      members := members - {start};
      lost := lost + stillMissing;
      done := MarkDone(done, start, k);
      if missing.Some? {
        recovered := recovered + 1;
        return Some(Recovered(start + missing.value, data));
      }
      return None;
    }

    /** `on_data_locked`. */
    method OnDataLocked(sn: nat, frame: Frame) returns (out: Option<Recovered>)
      requires Valid() && sn > 0
      modifies this`groups, this`members, this`done, this`recovered, this`lost
      ensures Valid()
      ensures (Model(), out) == Admit(old(Model()), sn, frame)
    {
      hide TracksAll, MeaningOf, Below, MarkDone, DecoderSpec.TryRecover, Entry, Inv, Structured, IsStart, IsDone,
        GroupStart, Admit, Absorption, StoredOk, Lacking, GroupOk, ClampGroup;
      ghost var d := Model();
      AdmitKeepsInv(d, sn, frame);
      AdmitKeepsStructured(d, sn, frame);
      AdmitCases(d, sn, frame);
      var start := GroupStart(sn, k);
      if IsDone(done, start, k) {
        return None;
      }
      EntryStored(d, start);
      ghost var seen;
      var absorbed;
      groups, seen, absorbed := Absorb(groups, members, k, start, sn - start, frame, fullMask);
      members := seen;
      if absorbed.Duplicate? {
        return None;
      }
      if absorbed.Complete? {
        done := MarkDone(done, start, k);
        return None;
      }
      out := TryRecover(start);
    }

    // ---------- retirement and mode controls ----------

    /** `maybe_retire_old_groups_locked`: `progress` is what the reorder callback reports, if installed. */
    method MaybeRetireOldGroups(progress: Option<nat>)
      requires Valid()
      modifies this`retiredBefore, this`groups, this`members
      ensures Valid() && Model() == Retire(old(Model()), progress)
    {
      hide TracksAll, MeaningOf, Below, Inv, Structured, KeepFrom;
      RetireKeepsInv(Model(), progress);
      InvStructured(Retire(Model(), progress));
      var boundary := cleanupBefore;
      if boundary == 0 || retiredBefore >= boundary {
        return;
      }
      if progress.None? {
        return;
      }
      var expected := progress.value;
      if expected == 0 || expected < boundary {
        return;
      }
      retiredBefore := boundary;
      var doomed := set s | s in groups && s < boundary;
      RemoveBelow(groups, members, k, boundary, doomed);
      groups := groups - doomed;
      members := members - doomed;
    }

    /** `maybe_retire_old_groups_actor`. */
    method MaybeRetireOldGroupsActor(expected: nat)
      requires Valid()
      modifies this`retiredBefore, this`groups, this`members
      ensures Valid() && Model() == Retire(old(Model()), Some(expected))
    {
      hide TracksAll, MeaningOf, Below, Inv, Structured, KeepFrom;
      RetireKeepsInv(Model(), Some(expected));
      InvStructured(Retire(Model(), Some(expected)));
      var boundary := cleanupBefore;
      if boundary == 0 || retiredBefore >= boundary {
        return;
      }
      if expected == 0 || expected < boundary {
        return;
      }
      retiredBefore := boundary;
      var doomed := set s | s in groups && s < boundary;
      RemoveBelow(groups, members, k, boundary, doomed);
      groups := groups - doomed;
      members := members - doomed;
    }

    /** `cleanup_by_reorder_progress`: the same, with an early exit before the lock. */
    method CleanupByReorderProgress(progress: Option<nat>)
      requires Valid()
      modifies this`retiredBefore, this`groups, this`members
      ensures Valid() && Model() == Retire(old(Model()), progress)
    {
      var boundary := cleanupBefore;
      if boundary == 0 || retiredBefore >= boundary {
        return;
      }
      MaybeRetireOldGroups(progress);
    }

    /** `drop_groups_in_range`. */
    method DropGroupsInRange(from: nat, until: nat)
      requires Consistent()
      modifies this`groups, this`members
      ensures Consistent()
      ensures MeaningOf(groups, members)
           == if from == 0 then old(MeaningOf(groups, members)) else DropRange(old(MeaningOf(groups, members)), from, until)
    {
      hide TracksAll, MeaningOf, Below, DropRange;
      if from == 0 {
        return;
      }
      var doomed := set s | s in groups && s >= from && (until == 0 || s < until);
      RemoveRange(groups, members, k, from, until, doomed);
      groups := groups - doomed;
      members := members - doomed;
    }

    /** `handle_mode_control`. */
    method HandleModeControl(control: Control, progress: Option<nat>)
      requires Valid() && control.InRange()
      modifies this`cleanupBefore, this`retiredBefore, this`groups, this`members, fence
      ensures Valid() && Model() == OnMode(old(Model()), control, progress)
    {
      hide TracksAll, MeaningOf, Below, Inv, Structured, Retire, Apply, DropRange;
      OnModeKeepsInv(Model(), control, progress);
      ModeBoundaryKeepsInv(Model(), control);
      var applied := fence.Update(control);
      if !applied {
        return;
      }
      var (from, until) := fence.Window();
      if from == 0 {
        InvStructured(Model());
        return;
      }
      cleanupBefore := if from > cleanupBefore then from else cleanupBefore;
      DropGroupsInRange(from, until);
      InvStructured(Model());
      MaybeRetireOldGroups(progress);
    }

    /** `handle_mode_control_actor`. */
    method HandleModeControlActor(control: Control, expected: nat)
      requires Valid() && control.InRange()
      modifies this`cleanupBefore, this`retiredBefore, this`groups, this`members, fence
      ensures Valid() && Model() == OnMode(old(Model()), control, Some(expected))
    {
      hide TracksAll, MeaningOf, Below, Inv, Structured, Retire, Apply, DropRange;
      OnModeKeepsInv(Model(), control, Some(expected));
      ModeBoundaryKeepsInv(Model(), control);
      var applied := fence.Update(control);
      if !applied {
        return;
      }
      var (from, until) := fence.Window();
      if from == 0 {
        InvStructured(Model());
        return;
      }
      cleanupBefore := if from > cleanupBefore then from else cleanupBefore;
      DropGroupsInRange(from, until);
      InvStructured(Model());
      MaybeRetireOldGroupsActor(expected);
    }

    // ---------- data ----------

    /** `on_data`: the checks before the lock are repeated under it. */
    method OnData(sn: nat, frame: Frame, progress: Option<nat>) returns (out: Option<Recovered>)
      requires Valid()
      modifies this`retiredBefore, this`groups, this`members, this`done, this`recovered, this`lost
      ensures Valid()
      ensures (Model(), out) == DecoderSpec.OnData(old(Model()), sn, frame, progress)
    {
      hide TracksAll, MeaningOf, Below, Inv, Structured, Retire, Admit;
      if |frame| == 0 || sn == 0 || staticSingle {
        return None;
      }
      if fence.BypassData(sn) {
        if sn % 256 == 0 {
          CleanupByReorderProgress(progress);
        }
        return None;
      }
      if retiredBefore != 0 && sn < retiredBefore {
        return None;
      }
      if staticSingle || fence.BypassData(sn) || (retiredBefore != 0 && sn < retiredBefore) {
        return None;
      }
      out := OnDataLocked(sn, frame);
    }

    /** `on_data_batch`: one lock for the whole batch. */
    method OnDataBatch(frames: seq<(nat, Frame)>, progress: Option<nat>) returns (outs: seq<Recovered>)
      requires Valid()
      modifies this`retiredBefore, this`groups, this`members, this`done, this`recovered, this`lost
      ensures Valid()
      ensures (Model(), outs) == OnDataEach(old(Model()), frames, progress)
    {
      hide TracksAll, MeaningOf, Below, Inv, Structured, Retire, Admit;
      outs := [];
      if |frames| == 0 || staticSingle {
        SingleIgnoresAll(Model(), frames, progress);
        return;
      }
      for i := 0 to |frames|
        invariant Valid() && !staticSingle
        invariant (Model(), outs) == OnDataEach(old(Model()), frames[..i], progress)
      {
        var (sn, frame) := frames[i];
        assert frames[..i + 1][..i] == frames[..i];
        if sn == 0 || |frame| == 0 {
          continue;
        }
        if fence.BypassData(sn) {
          if sn % 256 == 0 {
            MaybeRetireOldGroups(progress);
          }
          continue;
        }
        if retiredBefore != 0 && sn < retiredBefore {
          continue;
        }
        var out := OnDataLocked(sn, frame);
        if out.Some? {
          outs := outs + [out.value];
        }
      }
      assert frames[..|frames|] == frames;
    }

    /** `on_data_actor`: the body of `on_data_locked` again, on exclusively owned state. */
    method OnDataActor(sn: nat, frame: Frame, expected: nat) returns (out: Option<Recovered>)
      requires Valid()
      modifies this`retiredBefore, this`groups, this`members, this`done, this`recovered, this`lost
      ensures Valid()
      ensures (Model(), out) == DecoderSpec.OnData(old(Model()), sn, frame, Some(expected))
    {
      hide TracksAll, MeaningOf, Below, MarkDone, DecoderSpec.TryRecover, Entry, Inv, Structured, IsStart, IsDone,
        GroupStart, Admit, Absorption, StoredOk, Lacking, GroupOk, ClampGroup, Retire;
      if |frame| == 0 || sn == 0 || staticSingle {
        return None;
      }
      if fence.BypassData(sn) {
        if sn % 256 == 0 {
          MaybeRetireOldGroupsActor(expected);
        }
        return None;
      }
      if retiredBefore != 0 && sn < retiredBefore {
        return None;
      }
      ghost var d := Model();
      AdmitKeepsInv(d, sn, frame);
      AdmitKeepsStructured(d, sn, frame);
      AdmitCases(d, sn, frame);
      var start := GroupStart(sn, k);
      if IsDone(done, start, k) {
        return None;
      }
      EntryStored(d, start);
      ghost var seen;
      var absorbed;
      groups, seen, absorbed := Absorb(groups, members, k, start, sn - start, frame, fullMask);
      members := seen;
      if absorbed.Duplicate? {
        return None;
      }
      if absorbed.Complete? {
        done := MarkDone(done, start, k);
        return None;
      }
      out := TryRecover(start);
    }

    // ---------- controls ----------

    /** `on_parity_strict`. */
    method OnParityStrict(payload: Frame, progress: Option<nat>) returns (r: Result<Option<Recovered>>)
      requires Valid()
      modifies this`retiredBefore, this`groups, this`members, this`done, this`recovered, this`lost
      ensures Valid()
      ensures (Model(), r) == OnParity(old(Model()), ic, payload, progress)
    {
      hide TracksAll, MeaningOf, Below, MarkDone, DecoderSpec.TryRecover, Entry, Inv, Structured, IsStart, IsDone,
        Retire, ParseHeader, ParseBody, Holding, OnParity;
      ghost var d := Model();
      OnParityCases(d, ic, payload, progress);
      OnParityKeepsInv(d, ic, payload, progress);
      InvStructured(OnParity(d, ic, payload, progress).0);
      if staticSingle {
        return Ok(None);
      }
      var header := ParseHeader(k, payload);
      if header.Err? {
        return Err(header.message);
      }
      var start := header.value;
      CleanupByReorderProgress(progress);
      if retiredBefore != 0 && start < retiredBefore {
        return Ok(None);
      }
      var body := ReadBody(k, ic, payload, start);
      if body.Err? {
        return Err(body.message);
      }
      if (retiredBefore != 0 && start < retiredBefore) || IsDone(done, start, k) {
        return Ok(None);
      }
      ghost var d1 := Model();
      HeldKeepsInv(d1, start, body.value, payload);
      ghost var seen;
      var stored;
      groups, seen, stored := HoldParity(groups, members, k, start, body.value);
      members := seen;
      if !stored {
        return Ok(None);
      }
      var out := TryRecover(start);
      InvStructured(Model());
      MaybeRetireOldGroups(progress);
      return Ok(out);
    }

    /** `on_parity_actor`. */
    method OnParityActor(payload: Frame, expected: nat) returns (r: Result<Option<Recovered>>)
      requires Valid()
      modifies this`retiredBefore, this`groups, this`members, this`done, this`recovered, this`lost
      ensures Valid()
      ensures (Model(), r) == OnParity(old(Model()), ic, payload, Some(expected))
    {
      hide TracksAll, MeaningOf, Below, MarkDone, DecoderSpec.TryRecover, Entry, Inv, Structured, IsStart, IsDone,
        Retire, ParseHeader, ParseBody, Holding, OnParity;
      ghost var d := Model();
      OnParityCases(d, ic, payload, Some(expected));
      OnParityKeepsInv(d, ic, payload, Some(expected));
      InvStructured(OnParity(d, ic, payload, Some(expected)).0);
      if staticSingle {
        return Ok(None);
      }
      var header := ParseHeader(k, payload);
      if header.Err? {
        return Err(header.message);
      }
      var start := header.value;
      MaybeRetireOldGroupsActor(expected);
      if retiredBefore != 0 && start < retiredBefore {
        return Ok(None);
      }
      var body := ReadBody(k, ic, payload, start);
      if body.Err? {
        return Err(body.message);
      }
      if (retiredBefore != 0 && start < retiredBefore) || IsDone(done, start, k) {
        return Ok(None);
      }
      ghost var d1 := Model();
      HeldKeepsInv(d1, start, body.value, payload);
      ghost var seen;
      var stored;
      groups, seen, stored := HoldParity(groups, members, k, start, body.value);
      members := seen;
      if !stored {
        return Ok(None);
      }
      var out := TryRecover(start);
      InvStructured(Model());
      MaybeRetireOldGroupsActor(expected);
      return Ok(out);
    }

    /** `on_control`. */
    method OnControl(payload: Frame, progress: Option<nat>) returns (r: Result<Option<Recovered>>)
      requires Valid()
      modifies this, fence
      ensures Valid()
      ensures (Model(), r) == DecoderSpec.OnControl(old(Model()), ic, payload, progress)
    {
      hide TracksAll, MeaningOf, Below, Inv, Structured, OnParity, OnMode, Parse;
      var kind := ControlKind(payload);
      if kind.Err? {
        return Err(kind.message);
      }
      if kind.value == KIND_FEC_PARITY {
        r := OnParityStrict(payload, progress);
      } else {
        var control := Parse(payload);
        if control.Err? {
          return Err(control.message);
        }
        ParseEncode(payload);
        HandleModeControl(control.value, progress);
        return Ok(None);
      }
    }

    /** `on_control_actor`. */
    method OnControlActor(payload: Frame, expected: nat) returns (r: Result<Option<Recovered>>)
      requires Valid()
      modifies this, fence
      ensures Valid()
      ensures (Model(), r) == DecoderSpec.OnControl(old(Model()), ic, payload, Some(expected))
    {
      hide TracksAll, MeaningOf, Below, Inv, Structured, OnParity, OnMode, Parse;
      var kind := ControlKind(payload);
      if kind.Err? {
        return Err(kind.message);
      }
      if kind.value == KIND_FEC_PARITY {
        r := OnParityActor(payload, expected);
      } else {
        var control := Parse(payload);
        if control.Err? {
          return Err(control.message);
        }
        ParseEncode(payload);
        HandleModeControlActor(control.value, expected);
        return Ok(None);
      }
    }

    // ---------- reset ----------

    method Reset()
      requires Valid()
      modifies this, fence
      ensures Valid() && Model() == ResetState(old(Model()))
    {
      hide TracksAll, MeaningOf, Below, Inv, Structured;
      EmptyTable(k);
      ResetKeepsInv(Model());
      groups, members := map[], map[];
      done := seq(DONE_CACHE, _ => 0);
      cleanupBefore, retiredBefore := 0, 0;
      fence.Reset();
    }

    method SetStaticSinglePath(single: bool)
      requires Valid()
      modifies this, fence
      ensures Valid() && Model() == SetStaticSingle(old(Model()), single)
    {
      hide TracksAll, MeaningOf, Below;
      if !single {
        staticSingle := false;
        return;
      }
      if !staticSingle {
        Reset();
        staticSingle := true;
      }
    }
  }
}
