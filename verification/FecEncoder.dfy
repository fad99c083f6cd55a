/** The FEC encoder: one parity record per K consecutive frames while two or more paths exist. */
module FecEncoder {
  import opened Bytes
  import opened Xor
  import opened Parity
  import FecMode

  // ---------- meaning ----------

  datatype Member = Member(sn: nat, data: Frame)

  /** The encoder as a plain list of the members collected so far. */
  datatype Enc = Enc(k: nat, group: seq<Member>, multipath: bool, armed: bool)

  function Fresh(k: nat): Enc {
    Enc(FecMode.ClampGroup(k), [], true, true)
  }

  function Members(group: seq<Member>): map<nat, Frame> {
    map j: nat | j < |group| :: group[j].data
  }

  function Lens(group: seq<Member>): (lens: seq<nat>)
    ensures |lens| == |group|
  {
    seq(|group|, j requires 0 <= j < |group| => |group[j].data|)
  }

  function GroupParity(ic: Option<Cipher>, group: seq<Member>): Frame
    requires 0 < |group| < 256
  {
    Build(ic, group[0].sn, Lens(group), XorBody(Members(group), |group|, MaxOf(Lens(group))))
  }

  /** `set_physical_path_count`. */
  function SetPaths(e: Enc, paths: nat): Enc {
    var multipath := paths >= 2;
    if multipath == e.multipath then e
    else if multipath then e.(multipath := true, armed := false)
    else e.(multipath := false, armed := false, group := [])
  }

  /** `add`. */
  function Added(e: Enc, ic: Option<Cipher>, sn: nat, data: Frame): (Enc, Option<Frame>)
    requires 2 <= e.k <= 64 && |e.group| < e.k
  {
    if |data| == 0 || !e.multipath then (e, None)
    else if !e.armed && !FecMode.IsStart(sn, e.k) then (e, None)
    else
      var group := e.group + [Member(sn, data)];
      if |group| < e.k then (e.(armed := true, group := group), None)
      else (e.(armed := true, group := []), Some(GroupParity(ic, group)))
  }

  // ---------- the encoder object ----------

  /** `acc` holds the XOR of the group, extended with zeros. */
  ghost predicate Accumulates(acc: seq<byte>, group: seq<Member>) {
    forall i | 0 <= i < |acc| :: acc[i] == FoldAt(Members(group), |group|, i)
  }

  lemma AccumulatesExtended(acc: seq<byte>, group: seq<Member>, n: nat)
    requires Accumulates(acc, group) && MaxOf(Lens(group)) <= |acc|
    ensures Accumulates(Extend(acc, n), group)
  {
    forall i | |acc| <= i < n ensures FoldAt(Members(group), |group|, i) == 0 {
      FoldPastGroup(group, i);
    }
  }

  lemma AccumulatesNothing(acc: seq<byte>)
    requires forall i | 0 <= i < |acc| :: acc[i] == 0
    ensures Accumulates(acc, []) && Lens([]) == [] && MaxOf([]) == 0
  {
  }

  lemma AccumulatesPast(acc: seq<byte>, group: seq<Member>, i: nat)
    requires Accumulates(acc, group) && MaxOf(Lens(group)) <= i < |acc|
    ensures acc[i] == 0
  {
    FoldPastGroup(group, i);
  }

  lemma FoldPastGroup(group: seq<Member>, i: nat)
    requires MaxOf(Lens(group)) <= i
    ensures FoldAt(Members(group), |group|, i) == 0
  {
    var n := MaxOf(Lens(group));
    assert forall j | 0 <= j < |group| :: |Members(group)[j]| == Lens(group)[j] <= n;
    FoldBeyond(Members(group), |group|, n, i);
  }

  lemma AccumulatesNext(acc: seq<byte>, group: seq<Member>, m: Member)
    requires Accumulates(acc, group) && |m.data| <= |acc|
    ensures Accumulates(XorOnto(acc, m.data), group + [m])
  {
    var group' := group + [m];
    forall i | 0 <= i < |acc|
      ensures XorOnto(acc, m.data)[i] == FoldAt(Members(group'), |group'|, i)
    {
      FoldAgree(Members(group'), Members(group), |group|, i);
    }
  }

  lemma LensNext(group: seq<Member>, m: Member)
    ensures Lens(group + [m]) == Lens(group) + [|m.data|]
    ensures MaxOf(Lens(group + [m])) == Max(MaxOf(Lens(group)), |m.data|)
  {
    var lens := Lens(group) + [|m.data|];
    assert Lens(group + [m]) == lens;
    assert lens[..|group|] == Lens(group);
  }

  lemma {:induction false} EncodeLensAppend(lens: seq<nat>, n: nat)
    ensures EncodeLens(lens + [n]) == EncodeLens(lens) + EncodeBE(n, 4)
  {
    if |lens| == 0 {
      assert lens + [n] == [n];
      assert EncodeLens([n][1..]) == [];
    } else {
      assert (lens + [n])[1..] == lens[1..] + [n];
      EncodeLensAppend(lens[1..], n);
    }
  }

  class FecEncoder {
    const k: nat
    const ic: Option<Cipher>
    var seqs: seq<nat>
    var lens: seq<nat>
    var acc: array<byte>
    var activeLen: nat
    var paritySent: nat
    var multipath: bool
    var armed: bool
    ghost var group: seq<Member>

    /** The fields describe exactly the collected members. */
    ghost predicate Tracks()
      reads this, acc
    {
      && 2 <= k <= 64
      && |seqs| == |group| <= k
      && (forall j | 0 <= j < |group| :: seqs[j] == group[j].sn)
      && lens == Lens(group)
      && activeLen == MaxOf(lens) <= acc.Length
      && Accumulates(acc[..], group)
    }

    ghost predicate Valid()
      reads this, acc
    {
      Tracks() && |group| < k
    }

    ghost function Model(): Enc
      reads this
    {
      Enc(k, group, multipath, armed)
    }

    constructor (groupSize: nat, cipher: Option<Cipher>)
      ensures Valid() && Model() == Fresh(groupSize) && ic == cipher
      ensures fresh(acc)
    {
      k, ic := FecMode.ClampGroup(groupSize), cipher;
      seqs, lens, activeLen, paritySent := [], [], 0, 0;
      acc := new byte[0];
      multipath, armed := true, true;
      group := [];
    }

    method Reset()
      requires Tracks()
      modifies this, acc
      ensures Valid() && acc == old(acc) && group == []
      ensures multipath == old(multipath) && armed == old(armed) && paritySent == old(paritySent)
    {
      hide Accumulates, MaxOf, Lens;
      forall i | activeLen <= i < acc.Length ensures acc[i] == 0 { AccumulatesPast(acc[..], group, i); }
      for i := 0 to activeLen
        invariant acc == old(acc) && activeLen == old(activeLen)
        invariant multipath == old(multipath) && armed == old(armed) && paritySent == old(paritySent)
        invariant forall j | 0 <= j < i || activeLen <= j < acc.Length :: acc[j] == 0
      {
        acc[i] := 0;
      }
      AccumulatesNothing(acc[..]);
      seqs, lens, activeLen := [], [], 0;
      group := [];
    }

    method SetPhysicalPathCount(paths: nat)
      requires Valid()
      modifies this, acc
      ensures Valid() && acc == old(acc)
      ensures Model() == SetPaths(old(Model()), paths)
      ensures paritySent == old(paritySent)
    {
      var now := paths >= 2;
      if now == multipath {
        return;
      }
      multipath := now;
      if !now {
        if |seqs| != 0 || activeLen != 0 {
          Reset();
        }
        armed := false;
      } else {
        armed := false;
      }
    }

    /** Writes the record header, the length table and the XOR body, sealing the body if encrypted. */
    method BuildParity() returns (payload: Frame)
      requires Tracks() && |seqs| > 0
      ensures payload == GroupParity(ic, group)
    {
      hide MaxOf, Sealed, EncodeLens, Head, XorByte, FoldAt;
      payload := Head(seqs[0], |lens|);
      for j := 0 to |lens|
        invariant payload == Head(seqs[0], |lens|) + EncodeLens(lens[..j])
      {
        EncodeLensAppend(lens[..j], lens[j]);
        assert lens[..j + 1] == lens[..j] + [lens[j]];
        payload := payload + EncodeBE(lens[j], 4);
      }
      assert lens[..|lens|] == lens;
      assert acc[..activeLen] == acc[..][..activeLen] == XorBody(Members(group), |group|, activeLen);
      payload := payload + Sealed(ic, acc[..activeLen], seqs[0]);
    }

    /** Makes room for `n` bytes in the accumulator. */
    method Grow(n: nat)
      modifies this`acc
      ensures acc[..] == Extend(old(acc[..]), n)
      ensures acc == old(acc) || fresh(acc)
    {
      if n > acc.Length {
        var grown := new byte[n](i => 0);
        forall i | 0 <= i < acc.Length { grown[i] := acc[i]; }
        acc := grown;
        assert acc[..] == Extend(old(acc[..]), n);
      }
    }

    /** XORs one more member into the group. */
    method Collect(sn: nat, data: Frame)
      requires Valid()
      modifies this, acc
      ensures Tracks() && group == old(group) + [Member(sn, data)]
      ensures acc == old(acc) || fresh(acc)
      ensures multipath == old(multipath) && armed == old(armed) && paritySent == old(paritySent)
    {
      hide Accumulates, MaxOf, Lens, XorOnto;
      seqs := seqs + [sn];
      lens := lens + [|data|];
      AccumulatesExtended(acc[..], group, |data|);
      Grow(|data|);
      activeLen := if activeLen < |data| then |data| else activeLen;
      AccumulatesNext(acc[..], group, Member(sn, data));
      XorInto(acc, data);
      LensNext(group, Member(sn, data));
      group := group + [Member(sn, data)];
    }

    /** Counts one frame into the group; a full group yields its parity record. */
    method Add(sn: nat, data: Frame) returns (parity: Option<Frame>)
      requires Valid()
      modifies this, acc
      ensures Valid() && (acc == old(acc) || fresh(acc))
      ensures (Model(), parity) == Added(old(Model()), ic, sn, data)
      ensures paritySent == old(paritySent) + if parity.Some? then 1 else 0
    {
      hide Accumulates, MaxOf, Lens, Build;
      if |data| == 0 || !multipath {
        return None;
      }
      if !armed {
        if sn == 0 || (sn - 1) % k != 0 {
          return None;
        }
        armed := true;
      }
      Collect(sn, data);
      if |seqs| < k {
        return None;
      }
      var record := BuildParity();
      paritySent := paritySent + 1;
      Reset();
      return Some(record);
    }
  }

  // ---------- whole runs ----------

  /** One dispatched frame: the path count seen just before it, and its payload. */
  datatype Dispatch = Dispatch(paths: nat, data: Frame)

  /** The dispatch of sequence number `sn`. */
  function Nth(run: seq<Dispatch>, sn: nat): Dispatch
    requires 0 < sn <= |run|
  {
    run[sn - 1]
  }

  /** The encoder after the first `n` frames of a serial run; frame `n` carries sequence number `n`. */
  function After(k: nat, ic: Option<Cipher>, run: seq<Dispatch>, n: nat): (e: Enc)
    requires 2 <= k <= 64 && n <= |run|
    ensures e.k == k && |e.group| < k
  {
    if n == 0 then Fresh(k)
    else Added(SetPaths(After(k, ic, run, n - 1), Nth(run, n).paths), ic, n, Nth(run, n).data).0
  }

  /** The parity record that dispatching frame `n` makes ready. */
  function ParityAt(k: nat, ic: Option<Cipher>, run: seq<Dispatch>, n: nat): Option<Frame>
    requires 2 <= k <= 64 && 0 < n <= |run|
  {
    Added(SetPaths(After(k, ic, run, n - 1), Nth(run, n).paths), ic, n, Nth(run, n).data).1
  }

  function Sent(run: seq<Dispatch>): nat -> Frame {
    sn => if 0 < sn <= |run| then Nth(run, sn).data else []
  }

  /** Every frame with a number in `from..to` was dispatched over two or more paths. */
  predicate Multipath(run: seq<Dispatch>, from: nat, to: nat)
    requires from > 0 && to <= |run| + 1
  {
    forall sn | from <= sn < to :: Nth(run, sn).paths >= 2
  }

  predicate NonEmpty(run: seq<Dispatch>) {
    forall i | 0 <= i < |run| :: |run[i].data| > 0
  }

  /** The members numbered `from..to`. */
  function Span(run: seq<Dispatch>, from: nat, to: nat): (group: seq<Member>)
    requires 0 < from <= to <= |run| + 1
    ensures |group| == to - from
  {
    seq(to - from, j requires 0 <= j < to - from => Member(from + j, Nth(run, from + j).data))
  }

  /** Mid-group, the encoder holds all members of the current group if it was multipath all along, and
      nothing otherwise; at a boundary it holds nothing. */
  ghost predicate Shape(e: Enc, run: seq<Dispatch>, n: nat, start: nat)
    requires n <= |run| && 0 < start <= n + 1
  {
    && (!e.multipath ==> !e.armed)
    && if start == n + 1 then e.group == []
       else if Multipath(run, start, n + 1) then e.multipath && e.armed && e.group == Span(run, start, n + 1)
       else !e.armed && e.group == []
  }

  /** One more frame inside a group. */
  lemma ShapeStep(e: Enc, ic: Option<Cipher>, run: seq<Dispatch>, n: nat, start: nat)
    requires 2 <= e.k <= 64 && |e.group| < e.k && 0 < n <= |run| && |Nth(run, n).data| > 0
    requires 0 < start && FecMode.IsStart(start, e.k) && start <= n < start + e.k - 1
    requires Shape(e, run, n - 1, start)
    ensures Shape(Added(SetPaths(e, Nth(run, n).paths), ic, n, Nth(run, n).data).0, run, n, start)
  {
    hide GroupParity, FecMode.IsStart;
    var d := Nth(run, n);
    assert FecMode.IsStart(n, e.k) <==> n == start by { FecMode.OnlyStart(start, n, e.k); }
    if d.paths < 2 {
      assert !Multipath(run, start, n + 1);
    } else if Multipath(run, start, n) {
      assert Multipath(run, start, n + 1);
      assert Span(run, start, n + 1) == Span(run, start, n) + [Member(n, d.data)];
    } else {
      assert !Multipath(run, start, n + 1);
    }
  }

  lemma {:induction false} StateAfter(k: nat, ic: Option<Cipher>, run: seq<Dispatch>, n: nat, start: nat)
    requires 2 <= k <= 64 && n <= |run| && NonEmpty(run)
    requires 0 < start && FecMode.IsStart(start, k) && start <= n + 1 < start + k
    ensures Shape(After(k, ic, run, n), run, n, start)
    decreases n
  {
    hide GroupParity, FecMode.IsStart;
    if n == 0 {
    } else {
      if start == n + 1 {
        FecMode.NextStart(start, k);
        FecMode.OnlyStart(start - k, n, k);
        StateAfter(k, ic, run, n - 1, start - k);
      } else {
        StateAfter(k, ic, run, n - 1, start);
        ShapeStep(After(k, ic, run, n - 1), ic, run, n, start);
      }
    }
  }

  /** The parity record of `k` consecutive dispatched frames, built from the collected members. */
  lemma SpanParity(k: nat, ic: Option<Cipher>, run: seq<Dispatch>, start: nat)
    requires 2 <= k <= 64 && 0 < start && start + k <= |run| + 1
    ensures GroupParity(ic, Span(run, start, start + k)) == ParityOf(ic, Sent(run), start, k)
  {
    hide Build, XorBody, MaxOf;
    var group := Span(run, start, start + k);
    assert Lens(group) == LensOf(Sent(run), start, k);
    assert Members(group) == GroupOf(Sent(run), start, k);
  }

  lemma ParityStep(e: Enc, ic: Option<Cipher>, run: seq<Dispatch>, n: nat, start: nat)
    requires 2 <= e.k <= 64 && |e.group| < e.k && 0 < n <= |run| && |Nth(run, n).data| > 0
    requires 0 < start && FecMode.IsStart(start, e.k) && start <= n < start + e.k
    requires Shape(e, run, n - 1, start)
    ensures var parity := Added(SetPaths(e, Nth(run, n).paths), ic, n, Nth(run, n).data).1;
            if n == start + e.k - 1 && Multipath(run, start, n + 1)
            then parity == Some(ParityOf(ic, Sent(run), start, e.k))
            else parity == None
  {
    hide GroupParity, ParityOf, FecMode.IsStart;
    FecMode.OnlyStart(start, n, e.k);
    if n == start + e.k - 1 && Multipath(run, start, n + 1) {
      SpanParity(e.k, ic, run, start);
      assert Multipath(run, start, n);
      assert Span(run, start, n + 1) == Span(run, start, n) + [Member(n, Nth(run, n).data)];
    }
  }

  /** Dispatching frame `n` yields a parity record if and only if `n` ends a group all of whose frames
      were dispatched over two or more paths; and the record is the parity of exactly those frames. */
  lemma ParityExactly(k: nat, ic: Option<Cipher>, run: seq<Dispatch>, n: nat)
    requires 2 <= k <= 64 && 0 < n <= |run| && NonEmpty(run)
    ensures ParityAt(k, ic, run, n).Some? <==>
            n >= k && FecMode.IsStart(n - k + 1, k) && Multipath(run, n - k + 1, n + 1)
    ensures ParityAt(k, ic, run, n).Some? ==>
            ParityAt(k, ic, run, n) == Some(ParityOf(ic, Sent(run), n - k + 1, k))
  {
    hide Shape, ParityOf, Added, SetPaths, FecMode.IsStart, FecMode.GroupStart;
    var start := FecMode.GroupStart(n, k);
    FecMode.StartPositive(start, k);
    StateAfter(k, ic, run, n - 1, start);
    ParityStep(After(k, ic, run, n - 1), ic, run, n, start);
    if n >= k && FecMode.IsStart(n - k + 1, k) {
      FecMode.StartOfMember(n - k + 1, n, k);
    }
  }

  /** Each group start yields at most one parity record, and records come in group order. */
  lemma ParityOncePerGroup(k: nat, ic: Option<Cipher>, run: seq<Dispatch>, m: nat, n: nat)
    requires 2 <= k <= 64 && 0 < m < n <= |run| && NonEmpty(run)
    requires ParityAt(k, ic, run, m).Some? && ParityAt(k, ic, run, n).Some?
    ensures m - k + 1 < n - k + 1 && m + k <= n
  {
    hide *;
    ParityExactly(k, ic, run, m);
    ParityExactly(k, ic, run, n);
    FecMode.StartsApart(m - k + 1, n - k + 1, k);
  }
}
