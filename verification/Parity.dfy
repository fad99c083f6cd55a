/** XOR groups and the FEC_PARITY record: [kind][4B start][1B K][K x 4B length][XOR body]. */
module Parity {
  import opened Bytes
  import opened Xor
  import FecMode

  type Frame = seq<byte>

  // ---------- the XOR of a set of group members ----------

  /** Byte `i` of the XOR of the members with index below `k`, each extended with zeros. */
  function FoldAt(members: map<nat, Frame>, k: nat, i: nat): byte {
    if k == 0 then 0
    else XorByte(FoldAt(members, k - 1, i), if k - 1 in members then At(members[k - 1], i) else 0)
  }

  lemma {:induction false} FoldAgree(m: map<nat, Frame>, n: map<nat, Frame>, k: nat, i: nat)
    requires forall j | 0 <= j < k :: (j in m <==> j in n) && (j in m ==> m[j] == n[j])
    ensures FoldAt(m, k, i) == FoldAt(n, k, i)
  {
    if k == 0 {
    } else {
      FoldAgree(m, n, k - 1, i);
    }
  }

  lemma {:induction false} FoldNothing(m: map<nat, Frame>, k: nat, i: nat)
    requires forall j | 0 <= j < k :: j !in m
    ensures FoldAt(m, k, i) == 0
  {
    if k == 0 {
    } else {
      FoldNothing(m, k - 1, i);
      XorByteZero(0);
    }
  }

  /** A new member is XORed into the fold, whatever its position. */
  lemma {:induction false} FoldInsert(m: map<nat, Frame>, k: nat, j: nat, data: Frame, i: nat)
    requires j < k && j !in m
    ensures FoldAt(m[j := data], k, i) == XorByte(FoldAt(m, k, i), At(data, i))
  {
    var m' := m[j := data];
    var rest, d := FoldAt(m, k - 1, i), At(data, i);
    if j == k - 1 {
      FoldAgree(m', m, k - 1, i);
      XorByteZero(rest);
    } else {
      FoldInsert(m, k - 1, j, data, i);
      var last := if k - 1 in m then At(m[k - 1], i) else 0;
      XorByteAssociates(rest, d, last);
      XorByteAssociates(rest, last, d);
      XorByteCommutes(d, last);
    }
  }

  /** Past the longest member the fold is zero. */
  lemma {:induction false} FoldBeyond(m: map<nat, Frame>, k: nat, n: nat, i: nat)
    requires forall j | 0 <= j < k && j in m :: |m[j]| <= n
    requires n <= i
    ensures FoldAt(m, k, i) == 0
  {
    if k == 0 {
    } else {
      FoldBeyond(m, k - 1, n, i);
      XorByteZero(0);
    }
  }

  /** The fold of a whole group and the fold without one member differ by that member. */
  lemma FoldRecovers(m: map<nat, Frame>, k: nat, j: nat, data: Frame, i: nat)
    requires j < k && j !in m
    ensures XorByte(FoldAt(m[j := data], k, i), FoldAt(m, k, i)) == At(data, i)
  {
    FoldInsert(m, k, j, data, i);
    XorByteCancels(FoldAt(m, k, i), At(data, i));
  }

  function MaxOf(lens: seq<nat>): (n: nat)
    ensures forall j | 0 <= j < |lens| :: lens[j] <= n
    ensures |lens| > 0 ==> n in lens
  {
    if |lens| == 0 then 0
    else if |lens| == 1 then lens[0]
    else
      var m := MaxOf(lens[..|lens| - 1]);
      if m < lens[|lens| - 1] then lens[|lens| - 1] else m
  }

  /** The XOR of the members below `k`, `n` bytes long. */
  function XorBody(members: map<nat, Frame>, k: nat, n: nat): (body: Frame)
    ensures |body| == n
  {
    seq(n, i requires 0 <= i < n => FoldAt(members, k, i))
  }

  // ---------- authenticated encryption, abstractly ----------

  const TAG_LEN: nat := 16

  /** A cipher with its key: `seal(plain, sequence number, wire length)` and the matching `open`. */
  datatype Cipher = Cipher(seal: (Frame, nat, nat) -> Frame, open: (Frame, nat, nat) -> Option<Frame>)
  {
    ghost predicate Sound() {
      forall p: Frame, sn: nat, wire: nat {:trigger seal(p, sn, wire)} ::
        |p| > 0 ==> |seal(p, sn, wire)| == |p| + TAG_LEN && open(seal(p, sn, wire), sn, wire) == Some(p)
    }
  }

  function TagLen(ic: Option<Cipher>): nat {
    if ic.Some? then TAG_LEN else 0
  }

  ghost predicate SoundCipher(ic: Option<Cipher>) {
    ic.Some? ==> ic.value.Sound()
  }

  /** `seal_in_place`: nothing is sealed when there is nothing to seal. */
  function Sealed(ic: Option<Cipher>, plain: Frame, sn: nat): Frame {
    if ic.Some? && |plain| > 0 then ic.value.seal(plain, sn, |plain| + TAG_LEN) else plain
  }

  // ---------- the record ----------

  function EncodeLens(lens: seq<nat>): (s: seq<byte>)
    ensures |s| == 4 * |lens|
  {
    if |lens| == 0 then [] else EncodeBE(lens[0], 4) + EncodeLens(lens[1..])
  }

  function DecodeLens(s: seq<byte>): (lens: seq<nat>)
    ensures |lens| == |s| / 4
  {
    if |s| < 4 then [] else [DecodeBE(s[..4])] + DecodeLens(s[4..])
  }

  lemma {:induction false} LensRoundTrip(lens: seq<nat>)
    requires forall j | 0 <= j < |lens| :: lens[j] <= U32_MAX
    ensures DecodeLens(EncodeLens(lens)) == lens
  {
    if |lens| == 0 {
    } else {
      var s := EncodeLens(lens);
      assert s[..4] == EncodeBE(lens[0], 4) && s[4..] == EncodeLens(lens[1..]);
      LensRoundTrip(lens[1..]);
      Widths();
      DecodeEncodeBE(lens[0], 4);
    }
  }

  function Head(start: nat, k: nat): (head: seq<byte>)
    requires k < 256
    ensures |head| == 6
  {
    [FecMode.KIND_FEC_PARITY] + EncodeBE(start, 4) + [k]
  }

  lemma HeadFields(start: nat, k: nat)
    requires k < 256 && start <= U32_MAX
    ensures Head(start, k)[0] == FecMode.KIND_FEC_PARITY
    ensures DecodeBE(Head(start, k)[1..5]) == start
    ensures Head(start, k)[5] == k
  {
    assert Head(start, k)[1..5] == EncodeBE(start, 4);
    Widths();
    DecodeEncodeBE(start, 4);
  }

  lemma Pieces(a: seq<byte>, b: seq<byte>, c: seq<byte>)
    ensures (a + b + c)[..|a|] == a
    ensures (a + b + c)[|a|..|a| + |b|] == b
    ensures (a + b + c)[|a| + |b|..] == c
  {
  }

  /** `build_parity`. */
  function Build(ic: Option<Cipher>, start: nat, lens: seq<nat>, body: Frame): (payload: Frame)
    requires |lens| < 256
    ensures |payload| >= 6 + 4 * |lens|
    ensures payload[0] == FecMode.KIND_FEC_PARITY
  {
    Head(start, |lens|) + EncodeLens(lens) + Sealed(ic, body, start)
  }

  /** The first checks of `on_parity_strict`: kind, start and group size. */
  function ParseHeader(k: nat, payload: Frame): Result<nat>
    requires k > 0
  {
    if |payload| < 7 || payload[0] != FecMode.KIND_FEC_PARITY then Err("malformed header")
    else
      var start := DecodeBE(payload[1..5]);
      if start == 0 || payload[5] != k || (start - 1) % k != 0 then Err("invalid start or group size")
      else Ok(start)
  }

  datatype Held = Held(lens: seq<nat>, body: Frame)

  /** The remaining checks: member lengths, then the XOR body, opened when there is a cipher. */
  function ParseBody(k: nat, ic: Option<Cipher>, payload: Frame, start: nat): (r: Result<Held>)
    ensures r.Ok? ==> |r.value.lens| == k
  {
    var desc := 6 + 4 * k;
    if |payload| < desc + TagLen(ic) then Err("truncated")
    else ParseFields(ic, DecodeLens(payload[6..desc]), payload[desc..], start)
  }

  function ParseFields(ic: Option<Cipher>, lens: seq<nat>, rest: Frame, start: nat): (r: Result<Held>)
    requires |rest| >= TagLen(ic)
    ensures r.Ok? ==> r.value.lens == lens
  {
    if exists j :: 0 <= j < |lens| && lens[j] + TagLen(ic) > |rest| then Err("member length")
    else
      var wire := MaxOf(lens) + TagLen(ic);
      FitsBody(lens, TagLen(ic), |rest|);
      if ic.None? then Ok(Held(lens, rest[..wire]))
      else
        var plain := ic.value.open(rest[..wire], start, wire);
        if plain.None? then Err("AEAD failure") else Ok(Held(lens, plain.value))
  }

  lemma FitsBody(lens: seq<nat>, tag: nat, room: nat)
    requires tag <= room
    requires forall j | 0 <= j < |lens| :: lens[j] + tag <= room
    ensures MaxOf(lens) + tag <= room
  {
    if |lens| > 0 { assert MaxOf(lens) in lens; }
  }

  lemma ParsePieces(k: nat, ic: Option<Cipher>, head: seq<byte>, lens: seq<nat>, rest: Frame, start: nat)
    requires |head| == 6 && |lens| == k && |rest| >= TagLen(ic)
    requires forall j | 0 <= j < k :: lens[j] <= U32_MAX
    ensures ParseBody(k, ic, head + EncodeLens(lens) + rest, start) == ParseFields(ic, lens, rest, start)
  {
    Pieces(head, EncodeLens(lens), rest);
    LensRoundTrip(lens);
  }

  lemma ParseSealed(ic: Option<Cipher>, lens: seq<nat>, body: Frame, start: nat)
    requires SoundCipher(ic) && |body| == MaxOf(lens) && |body| > 0
    ensures |Sealed(ic, body, start)| == |body| + TagLen(ic)
    ensures ParseFields(ic, lens, Sealed(ic, body, start), start) == Ok(Held(lens, body))
  {
    var rest := Sealed(ic, body, start);
    assert rest[..|rest|] == rest;
  }

  /** Parsing a built record returns the same start, lengths and XOR body. */
  lemma BuildParse(k: nat, ic: Option<Cipher>, start: nat, lens: seq<nat>, body: Frame)
    requires 2 <= k <= 64 && |lens| == k && SoundCipher(ic)
    requires FecMode.IsStart(start, k) && start <= U32_MAX
    requires forall j | 0 <= j < k :: lens[j] <= U32_MAX
    requires |body| == MaxOf(lens) && |body| > 0
    ensures ParseHeader(k, Build(ic, start, lens, body)) == Ok(start)
    ensures ParseBody(k, ic, Build(ic, start, lens, body), start) == Ok(Held(lens, body))
  {
    BuildParseHeader(k, ic, start, lens, body);
    ParseSealed(ic, lens, body, start);
    ParsePieces(k, ic, Head(start, k), lens, Sealed(ic, body, start), start);
  }

  lemma BuildParseHeader(k: nat, ic: Option<Cipher>, start: nat, lens: seq<nat>, body: Frame)
    requires 2 <= k <= 64 && |lens| == k
    requires FecMode.IsStart(start, k) && start <= U32_MAX
    ensures ParseHeader(k, Build(ic, start, lens, body)) == Ok(start)
  {
    var p := Build(ic, start, lens, body);
    Pieces(Head(start, k), EncodeLens(lens), Sealed(ic, body, start));
    HeadFields(start, k);
    assert p[1..5] == p[..6][1..5];
  }

  // ---------- the parity of a group of sent frames ----------

  /** Member `j` of the group starting at `start`. */
  function MemberOf(sent: nat -> Frame, start: nat, j: nat): Frame {
    sent(start + j)
  }

  function GroupOf(sent: nat -> Frame, start: nat, k: nat): map<nat, Frame> {
    map j: nat | j < k :: MemberOf(sent, start, j)
  }

  function LensOf(sent: nat -> Frame, start: nat, k: nat): (lens: seq<nat>)
    ensures |lens| == k
  {
    seq(k, j requires 0 <= j < k => |MemberOf(sent, start, j)|)
  }

  /** The parity record of `k` consecutive sent frames. */
  function ParityOf(ic: Option<Cipher>, sent: nat -> Frame, start: nat, k: nat): (payload: Frame)
    requires k < 256
    ensures FecMode.ControlKind(payload) == Ok(FecMode.KIND_FEC_PARITY)
  {
    var lens := LensOf(sent, start, k);
    Build(ic, start, lens, XorBody(GroupOf(sent, start, k), k, MaxOf(lens)))
  }

  /** What a receiver reads out of a genuine parity record. */
  lemma ParityParses(ic: Option<Cipher>, sent: nat -> Frame, start: nat, k: nat)
    requires 2 <= k <= 64 && SoundCipher(ic)
    requires FecMode.IsStart(start, k) && start <= U32_MAX
    requires forall j | 0 <= j < k :: 0 < |MemberOf(sent, start, j)| <= U32_MAX
    ensures var lens := LensOf(sent, start, k);
            var body := XorBody(GroupOf(sent, start, k), k, MaxOf(lens));
            && ParseHeader(k, ParityOf(ic, sent, start, k)) == Ok(start)
            && ParseBody(k, ic, ParityOf(ic, sent, start, k), start) == Ok(Held(lens, body))
  {
    var lens := LensOf(sent, start, k);
    assert lens[0] > 0;
    BuildParse(k, ic, start, lens, XorBody(GroupOf(sent, start, k), k, MaxOf(lens)));
  }
}
