/** The wire formats byte by byte, in literal numbers: every integer is big-endian, at a fixed offset. */
module WireLayout {
  import opened Bytes
  import opened Parity
  import FecMode
  import Framing
  import Residue

  // ---------- integers ----------

  /** Byte `i` of `w` carries the digit of weight 256 to the power `w - 1 - i`. */
  lemma {:induction false} BigEndian(n: nat, w: nat, i: nat)
    requires i < w
    ensures EncodeBE(n, w)[i] == n / Pow256(w - 1 - i) % 256
  {
    if i == w - 1 {
    } else {
      BigEndian(n / 256, w - 1, i);
      DivideTwice(n, Pow256(w - 2 - i));
    }
  }

  lemma DivideTwice(n: nat, p: nat)
    requires p > 0
    ensures n / 256 / p == n / (256 * p)
  {
    var a, b := n / 256 / p, n / 256 % p;
    var rest := 256 * b + n % 256;
    assert n == a * (256 * p) + rest by { assert n / 256 == a * p + b; }
    assert 0 <= rest < 256 * p;
    Residue.Unique(n, a, rest, 256 * p);
  }

  /** The four bytes of a 32-bit number, from the highest. */
  lemma FourBytes(n: nat)
    ensures EncodeBE(n, 4) == [n / 0x100_0000 % 256, n / 0x1_0000 % 256, n / 0x100 % 256, n % 256]
  {
    forall i | 0 <= i < 4 { BigEndian(n, 4, i); }
    assert Pow256(3) == 0x100_0000 && Pow256(2) == 0x1_0000 && Pow256(1) == 0x100;
  }

  lemma TwoBytes(n: nat)
    ensures EncodeBE(n, 2) == [n / 0x100 % 256, n % 256]
  {
    forall i | 0 <= i < 2 { BigEndian(n, 2, i); }
    assert Pow256(1) == 0x100;
  }

  /** The number that four bytes stand for. */
  function Number(a: byte, b: byte, c: byte, d: byte): nat {
    a * 0x100_0000 + b * 0x1_0000 + c * 0x100 + d
  }

  function Short(a: byte, b: byte): nat {
    a * 0x100 + b
  }

  lemma ReadFour(s: seq<byte>)
    requires |s| == 4
    ensures DecodeBE(s) == Number(s[0], s[1], s[2], s[3])
  {
    var t := s[..3];
    assert t[..2] == s[..2] && s[..2][..1] == s[..1];
    ReadTwo(s[..2]);
    assert DecodeBE(t) == 256 * Short(s[0], s[1]) + s[2];
  }

  lemma ReadTwo(s: seq<byte>)
    requires |s| == 2
    ensures DecodeBE(s) == Short(s[0], s[1])
  {
    assert DecodeBE(s[..1]) == s[0] by { assert s[..1][..0] == []; }
  }

  function Long(s: seq<byte>): nat
    requires |s| == 8
  {
    Number(s[0], s[1], s[2], s[3]) * 0x1_0000_0000 + Number(s[4], s[5], s[6], s[7])
  }

  lemma ReadEight(s: seq<byte>)
    requires |s| == 8
    ensures DecodeBE(s) == Long(s)
  {
    ReadFour(s[..4]);
    var s5, s6, s7 := s[..5], s[..6], s[..7];
    assert s5[..4] == s[..4] && s6[..5] == s5 && s7[..6] == s6;
    assert DecodeBE(s5) == 256 * DecodeBE(s[..4]) + s[4];
    assert DecodeBE(s6) == 256 * DecodeBE(s5) + s[5];
    assert DecodeBE(s7) == 256 * DecodeBE(s6) + s[6];
  }

  // ---------- frames ----------

  /** A frame header: four bytes of length, two of padding length, four of sequence number. */
  lemma HeaderLayout(dataLen: nat, padLen: nat, sn: nat)
    ensures Framing.FrameHeader(dataLen, padLen, sn) ==
            [dataLen / 0x100_0000 % 256, dataLen / 0x1_0000 % 256, dataLen / 0x100 % 256, dataLen % 256,
             padLen / 0x100 % 256, padLen % 256,
             sn / 0x100_0000 % 256, sn / 0x1_0000 % 256, sn / 0x100 % 256, sn % 256]
  {
    FourBytes(dataLen);
    TwoBytes(padLen);
    FourBytes(sn);
  }

  /** What the scanner makes of a buffer, exactly: it waits below ten bytes, then refuses a length above the limit, then
      waits for payload and padding, and then hands over the payload and drops the padding. */
  lemma ScannedExactly(s: seq<byte>, limit: nat)
    ensures |s| < 10 ==> Framing.ParseOne(s, limit) == Framing.Incomplete
    ensures |s| >= 10 ==>
              var dataLen, padLen := Number(s[0], s[1], s[2], s[3]), Short(s[4], s[5]);
              && (Framing.ParseOne(s, limit) == Framing.TooLong <==> dataLen > limit)
              && (Framing.ParseOne(s, limit) == Framing.Incomplete <==> dataLen <= limit && |s| < 10 + dataLen + padLen)
              && (dataLen <= limit && |s| >= 10 + dataLen + padLen ==>
                    Framing.ParseOne(s, limit) ==
                    Framing.Parsed(s[10..10 + dataLen], Number(s[6], s[7], s[8], s[9]), s[10 + dataLen + padLen..]))
  {
    hide DecodeBE;
    if |s| >= 10 {
      ReadFour(s[0..4]);
      ReadTwo(s[4..6]);
      ReadFour(s[6..10]);
    }
  }

  // ---------- mode controls ----------

  /** A mode control: kind 2, the operation, two zero bytes, eight bytes of generation, four of boundary. */
  lemma ControlLayout(c: FecMode.Control, i: nat)
    requires i < 16
    ensures FecMode.Encode(c)[..4] == [2, c.op, 0, 0]
    ensures 4 <= i < 12 ==> FecMode.Encode(c)[i] == c.generation / Pow256(11 - i) % 256
    ensures 12 <= i ==> FecMode.Encode(c)[i] == c.boundary / Pow256(15 - i) % 256
  {
    hide EncodeBE;
    var wire := FecMode.Encode(c);
    if 4 <= i < 12 {
      assert wire[i] == EncodeBE(c.generation, 8)[i - 4];
      BigEndian(c.generation, 8, i - 4);
    } else if 12 <= i {
      assert wire[i] == EncodeBE(c.boundary, 4)[i - 12];
      BigEndian(c.boundary, 4, i - 12);
    }
  }

  predicate Zero(s: seq<byte>) {
    forall i | 0 <= i < |s| :: s[i] == 0
  }

  lemma ZeroFour(s: seq<byte>)
    requires |s| == 4
    ensures Number(s[0], s[1], s[2], s[3]) == 0 <==> Zero(s)
  {
    assert Zero(s) <==> s[0] == 0 && s[1] == 0 && s[2] == 0 && s[3] == 0;
  }

  lemma ZeroLong(s: seq<byte>)
    requires |s| == 8
    ensures Long(s) == 0 <==> Zero(s)
  {
    hide Number;
    ZeroFour(s[..4]);
    ZeroFour(s[4..]);
    assert Zero(s) <==> Zero(s[..4]) && Zero(s[4..]);
  }

  /** A payload is a mode control exactly if it has 16 bytes, kind 2, operation 1 or 2, zero flags, and neither field is
      zero; the fields are then the numbers at bytes 4 and 12. */
  lemma ControlExactly(payload: seq<byte>)
    ensures FecMode.Parse(payload).Ok? <==>
              && |payload| == 16 && payload[0] == 2 && (payload[1] == 1 || payload[1] == 2) && payload[2] == 0 && payload[3] == 0
              && !Zero(payload[4..12]) && !Zero(payload[12..])
    ensures FecMode.Parse(payload).Ok? ==>
              FecMode.Parse(payload).value == FecMode.Control(
                Long(payload[4..12]), payload[1], Number(payload[12], payload[13], payload[14], payload[15]))
  {
    hide DecodeBE, Long, Zero, Number;
    if |payload| == 16 {
      assert payload[12..] == payload[12..16];
      ReadEight(payload[4..12]);
      ZeroLong(payload[4..12]);
      ReadFour(payload[12..16]);
      ZeroFour(payload[12..16]);
    }
  }

  // ---------- parity records ----------

  /** A parity record: kind 1, four bytes of start, one byte of group size, four bytes for each member's length, then the
      XOR body, sealed if there is a cipher. */
  lemma ParityLayout(ic: Option<Cipher>, start: nat, lens: seq<nat>, body: Frame)
    requires |lens| < 256
    ensures var payload := Build(ic, start, lens, body);
            var k := |lens|;
            && payload[..6] == [1, start / 0x100_0000 % 256, start / 0x1_0000 % 256, start / 0x100 % 256, start % 256, k]
            && (forall j | 0 <= j < k :: payload[6 + 4 * j..10 + 4 * j] == EncodeBE(lens[j], 4))
            && payload[6 + 4 * k..] == (if ic.Some? && |body| > 0 then ic.value.seal(body, start, |body| + 16) else body)
  {
    hide EncodeBE, EncodeLens, Head;
    HeadLayout(start, |lens|);
    var payload := Build(ic, start, lens, body);
    Pieces(Head(start, |lens|), EncodeLens(lens), Sealed(ic, body, start));
    forall j | 0 <= j < |lens| ensures payload[6 + 4 * j..10 + 4 * j] == EncodeBE(lens[j], 4) {
      LengthAt(lens, j);
      assert payload[6..6 + 4 * |lens|][4 * j..4 * j + 4] == payload[6 + 4 * j..10 + 4 * j];
    }
  }

  lemma HeadLayout(start: nat, k: nat)
    requires k < 256
    ensures Head(start, k) == [1, start / 0x100_0000 % 256, start / 0x1_0000 % 256, start / 0x100 % 256, start % 256, k]
  {
    hide EncodeBE;
    FourBytes(start);
  }

  lemma {:induction false} LengthAt(lens: seq<nat>, j: nat)
    requires j < |lens|
    ensures EncodeLens(lens)[4 * j..4 * j + 4] == EncodeBE(lens[j], 4)
  {
    hide EncodeBE;
    var first, rest := EncodeBE(lens[0], 4), EncodeLens(lens[1..]);
    if j == 0 {
    } else {
      LengthAt(lens[1..], j - 1);
      assert (first + rest)[4 * j..4 * j + 4] == rest[4 * (j - 1)..4 * (j - 1) + 4];
    }
  }

  /** A parity header is accepted exactly if the record has seven bytes or more, kind 1, this group size, and a start
      that is a group boundary. */
  lemma ParityAccepted(k: nat, payload: Frame)
    requires k > 0
    ensures ParseHeader(k, payload).Ok? <==>
              && |payload| >= 7 && payload[0] == 1 && payload[5] == k
              && var start := Number(payload[1], payload[2], payload[3], payload[4]); start > 0 && (start - 1) % k == 0
    ensures ParseHeader(k, payload).Ok? ==>
              ParseHeader(k, payload).value == Number(payload[1], payload[2], payload[3], payload[4])
  {
    hide DecodeBE;
    if |payload| >= 7 { ReadFour(payload[1..5]); }
  }

  lemma {:induction false} LengthRead(s: seq<byte>, j: nat)
    requires 4 * j + 4 <= |s|
    ensures j < |DecodeLens(s)| && DecodeLens(s)[j] == Number(s[4 * j], s[4 * j + 1], s[4 * j + 2], s[4 * j + 3])
  {
    hide DecodeBE;
    if j == 0 {
      ReadFour(s[..4]);
    } else {
      LengthRead(s[4..], j - 1);
    }
  }

  /** The length of member `j`, as the record gives it. */
  function LengthOf(payload: Frame, j: nat): nat
    requires 10 + 4 * j <= |payload|
  {
    Number(payload[6 + 4 * j], payload[7 + 4 * j], payload[8 + 4 * j], payload[9 + 4 * j])
  }

  /** The length table of a record for a group of `k`. */
  function Table(k: nat, payload: Frame): seq<nat>
    requires |payload| >= 6 + 4 * k
  {
    seq(k, j requires 0 <= j < k => LengthOf(payload, j))
  }

  lemma TableRead(k: nat, payload: Frame)
    requires |payload| >= 6 + 4 * k
    ensures DecodeLens(payload[6..6 + 4 * k]) == Table(k, payload)
  {
    hide DecodeLens, Number;
    forall j | 0 <= j < k ensures DecodeLens(payload[6..6 + 4 * k])[j] == LengthOf(payload, j) {
      LengthRead(payload[6..6 + 4 * k], j);
    }
  }

  lemma FieldsExactly(ic: Option<Cipher>, lens: seq<nat>, rest: Frame, start: nat)
    requires |rest| >= TagLen(ic)
    ensures var wire := MaxOf(lens) + TagLen(ic);
            var r := ParseFields(ic, lens, rest, start);
            && (r.Ok? ==> wire <= |rest| && r.value.lens == lens)
            && (wire <= |rest| ==>
                  if ic.None? then r == Ok(Held(lens, rest[..wire]))
                  else var plain := ic.value.open(rest[..wire], start, wire);
                       if plain.Some? then r == Ok(Held(lens, plain.value)) else r.Err?)
  {
    if forall j | 0 <= j < |lens| :: lens[j] + TagLen(ic) <= |rest| { FitsBody(lens, TagLen(ic), |rest|); }
  }

  /** The rest of a parity record is accepted exactly if the length table is there, the longest member (with 16 bytes of
      tag under a cipher) fits what follows, and that many bytes open under the group's start. What is held is the table
      and those bytes, opened. */
  lemma BodyExactly(k: nat, ic: Option<Cipher>, payload: Frame, start: nat)
    ensures var tag := if ic.Some? then 16 else 0;
            var r := ParseBody(k, ic, payload, start);
            if |payload| < 6 + 4 * k + tag then r.Err?
            else
              var lens := Table(k, payload);
              var end := 6 + 4 * k + MaxOf(lens) + tag;
              if end > |payload| then r.Err?
              else if ic.None? then r == Ok(Held(lens, payload[6 + 4 * k..end]))
              else
                var plain := ic.value.open(payload[6 + 4 * k..end], start, MaxOf(lens) + 16);
                if plain.Some? then r == Ok(Held(lens, plain.value)) else r.Err?
  {
    hide DecodeLens, Number, ParseFields, Table;
    if |payload| >= 6 + 4 * k + TagLen(ic) {
      TableRead(k, payload);
      var lens, rest := Table(k, payload), payload[6 + 4 * k..];
      FieldsExactly(ic, lens, rest, start);
      var wire := MaxOf(lens) + TagLen(ic);
      assert wire <= |rest| ==> rest[..wire] == payload[6 + 4 * k..6 + 4 * k + wire];
    }
  }
}
