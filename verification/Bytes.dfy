/** Bytes, option and result wrappers, least elements, and the big-endian integer codec shared by every wire format. */
module Bytes {

  type byte = n: nat | n < 256

  const U16_MAX: nat := 0xFFFF
  const U32_MAX: nat := 0xFFFF_FFFF
  const U64_MAX: nat := 0xFFFF_FFFF_FFFF_FFFF

  datatype Option<+T> = None | Some(value: T)

  datatype Result<+T> = Ok(value: T) | Err(message: string)

  function Min(a: int, b: int): int {
    if a < b then a else b
  }

  function Max(a: int, b: int): int {
    if a < b then b else a
  }

  /** Unsigned saturating subtraction. */
  function SaturatingSub(a: nat, b: nat): nat {
    if a < b then 0 else a - b
  }

  /** The least number of a nonempty set. */
  ghost function LeastOf(s: set<nat>): (m: nat)
    requires s != {}
    ensures m in s && forall t | t in s :: m <= t
  {
    HasLeast(s);
    var m :| m in s && forall t | t in s :: m <= t;
    m
  }

  lemma FindLeast(s: set<nat>) returns (m: nat)
    requires s != {}
    ensures m in s && forall t | t in s :: m <= t
  {
    m :| m in s;
    var rest := s - {m};
    assert forall t | t in s :: t == m || t in rest;
    if rest == {} {
    } else {
      var r := FindLeast(rest);
      if r < m { m := r; }
    }
  }

  lemma HasLeast(s: set<nat>)
    requires s != {}
    ensures exists m :: m in s && forall t | t in s :: m <= t
  {
    var m := FindLeast(s);
  }

  function Pow256(w: nat): (p: nat)
    ensures p > 0
  {
    if w == 0 then 1 else 256 * Pow256(w - 1)
  }

  /** The `w` low bytes of `n`, most significant first. */
  function EncodeBE(n: nat, w: nat): (s: seq<byte>)
    ensures |s| == w
  {
    if w == 0 then [] else EncodeBE(n / 256, w - 1) + [n % 256]
  }

  function DecodeBE(s: seq<byte>): nat {
    if |s| == 0 then 0 else 256 * DecodeBE(s[..|s| - 1]) + s[|s| - 1]
  }

  /** Decoding inverts encoding for every integer that fits the width. */
  lemma {:induction false} DecodeEncodeBE(n: nat, w: nat)
    requires n < Pow256(w)
    ensures DecodeBE(EncodeBE(n, w)) == n
  {
    if w == 0 {
    } else {
      var s := EncodeBE(n, w);
      assert s[..|s| - 1] == EncodeBE(n / 256, w - 1);
      DecodeEncodeBE(n / 256, w - 1);
    }
  }

  /** Encoding inverts decoding: every byte string is the encoding of what it decodes to. */
  lemma {:induction false} EncodeDecodeBE(s: seq<byte>)
    ensures DecodeBE(s) < Pow256(|s|)
    ensures EncodeBE(DecodeBE(s), |s|) == s
  {
    if |s| == 0 {
    } else {
      var front, last := s[..|s| - 1], s[|s| - 1];
      EncodeDecodeBE(front);
      assert DecodeBE(s) / 256 == DecodeBE(front);
      assert s == front + [last];
    }
  }

  lemma Widths()
    ensures Pow256(2) == U16_MAX + 1
    ensures Pow256(4) == U32_MAX + 1
    ensures Pow256(8) == U64_MAX + 1
  {
    assert Pow256(3) == 0x100_0000;
    assert Pow256(5) == 0x100_0000_0000;
    assert Pow256(6) == 0x1_0000_0000_0000;
    assert Pow256(7) == 0x100_0000_0000_0000;
  }
}
