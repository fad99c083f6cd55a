/** Exclusive or on bytes and on 64-bit words, and the word-at-a-time loops of the FEC codec.

    A machine word is modelled as its binary digits, least significant first, so that loading eight
    bytes, XORing and storing them back can be related to the byte-by-byte meaning. */
module Xor {
  import opened Bytes

  // ---------- binary digits ----------

  function Bits(n: nat, w: nat): (s: seq<bool>)
    ensures |s| == w
  {
    if w == 0 then [] else [n % 2 == 1] + Bits(n / 2, w - 1)
  }

  function Value(s: seq<bool>): nat {
    if |s| == 0 then 0 else (if s[0] then 1 else 0) + 2 * Value(s[1..])
  }

  function Pow2(n: nat): nat {
    if n == 0 then 1 else 2 * Pow2(n - 1)
  }

  lemma {:induction false} BitsOfValue(s: seq<bool>)
    ensures Bits(Value(s), |s|) == s && Value(s) < Pow2(|s|)
  {
    if |s| == 0 {
    } else {
      BitsOfValue(s[1..]);
    }
  }

  lemma {:induction false} ValueOfBits(n: nat, w: nat)
    requires n < Pow2(w)
    ensures Value(Bits(n, w)) == n
  {
    if w == 0 {
    } else {
      ValueOfBits(n / 2, w - 1);
    }
  }

  lemma Pow2Of8()
    ensures Pow2(8) == 256
  {
    assert Pow2(4) == 16;
    assert Pow2(6) == 64;
  }

  /** XOR of two words of the same width. */
  function XorWord(s: seq<bool>, t: seq<bool>): (d: seq<bool>)
    requires |s| == |t|
    ensures |d| == |s|
  {
    seq(|s|, i requires 0 <= i < |s| => s[i] != t[i])
  }

  function XorByte(a: byte, b: byte): byte
  {
    BitsOfValue(XorWord(Bits(a, 8), Bits(b, 8)));
    Pow2Of8();
    Value(XorWord(Bits(a, 8), Bits(b, 8)))
  }

  lemma XorByteBits(a: byte, b: byte)
    ensures Bits(XorByte(a, b), 8) == XorWord(Bits(a, 8), Bits(b, 8))
  {
    BitsOfValue(XorWord(Bits(a, 8), Bits(b, 8)));
  }

  lemma SameBits(a: byte, b: byte)
    requires Bits(a, 8) == Bits(b, 8)
    ensures a == b
  {
    Pow2Of8();
    ValueOfBits(a, 8);
    ValueOfBits(b, 8);
  }

  lemma XorByteCommutes(a: byte, b: byte)
    ensures XorByte(a, b) == XorByte(b, a)
  {
    XorByteBits(a, b);
    XorByteBits(b, a);
    SameBits(XorByte(a, b), XorByte(b, a));
  }

  lemma XorByteAssociates(a: byte, b: byte, c: byte)
    ensures XorByte(XorByte(a, b), c) == XorByte(a, XorByte(b, c))
  {
    XorByteBits(a, b);
    XorByteBits(b, c);
    XorByteBits(XorByte(a, b), c);
    XorByteBits(a, XorByte(b, c));
    SameBits(XorByte(XorByte(a, b), c), XorByte(a, XorByte(b, c)));
  }

  lemma ZeroBits(w: nat)
    ensures forall i | 0 <= i < w :: !Bits(0, w)[i]
  {
  }

  lemma XorByteZero(a: byte)
    ensures XorByte(a, 0) == a == XorByte(0, a)
    ensures XorByte(a, a) == 0
  {
    ZeroBits(8);
    XorByteBits(a, 0);
    XorByteBits(0, a);
    XorByteBits(a, a);
    SameBits(XorByte(a, 0), a);
    SameBits(XorByte(0, a), a);
    SameBits(XorByte(a, a), 0);
  }

  /** XORing the same byte in again takes it out. */
  lemma XorByteCancels(a: byte, b: byte)
    ensures XorByte(XorByte(a, b), a) == b
  {
    XorByteCommutes(a, b);
    XorByteAssociates(b, a, a);
    XorByteZero(a);
    XorByteZero(b);
  }

  // ---------- byte strings ----------

  /** The byte at `i` of `s` extended with zeros. */
  function At(s: seq<byte>, i: nat): byte {
    if i < |s| then s[i] else 0
  }

  /** `Vec::resize(n, 0)` when `n` is longer, nothing otherwise. */
  function Extend(s: seq<byte>, n: nat): (r: seq<byte>)
    ensures |r| == Max(|s|, n)
    ensures forall i: nat :: At(r, i) == At(s, i)
  {
    if n <= |s| then s else s + seq(n - |s|, _ => 0)
  }

  /** `acc` with `data` XORed into its first `|data|` bytes. */
  function XorOnto(acc: seq<byte>, data: seq<byte>): (r: seq<byte>)
    requires |data| <= |acc|
    ensures |r| == |acc|
  {
    seq(|acc|, i requires 0 <= i < |acc| => XorByte(acc[i], At(data, i)))
  }

  // ---------- the word loops ----------

  function LoadWord(s: seq<byte>): (w: seq<bool>)
    ensures |w| == 8 * |s|
  {
    if |s| == 0 then [] else Bits(s[0], 8) + LoadWord(s[1..])
  }

  function StoreWord(w: seq<bool>): (s: seq<byte>)
    requires |w| % 8 == 0
    ensures |s| == |w| / 8
  {
    if |w| == 0 then []
    else
      BitsOfValue(w[..8]);
      Pow2Of8();
      [Value(w[..8])] + StoreWord(w[8..])
  }

  /** The bytes of the XOR of two words are the XORs of their bytes. */
  lemma {:induction false} WordXor(a: seq<byte>, b: seq<byte>)
    requires |a| == |b|
    ensures StoreWord(XorWord(LoadWord(a), LoadWord(b))) == XorOnto(a, b)
  {
    if |a| == 0 {
    } else {
      var w := XorWord(LoadWord(a), LoadWord(b));
      WordXor(a[1..], b[1..]);
      assert w[..8] == XorWord(Bits(a[0], 8), Bits(b[0], 8));
      assert w[8..] == XorWord(LoadWord(a[1..]), LoadWord(b[1..]));
      assert XorOnto(a, b) == [XorByte(a[0], b[0])] + XorOnto(a[1..], b[1..]);
    }
  }

  /** One step of the word loops: load two 64-bit words, XOR them, store the bytes. */
  method XorChunk(out: array<byte>, o: nat, a: seq<byte>, b: seq<byte>)
    requires |a| == |b| == 8 && o + 8 <= out.Length
    modifies out
    ensures forall i | 0 <= i < out.Length ::
              out[i] == if o <= i < o + 8 then XorByte(a[i - o], b[i - o]) else old(out[i])
  {
    WordXor(a, b);
    var x := StoreWord(XorWord(LoadWord(a), LoadWord(b)));
    assert x == XorOnto(a, b);
    for j := 0 to 8
      invariant forall i | 0 <= i < out.Length ::
                  out[i] == if o <= i < o + j then x[i - o] else old(out[i])
    {
      out[o + j] := x[j];
    }
  }

  /** `xor_into`: eight bytes at a time as one word, then the tail byte by byte. */
  method XorInto(acc: array<byte>, data: seq<byte>)
    requires |data| <= acc.Length
    modifies acc
    ensures acc[..] == XorOnto(old(acc[..]), data)
  {
    var words := |data| / 8;
    for w := 0 to words
      invariant forall i | 0 <= i < 8 * w :: acc[i] == XorByte(old(acc[i]), data[i])
      invariant forall i | 8 * w <= i < acc.Length :: acc[i] == old(acc[i])
    {
      XorChunk(acc, 8 * w, acc[8 * w..8 * w + 8], data[8 * w..8 * w + 8]);
    }
    for i := 8 * words to |data|
      invariant forall j | 0 <= j < i :: acc[j] == XorByte(old(acc[j]), data[j])
      invariant forall j | i <= j < acc.Length :: acc[j] == old(acc[j])
    {
      acc[i] := XorByte(acc[i], data[i]);
    }
    forall i | |data| <= i < acc.Length ensures XorByte(acc[i], 0) == acc[i] { XorByteZero(acc[i]); }
  }

  /** `xor_combine`: the common prefix of `out` becomes the XOR of the two inputs. */
  method XorCombine(out: array<byte>, parity: seq<byte>, acc: seq<byte>)
    modifies out
    ensures forall i | 0 <= i < out.Length ::
              out[i] == if i < |parity| && i < |acc| then XorByte(parity[i], acc[i]) else old(out[i])
  {
    var n := Min(out.Length, Min(|parity|, |acc|));
    var words := n / 8;
    for w := 0 to words
      invariant forall i | 0 <= i < 8 * w :: out[i] == XorByte(parity[i], acc[i])
      invariant forall i | 8 * w <= i < out.Length :: out[i] == old(out[i])
    {
      XorChunk(out, 8 * w, parity[8 * w..8 * w + 8], acc[8 * w..8 * w + 8]);
    }
    for i := 8 * words to n
      invariant forall j | 0 <= j < i :: out[j] == XorByte(parity[j], acc[j])
      invariant forall j | i <= j < out.Length :: out[j] == old(out[j])
    {
      out[i] := XorByte(parity[i], acc[i]);
    }
  }
}
