/** Stream framing: a 10-byte header (length, padding, sequence number), the payload, the padding
    (src/frame.rs). */
module Framing {
  import opened Bytes
  import opened Parity

  const HEADER_SIZE: nat := 10
  const MAX_DATA_LENGTH: nat := 65535 * 2

  // ---------- one frame ----------

  datatype Item = Item(sn: nat, data: Frame)

  /** The payload on the wire: control frames are never encrypted. */
  function WireOf(ic: Option<Cipher>, item: Item): Frame {
    if item.sn != 0 then Sealed(ic, item.data, item.sn) else item.data
  }

  function FrameHeader(dataLen: nat, padLen: nat, sn: nat): (h: seq<byte>)
    ensures |h| == HEADER_SIZE
  {
    EncodeBE(dataLen, 4) + EncodeBE(padLen, 2) + EncodeBE(sn, 4)
  }

  /** `append_padded_frame_with_limit`, with the padding bytes it drew. */
  function Print(ic: Option<Cipher>, item: Item, pad: Frame): Frame {
    var wire := WireOf(ic, item);
    FrameHeader(|wire|, |pad|, item.sn) + wire + pad
  }

  datatype Outcome = Incomplete | TooLong | Parsed(payload: Frame, sn: nat, rest: seq<byte>)

  /** The first frame of a byte stream, if it is there. */
  function ParseOne(s: seq<byte>, limit: nat): Outcome {
    if |s| < HEADER_SIZE then Incomplete
    else
      var dataLen, padLen, sn := DecodeBE(s[0..4]), DecodeBE(s[4..6]), DecodeBE(s[6..10]);
      if dataLen > limit then TooLong
      else if |s| < HEADER_SIZE + dataLen + padLen then Incomplete
      else Parsed(s[HEADER_SIZE..HEADER_SIZE + dataLen], sn, s[HEADER_SIZE + dataLen + padLen..])
  }

  /** An item that fits the header and the receiver's limit. */
  predicate Fits(ic: Option<Cipher>, item: Item, pad: Frame, limit: nat) {
    |WireOf(ic, item)| <= limit <= U32_MAX && |pad| <= U16_MAX && item.sn <= U32_MAX
  }

  lemma HeaderFields(h: seq<byte>, dataLen: nat, padLen: nat, sn: nat)
    requires dataLen <= U32_MAX && padLen <= U16_MAX && sn <= U32_MAX
    requires |h| >= HEADER_SIZE && h[..HEADER_SIZE] == FrameHeader(dataLen, padLen, sn)
    ensures DecodeBE(h[0..4]) == dataLen && DecodeBE(h[4..6]) == padLen && DecodeBE(h[6..10]) == sn
  {
    hide DecodeBE, EncodeBE;
    Widths();
    var f := h[..HEADER_SIZE];
    assert h[0..4] == f[0..4] == EncodeBE(dataLen, 4);
    assert h[4..6] == f[4..6] == EncodeBE(padLen, 2);
    assert h[6..10] == f[6..10] == EncodeBE(sn, 4);
    DecodeEncodeBE(dataLen, 4);
    DecodeEncodeBE(padLen, 2);
    DecodeEncodeBE(sn, 4);
  }

  /** A printed frame parses back, whatever its padding and whatever follows. */
  lemma ParsePrinted(ic: Option<Cipher>, item: Item, pad: Frame, more: seq<byte>, limit: nat)
    requires Fits(ic, item, pad, limit)
    ensures ParseOne(Print(ic, item, pad) + more, limit) == Parsed(WireOf(ic, item), item.sn, more)
  {
    hide DecodeBE, EncodeBE, WireOf;
    var wire := WireOf(ic, item);
    var head := FrameHeader(|wire|, |pad|, item.sn);
    var s := Print(ic, item, pad) + more;
    assert s == head + (wire + (pad + more));
    assert s[..HEADER_SIZE] == head;
    HeaderFields(s, |wire|, |pad|, item.sn);
    assert s[HEADER_SIZE..HEADER_SIZE + |wire|] == wire;
    assert s[HEADER_SIZE + |wire| + |pad|..] == more;
  }

  /** More bytes never change a frame that is already complete, nor an error. */
  lemma ParseMore(s: seq<byte>, more: seq<byte>, limit: nat)
    ensures ParseOne(s, limit).TooLong? ==> ParseOne(s + more, limit).TooLong?
    ensures ParseOne(s, limit).Parsed? ==>
              ParseOne(s + more, limit) == ParseOne(s, limit).(rest := ParseOne(s, limit).rest + more)
  {
    hide DecodeBE;
    if |s| >= HEADER_SIZE {
      assert (s + more)[0..4] == s[0..4] && (s + more)[4..6] == s[4..6] && (s + more)[6..10] == s[6..10];
      var dataLen, padLen := DecodeBE(s[0..4]), DecodeBE(s[4..6]);
      if |s| >= HEADER_SIZE + dataLen + padLen {
        assert (s + more)[HEADER_SIZE..HEADER_SIZE + dataLen] == s[HEADER_SIZE..HEADER_SIZE + dataLen];
        assert (s + more)[HEADER_SIZE + dataLen + padLen..] == s[HEADER_SIZE + dataLen + padLen..] + more;
      }
    }
  }

  lemma ParseShrinks(s: seq<byte>, limit: nat)
    ensures ParseOne(s, limit).Parsed? ==> |ParseOne(s, limit).rest| + HEADER_SIZE <= |s|
  {
  }

  // ---------- lists of frames ----------

  datatype Sending = Sending(item: Item, pad: Frame)

  function PrintAll(ic: Option<Cipher>, list: seq<Sending>): Frame {
    if |list| == 0 then [] else Print(ic, list[0].item, list[0].pad) + PrintAll(ic, list[1..])
  }

  datatype Wire = Wire(payload: Frame, sn: nat)

  /** All complete frames of a stream up to the first error, and the bytes after them. */
  function ParseAll(s: seq<byte>, limit: nat): (seq<Wire>, seq<byte>)
    decreases |s|
  {
    match ParseOne(s, limit)
    case Parsed(payload, sn, rest) =>
      ParseShrinks(s, limit);
      var (frames, left) := ParseAll(rest, limit);
      ([Wire(payload, sn)] + frames, left)
    case _ => ([], s)
  }

  function Wires(ic: Option<Cipher>, list: seq<Sending>): (r: seq<Wire>)
    ensures |r| == |list|
  {
    seq(|list|, i requires 0 <= i < |list| => Wire(WireOf(ic, list[i].item), list[i].item.sn))
  }

  predicate AllFit(ic: Option<Cipher>, list: seq<Sending>, limit: nat) {
    forall i | 0 <= i < |list| :: Fits(ic, list[i].item, list[i].pad, limit)
  }

  lemma {:induction false} ParsePrintedList(ic: Option<Cipher>, list: seq<Sending>, limit: nat)
    requires AllFit(ic, list, limit)
    ensures ParseAll(PrintAll(ic, list), limit) == (Wires(ic, list), [])
  {
    hide Print, WireOf, ParseOne, Fits;
    if |list| == 0 {
      NothingParses(limit);
    } else {
      ParsePrinted(ic, list[0].item, list[0].pad, PrintAll(ic, list[1..]), limit);
      ParsePrintedList(ic, list[1..], limit);
      assert Wires(ic, list) == [Wire(WireOf(ic, list[0].item), list[0].item.sn)] + Wires(ic, list[1..]);
    }
  }

  lemma NothingParses(limit: nat)
    ensures ParseOne([], limit) == Incomplete
  {
  }

  lemma {:induction false} PrintAllAppend(ic: Option<Cipher>, list: seq<Sending>, last: Sending)
    ensures PrintAll(ic, list + [last]) == PrintAll(ic, list) + Print(ic, last.item, last.pad)
  {
    hide Print;
    if |list| == 0 {
      assert list + [last] == [last] && [last][1..] == [];
    } else {
      assert (list + [last])[1..] == list[1..] + [last];
      PrintAllAppend(ic, list[1..], last);
    }
  }

  // ---------- decryption by the reader ----------

  function OpenWire(ic: Option<Cipher>, w: Wire): Option<Item> {
    if w.sn != 0 && ic.Some? && |w.payload| > 0 then
      var plain := ic.value.open(w.payload, w.sn, |w.payload|);
      if plain.None? then None else Some(Item(w.sn, plain.value))
    else Some(Item(w.sn, w.payload))
  }

  /** What was sealed for a frame opens to that frame. */
  lemma OpenSealed(ic: Option<Cipher>, item: Item)
    requires SoundCipher(ic)
    ensures OpenWire(ic, Wire(WireOf(ic, item), item.sn)) == Some(item)
  {
    if item.sn != 0 && ic.Some? && |item.data| > 0 {
      assert |ic.value.seal(item.data, item.sn, |item.data| + TAG_LEN)| == |item.data| + TAG_LEN;
    }
  }
}
