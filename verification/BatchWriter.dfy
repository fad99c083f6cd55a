/** Turning queued batches into one TLS plaintext write: frame after frame, then bounded tail padding
    (src/frame.rs, src/crypto.rs, src/server.rs, src/client.rs). */
module BatchWriter {
  import opened Bytes
  import opened Parity
  import opened Framing
  import opened BatchQueue
  import Residue

  const MAX_TLS_PLAINTEXT_RECORD: nat := 16 * 1024
  const BATCH_SOFT_LIMIT: nat := 12 * 1024
  const PAD_RATIO_PERCENT: nat := 10
  const PAD_ABSOLUTE_LIMIT: nat := 512
  const TLS_RECORD_OVERHEAD_RESERVE: nat := 32
  const FALLBACK_TCP_MSS: nat := 1440
  const PADDING_CACHE_LEN: nat := 1024 * 1024
  const WRITE_BUDGET: nat := MAX_TLS_PLAINTEXT_RECORD - PAD_ABSOLUTE_LIMIT
  const MAX_PULLED: nat := 2048
  const PAD_BUCKETS: seq<nat> := [128, 256, 384, 512, 768, 1024, 1280, 1600, 2048, 4096]

  // ---------- per-frame padding ----------

  /** The bucket search of `pad_bucket_with_limit`, from bucket `i` on. */
  function PadFrom(recordLen: nat, limit: nat, i: nat, draw: nat): nat
    requires i <= |PAD_BUCKETS|
    decreases |PAD_BUCKETS| - i
  {
    if i == |PAD_BUCKETS| then (if limit > 0 then 0 else 1 + draw % 100)
    else
      var target := if limit > 0 then Min(PAD_BUCKETS[i], limit) else PAD_BUCKETS[i];
      if recordLen < target then target - recordLen
      else if limit > 0 && PAD_BUCKETS[i] >= limit then 0
      else PadFrom(recordLen, limit, i + 1, draw)
  }

  function PadLength(off: bool, wireLen: nat, limit: nat, draw: nat): nat {
    if off then 0
    else if limit > 0 && HEADER_SIZE + wireLen >= limit then 0
    else PadFrom(HEADER_SIZE + wireLen, limit, 0, draw)
  }

  lemma {:induction false} PadFromBounds(recordLen: nat, limit: nat, i: nat, draw: nat)
    requires i <= |PAD_BUCKETS|
    ensures PadFrom(recordLen, limit, i, draw) <= 4096
    ensures limit > 0 ==> PadFrom(recordLen, limit, i, draw) + recordLen <= Max(recordLen, limit)
    decreases |PAD_BUCKETS| - i
  {
    if i >= |PAD_BUCKETS| {
    } else {
      assert PAD_BUCKETS[i] <= 4096;
      PadFromBounds(recordLen, limit, i + 1, draw);
    }
  }

  /** Padding always fits the header, never pushes a record past the limit, and a limit of one turns it
      off, which is how the data plane writes unpadded frames. */
  lemma PadLengthBounds(off: bool, wireLen: nat, limit: nat, draw: nat)
    ensures PadLength(off, wireLen, limit, draw) <= 4096 <= U16_MAX
    ensures limit > 0 ==> HEADER_SIZE + wireLen + PadLength(off, wireLen, limit, draw) <= Max(HEADER_SIZE + wireLen, limit)
    ensures limit == 1 ==> PadLength(off, wireLen, limit, draw) == 0
  {
    hide PadFrom;
    PadFromBounds(HEADER_SIZE + wireLen, limit, 0, draw);
  }

  predicate IsBucket(n: nat) {
    n == 128 || n == 256 || n == 384 || n == 512 || n == 768 || n == 1024 || n == 1280 || n == 1600 || n == 2048 || n == 4096
  }

  /** `n` is the least bucket above `len`. */
  predicate NextBucket(len: nat, n: nat) {
    len < n && IsBucket(n) && forall b | len < b < n :: !IsBucket(b)
  }

  /** A record is padded to the next bucket, or to the limit if that is nearer; beyond the largest bucket it gets 1 to 100
      bytes without a limit and none with one. */
  lemma PadLengthExactly(wireLen: nat, limit: nat, draw: nat)
    ensures var len, pad := 10 + wireLen, PadLength(false, wireLen, limit, draw);
            && (limit == 0 && len < 4096 ==> NextBucket(len, len + pad))
            && (limit == 0 && len >= 4096 ==> 1 <= pad <= 100 && pad == 1 + draw % 100)
            && (limit > 0 && (len >= limit || len >= 4096) ==> pad == 0)
            && (len < limit && len < 4096 ==> pad > 0 && len + pad <= limit && forall b | len < b < len + pad :: !IsBucket(b))
            && (len < limit && len < 4096 && len + pad < limit ==> IsBucket(len + pad))
    ensures PadLength(true, wireLen, limit, draw) == 0
  {
    hide IsBucket;
    if limit == 0 || 10 + wireLen < limit { BucketAt(wireLen, limit, draw, 0); }
  }

  lemma {:induction false} BucketAt(wireLen: nat, limit: nat, draw: nat, i: nat)
    requires i <= |PAD_BUCKETS| && (i > 0 ==> PAD_BUCKETS[i - 1] <= 10 + wireLen) && (limit > 0 ==> 10 + wireLen < limit)
    ensures var len, pad := 10 + wireLen, PadFrom(10 + wireLen, limit, i, draw);
            && (len >= 4096 ==> pad == if limit > 0 then 0 else 1 + draw % 100)
            && (len < 4096 ==> pad > 0 && forall b | len < b < len + pad :: !IsBucket(b))
            && (len < 4096 ==> IsBucket(len + pad) || (limit > 0 && len + pad == limit))
            && (len < 4096 && limit > 0 ==> len + pad <= limit)
    decreases |PAD_BUCKETS| - i
  {
    hide IsBucket;
    if i == |PAD_BUCKETS| {
    } else {
      BetweenBuckets(i);
      var len := 10 + wireLen;
      if len >= PAD_BUCKETS[i] { BucketAt(wireLen, limit, draw, i + 1); }
    }
  }

  lemma BetweenBuckets(i: nat)
    requires i < |PAD_BUCKETS|
    ensures IsBucket(PAD_BUCKETS[i])
    ensures forall b | (if i == 0 then 0 else PAD_BUCKETS[i - 1]) < b < PAD_BUCKETS[i] :: !IsBucket(b)
  {
  }

  // ---------- tail padding ----------

  function AlignedTarget(n: nat, limit: nat): nat {
    if n == 0 then 0
    else
      var wanted := limit + TLS_RECORD_OVERHEAD_RESERVE;
      var mss := if wanted < 256 then FALLBACK_TCP_MSS else wanted;
      var segments := (n + TLS_RECORD_OVERHEAD_RESERVE + mss - 1) / mss;
      var target := SaturatingSub(segments * mss, TLS_RECORD_OVERHEAD_RESERVE);
      if target < n || target > MAX_TLS_PLAINTEXT_RECORD then n else target
  }

  function PaddingBudget(n: nat): nat {
    Min(n * PAD_RATIO_PERCENT / 100, PAD_ABSOLUTE_LIMIT)
  }

  /** How many cover bytes `pad_stream_batch_tail` adds to a buffer of `n` bytes. */
  function TailPad(off: bool, n: nat, lastStart: Option<nat>, limit: nat, oldPad: nat): nat {
    if off || n == 0 || lastStart.None? || lastStart.value + HEADER_SIZE > n then 0
    else
      var padLen := SaturatingSub(AlignedTarget(n, limit), n);
      if padLen > U16_MAX || padLen > PaddingBudget(n) then 0
      else if oldPad + padLen > U16_MAX || padLen >= PADDING_CACHE_LEN then 0
      else padLen
  }

  /** Cover traffic is at most a tenth of the batch, at most 512 bytes, and never pushes a batch past the
      plaintext record size. */
  lemma TailPadBounds(off: bool, n: nat, lastStart: Option<nat>, limit: nat, oldPad: nat)
    ensures var pad := TailPad(off, n, lastStart, limit, oldPad);
            && 10 * pad <= n && pad <= PAD_ABSOLUTE_LIMIT
            && n + pad <= Max(n, MAX_TLS_PLAINTEXT_RECORD)
            && (pad > 0 ==> oldPad + pad <= U16_MAX)
  {
    hide AlignedTarget;
    assert AlignedTarget(n, limit) <= Max(n, MAX_TLS_PLAINTEXT_RECORD) by { AlignedBounds(n, limit); }
  }

  lemma AlignedBounds(n: nat, limit: nat)
    ensures n <= AlignedTarget(n, limit) <= Max(n, MAX_TLS_PLAINTEXT_RECORD)
  {
  }

  /** The segment that the padding fills: the record limit and the TLS overhead, or 1440 bytes if that is too small. */
  function Segment(limit: nat): (mss: nat)
    ensures mss > 0
  {
    if limit + 32 < 256 then 1440 else limit + 32
  }

  /** The padding is what is missing to fill the last segment, if that is at most a tenth of the batch, at most 512 bytes,
      and fits the record and the field; otherwise there is none. */
  lemma TailPadExactly(n: nat, start: nat, limit: nat, oldPad: nat, gap: nat)
    requires start + 10 <= n && gap < Segment(limit) && (n + 32 + gap) % Segment(limit) == 0
    ensures TailPad(false, n, Some(start), limit, oldPad)
         == if 10 * gap <= n && gap <= 512 && n + gap <= 16384 && oldPad + gap <= 65535 then gap else 0
    ensures TailPad(true, n, Some(start), limit, oldPad) == 0
  {
    hide AlignedTarget;
    AlignedFills(n, limit, gap);
  }

  lemma AlignedFills(n: nat, limit: nat, gap: nat)
    requires n > 0 && gap < Segment(limit) && (n + 32 + gap) % Segment(limit) == 0
    ensures AlignedTarget(n, limit) == if n + gap <= 16384 then n + gap else n
  {
    var mss := Segment(limit);
    var q := (n + 32 + gap) / mss;
    assert n + 32 + mss - 1 == q * mss + (mss - 1 - gap);
    Residue.Unique(n + 32 + mss - 1, q, mss - 1 - gap, mss);
  }

  /** The padding length of the frame at `start`. */
  function PadField(buf: seq<byte>, start: nat): nat
    requires start + HEADER_SIZE <= |buf|
  {
    DecodeBE(buf[start + 4..start + 6])
  }

  /** The buffer with its last frame's padding grown by `cover`. */
  function Repadded(buf: seq<byte>, start: nat, cover: seq<byte>): seq<byte>
    requires start + HEADER_SIZE <= |buf|
  {
    buf[..start + 4] + EncodeBE(PadField(buf, start) + |cover|, 2) + buf[start + 6..] + cover
  }

  lemma PrintedPadField(ic: Option<Cipher>, front: seq<byte>, item: Item, pad: Frame)
    requires Fits(ic, item, pad, MAX_DATA_LENGTH)
    ensures |front| + HEADER_SIZE <= |front + Print(ic, item, pad)|
    ensures PadField(front + Print(ic, item, pad), |front|) == |pad|
  {
    hide DecodeBE, EncodeBE, WireOf;
    var buf, p := front + Print(ic, item, pad), Print(ic, item, pad);
    assert p[..HEADER_SIZE] == FrameHeader(|WireOf(ic, item)|, |pad|, item.sn);
    HeaderFields(p, |WireOf(ic, item)|, |pad|, item.sn);
    assert buf[|front| + 4..|front| + 6] == p[4..6];
  }

  /** Tail padding is invisible to the parser: it only lengthens the padding of the last frame. */
  lemma RepaddedPrint(ic: Option<Cipher>, front: seq<byte>, item: Item, pad: Frame, cover: Frame)
    requires Fits(ic, item, pad, MAX_DATA_LENGTH)
    requires |front| + HEADER_SIZE <= |front + Print(ic, item, pad)|
    ensures Repadded(front + Print(ic, item, pad), |front|, cover) == front + Print(ic, item, pad + cover)
  {
    hide DecodeBE, EncodeBE, WireOf, PadField;
    PrintedPadField(ic, front, item, pad);
    var wire := WireOf(ic, item);
    var a, c := EncodeBE(|wire|, 4), EncodeBE(item.sn, 4);
    var buf := front + Print(ic, item, pad);
    assert buf == front + a + EncodeBE(|pad|, 2) + c + wire + pad;
    assert buf[..|front| + 4] == front + a;
    assert buf[|front| + 6..] == c + wire + pad;
    assert Print(ic, item, pad + cover) == a + EncodeBE(|pad| + |cover|, 2) + c + wire + (pad + cover);
    assert front + Print(ic, item, pad + cover) == front + a + EncodeBE(|pad| + |cover|, 2) + (c + wire + pad) + cover;
  }

  /** `draw` is what the random source returned. */
  method PadStreamBatchTail(off: bool, buf: seq<byte>, lastStart: Option<nat>, limit: nat, cache: seq<byte>, draw: nat)
    returns (out: seq<byte>, added: nat)
    requires |cache| == PADDING_CACHE_LEN
    ensures added <= PAD_ABSOLUTE_LIMIT && 10 * added <= |buf|
    ensures |out| == |buf| + added <= Max(|buf|, MAX_TLS_PLAINTEXT_RECORD)
    ensures added == 0 ==> out == buf
    ensures var usable := lastStart.Some? && lastStart.value + HEADER_SIZE <= |buf|;
            added == TailPad(off, |buf|, lastStart, limit, if usable then PadField(buf, lastStart.value) else 0)
    ensures added > 0 ==>
              && lastStart.Some? && lastStart.value + HEADER_SIZE <= |buf|
              && PadField(buf, lastStart.value) + added <= U16_MAX
              && out == Repadded(buf, lastStart.value, Cover(cache, added, draw))
  {
    hide DecodeBE, EncodeBE, AlignedTarget;
    if off || buf == [] || lastStart.None? {
      return buf, 0;
    }
    var start := lastStart.value;
    if start + HEADER_SIZE > |buf| {
      return buf, 0;
    }
    var padLen := SaturatingSub(AlignedTarget(|buf|, limit), |buf|);
    if padLen == 0 || padLen > U16_MAX || padLen > PaddingBudget(|buf|) {
      return buf, 0;
    }
    var oldPad := DecodeBE(buf[start + 4..start + 6]);
    if oldPad + padLen > U16_MAX || padLen >= |cache| {
      return buf, 0;
    }
    TailPadBounds(off, |buf|, lastStart, limit, oldPad);
    var cover := Cover(cache, padLen, draw);
    out := buf[..start + 4] + EncodeBE(oldPad + padLen, 2) + buf[start + 6..] + cover;
    assert out == Repadded(buf, start, cover);
    return out, padLen;
  }

  // ---------- appending frames ----------

  lemma Assembled(ic: Option<Cipher>, buf: seq<byte>, item: Item, cover: Frame)
    ensures var wire := WireOf(ic, item);
            buf + EncodeBE(|wire|, 4) + EncodeBE(|cover|, 2) + EncodeBE(item.sn, 4) + wire + cover == buf + Print(ic, item, cover)
  {
    hide EncodeBE, WireOf;
    var wire := WireOf(ic, item);
    var a, b, c := EncodeBE(|wire|, 4), EncodeBE(|cover|, 2), EncodeBE(item.sn, 4);
    Regroup(buf, a, b);
    Regroup(buf, a + b, c);
    Regroup(buf, a + b + c, wire);
    Regroup(buf, a + b + c + wire, cover);
  }

  lemma Regroup(a: seq<byte>, b: seq<byte>, c: seq<byte>)
    ensures a + b + c == a + (b + c)
  {
  }

  /** A slice of the padding cache at a random place. */
  function Cover(cache: seq<byte>, padLen: nat, draw: nat): (c: seq<byte>)
    requires padLen < |cache|
    ensures |c| == padLen
  {
    var offset := draw % (|cache| - padLen);
    cache[offset..offset + padLen]
  }

  method AppendPaddedFrame(buf: seq<byte>, item: Item, ic: Option<Cipher>, off: bool, limit: nat, cache: seq<byte>, draw: nat)
    returns (out: seq<byte>)
    requires |cache| == PADDING_CACHE_LEN
    ensures var padLen := PadLength(off, |WireOf(ic, item)|, limit, draw);
            padLen < |cache| && out == buf + Print(ic, item, Cover(cache, padLen, draw))
  {
    hide PadLength, EncodeBE, Print, Cover;
    var wire := item.data;
    if |item.data| > 0 && ic.Some? && item.sn != 0 {
      wire := ic.value.seal(item.data, item.sn, |item.data| + TAG_LEN);
    }
    assert wire == WireOf(ic, item);
    var padLen := PadLength(off, |wire|, limit, draw);
    PadLengthBounds(off, |wire|, limit, draw);
    out := buf + EncodeBE(|wire|, 4) + EncodeBE(padLen, 2) + EncodeBE(item.sn, 4) + wire;
    var cover := Cover(cache, padLen, draw);
    out := out + cover;
    Assembled(ic, buf, item, cover);
  }

  function Unpadded(frames: seq<Numbered>): (r: seq<Sending>)
    ensures |r| == |frames|
  {
    seq(|frames|, i requires 0 <= i < |frames| => Sending(Item(frames[i].sn, frames[i].data), []))
  }

  /** `buf` holds exactly the frames `sent`, and `lastStart` is where the last of them begins. */
  ghost predicate Written(ic: Option<Cipher>, buf: seq<byte>, sent: seq<Numbered>, lastStart: Option<nat>) {
    && buf == PrintAll(ic, Unpadded(sent))
    && (|sent| > 0 ==> lastStart == Some(|PrintAll(ic, Unpadded(sent[..|sent| - 1]))|))
  }

  lemma WrittenNext(ic: Option<Cipher>, buf: seq<byte>, sent: seq<Numbered>, lastStart: Option<nat>, f: Numbered)
    requires Written(ic, buf, sent, lastStart)
    ensures Written(ic, buf + Print(ic, Item(f.sn, f.data), []), sent + [f], Some(|buf|))
  {
    hide Print, PrintAll;
    var last := Sending(Item(f.sn, f.data), []);
    assert Unpadded(sent + [f]) == Unpadded(sent) + [last];
    assert (sent + [f])[..|sent|] == sent;
    PrintAllAppend(ic, Unpadded(sent), last);
  }

  /** A frame takes at most its payload, the header and the tag. */
  lemma PrintedSize(ic: Option<Cipher>, item: Item)
    requires SoundCipher(ic)
    ensures |Print(ic, item, [])| <= HEADER_SIZE + |item.data| + TAG_LEN
  {
    hide EncodeBE;
  }

  /** The inner loop of both writers. */
  method AppendBatch(ic: Option<Cipher>, buf: seq<byte>, frames: seq<Numbered>, off: bool, cache: seq<byte>, draws: seq<nat>,
                     ghost sent: seq<Numbered>, start: Option<nat>)
    returns (out: seq<byte>, lastStart: Option<nat>)
    requires SoundCipher(ic) && Written(ic, buf, sent, start)
    requires |cache| == PADDING_CACHE_LEN && |draws| >= |frames|
    ensures Written(ic, out, sent + frames, lastStart)
    ensures |out| <= |buf| + SumLens(frames) + |frames| * WIRE_OVERHEAD
  {
    hide Print, PrintAll, Written, SoundCipher, PadLength, SumLens, Unpadded;
    out, lastStart := buf, start;
    assert sent + frames[..0] == sent;
    SumLensNone();
    for i := 0 to |frames|
      invariant Written(ic, out, sent + frames[..i], lastStart)
      invariant |out| <= |buf| + SumLens(frames[..i]) + i * WIRE_OVERHEAD
    {
      var f := frames[i];
      assert frames[..i + 1] == frames[..i] + [f];
      assert sent + frames[..i + 1] == sent + frames[..i] + [f];
      SumLensNext(frames[..i], f);
      PrintedSize(ic, Item(f.sn, f.data));
      WrittenNext(ic, out, sent + frames[..i], lastStart, f);
      PadLengthBounds(off, |WireOf(ic, Item(f.sn, f.data))|, 1, draws[i]);
      lastStart := Some(|out|);
      out := AppendPaddedFrame(out, Item(f.sn, f.data), ic, off, 1, cache, draws[i]);
    }
    assert frames[..|frames|] == frames;
  }

  lemma SumLensNone()
    ensures SumLens([]) == 0
  {
  }

  // ---------- the whole write ----------

  /** Frames as the dispatcher queues them: 32-bit numbers. */
  predicate Numbers(frames: seq<Numbered>) {
    forall i | 0 <= i < |frames| :: frames[i].sn <= U32_MAX
  }

  predicate Sendable(frames: seq<Numbered>) {
    forall i | 0 <= i < |frames| :: frames[i].sn <= U32_MAX && |frames[i].data| <= WRITE_BUDGET
  }

  lemma {:induction false} SumLensCovers(frames: seq<Numbered>, i: nat)
    requires i < |frames|
    ensures |frames[i].data| <= SumLens(frames)
  {
    if i >= |frames| - 1 {
    } else {
      SumLensCovers(frames[..|frames| - 1], i);
    }
  }

  /** What a buffer holds after its last frame was padded. */
  lemma PaddedParses(ic: Option<Cipher>, buf: seq<byte>, sent: seq<Numbered>, lastStart: Option<nat>, cover: Frame)
    requires SoundCipher(ic) && |sent| > 0 && Written(ic, buf, sent, lastStart) && Sendable(sent) && |cover| <= U16_MAX
    ensures lastStart.Some? && lastStart.value + HEADER_SIZE <= |buf|
    ensures ParseAll(Repadded(buf, lastStart.value, cover), MAX_DATA_LENGTH) == (Wires(ic, Unpadded(sent)), [])
  {
    hide Print, PrintAll, ParseAll, Repadded, Fits;
    var front, last := sent[..|sent| - 1], sent[|sent| - 1];
    var item := Item(last.sn, last.data);
    assert Unpadded(sent) == Unpadded(front) + [Sending(item, [])];
    PrintAllAppend(ic, Unpadded(front), Sending(item, []));
    PrintAllAppend(ic, Unpadded(front), Sending(item, cover));
    SendableFits(ic, last, []);
    PrintedPadField(ic, PrintAll(ic, Unpadded(front)), item, []);
    RepaddedPrint(ic, PrintAll(ic, Unpadded(front)), item, [], cover);
    assert [] + cover == cover;
    var list := Unpadded(front) + [Sending(item, cover)];
    forall i | 0 <= i < |list| ensures Fits(ic, list[i].item, list[i].pad, MAX_DATA_LENGTH) {
      SendableFits(ic, sent[i], list[i].pad);
    }
    ParsePrintedList(ic, list, MAX_DATA_LENGTH);
    assert Wires(ic, list) == Wires(ic, Unpadded(sent));
  }

  lemma SendableFits(ic: Option<Cipher>, f: Numbered, pad: Frame)
    requires SoundCipher(ic) && f.sn <= U32_MAX && |f.data| <= WRITE_BUDGET && |pad| <= U16_MAX
    ensures Fits(ic, Item(f.sn, f.data), pad, MAX_DATA_LENGTH)
  {
  }

  lemma WrittenParses(ic: Option<Cipher>, buf: seq<byte>, sent: seq<Numbered>, lastStart: Option<nat>)
    requires SoundCipher(ic) && Written(ic, buf, sent, lastStart) && Sendable(sent)
    ensures ParseAll(buf, MAX_DATA_LENGTH) == (Wires(ic, Unpadded(sent)), [])
  {
    hide Print, PrintAll, ParseAll, Fits;
    forall i | 0 <= i < |sent| ensures Fits(ic, Unpadded(sent)[i].item, Unpadded(sent)[i].pad, MAX_DATA_LENGTH) {
      SendableFits(ic, sent[i], []);
    }
    ParsePrintedList(ic, Unpadded(sent), MAX_DATA_LENGTH);
  }

  /** One batch from queue to buffer, if one fits. */
  method PullBatch(queue: OwnedBatchQueue, ic: Option<Cipher>, buf: seq<byte>, off: bool, cache: seq<byte>, draws: seq<nat>,
                   ghost sent: seq<Numbered>, start: Option<nat>)
    returns (out: seq<byte>, lastStart: Option<nat>, count: nat, ghost sent': seq<Numbered>)
    requires queue.Valid() && SoundCipher(ic) && Written(ic, buf, sent, start) && Sendable(sent)
    requires Numbers(Contents(queue.batches)) && |buf| <= WRITE_BUDGET
    requires |cache| == PADDING_CACHE_LEN && |draws| >= queue.maxBatch
    modifies queue
    ensures queue.Valid() && Written(ic, out, sent', lastStart) && Sendable(sent') && |out| <= WRITE_BUDGET
    ensures sent' + Contents(queue.batches) == sent + old(Contents(queue.batches))
    ensures Numbers(Contents(queue.batches))
    ensures count == 0 ==> out == buf && sent' == sent && lastStart == start && queue.frames == old(queue.frames)
    ensures count == 0 ==> queue.Model() == old(queue.Model()) && Popped(queue.Model(), WRITE_BUDGET - |buf|).1.None?
    ensures count > 0 ==> queue.frames < old(queue.frames) && |sent'| > 0
    ensures sent <= sent' && |sent'| == |sent| + count && count <= queue.maxBatch
  {
    hide Contents, SumLens, Written, SoundCipher, Unpadded;
    PopTakesFront(queue.Model(), WRITE_BUDGET - |buf|);
    var batch := queue.TryPopFitting(WRITE_BUDGET - |buf|);
    if batch.None? {
      return buf, start, 0, sent;
    }
    var frames := batch.value.frames;
    forall i | 0 <= i < |frames| ensures frames[i].sn <= U32_MAX && |frames[i].data| <= WRITE_BUDGET {
      assert frames[i] == old(Contents(queue.batches))[i];
      SumLensCovers(frames, i);
    }
    forall i | 0 <= i < |Contents(queue.batches)| ensures Contents(queue.batches)[i].sn <= U32_MAX {
      assert Contents(queue.batches)[i] == old(Contents(queue.batches))[|frames| + i];
    }
    out, lastStart := AppendBatch(ic, buf, frames, off, cache, draws, sent, start);
    sent' := sent + frames;
    count := |frames|;
    assert sent' + Contents(queue.batches) == sent + (frames + Contents(queue.batches));
  }

  /** Tail padding, then what the peer's parser makes of the write. */
  method Finish(ic: Option<Cipher>, buf: seq<byte>, lastStart: Option<nat>, off: bool, limit: nat, cache: seq<byte>, draw: nat,
                ghost sent: seq<Numbered>)
    returns (out: seq<byte>)
    requires SoundCipher(ic) && Written(ic, buf, sent, lastStart) && Sendable(sent) && |sent| > 0 && |buf| <= WRITE_BUDGET
    requires |cache| == PADDING_CACHE_LEN
    ensures |buf| <= |out| <= MAX_TLS_PLAINTEXT_RECORD
    ensures ParseAll(out, MAX_DATA_LENGTH) == (Wires(ic, Unpadded(sent)), [])
  {
    hide ParseAll, Written, SoundCipher, Unpadded, PadField, Repadded;
    WrittenParses(ic, buf, sent, lastStart);
    var added;
    out, added := PadStreamBatchTail(off, buf, lastStart, limit, cache, draw);
    if added > 0 {
      PaddedParses(ic, buf, sent, lastStart, Cover(cache, added, draw));
    }
  }

  lemma NothingWritten(ic: Option<Cipher>)
    ensures Written(ic, [], [], None)
    ensures ParseAll([], MAX_DATA_LENGTH) == (Wires(ic, Unpadded([])), [])
  {
  }

  /** A write before its tail padding: the frames one after another. */
  ghost function Plain(ic: Option<Cipher>, sent: seq<Numbered>): seq<byte> {
    PrintAll(ic, Unpadded(sent))
  }

  lemma WrittenIsPlain(ic: Option<Cipher>, buf: seq<byte>, sent: seq<Numbered>, lastStart: Option<nat>)
    requires Written(ic, buf, sent, lastStart)
    ensures buf == Plain(ic, sent)
  {
  }

  /** The server's `flush_outbound` batch loop. It goes on until the write has 12 KiB or 2048 frames, which it reports, or
      until the next batch does not fit; `before` frames were written when the last batch was taken. */
  method FlushOutbound(queue: OwnedBatchQueue, ic: Option<Cipher>, off: bool, limit: nat, cache: seq<byte>,
                       draws: seq<nat>, draw: nat)
    returns (sendBuf: seq<byte>, hitLimit: bool, ghost sent: seq<Numbered>, ghost before: nat)
    requires queue.Valid() && SoundCipher(ic) && Numbers(Contents(queue.batches))
    requires |cache| == PADDING_CACHE_LEN && |draws| >= queue.maxBatch
    modifies queue
    ensures queue.Valid() && |Plain(ic, sent)| <= |sendBuf| <= MAX_TLS_PLAINTEXT_RECORD
    ensures sent + Contents(queue.batches) == old(Contents(queue.batches))
    ensures ParseAll(sendBuf, MAX_DATA_LENGTH) == (Wires(ic, Unpadded(sent)), [])
    ensures hitLimit <==> |Plain(ic, sent)| >= 12288 || |sent| >= 2048
    ensures !hitLimit ==> |Plain(ic, sent)| <= 15872 && Popped(queue.Model(), 15872 - |Plain(ic, sent)|).1.None?
    ensures old(Popped(queue.Model(), 15872).1.Some?) ==> sent != []
    ensures sent != [] ==>
              before < |sent| <= before + queue.maxBatch && |Plain(ic, sent[..before])| < 12288 && before < 2048
  {
    hide Contents, ParseAll, Written, SoundCipher, Unpadded, Numbers, Popped, QueueOk, Wires, Sendable, PrintAll, Plain;
    var lastStart: Option<nat> := None;
    var pulled: nat := 0;
    sendBuf, sent, hitLimit, before := [], [], false, 0;
    NothingWritten(ic);
    NothingSendable();
    WrittenIsPlain(ic, sendBuf, sent, lastStart);
    assert sent + Contents(queue.batches) == Contents(queue.batches);
    while true
      invariant queue.Valid() && Written(ic, sendBuf, sent, lastStart) && Sendable(sent) && |sendBuf| <= WRITE_BUDGET
      invariant sent + Contents(queue.batches) == old(Contents(queue.batches)) && Numbers(Contents(queue.batches))
      invariant !hitLimit && pulled == |sent| && sendBuf == Plain(ic, sent)
      invariant sent == [] ==> sendBuf == [] && queue.Model() == old(queue.Model())
      invariant sent != [] ==>
                  before < |sent| <= before + queue.maxBatch && |Plain(ic, sent[..before])| < 12288 && before < 2048
      decreases queue.frames
    {
      if |sendBuf| >= BATCH_SOFT_LIMIT || pulled >= MAX_PULLED {
        hitLimit := true;
        break;
      }
      var count;
      ghost var was := sent;
      sendBuf, lastStart, count, sent := PullBatch(queue, ic, sendBuf, off, cache, draws, sent, lastStart);
      WrittenIsPlain(ic, sendBuf, sent, lastStart);
      if count == 0 {
        break;
      }
      before := |was|;
      assert sent[..before] == was;
      pulled := pulled + count;
    }
    if pulled != 0 {
      sendBuf := Finish(ic, sendBuf, lastStart, off, limit, cache, draw, sent);
    }
  }

  lemma NothingSendable()
    ensures Sendable([])
  {
  }

  /** The client's upstream batch loop. It goes on until the write has 12 KiB or the next batch does not fit. */
  method FillUpstream(queue: OwnedBatchQueue, ic: Option<Cipher>, off: bool, limit: nat, cache: seq<byte>,
                      draws: seq<nat>, draw: nat)
    returns (sendBuf: seq<byte>, ghost sent: seq<Numbered>, ghost before: nat)
    requires queue.Valid() && SoundCipher(ic) && Numbers(Contents(queue.batches))
    requires |cache| == PADDING_CACHE_LEN && |draws| >= queue.maxBatch
    modifies queue
    ensures queue.Valid() && |Plain(ic, sent)| <= |sendBuf| <= MAX_TLS_PLAINTEXT_RECORD
    ensures sent + Contents(queue.batches) == old(Contents(queue.batches))
    ensures ParseAll(sendBuf, MAX_DATA_LENGTH) == (Wires(ic, Unpadded(sent)), [])
    ensures |Plain(ic, sent)| < 12288 ==> Popped(queue.Model(), 15872 - |Plain(ic, sent)|).1.None?
    ensures old(Popped(queue.Model(), 15872).1.Some?) ==> sent != []
    ensures sent != [] ==> before < |sent| <= before + queue.maxBatch && |Plain(ic, sent[..before])| < 12288
  {
    hide Contents, ParseAll, Written, SoundCipher, Unpadded, Numbers, Popped, QueueOk, Wires, Sendable, PrintAll, Plain;
    var lastStart: Option<nat> := None;
    var count;
    sendBuf, sent, before := [], [], 0;
    NothingWritten(ic);
    NothingSendable();
    WrittenIsPlain(ic, sendBuf, sent, lastStart);
    assert sent + Contents(queue.batches) == Contents(queue.batches);
    sendBuf, lastStart, count, sent := PullBatch(queue, ic, sendBuf, off, cache, draws, sent, lastStart);
    WrittenIsPlain(ic, sendBuf, sent, lastStart);
    assert sent[..before] == [];
    var packets: nat := count;
    while count != 0 && |sendBuf| < BATCH_SOFT_LIMIT
      invariant queue.Valid() && Written(ic, sendBuf, sent, lastStart) && Sendable(sent) && |sendBuf| <= WRITE_BUDGET
      invariant sent + Contents(queue.batches) == old(Contents(queue.batches)) && Numbers(Contents(queue.batches))
      invariant packets == |sent| && sendBuf == Plain(ic, sent)
      invariant count == 0 ==> Popped(queue.Model(), WRITE_BUDGET - |sendBuf|).1.None?
      invariant sent == [] ==> count == 0 && sendBuf == [] && queue.Model() == old(queue.Model())
      invariant sent != [] ==> before < |sent| <= before + queue.maxBatch && |Plain(ic, sent[..before])| < 12288
      decreases queue.frames, count
    {
      ghost var was := sent;
      sendBuf, lastStart, count, sent := PullBatch(queue, ic, sendBuf, off, cache, draws, sent, lastStart);
      WrittenIsPlain(ic, sendBuf, sent, lastStart);
      if count > 0 {
        before := |was|;
        assert sent[..before] == was;
      }
      packets := packets + count;
    }
    if packets != 0 {
      sendBuf := Finish(ic, sendBuf, lastStart, off, limit, cache, draw, sent);
    }
  }

  /** With an empty buffer the head batch fits exactly when it is not a lone frame over 15840 bytes: a
      larger one would block its queue for good. */
  lemma HeadFits(q: Queue)
    requires QueueOk(q) && |q.batches| > 0 && q.maxBatch <= 32
    ensures Popped(q, WRITE_BUDGET).1.Some? <==> |q.batches[0].frames| > 1 || |q.batches[0].frames[0].data| <= 15840
  {
    hide Contents, SumLens;
    var b := q.batches[0];
    assert BatchOk(b, q.maxBatch);
    if |b.frames| == 1 {
      SumLensOne(b.frames[0]);
      assert b.frames == [b.frames[0]];
    }
  }
}
