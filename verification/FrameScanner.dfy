/** The frame scanner: a growing buffer, a read offset, two compaction modes, and a reader that delivers
    bytes in whatever pieces it likes (src/frame.rs). */
module FrameScanner {
  import opened Bytes
  import opened Framing
  import Parity

  const READ_CHUNK: nat := 16384
  const COMPACT_THRESHOLD: nat := 16384

  // ---------- the reader ----------

  /** What the underlying stream has in store: bytes, a moment without bytes, or an error. */
  datatype ReadEvent = Data(bytes: seq<byte>) | Pause | Failure

  datatype ReadResult = Bytes(bytes: seq<byte>) | WouldBlock | IoError

  /** All bytes still to come. */
  function Coming(events: seq<ReadEvent>): seq<byte> {
    if |events| == 0 then []
    else (if events[0].Data? then events[0].bytes else []) + Coming(events[1..])
  }

  /** The script has not grown; after a stop it is shorter, or empty. */
  predicate Less(events: seq<ReadEvent>, was: seq<ReadEvent>, stopped: bool) {
    |events| <= |was| && (stopped ==> |events| < |was| || events == [])
  }

  class Reader {
    var events: seq<ReadEvent>

    constructor (script: seq<ReadEvent>)
      ensures events == script
    {
      events := script;
    }

    /** Reads up to `spare` bytes; no bytes means the end of the stream for now. */
    method Read(spare: nat) returns (r: ReadResult)
      requires spare > 0
      modifies this
      ensures r.Bytes? ==> |r.bytes| <= spare && Coming(old(events)) == r.bytes + Coming(events)
      ensures !r.Bytes? ==> Coming(events) == Coming(old(events)) && |events| < |old(events)|
      ensures r.Bytes? && |r.bytes| > 0 ==> |Coming(events)| < |Coming(old(events))|
      ensures Less(events, old(events), !r.Bytes? || r.bytes == [])
    {
      if |events| == 0 {
        return Bytes([]);
      }
      match events[0]
      case Data(bytes) =>
        if |bytes| <= spare {
          events := events[1..];
          return Bytes(bytes);
        }
        events := [Data(bytes[spare..])] + events[1..];
        assert bytes == bytes[..spare] + bytes[spare..];
        return Bytes(bytes[..spare]);
      case Pause =>
        events := events[1..];
        return WouldBlock;
      case Failure =>
        events := events[1..];
        return IoError;
    }
  }

  // ---------- the scanner ----------

  datatype ReadOutcome = NoFrame | Got(frame: Wire) | InvalidData | Failed

  class FrameScanner {
    var buffer: seq<byte>
    var offset: nat
    var capacity: nat
    var maxDataLen: nat
    const lazyCompact: bool

    ghost predicate Valid()
      reads this
    {
      offset <= |buffer| <= capacity
    }

    /** The bytes read and not yet consumed. */
    function Unread(): seq<byte>
      requires Valid()
      reads this
    {
      buffer[offset..]
    }

    constructor (lazy: bool)
      ensures Valid() && Unread() == [] && maxDataLen == 131070 && lazyCompact == lazy
    {
      buffer, offset, capacity := [], 0, READ_CHUNK;
      maxDataLen, lazyCompact := MAX_DATA_LENGTH, lazy;
    }

    method SetMaxDataLen(n: nat)
      requires Valid()
      modifies this`maxDataLen
      ensures Valid() && maxDataLen == n && Unread() == old(Unread())
    {
      maxDataLen := n;
    }

    /** Moves the unread bytes to the front of the buffer when the mode asks for it. */
    method CompactConsumed(beforeRead: bool)
      requires Valid()
      modifies this`buffer, this`offset
      ensures Valid() && Unread() == old(Unread())
      ensures old(offset) == |old(buffer)| ==> buffer == []
      ensures beforeRead && offset > 0 ==> |buffer| < capacity || !lazyCompact
    {
      if lazyCompact && offset != |buffer| && (!beforeRead || |buffer| < capacity) {
        return;
      }
      if offset > 0 && (offset == |buffer| || if lazyCompact then |buffer| == capacity else offset > COMPACT_THRESHOLD) {
        buffer := buffer[offset..];
        offset := 0;
      }
    }

    /** Takes the next frame out of the buffer if it is complete. */
    method TakeBufferedFrame() returns (r: ReadOutcome)
      requires Valid()
      modifies this`buffer, this`offset
      ensures Valid()
      ensures match ParseOne(old(Unread()), maxDataLen)
              case Parsed(payload, sn, rest) => r == Got(Wire(payload, sn)) && Unread() == rest
              case Incomplete => r == NoFrame && Unread() == old(Unread()) && buffer == old(buffer)
              case TooLong => r == InvalidData && Unread() == []
    {
      hide DecodeBE;
      var available := |buffer| - offset;
      ghost var s := Unread();
      if available < HEADER_SIZE {
        return NoFrame;
      }
      var dataLen := DecodeBE(buffer[offset..offset + 4]);
      var padLen := DecodeBE(buffer[offset + 4..offset + 6]);
      var sn := DecodeBE(buffer[offset + 6..offset + 10]);
      assert buffer[offset..offset + 4] == s[0..4];
      assert buffer[offset + 4..offset + 6] == s[4..6];
      assert buffer[offset + 6..offset + 10] == s[6..10];
      if dataLen > maxDataLen {
        buffer, offset := [], 0;
        return InvalidData;
      }
      if available < HEADER_SIZE + dataLen + padLen {
        return NoFrame;
      }
      var start := offset + HEADER_SIZE;
      var payload := buffer[start..start + dataLen];
      assert payload == s[HEADER_SIZE..HEADER_SIZE + dataLen];
      offset := offset + HEADER_SIZE + dataLen + padLen;
      assert Unread() == s[HEADER_SIZE + dataLen + padLen..];
      CompactConsumed(false);
      return Got(Wire(payload, sn));
    }

    /** Makes room and reads one more piece; `None` when a piece came, otherwise what to return. */
    method Fill(reader: Reader) returns (r: Option<ReadOutcome>)
      requires Valid()
      modifies this`buffer, this`offset, this`capacity, reader
      ensures Valid() && Unread() + Coming(reader.events) == old(Unread() + Coming(reader.events))
      ensures r.None? ==> |Coming(reader.events)| < old(|Coming(reader.events)|)
      ensures r.Some? ==> Unread() == old(Unread()) && (r.value.NoFrame? || r.value.Failed?)
      ensures Less(reader.events, old(reader.events), r.Some?)
    {
      hide Coming;
      CompactConsumed(true);
      if |buffer| == capacity {
        var grown: nat :| grown >= |buffer| + READ_CHUNK;
        capacity := grown;
      }
      var spare := Min(capacity - |buffer|, READ_CHUNK);
      ghost var unread, coming := Unread(), Coming(reader.events);
      var piece := reader.Read(spare);
      match piece
      case Bytes(bytes) =>
        if bytes == [] {
          assert [] + Coming(reader.events) == Coming(reader.events);
          return Some(NoFrame);
        }
        buffer := buffer + bytes;
        assert Unread() == unread + bytes;
        assert unread + bytes + Coming(reader.events) == unread + (bytes + Coming(reader.events));
        return None;
      case WouldBlock =>
        return Some(NoFrame);
      case IoError =>
        return Some(Failed);
    }

    /** Returns the next frame of the stream as soon as all of it has arrived, in whatever pieces; without
        one, everything that arrived is kept. */
    method ReadFrame(reader: Reader) returns (r: ReadOutcome)
      requires Valid()
      modifies this`buffer, this`offset, this`capacity, reader
      ensures Valid()
      ensures var was := old(Unread() + Coming(reader.events));
              var now := Unread() + Coming(reader.events);
              match r
              case Got(frame) => ParseOne(was, maxDataLen) == Parsed(frame.payload, frame.sn, now)
              case InvalidData => ParseOne(was, maxDataLen) == TooLong
              case _ => now == was && ParseOne(Unread(), maxDataLen) == Incomplete
      ensures Less(reader.events, old(reader.events), r.NoFrame? || r.Failed?)
    {
      hide ParseOne, Coming;
      ghost var was := Unread() + Coming(reader.events);
      while true
        invariant Valid() && Unread() + Coming(reader.events) == was
        invariant |reader.events| <= old(|reader.events|)
        decreases |Coming(reader.events)|
      {
        ParseMore(Unread(), Coming(reader.events), maxDataLen);
        r := TakeBufferedFrame();
        if r != NoFrame {
          return;
        }
        var stop := Fill(reader);
        if stop.Some? {
          return stop.value;
        }
      }
      assert false;
    }
  }

  // ---------- reading a whole stream ----------

  /** Reads until the scanner has no frame to give. The frames read and the frames still to come are the frames of
      the stream, so that reading can go on after a pause. */
  method ReadAll(scanner: FrameScanner, reader: Reader) returns (frames: seq<Wire>, last: ReadOutcome)
    requires scanner.Valid()
    modifies scanner, reader
    ensures scanner.Valid() && scanner.maxDataLen == old(scanner.maxDataLen) && !last.Got?
    ensures var was := ParseAll(old(scanner.Unread() + Coming(reader.events)), scanner.maxDataLen);
            if last.InvalidData? then frames == was.0 && ParseOne(was.1, scanner.maxDataLen) == TooLong
            else
              && was == Then(frames, ParseAll(scanner.Unread() + Coming(reader.events), scanner.maxDataLen))
              && ParseOne(scanner.Unread(), scanner.maxDataLen) == Incomplete
              && Less(reader.events, old(reader.events), true)
  {
    hide ParseOne, Coming;
    var limit := scanner.maxDataLen;
    ghost var total := ParseAll(scanner.Unread() + Coming(reader.events), limit);
    frames := [];
    assert [] + total.0 == total.0;
    while true
      invariant scanner.Valid() && scanner.maxDataLen == limit
      invariant total == Then(frames, ParseAll(scanner.Unread() + Coming(reader.events), limit))
      invariant |reader.events| <= old(|reader.events|)
      decreases |scanner.Unread() + Coming(reader.events)|
    {
      ghost var now := scanner.Unread() + Coming(reader.events);
      ParseShrinks(now, limit);
      last := scanner.ReadFrame(reader);
      if !last.Got? {
        assert total == Then(frames, ParseAll(now, limit));
        assert last.InvalidData? ==> ParseAll(now, limit) == ([], now) && frames + [] == frames;
        return;
      }
      ghost var rest := ParseAll(scanner.Unread() + Coming(reader.events), limit);
      assert frames + ([last.frame] + rest.0) == frames + [last.frame] + rest.0;
      frames := frames + [last.frame];
    }
    assert false;
  }

  /** Frames read first, then what a parse of the rest gives. */
  function Then(frames: seq<Wire>, rest: (seq<Wire>, seq<byte>)): (seq<Wire>, seq<byte>) {
    (frames + rest.0, rest.1)
  }

  lemma NothingComing(s: seq<byte>, limit: nat)
    requires ParseOne(s, limit) == Incomplete
    ensures ParseAll(s + Coming([]), limit) == ([], s)
  {
    assert s + Coming([]) == s;
  }

  /** Every list of frames within limits, through either compaction mode, comes out as it was printed, whatever the
      pieces in which the reader delivers it and however often it has nothing to deliver or fails in between. */
  method ReadBack(ic: Option<Parity.Cipher>, list: seq<Sending>, script: seq<ReadEvent>, lazy: bool) returns (frames: seq<Wire>)
    requires AllFit(ic, list, MAX_DATA_LENGTH) && Coming(script) == PrintAll(ic, list)
    ensures frames == Wires(ic, list)
  {
    hide ParseAll, PrintAll, Coming, AllFit, ParseOne;
    var scanner := new FrameScanner(lazy);
    var reader := new Reader(script);
    ParsePrintedList(ic, list, MAX_DATA_LENGTH);
    assert [] + Coming(script) == Coming(script);
    ghost var total := (Wires(ic, list), []);
    NothingParses(MAX_DATA_LENGTH);
    var last;
    frames, last := ReadAll(scanner, reader);
    while reader.events != []
      invariant scanner.Valid() && scanner.maxDataLen == MAX_DATA_LENGTH
      invariant total == Then(frames, ParseAll(scanner.Unread() + Coming(reader.events), MAX_DATA_LENGTH))
      invariant ParseOne(scanner.Unread(), MAX_DATA_LENGTH) == Incomplete
      decreases |reader.events|
    {
      ghost var before := frames;
      var more;
      more, last := ReadAll(scanner, reader);
      ghost var rest := ParseAll(scanner.Unread() + Coming(reader.events), MAX_DATA_LENGTH);
      assert before + (more + rest.0) == before + more + rest.0;
      frames := frames + more;
    }
    NothingComing(scanner.Unread(), MAX_DATA_LENGTH);
    assert frames + [] == frames;
  }
}
