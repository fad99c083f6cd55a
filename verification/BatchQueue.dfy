/** The bounded queue of owned frame batches between the dispatcher and one TLS writer (src/net.rs,
    src/frame.rs). */
module BatchQueue {
  import opened Bytes
  import opened Parity

  const MAX_BATCH_BYTES: nat := 8 * 1024
  const WIRE_OVERHEAD: nat := 32

  datatype Numbered = Numbered(sn: nat, data: Frame)

  datatype Batch = Batch(frames: seq<Numbered>, bytes: nat)

  /** `hint` is the lock-free copy of `frames` that health checks read. */
  datatype Queue = Queue(batches: seq<Batch>, frames: nat, hint: nat, capacity: nat, maxBatch: nat)

  // ---------- meaning ----------

  function SumLens(frames: seq<Numbered>): nat {
    if |frames| == 0 then 0 else SumLens(frames[..|frames| - 1]) + |frames[|frames| - 1].data|
  }

  /** All queued frames, oldest first. */
  function Contents(batches: seq<Batch>): seq<Numbered> {
    if |batches| == 0 then [] else Contents(batches[..|batches| - 1]) + batches[|batches| - 1].frames
  }

  /** A batch is never empty, its byte count is exact, and it outgrows the byte limit only when it is a
      single frame. */
  predicate BatchOk(b: Batch, maxBatch: nat) {
    && 0 < |b.frames| <= maxBatch
    && b.bytes == Min(SumLens(b.frames), U64_MAX)
    && (|b.frames| > 1 ==> b.bytes <= MAX_BATCH_BYTES)
  }

  predicate QueueOk(q: Queue) {
    && 0 < q.capacity && 0 < q.maxBatch
    && q.frames == |Contents(q.batches)| <= q.capacity
    && (forall i | 0 <= i < |q.batches| :: BatchOk(q.batches[i], q.maxBatch))
  }

  // ---------- operations ----------

  predicate CanAppend(q: Queue, bytes: nat) {
    && |q.batches| > 0
    && var last := q.batches[|q.batches| - 1];
       |last.frames| < q.maxBatch && Min(last.bytes + bytes, U64_MAX) <= MAX_BATCH_BYTES
  }

  /** `push_locked`. */
  function PushLocked(q: Queue, f: Numbered): Queue {
    var bytes := |f.data|;
    if CanAppend(q, bytes) then
      var last := q.batches[|q.batches| - 1];
      var grown := Batch(last.frames + [f], Min(last.bytes + bytes, U64_MAX));
      q.(batches := q.batches[|q.batches| - 1 := grown], frames := q.frames + 1)
    else q.(batches := q.batches + [Batch([f], Min(bytes, U64_MAX))], frames := q.frames + 1)
  }

  /** `try_push`. */
  function TryPushed(q: Queue, f: Numbered): (Queue, bool) {
    if q.frames >= q.capacity then (q, false)
    else
      var q' := PushLocked(q, f);
      (q'.(hint := q'.frames), true)
  }

  function PushAll(q: Queue, frames: seq<Numbered>): Queue {
    if |frames| == 0 then q else PushLocked(PushAll(q, frames[..|frames| - 1]), frames[|frames| - 1])
  }

  /** `try_push_batch`: a prefix is taken, the rest stays with the caller. */
  function TryPushedBatch(q: Queue, input: seq<Numbered>): (Queue, nat) {
    var count := Min(|input|, SaturatingSub(q.capacity, q.frames));
    var q' := PushAll(q, input[..count]);
    (q'.(hint := q'.frames), count)
  }

  /** `try_pop_fitting`. */
  function Popped(q: Queue, budget: nat): (Queue, Option<Batch>) {
    if |q.batches| == 0 then (q, None)
    else
      var front := q.batches[0];
      if front.bytes + |front.frames| * WIRE_OVERHEAD > budget then (q, None)
      else
        var left := SaturatingSub(q.frames, |front.frames|);
        (q.(batches := q.batches[1..], frames := left, hint := left), Some(front))
  }

  // ---------- what they keep ----------

  lemma ContentsLast(batches: seq<Batch>, b: Batch)
    ensures Contents(batches + [b]) == Contents(batches) + b.frames
  {
    assert (batches + [b])[..|batches|] == batches;
  }

  lemma {:induction false} ContentsHead(batches: seq<Batch>)
    requires |batches| > 0
    ensures Contents(batches) == batches[0].frames + Contents(batches[1..])
  {
    if |batches| <= 1 {
    } else {
      var front := batches[..|batches| - 1];
      ContentsHead(front);
      assert batches[1..][..|batches| - 2] == front[1..];
    }
  }

  lemma SumLensNext(frames: seq<Numbered>, f: Numbered)
    ensures SumLens(frames + [f]) == SumLens(frames) + |f.data|
  {
    assert (frames + [f])[..|frames|] == frames;
  }

  lemma SumLensOne(f: Numbered)
    ensures SumLens([f]) == |f.data|
  {
    assert [f][..0] == [];
  }

  /** Pushing appends exactly one frame at the end. */
  lemma PushAppends(q: Queue, f: Numbered)
    requires QueueOk(q) && q.frames < q.capacity
    ensures QueueOk(PushLocked(q, f))
    ensures Contents(PushLocked(q, f).batches) == Contents(q.batches) + [f]
  {
    hide SumLens, Contents;
    var q' := PushLocked(q, f);
    if CanAppend(q, |f.data|) {
      var front, last := q.batches[..|q.batches| - 1], q.batches[|q.batches| - 1];
      var grown := Batch(last.frames + [f], Min(last.bytes + |f.data|, U64_MAX));
      assert q.batches == front + [last] && q'.batches == front + [grown];
      ContentsLast(front, last);
      ContentsLast(front, grown);
      SumLensNext(last.frames, f);
    } else {
      ContentsLast(q.batches, Batch([f], Min(|f.data|, U64_MAX)));
      SumLensOne(f);
    }
  }

  lemma {:induction false} PushAllAppends(q: Queue, frames: seq<Numbered>)
    requires QueueOk(q) && q.frames + |frames| <= q.capacity
    ensures QueueOk(PushAll(q, frames))
    ensures Contents(PushAll(q, frames).batches) == Contents(q.batches) + frames
    ensures PushAll(q, frames).capacity == q.capacity
  {
    hide Contents, BatchOk;
    if |frames| == 0 {
    } else {
      var front, last := frames[..|frames| - 1], frames[|frames| - 1];
      assert frames == front + [last];
      PushAllAppends(q, front);
      PushAppends(PushAll(q, front), last);
    }
  }

  /** A batch push takes the longest prefix that fits, in order. */
  lemma BatchAppends(q: Queue, input: seq<Numbered>)
    requires QueueOk(q)
    ensures var (q', count) := TryPushedBatch(q, input);
            && QueueOk(q') && q'.hint == q'.frames
            && count == Min(|input|, q.capacity - q.frames)
            && Contents(q'.batches) == Contents(q.batches) + input[..count]
  {
    hide Contents, BatchOk, PushAll;
    var count := Min(|input|, SaturatingSub(q.capacity, q.frames));
    PushAllAppends(q, input[..count]);
  }

  /** A pop takes the oldest batch off the front, and only one that fits the budget. */
  lemma PopTakesFront(q: Queue, budget: nat)
    requires QueueOk(q)
    ensures var (q', b) := Popped(q, budget);
            && QueueOk(q')
            && (b.None? ==> q' == q)
            && (b.Some? ==>
                  && BatchOk(b.value, q.maxBatch)
                  && Contents(q.batches) == b.value.frames + Contents(q'.batches)
                  && (budget < U64_MAX ==> SumLens(b.value.frames) + |b.value.frames| * WIRE_OVERHEAD <= budget))
            && (b.None? && |q.batches| > 0 ==> q.batches[0].bytes + |q.batches[0].frames| * WIRE_OVERHEAD > budget)
  {
    hide Contents, SumLens;
    if |q.batches| > 0 { ContentsHead(q.batches); }
  }

  // ---------- whole runs ----------

  datatype Event = Push(f: Numbered) | PushMany(input: seq<Numbered>) | Pop(budget: nat)

  /** What an event puts in and what it takes out. */
  function Step(q: Queue, e: Event): (r: (Queue, seq<Numbered>, seq<Numbered>))
  {
    match e
    case Push(f) => var (q', ok) := TryPushed(q, f); (q', if ok then [f] else [], [])
    case PushMany(input) => var (q', count) := TryPushedBatch(q, input); (q', input[..count], [])
    case Pop(budget) => var (q', b) := Popped(q, budget); (q', [], if b.Some? then b.value.frames else [])
  }

  function Run(q: Queue, events: seq<Event>): (Queue, seq<Numbered>, seq<Numbered>) {
    if |events| == 0 then (q, [], [])
    else
      var (q1, put, took) := Run(q, events[..|events| - 1]);
      var (q2, put', took') := Step(q1, events[|events| - 1]);
      (q2, put + put', took + took')
  }

  lemma StepConserves(q: Queue, e: Event)
    requires QueueOk(q)
    ensures var (q', put, took) := Step(q, e);
            QueueOk(q') && Contents(q.batches) + put == took + Contents(q'.batches)
  {
    hide Contents, BatchOk, SumLens;
    match e
    case Push(f) => if q.frames < q.capacity { PushAppends(q, f); }
    case PushMany(input) => BatchAppends(q, input);
    case Pop(budget) => PopTakesFront(q, budget);
  }

  /** Over every run of pushes and pops, what came out, followed by what is still queued, is what was
      there at first followed by everything accepted since: nothing lost, repeated or reordered. */
  lemma {:induction false} RunConserves(q: Queue, events: seq<Event>)
    requires QueueOk(q)
    ensures var (q', put, took) := Run(q, events);
            QueueOk(q') && Contents(q.batches) + put == took + Contents(q'.batches)
  {
    hide Contents, Step, QueueOk;
    if |events| == 0 {
    } else {
      RunConserves(q, events[..|events| - 1]);
      var (q1, put, took) := Run(q, events[..|events| - 1]);
      StepConserves(q1, events[|events| - 1]);
      var (q2, put', took') := Step(q1, events[|events| - 1]);
      assert Contents(q.batches) + (put + put') == Contents(q.batches) + put + put';
      assert took + Contents(q1.batches) + put' == took + (Contents(q1.batches) + put');
      assert took + (took' + Contents(q2.batches)) == took + took' + Contents(q2.batches);
    }
  }

  // ---------- how frames are packed ----------

  /** The batch has no room for the frame: it holds the most frames a batch may, or would exceed 8192 bytes. */
  predicate NoRoom(b: Batch, f: Numbered, maxBatch: nat) {
    |b.frames| == maxBatch || SumLens(b.frames) + |f.data| > 8192
  }

  /** Within bounds: more than one frame only up to 8192 bytes. Packed: no batch had room for the frame after it. */
  predicate Packed(q: Queue) {
    && (forall i | 0 <= i < |q.batches| ::
          0 < |q.batches[i].frames| <= q.maxBatch && (|q.batches[i].frames| > 1 ==> SumLens(q.batches[i].frames) <= 8192))
    && (forall i | 0 < i < |q.batches| :: NoRoom(q.batches[i - 1], q.batches[i].frames[0], q.maxBatch))
  }

  /** A batch is opened exactly if the last one has no room. */
  lemma AppendsExactly(q: Queue, bytes: nat)
    requires QueueOk(q)
    ensures CanAppend(q, bytes) <==>
              |q.batches| > 0 && |q.batches[|q.batches| - 1].frames| < q.maxBatch
              && SumLens(q.batches[|q.batches| - 1].frames) + bytes <= 8192
  {
    hide SumLens;
  }

  lemma PushPacks(q: Queue, f: Numbered)
    requires QueueOk(q) && Packed(q)
    ensures Packed(PushLocked(q, f))
  {
    hide SumLens, Contents, CanAppend;
    AppendsExactly(q, |f.data|);
    SumLensOne(f);
    var q' := PushLocked(q, f);
    if CanAppend(q, |f.data|) {
      var last := q.batches[|q.batches| - 1];
      SumLensNext(last.frames, f);
      forall i | 0 < i < |q'.batches| ensures NoRoom(q'.batches[i - 1], q'.batches[i].frames[0], q.maxBatch) {
        assert NoRoom(q.batches[i - 1], q.batches[i].frames[0], q.maxBatch);
      }
    } else {
      forall i | 0 < i < |q'.batches| ensures NoRoom(q'.batches[i - 1], q'.batches[i].frames[0], q.maxBatch) {
        if i < |q.batches| { assert NoRoom(q.batches[i - 1], q.batches[i].frames[0], q.maxBatch); }
      }
    }
  }

  lemma {:induction false} PushAllPacks(q: Queue, frames: seq<Numbered>)
    requires QueueOk(q) && Packed(q) && q.frames + |frames| <= q.capacity
    ensures Packed(PushAll(q, frames))
  {
    hide QueueOk, Packed, PushLocked;
    if |frames| == 0 {
    } else {
      var front := frames[..|frames| - 1];
      PushAllAppends(q, front);
      PushAllPacks(q, front);
      PushPacks(PushAll(q, front), frames[|frames| - 1]);
    }
  }

  lemma StepPacks(q: Queue, e: Event)
    requires QueueOk(q) && Packed(q)
    ensures Packed(Step(q, e).0)
  {
    hide Contents, SumLens, BatchOk, PushLocked, PushAll, NoRoom;
    match e
    case Push(f) => if q.frames < q.capacity { PushPacks(q, f); }
    case PushMany(input) => PushAllPacks(q, input[..Min(|input|, SaturatingSub(q.capacity, q.frames))]);
    case Pop(budget) =>
      var q' := Popped(q, budget).0;
      if |q'.batches| < |q.batches| {
        forall i | 0 < i < |q'.batches| ensures NoRoom(q'.batches[i - 1], q'.batches[i].frames[0], q.maxBatch) {
          assert NoRoom(q.batches[i], q.batches[i + 1].frames[0], q.maxBatch);
        }
      }
  }

  lemma StepHints(q: Queue, e: Event)
    requires QueueOk(q) && q.hint == q.frames
    ensures var q' := Step(q, e).0; q'.hint == |Contents(q'.batches)|
  {
    hide Contents, BatchOk, SumLens, PushAll;
    StepConserves(q, e);
  }

  /** In every run on a new queue, batches stay within their bounds and none is opened before the one before it is full,
      and the hint is the number of queued frames. */
  lemma {:induction false} RunPacked(capacity: nat, maxBatch: nat, events: seq<Event>)
    requires capacity > 0 && maxBatch > 0
    ensures var q := Run(Queue([], 0, 0, capacity, maxBatch), events).0;
            QueueOk(q) && Packed(q) && q.hint == |Contents(q.batches)|
  {
    hide Step, QueueOk, Packed;
    var q0 := Queue([], 0, 0, capacity, maxBatch);
    NewPacked(capacity, maxBatch);
    if |events| == 0 {
    } else {
      var front := events[..|events| - 1];
      RunPacked(capacity, maxBatch, front);
      StepConserves(Run(q0, front).0, events[|events| - 1]);
      StepPacks(Run(q0, front).0, events[|events| - 1]);
      FramesCount(Run(q0, front).0);
      StepHints(Run(q0, front).0, events[|events| - 1]);
    }
  }

  lemma NewPacked(capacity: nat, maxBatch: nat)
    requires capacity > 0 && maxBatch > 0
    ensures var q := Queue([], 0, 0, capacity, maxBatch); QueueOk(q) && Packed(q)
  {
  }

  lemma FramesCount(q: Queue)
    requires QueueOk(q)
    ensures q.frames == |Contents(q.batches)|
  {
  }

  /** A frame is taken exactly if fewer frames than the capacity are queued; the oldest batch is handed over exactly if
      its bytes and 32 more for each frame fit the budget. */
  lemma TakenExactly(q: Queue, f: Numbered, budget: nat)
    requires QueueOk(q) && budget < U64_MAX
    ensures TryPushed(q, f).1 <==> |Contents(q.batches)| < q.capacity
    ensures |q.batches| == 0 ==> Popped(q, budget).1 == None
    ensures |q.batches| > 0 ==>
              var front := q.batches[0];
              Popped(q, budget).1 == if SumLens(front.frames) + 32 * |front.frames| <= budget then Some(front) else None
  {
    hide Contents, SumLens;
  }

  // ---------- the queue object ----------

  class OwnedBatchQueue {
    var batches: seq<Batch>
    var frames: nat
    var framesHint: nat
    const capacity: nat
    const maxBatch: nat

    ghost function Model(): Queue
      reads this
    {
      Queue(batches, frames, framesHint, capacity, maxBatch)
    }

    ghost predicate Valid()
      reads this
    {
      QueueOk(Model())
    }

    constructor (capacityFrames: nat, batchSize: nat)
      requires batchSize == 8 || batchSize == 16 || batchSize == 32
      ensures Valid() && Model() == Queue([], 0, 0, Max(capacityFrames, 1), batchSize)
    {
      batches, frames, framesHint := [], 0, 0;
      capacity, maxBatch := Max(capacityFrames, 1), batchSize;
    }

    method AppendLocked(f: Numbered)
      requires Valid() && frames < capacity
      modifies this
      ensures Valid() && Model() == PushLocked(old(Model()), f)
    {
      hide QueueOk;
      PushAppends(Model(), f);
      var bytes := |f.data|;
      var canAppend := |batches| > 0;
      if canAppend {
        var last := batches[|batches| - 1];
        canAppend := |last.frames| < maxBatch && Min(last.bytes + bytes, U64_MAX) <= MAX_BATCH_BYTES;
      }
      if canAppend {
        var last := batches[|batches| - 1];
        batches := batches[|batches| - 1 := Batch(last.frames + [f], Min(last.bytes + bytes, U64_MAX))];
      } else {
        batches := batches + [Batch([f], Min(bytes, U64_MAX))];
      }
      frames := frames + 1;
    }

    method TryPush(f: Numbered) returns (ok: bool)
      requires Valid()
      modifies this
      ensures Valid() && (Model(), ok) == TryPushed(old(Model()), f)
    {
      hide PushLocked, Contents, BatchOk;
      if frames >= capacity {
        return false;
      }
      AppendLocked(f);
      framesHint := frames;
      return true;
    }

    method TryPushBatch(input: seq<Numbered>) returns (count: nat, rest: seq<Numbered>)
      requires Valid()
      modifies this
      ensures Valid() && (Model(), count) == TryPushedBatch(old(Model()), input)
      ensures rest == input[count..]
    {
      hide PushLocked, BatchOk, Contents;
      count := Min(|input|, SaturatingSub(capacity, frames));
      ghost var was := Model();
      for i := 0 to count
        invariant Valid() && Model() == PushAll(was, input[..i]) && frames == was.frames + i
      {
        assert input[..i + 1][..i] == input[..i];
        PushCounts(Model(), input[i]);
        AppendLocked(input[i]);
      }
      framesHint := frames;
      rest := input[count..];
    }

    method TryPopFitting(wireBudget: nat) returns (batch: Option<Batch>)
      requires Valid()
      modifies this
      ensures Valid() && (Model(), batch) == Popped(old(Model()), wireBudget)
    {
      hide BatchOk, Contents, SumLens;
      PopTakesFront(Model(), wireBudget);
      if |batches| == 0 {
        return None;
      }
      var front := batches[0];
      if front.bytes + |front.frames| * WIRE_OVERHEAD > wireBudget {
        return None;
      }
      batches := batches[1..];
      frames := SaturatingSub(frames, |front.frames|);
      framesHint := frames;
      return Some(front);
    }
  }

  lemma PushCounts(q: Queue, f: Numbered)
    ensures PushLocked(q, f).frames == q.frames + 1
  {
  }
}
