/** Writing frames to a port with a single queued backend and no FEC: one by one, or a batch under one
    lock (src/net.rs). */
module PortWrite {
  import opened Bytes
  import opened Parity
  import opened BatchQueue

  /** `queued` and `accounted` are the backend's byte counters. */
  datatype Port = Port(queue: Queue, txSeq: nat, exhausted: bool, dropped: nat, queued: nat, accounted: nat)

  predicate PortOk(p: Port) {
    QueueOk(p.queue) && p.txSeq <= U32_MAX && (p.exhausted ==> p.txSeq == U32_MAX)
  }

  /** The high-water mark of `backend_score`. */
  predicate Full(capacity: nat, len: nat) {
    capacity <= 2 || len >= capacity - 2
  }

  // ---------- the two forms ----------

  function Drop(p: Port): Port {
    p.(dropped := p.dropped + 1)
  }

  function Enqueued(p: Port, q: Queue, bytes: nat): Port {
    p.(queue := q, txSeq := p.txSeq + 1, queued := p.queued + bytes, accounted := p.accounted + bytes)
  }

  /** `write_payload`. */
  function WriteOne(p: Port, data: Frame): Port {
    if |data| == 0 then p
    else if Full(p.queue.capacity, p.queue.hint) then Drop(p)
    else if p.txSeq >= U32_MAX then Drop(p.(exhausted := true))
    else
      var (q, ok) := TryPushed(p.queue, Numbered(p.txSeq + 1, data));
      if ok then Enqueued(p, q, |data|) else Drop(p.(txSeq := p.txSeq + 1))
  }

  function WriteEach(p: Port, frames: seq<Frame>): Port {
    if |frames| == 0 then p else WriteOne(WriteEach(p, frames[..|frames| - 1]), frames[|frames| - 1])
  }

  /** One turn of the loop in `write_payload_batch`. */
  function BatchOne(p: Port, data: Frame): Port {
    if |data| == 0 then p
    else if p.queue.frames >= SaturatingSub(p.queue.capacity, 2) then Drop(p)
    else if p.txSeq >= U32_MAX then Drop(p.(exhausted := true))
    else Enqueued(p, PushLocked(p.queue, Numbered(p.txSeq + 1, data)), |data|)
  }

  function BatchAll(p: Port, frames: seq<Frame>): Port {
    if |frames| == 0 then p else BatchOne(BatchAll(p, frames[..|frames| - 1]), frames[|frames| - 1])
  }

  // ---------- when they agree ----------

  /** Equal but for the hint, which the batch form does not refresh. */
  predicate Same(p: Port, p': Port) {
    p.(queue := p.queue.(hint := 0)) == p'.(queue := p'.queue.(hint := 0))
  }

  predicate AllEmpty(frames: seq<Frame>) {
    forall i | 0 <= i < |frames| :: |frames[i]| == 0
  }

  predicate HintAgrees(p: Port) {
    Full(p.queue.capacity, p.queue.hint) == Full(p.queue.capacity, p.queue.frames)
  }

  lemma PushIgnoresHint(q: Queue, q': Queue, f: Numbered)
    requires q.(hint := 0) == q'.(hint := 0)
    ensures PushLocked(q, f).(hint := 0) == PushLocked(q', f).(hint := 0)
    ensures PushLocked(q, f).hint == q.hint
  {
  }

  lemma StepAgrees(p: Port, b: Port, data: Frame)
    requires QueueOk(p.queue) && Same(p, b) && HintAgrees(p)
    ensures Same(WriteOne(p, data), BatchOne(b, data)) && HintAgrees(WriteOne(p, data))
    ensures QueueOk(WriteOne(p, data).queue)
  {
    hide PushLocked, Contents, BatchOk;
    var f := Numbered(p.txSeq + 1, data);
    PushIgnoresHint(p.queue, b.queue, f);
    PushCounts(p.queue, f);
    if p.queue.frames < p.queue.capacity { PushAppends(p.queue, f); }
  }

  lemma {:induction false} EachAgrees(p: Port, frames: seq<Frame>)
    requires QueueOk(p.queue) && HintAgrees(p)
    ensures Same(WriteEach(p, frames), BatchAll(p, frames))
    ensures HintAgrees(WriteEach(p, frames)) && QueueOk(WriteEach(p, frames).queue)
  {
    hide WriteOne, BatchOne, HintAgrees, QueueOk;
    if |frames| == 0 {
    } else {
      var front := frames[..|frames| - 1];
      EachAgrees(p, front);
      StepAgrees(WriteEach(p, front), BatchAll(p, front), frames[|frames| - 1]);
    }
  }

  /** Both forms have used up more sequence numbers, or found them exhausted. */
  predicate Advanced(p: Port, p': Port) {
    p'.txSeq > p.txSeq || (p'.exhausted && !p.exhausted)
  }

  predicate Unmoved(p: Port, p': Port) {
    p'.txSeq == p.txSeq && p'.exhausted == p.exhausted && p'.queue == p.queue
  }

  lemma {:induction false} WriteStuck(p: Port, frames: seq<Frame>)
    requires Full(p.queue.capacity, p.queue.hint)
    ensures Unmoved(p, WriteEach(p, frames))
  {
    if |frames| == 0 {
    } else {
      WriteStuck(p, frames[..|frames| - 1]);
    }
  }

  lemma {:induction false} BatchStuck(p: Port, frames: seq<Frame>)
    requires Full(p.queue.capacity, p.queue.frames)
    ensures Unmoved(p, BatchAll(p, frames))
  {
    hide PushLocked;
    if |frames| == 0 {
    } else {
      BatchStuck(p, frames[..|frames| - 1]);
    }
  }

  lemma {:induction false} WriteAdvances(p: Port, frames: seq<Frame>)
    requires !Full(p.queue.capacity, p.queue.hint) && p.txSeq <= U32_MAX && (p.txSeq == U32_MAX ==> !p.exhausted)
    ensures AllEmpty(frames) ==> WriteEach(p, frames) == p
    ensures !AllEmpty(frames) ==> Advanced(p, WriteEach(p, frames))
  {
    hide TryPushed;
    if |frames| == 0 {
    } else {
      var front := frames[..|frames| - 1];
      WriteAdvances(p, front);
      assert AllEmpty(frames) <==> AllEmpty(front) && |frames[|frames| - 1]| == 0;
    }
  }

  lemma {:induction false} BatchAdvances(p: Port, frames: seq<Frame>)
    requires !Full(p.queue.capacity, p.queue.frames) && p.txSeq <= U32_MAX && (p.txSeq == U32_MAX ==> !p.exhausted)
    ensures AllEmpty(frames) ==> BatchAll(p, frames) == p
    ensures !AllEmpty(frames) ==> Advanced(p, BatchAll(p, frames))
  {
    hide PushLocked;
    if |frames| == 0 {
    } else {
      var front := frames[..|frames| - 1];
      BatchAdvances(p, front);
      assert AllEmpty(frames) <==> AllEmpty(front) && |frames[|frames| - 1]| == 0;
    }
  }

  lemma {:induction false} NothingToWrite(p: Port, frames: seq<Frame>)
    requires AllEmpty(frames)
    ensures WriteEach(p, frames) == p && BatchAll(p, frames) == p
  {
    if |frames| == 0 {
    } else {
      NothingToWrite(p, frames[..|frames| - 1]);
    }
  }

  lemma {:induction false} ExhaustedAgrees(p: Port, b: Port, frames: seq<Frame>)
    requires p.txSeq == U32_MAX && p.exhausted && Same(p, b)
    ensures Same(WriteEach(p, frames), BatchAll(b, frames))
    ensures WriteEach(p, frames).txSeq == U32_MAX && WriteEach(p, frames).exhausted
  {
    hide PushLocked, TryPushed;
    if |frames| == 0 {
    } else {
      ExhaustedAgrees(p, b, frames[..|frames| - 1]);
    }
  }

  /** A batch write leaves the port exactly as writing its frames one by one, if and only if there is
      nothing to write, the sequence space is known to be exhausted, or the hint is on the same side of the
      high-water mark as the queue itself. In particular whenever `hint == frames`. */
  lemma BatchRefinesEach(p: Port, frames: seq<Frame>)
    requires PortOk(p)
    ensures Same(WriteEach(p, frames), BatchAll(p, frames)) <==> AllEmpty(frames) || p.exhausted || HintAgrees(p)
    ensures p.queue.hint == p.queue.frames ==> HintAgrees(p)
  {
    hide WriteEach, BatchAll, QueueOk, Full;
    if AllEmpty(frames) {
      NothingToWrite(p, frames);
    } else if p.exhausted {
      ExhaustedAgrees(p, p, frames);
    } else if HintAgrees(p) {
      EachAgrees(p, frames);
    } else if Full(p.queue.capacity, p.queue.hint) {
      WriteStuck(p, frames);
      BatchAdvances(p, frames);
    } else {
      BatchStuck(p, frames);
      WriteAdvances(p, frames);
    }
  }

  // ---------- what a single write does ----------

  /** A single write, also with a hint that is out of date. Below the high-water mark by the hint, the frame takes the next
      number if one is left; it is queued at the end under it if fewer frames than the capacity are queued, and dropped
      otherwise, number and all. Running out of numbers is marked. */
  lemma WriteExactly(p: Port, data: Frame)
    requires PortOk(p)
    ensures var p' := WriteOne(p, data);
            var below := data != [] && p.queue.hint + 2 < p.queue.capacity;
            var numbered := below && p.txSeq < 0xFFFF_FFFF;
            var taken := numbered && |Contents(p.queue.batches)| < p.queue.capacity;
            && QueueOk(p'.queue)
            && p'.txSeq == p.txSeq + (if numbered then 1 else 0)
            && Contents(p'.queue.batches) == Contents(p.queue.batches) + (if taken then [Numbered(p.txSeq + 1, data)] else [])
            && p'.dropped == p.dropped + (if data == [] || taken then 0 else 1)
            && p'.queued == p.queued + (if taken then |data| else 0)
            && p'.accounted == p.accounted + (if taken then |data| else 0)
            && (p'.exhausted <==> p.exhausted || (below && p.txSeq == 0xFFFF_FFFF))
            && p'.queue.hint == (if taken then |Contents(p'.queue.batches)| else p.queue.hint)
  {
    hide Contents, BatchOk, PushLocked;
    var f := Numbered(p.txSeq + 1, data);
    if p.queue.frames < p.queue.capacity { PushAppends(p.queue, f); }
    assert Contents(p.queue.batches) + [] == Contents(p.queue.batches);
  }

  // ---------- what a batch write does ----------

  function NonEmpty(frames: seq<Frame>): seq<Frame> {
    if |frames| == 0 then []
    else
      var front := NonEmpty(frames[..|frames| - 1]);
      if |frames[|frames| - 1]| == 0 then front else front + [frames[|frames| - 1]]
  }

  function NumberFrom(frames: seq<Frame>, sn: nat): (r: seq<Numbered>)
    ensures |r| == |frames|
  {
    seq(|frames|, i requires 0 <= i < |frames| => Numbered(sn + 1 + i, frames[i]))
  }

  function TotalBytes(frames: seq<Frame>): nat {
    if |frames| == 0 then 0 else TotalBytes(frames[..|frames| - 1]) + |frames[|frames| - 1]|
  }

  /** How many more frames the port takes: up to the high-water mark and the end of the sequence space. */
  function Room(p: Port): nat
    requires p.txSeq <= U32_MAX
  {
    Min(SaturatingSub(SaturatingSub(p.queue.capacity, 2), p.queue.frames), U32_MAX - p.txSeq)
  }

  /** `p'` is `p` with exactly the frames `taken` appended under the next numbers and `lost` more drops. */
  ghost predicate Grown(p: Port, p': Port, taken: seq<Frame>, lost: nat) {
    && QueueOk(p'.queue) && p'.queue.capacity == p.queue.capacity && p'.queue.hint == p.queue.hint
    && Contents(p'.queue.batches) == Contents(p.queue.batches) + NumberFrom(taken, p.txSeq)
    && p'.txSeq == p.txSeq + |taken|
    && p'.dropped == p.dropped + lost
    && p'.queued == p.queued + TotalBytes(taken)
    && p'.accounted == p.accounted + TotalBytes(taken)
  }

  lemma GrownNext(p: Port, p': Port, taken: seq<Frame>, lost: nat, data: Frame)
    requires Grown(p, p', taken, lost) && p'.queue.frames < p'.queue.capacity
    ensures Grown(p, Enqueued(p', PushLocked(p'.queue, Numbered(p'.txSeq + 1, data)), |data|), taken + [data], lost)
  {
    hide Contents, BatchOk, PushLocked;
    var f := Numbered(p'.txSeq + 1, data);
    PushAppends(p'.queue, f);
    PushIgnoresHint(p'.queue, p'.queue, f);
    PushKeepsCapacity(p'.queue, f);
    assert NumberFrom(taken + [data], p.txSeq) == NumberFrom(taken, p.txSeq) + [f];
    assert (taken + [data])[..|taken|] == taken;
  }

  lemma PushKeepsCapacity(q: Queue, f: Numbered)
    ensures PushLocked(q, f).capacity == q.capacity
  {
  }

  lemma GrownFrames(p: Port, p': Port, taken: seq<Frame>, lost: nat)
    requires QueueOk(p.queue) && Grown(p, p', taken, lost)
    ensures p'.queue.frames == p.queue.frames + |taken|
  {
    hide BatchOk, Contents;
  }

  /** The first frames that fit are queued in order under consecutive numbers; all others are counted as
      dropped; empty ones are ignored. */
  lemma {:induction false} BatchExactly(p: Port, frames: seq<Frame>)
    requires QueueOk(p.queue) && p.txSeq <= U32_MAX
    ensures var payloads := NonEmpty(frames);
            var m := Min(|payloads|, Room(p));
            Grown(p, BatchAll(p, frames), payloads[..m], |payloads| - m)
  {
    hide Grown, Contents, BatchOk, PushLocked, TotalBytes;
    if |frames| == 0 {
      GrownNot(p);
    } else {
      var front, data := frames[..|frames| - 1], frames[|frames| - 1];
      BatchExactly(p, front);
      var p1 := BatchAll(p, front);
      var payloads := NonEmpty(front);
      var m := Min(|payloads|, Room(p));
      GrownShape(p, p1, payloads[..m], |payloads| - m);
      GrownFrames(p, p1, payloads[..m], |payloads| - m);
      if |data| > 0 {
        if m < Room(p) {
          assert payloads[..m] == payloads && (payloads + [data])[..m + 1] == payloads + [data];
          GrownNext(p, p1, payloads, 0, data);
        } else {
          assert (payloads + [data])[..m] == payloads[..m];
          GrownDrop(p, p1, payloads[..m], |payloads| - m);
        }
      }
    }
  }

  lemma GrownNot(p: Port)
    requires QueueOk(p.queue)
    ensures Grown(p, p, [], 0)
  {
    hide BatchOk, Contents;
  }

  lemma GrownShape(p: Port, p': Port, taken: seq<Frame>, lost: nat)
    requires Grown(p, p', taken, lost)
    ensures QueueOk(p'.queue) && p'.queue.capacity == p.queue.capacity && p'.txSeq == p.txSeq + |taken|
  {
  }

  lemma GrownDrop(p: Port, p': Port, taken: seq<Frame>, lost: nat)
    requires Grown(p, p', taken, lost)
    ensures Grown(p, Drop(p'), taken, lost + 1)
    ensures Grown(p, Drop(p'.(exhausted := true)), taken, lost + 1)
  {
    hide BatchOk, Contents;
  }

  /** The same, one by one. */
  lemma EachExactly(p: Port, frames: seq<Frame>)
    requires PortOk(p) && p.queue.hint == p.queue.frames
    ensures var payloads := NonEmpty(frames);
            var m := Min(|payloads|, Room(p));
            var p' := WriteEach(p, frames);
            && Contents(p'.queue.batches) == Contents(p.queue.batches) + NumberFrom(payloads[..m], p.txSeq)
            && p'.txSeq == p.txSeq + m && p'.dropped == p.dropped + |payloads| - m
            && p'.queued == p.queued + TotalBytes(payloads[..m])
  {
    hide Contents, BatchOk, PushLocked, TotalBytes, WriteEach, BatchAll, NumberFrom;
    BatchRefinesEach(p, frames);
    BatchExactly(p, frames);
  }

  /** A batch write that queues anything leaves the hint behind the queue, so that the next single write
      may judge the high-water mark wrongly. */
  lemma BatchLeavesHint(p: Port, frames: seq<Frame>)
    requires PortOk(p) && p.queue.hint == p.queue.frames
    ensures var p' := BatchAll(p, frames);
            p'.queue.hint == p'.queue.frames <==> AllEmpty(frames) || Room(p) == 0
  {
    hide Contents, BatchOk, PushLocked, TotalBytes, BatchAll, NumberFrom;
    var payloads := NonEmpty(frames);
    BatchExactly(p, frames);
    GrownFrames(p, BatchAll(p, frames), payloads[..Min(|payloads|, Room(p))], |payloads| - Min(|payloads|, Room(p)));
    NonEmptyNone(frames);
  }

  lemma {:induction false} NonEmptyNone(frames: seq<Frame>)
    ensures |NonEmpty(frames)| == 0 <==> AllEmpty(frames)
  {
    if |frames| == 0 {
    } else {
      var front := frames[..|frames| - 1];
      NonEmptyNone(front);
      assert AllEmpty(frames) <==> AllEmpty(front) && |frames[|frames| - 1]| == 0;
    }
  }

  // ---------- the port object ----------

  class SingleBackendPort {
    const queue: OwnedBatchQueue
    var txSeq: nat
    var sequenceExhausted: bool
    var dropped: nat
    var queuedBytes: nat
    var assignedBytes: nat

    ghost function Model(): Port
      reads this, queue
    {
      Port(queue.Model(), txSeq, sequenceExhausted, dropped, queuedBytes, assignedBytes)
    }

    ghost predicate Valid()
      reads this, queue
    {
      PortOk(Model())
    }

    constructor (q: OwnedBatchQueue)
      requires q.Valid()
      ensures queue == q && Valid() && Model() == Port(q.Model(), 0, false, 0, 0, 0)
    {
      queue := q;
      txSeq, sequenceExhausted, dropped, queuedBytes, assignedBytes := 0, false, 0, 0, 0;
    }

    method NextSeq() returns (sn: Option<nat>)
      requires txSeq <= U32_MAX
      modifies this
      ensures sn == if old(txSeq) < U32_MAX then Some(old(txSeq) + 1) else None
      ensures txSeq == if old(txSeq) < U32_MAX then old(txSeq) + 1 else old(txSeq)
      ensures sequenceExhausted == (old(sequenceExhausted) || old(txSeq) == U32_MAX)
      ensures dropped == old(dropped) && queuedBytes == old(queuedBytes) && assignedBytes == old(assignedBytes)
    {
      if txSeq == U32_MAX {
        sequenceExhausted := true;
        return None;
      }
      txSeq := txSeq + 1;
      return Some(txSeq);
    }

    method WritePayload(data: Frame)
      requires Valid()
      modifies this, queue
      ensures Valid() && Model() == WriteOne(old(Model()), data)
    {
      hide PushLocked, Contents, BatchOk;
      if |data| == 0 {
        return;
      }
      if queue.capacity <= 2 || queue.framesHint >= queue.capacity - 2 {
        dropped := dropped + 1;
        return;
      }
      var sn := NextSeq();
      if sn.None? {
        dropped := dropped + 1;
        return;
      }
      queuedBytes := queuedBytes + |data|;
      var ok := queue.TryPush(Numbered(sn.value, data));
      if ok {
        assignedBytes := assignedBytes + |data|;
      } else {
        queuedBytes := SaturatingSub(queuedBytes, |data|);
        dropped := dropped + 1;
      }
    }

    method WritePayloadBatch(frames: seq<Frame>)
      requires Valid()
      modifies this, queue
      ensures Valid() && Model() == BatchAll(old(Model()), frames)
    {
      hide PushLocked, Contents, BatchOk;
      ghost var was := Model();
      var acceptedBytes: nat := 0;
      for i := 0 to |frames|
        invariant Valid()
        invariant Model().(accounted := assignedBytes + acceptedBytes) == BatchAll(was, frames[..i])
      {
        assert frames[..i + 1][..i] == frames[..i];
        var data := frames[i];
        if |data| == 0 {
          continue;
        }
        if queue.frames >= SaturatingSub(queue.capacity, 2) {
          dropped := dropped + 1;
          continue;
        }
        var sn := NextSeq();
        if sn.None? {
          dropped := dropped + 1;
          continue;
        }
        queuedBytes := queuedBytes + |data|;
        queue.AppendLocked(Numbered(sn.value, data));
        acceptedBytes := acceptedBytes + |data|;
      }
      assert frames[..|frames|] == frames;
      assignedBytes := assignedBytes + acceptedBytes;
    }
  }
}
