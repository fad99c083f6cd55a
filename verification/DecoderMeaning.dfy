/** What the decoder forgets, and when: retirement behind the reorder position, the cache of finished groups, bypass
    windows and static single-path mode, in literal numbers (src/fec.rs). */
module DecoderMeaning {
  import opened Bytes
  import opened Parity
  import opened FecMode
  import opened DecoderSpec
  import DecoderSafety
  import FD = FecDecoder

  // ---------- retirement ----------

  /** A cleanup boundary is set and in-order delivery has reached it. */
  predicate Due(d: Dec, progress: Option<nat>) {
    progress.Some? && 0 < d.cleanup <= progress.value
  }

  /** What retirement leaves: the boundary is marked, and exactly the groups from it on stay. */
  predicate RetiredAt(d: Dec, d': Dec) {
    && d'.retired == d.cleanup && d'.cleanup == d.cleanup
    && d'.groups == map s | s in d.groups && s >= d.cleanup :: d.groups[s]
  }

  /** Groups are retired exactly if the boundary has been reached and is not marked yet. */
  lemma RetireExactly(d: Dec, progress: Option<nat>)
    ensures Due(d, progress) && d.retired < d.cleanup ==> RetiredAt(d, Retire(d, progress))
    ensures !(Due(d, progress) && d.retired < d.cleanup) ==> Retire(d, progress) == d
  {
  }

  /** A frame that bypasses is never stored and recovers nothing; every 256th such number looks for groups to retire, and
      the others change nothing. */
  lemma BypassedData(d: Dec, sn: nat, frame: Frame, progress: Option<nat>)
    requires d.Sized() && Structured(d) && d.fence.Bypasses(sn)
    ensures var (d', out) := OnData(d, sn, frame, progress);
            && out.None? && d'.fence == d.fence && d'.cleanup == d.cleanup && d'.done == d.done && d'.single == d.single
            && (forall s | s in d'.groups :: s in d.groups && d'.groups[s] == d.groups[s])
            && (sn % 256 != 0 ==> d' == d)
            && (sn % 256 == 0 && frame != [] && !d.single && Due(d, progress) && d.retired < d.cleanup ==> RetiredAt(d, d'))
  {
    RetireExactly(d, progress);
  }

  /** Frames numbered from `sn` on, one after the other, at one position. */
  ghost function Feed(d: Dec, sn: nat, frames: seq<Frame>, progress: Option<nat>): Dec
    requires DecoderSpec.Inv(d)
    decreases |frames|
  {
    if |frames| == 0 then d
    else
      DecoderSafety.StepKeepsInv(d, None, DecoderSafety.Data(sn, frames[0], progress));
      Feed(OnData(d, sn, frames[0], progress).0, sn + 1, frames[1..], progress)
  }

  predicate AllBypass(d: Dec, sn: nat, frames: seq<Frame>) {
    !d.single && forall i | 0 <= i < |frames| :: frames[i] != [] && d.fence.Bypasses(sn + i)
  }

  lemma {:induction false} FeedRetired(d: Dec, sn: nat, frames: seq<Frame>, progress: Option<nat>)
    requires DecoderSpec.Inv(d) && AllBypass(d, sn, frames) && d.retired >= d.cleanup
    ensures Feed(d, sn, frames, progress) == d
    decreases |frames|
  {
    hide Inv, OnData, Structured, Fence.Bypasses;
    if |frames| == 0 {
    } else {
      BypassedIdle(d, sn, frames[0], progress);
      RestBypasses(d, d, sn, frames);
      FeedRetired(d, sn + 1, frames[1..], progress);
    }
  }

  lemma RestBypasses(d: Dec, d': Dec, sn: nat, frames: seq<Frame>)
    requires AllBypass(d, sn, frames) && |frames| > 0 && d'.fence == d.fence && d'.single == d.single
    ensures frames[0] != [] && d.fence.Bypasses(sn) && AllBypass(d', sn + 1, frames[1..])
  {
    assert frames[0] != [] && d.fence.Bypasses(sn + 0);
    forall i | 0 <= i < |frames[1..]| ensures frames[1..][i] != [] && d'.fence.Bypasses(sn + 1 + i) {
      assert frames[i + 1] != [] && d.fence.Bypasses(sn + (i + 1));
    }
  }

  lemma BypassedIdle(d: Dec, sn: nat, frame: Frame, progress: Option<nat>)
    requires DecoderSpec.Inv(d) && d.fence.Bypasses(sn)
    ensures d.Sized() && Structured(d)
    ensures sn % 256 != 0 || d.retired >= d.cleanup ==> OnData(d, sn, frame, progress).0 == d
    ensures sn % 256 == 0 && frame != [] && !d.single && Due(d, progress) && d.retired < d.cleanup ==>
              RetiredAt(d, OnData(d, sn, frame, progress).0)
    ensures var d' := OnData(d, sn, frame, progress).0;
            DecoderSpec.Inv(d') && d'.fence == d.fence && d'.single == d.single
  {
    DecoderSafety.InvStructured(d);
    DecoderSafety.StepKeepsInv(d, None, DecoderSafety.Data(sn, frame, progress));
    BypassedData(d, sn, frame, progress);
  }

  lemma {:induction false} RetiredBy(d: Dec, sn: nat, frames: seq<Frame>, i: nat, progress: Option<nat>)
    requires DecoderSpec.Inv(d) && AllBypass(d, sn, frames) && Due(d, progress) && d.retired < d.cleanup
    requires i < |frames| && (sn + i) % 256 == 0
    ensures RetiredAt(d, Feed(d, sn, frames, progress))
    decreases |frames|
  {
    hide Inv, OnData, Structured, Fence.Bypasses, AllBypass;
    RestBypasses(d, d, sn, frames);
    BypassedIdle(d, sn, frames[0], progress);
    if sn % 256 == 0 {
      var d' := OnData(d, sn, frames[0], progress).0;
      RestBypasses(d, d', sn, frames);
      FeedRetired(d', sn + 1, frames[1..], progress);
    } else {
      RetiredBy(d, sn + 1, frames[1..], i - 1, progress);
    }
  }

  /** Once delivery has passed the boundary, any 256 bypassed frames in a row are enough: every group below the boundary
      is gone, and no other. */
  lemma BypassedRetires(d: Dec, sn: nat, frames: seq<Frame>, progress: Option<nat>)
    requires DecoderSpec.Inv(d) && AllBypass(d, sn, frames) && |frames| >= 256
    requires Due(d, progress) && d.retired < d.cleanup
    ensures RetiredAt(d, Feed(d, sn, frames, progress))
  {
    hide Inv, AllBypass, RetiredAt;
    RetiredBy(d, sn, frames, (256 - sn % 256) % 256, progress);
  }

  /** A parity record with a valid header also retires what is due, before anything else. */
  lemma ParityRetires(d: Dec, ic: Option<Cipher>, payload: Frame, progress: Option<nat>)
    requires d.Sized() && Structured(d) && !d.single && ParseHeader(d.k, payload).Ok?
    requires Due(d, progress) && d.retired < d.cleanup
    ensures var d' := OnParity(d, ic, payload, progress).0;
            && d'.retired == d.cleanup == d'.cleanup && (forall s | s in d'.groups :: s >= d.cleanup)
            && (ParseHeader(d.k, payload).value < d.cleanup ==> RetiredAt(d, d') && OnParity(d, ic, payload, progress).1 == Ok(None))
  {
    hide ParseHeader, ParseBody, IsDone, TryRecover;
    var start := ParseHeader(d.k, payload).value;
    var d1 := Retire(d, progress);
    var body := ParseBody(d.k, ic, payload, start);
    if start >= d.cleanup && body.Ok? && !IsDone(d1.done, start, d.k) {
      var groups := Entry(d1.groups, start);
      if groups[start].parity.None? {
        var g := groups[start].(parity := Some(body.value));
        RecoverKeeps(d1.(groups := groups[start := g]), start);
      }
    }
  }

  /** Recovering a group touches no other group and none of the marks. */
  lemma RecoverKeeps(d: Dec, start: nat)
    requires d.Sized() && (start in d.groups && d.groups[start].parity.Some? ==> |d.groups[start].parity.value.lens| == d.k)
    ensures var d' := TryRecover(d, start).0;
            && d'.retired == d.retired && d'.cleanup == d.cleanup && d'.fence == d.fence
            && forall s | s in d'.groups :: s in d.groups && d'.groups[s] == d.groups[s]
  {
  }

  // ---------- mode changes ----------

  /** A control that changes the window drops exactly the groups whose first frame now bypasses, and those below the
      boundary if delivery has passed it; the boundary is the highest start of any window so far. */
  lemma ModeDropsExactly(d: Dec, c: Control, progress: Option<nat>, s: nat)
    requires s > 0 && Apply(d.fence, c) != d.fence
    ensures var d' := OnMode(d, c, progress);
            && d'.fence == Apply(d.fence, c)
            && d'.cleanup == Max(d.cleanup, d'.fence.from)
            && (s in d'.groups <==>
                  && s in d.groups && !d'.fence.Bypasses(s)
                  && (d'.fence.from > 0 && Due(d', progress) && d.retired < d'.cleanup ==> s >= d'.cleanup))
            && (s in d'.groups ==> d'.groups[s] == d.groups[s])
  {
    hide Apply;
  }

  // ---------- finished groups ----------

  /** The cache has 256 entries: a finished group is forgotten exactly when a group finishes whose index is the same
      modulo 256. */
  lemma DoneExactly(done: seq<nat>, s: nat, t: nat, k: nat)
    requires |done| == 256 && k > 0 && s > 0 && t > 0
    ensures IsDone(MarkDone(done, s, k), t, k) <==>
              t == s || (IsDone(done, t, k) && (t - 1) / k % 256 != (s - 1) / k % 256)
  {
  }

  /** A frame of a finished group is ignored; its number still counts as delivered elsewhere. */
  lemma FinishedData(d: Dec, sn: nat, frame: Frame, progress: Option<nat>)
    requires d.Sized() && Structured(d) && sn > 0 && !d.fence.Bypasses(sn) && IsDone(d.done, GroupStart(sn, d.k), d.k)
    ensures OnData(d, sn, frame, progress) == (d, None)
  {
  }

  /** So is its parity, which only retires what is due. */
  lemma FinishedParity(d: Dec, ic: Option<Cipher>, payload: Frame, progress: Option<nat>)
    requires d.Sized() && Structured(d) && ParseHeader(d.k, payload).Ok?
    requires IsDone(d.done, ParseHeader(d.k, payload).value, d.k)
    ensures var (d', r) := OnParity(d, ic, payload, progress);
            d' == (if d.single then d else Retire(d, progress)) && (r.Ok? ==> r.value.None?)
  {
  }

  /** A group that gets its last missing frame, by arrival or by recovery, is finished and no longer stored. */
  lemma CompletedIsDone(d: Dec, sn: nat, frame: Frame)
    requires d.Sized() && Structured(d) && sn > 0 && !IsDone(d.done, GroupStart(sn, d.k), d.k)
    ensures var start := GroupStart(sn, d.k);
            var (d', out) := Admit(d, sn, frame);
            && (start in d'.groups <==> !IsDone(d'.done, start, d'.k))
            && (out.Some? ==> IsDone(d'.done, start, d'.k) && d'.recovered == d.recovered + 1)
            && (out.None? ==> d'.recovered == d.recovered)
  {
    hide Missing, Admit, TryRecover, Entry, IsDone, MarkDone, IsStart, GroupStart, Structured;
    var start := GroupStart(sn, d.k);
    StartPositive(start, d.k);
    FD.AdmitCases(d, sn, frame);
    var (table, absorbed) := FD.Absorption(d.groups, start, sn - start, frame, d.k);
    DoneExactly(d.done, start, start, d.k);
    if absorbed.Partial? { RecoveredDone(d.(groups := table), start); }
  }

  lemma RecoveredDone(d: Dec, start: nat)
    requires FD.Recoverable(d, start) && start in d.groups && start > 0 && !IsDone(d.done, start, d.k)
    ensures var (d', out) := TryRecover(d, start);
            && d'.k == d.k && d'.Sized() && (start in d'.groups <==> !IsDone(d'.done, start, d'.k))
            && (out.Some? ==> IsDone(d'.done, start, d'.k) && d'.recovered == d.recovered + 1)
            && (out.None? ==> d'.recovered == d.recovered)
  {
    hide Missing, Rebuild, IsDone, MarkDone;
    DoneExactly(d.done, start, start, d.k);
  }

  // ---------- static single-path mode ----------

  /** In static single-path mode neither data nor parity is looked at. */
  lemma SingleIgnores(d: Dec, ic: Option<Cipher>, sn: nat, frame: Frame, progress: Option<nat>)
    requires d.Sized() && Structured(d) && d.single
    ensures OnData(d, sn, frame, progress) == (d, None) && OnParity(d, ic, frame, progress) == (d, Ok(None))
  {
  }

  /** Entering it forgets everything but the counters, entering it again changes nothing, and leaving it only lifts it. */
  lemma SingleExactly(d: Dec)
    ensures SetStaticSingle(d, false) == d.(single := false)
    ensures d.single ==> SetStaticSingle(d, true) == d
    ensures !d.single ==>
              SetStaticSingle(d, true) == NewDec(d.k).(k := d.k, single := true, recovered := d.recovered, lost := d.lost)
  {
  }
}
