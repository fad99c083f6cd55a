/** What a pick means in bytes, microseconds and round trips, with the numbers of the source written out
    (src/adaptive_multipath.rs). */
module PickMeaning {
  import opened Bytes
  import opened Scheduler

  // ---------- times ----------

  /** A queue drains at 25 MB/s: 40 ns for each byte. */
  lemma DrainTime(bytes: nat)
    requires bytes <= 18_446_744_073
    ensures ServiceNs(bytes, FALLBACK_RATE) == 40 * bytes
  {
  }

  function SumQueued(paths: seq<Path>, n: nat): nat
    requires n <= |paths|
  {
    if n == 0 then 0 else SumQueued(paths, n - 1) + paths[n - 1].queued
  }

  /** Pressure is the frame and everything queued, saturating. */
  lemma {:induction false} PressureSum(paths: seq<Path>, incoming: nat, n: nat)
    requires n <= |paths| && incoming <= U64_MAX
    ensures Pressure(paths, incoming, n) == Min(incoming + SumQueued(paths, n), U64_MAX)
  {
    if n == 0 {
    } else {
      PressureSum(paths, incoming, n - 1);
    }
  }

  /** How many paths are kept active: one more at 24 KiB, 96 KiB and 256 KiB of pressure or 40, 100 and 180 MB/s of demand,
      as far as there are eligible ones. */
  lemma TargetLevels(pressure: nat, demand: nat, eligible: nat)
    ensures var n := ActiveTarget(pressure, demand, eligible);
            && (n >= 1 <==> eligible >= 1)
            && (n >= 2 <==> eligible >= 2 && (pressure >= 24_576 || demand >= 40_000_000))
            && (n >= 3 <==> eligible >= 3 && (pressure >= 98_304 || demand >= 100_000_000))
            && (n >= 4 <==> eligible >= 4 && (pressure >= 262_144 || demand >= 180_000_000))
            && n <= 4
  {
  }

  // ---------- who is eligible ----------

  /** A round trip that is not known yet counts as 50 ms. */
  function RoundTrip(p: Path): nat {
    if p.rtt == 0 then 50_000 else p.rtt
  }

  /** The queue has room for more than two frames, and the round trip is within 5 ms or a quarter of the least one. */
  predicate Close(p: Path, least: nat) {
    p.cap > 2 && p.len + 2 < p.cap && (RoundTrip(p) <= least + 5_000 || 4 * (RoundTrip(p) - least) <= least)
  }

  lemma EligibleIsClose(p: Path, least: nat)
    ensures Eligible(p, MaxRtt(least)) <==> Close(p, least)
    ensures Rtt(p) == RoundTrip(p)
  {
  }

  predicate HasRoom(p: Path) {
    p.cap > 2 && p.len + 2 < p.cap
  }

  /** `m` is the least round trip of the paths that have room. */
  predicate IsLeastTrip(paths: seq<Path>, m: nat) {
    && (forall i | 0 <= i < |paths| && HasRoom(paths[i]) :: m <= RoundTrip(paths[i]))
    && (exists i :: 0 <= i < |paths| && HasRoom(paths[i]) && RoundTrip(paths[i]) == m)
  }

  lemma LeastTrip(paths: seq<Path>)
    ensures MinRtt(paths, |paths|) < U32_MAX ==> IsLeastTrip(paths, MinRtt(paths, |paths|))
    ensures MinRtt(paths, |paths|) == U32_MAX ==>
              forall i | 0 <= i < |paths| && HasRoom(paths[i]) :: RoundTrip(paths[i]) >= U32_MAX
  {
  }

  /** The candidates are ordered by round trip, then index: the time of the frame itself cancels out. */
  lemma PrecedesByTrip(paths: seq<Path>, incoming: nat, i: nat, j: nat)
    requires i < |paths| && j < |paths|
    ensures Precedes(paths, incoming, i, j) <==>
              RoundTrip(paths[i]) < RoundTrip(paths[j]) || (RoundTrip(paths[i]) == RoundTrip(paths[j]) && i < j)
  {
  }

  // ---------- the active set ----------

  /** The paths within reach of the least round trip. */
  ghost function CloseSet(paths: seq<Path>, m: nat): set<nat> {
    set i: nat | i < |paths| && Close(paths[i], m)
  }

  lemma RankingCounts(paths: seq<Path>, incoming: nat)
    ensures |Ranking(paths, incoming)| == |CloseSet(paths, MinRtt(paths, |paths|))|
    ensures forall i :: i in Ranking(paths, incoming) <==> 0 <= i < |paths| && Close(paths[i], MinRtt(paths, |paths|))
  {
    hide Ranking, Eligible, Close, MinRtt, Sorted;
    var order, m := Ranking(paths, incoming), MinRtt(paths, |paths|);
    RankingExactly(paths, incoming);
    forall i: nat | i < |paths| ensures Eligible(paths[i], MaxRtt(m)) <==> Close(paths[i], m) { EligibleIsClose(paths[i], m); }
    DistinctCount(order);
    assert CloseSet(paths, m) == set a | 0 <= a < |order| :: order[a];
  }

  /** After a pick that found a path with room, the number of active paths follows pressure, demand and the number of paths
      within reach; all active paths are within reach, the chosen one is active, and several active ones are those with
      the least round trips, lower indices first. */
  lemma ActiveExactly(paths: seq<Path>, preferred: Option<nat>, incoming: nat, demand: nat)
    requires 0 < |paths| && MinRtt(paths, |paths|) < U32_MAX && incoming <= U64_MAX
    ensures var (next, c) := Picked(paths, preferred, incoming, demand);
            var close := CloseSet(paths, MinRtt(paths, |paths|));
            && |ActiveSet(next)| == ActiveTarget(Min(incoming + SumQueued(paths, |paths|), U64_MAX), demand, |close|)
            && c.Some? && c.value in ActiveSet(next) && ActiveSet(next) <= close
            && (|ActiveSet(next)| > 1 ==>
                  forall i, j | i in ActiveSet(next) && j in close && j !in ActiveSet(next) ::
                    RoundTrip(paths[i]) < RoundTrip(paths[j]) || (RoundTrip(paths[i]) == RoundTrip(paths[j]) && i < j))
  {
    hide Picked, Ranking, Eligible, Close, MinRtt, Precedes, Pressure, SumQueued, ActiveTarget, Rtt;
    var m := MinRtt(paths, |paths|);
    PickActive(paths, preferred, incoming, demand);
    PressureSum(paths, incoming, |paths|);
    RankingCounts(paths, incoming);
    var next := Picked(paths, preferred, incoming, demand).0;
    forall i: nat | i < |paths| ensures Eligible(paths[i], MaxRtt(m)) <==> Close(paths[i], m) { EligibleIsClose(paths[i], m); }
    forall i: nat, j: nat | i in ActiveSet(next) && j in CloseSet(paths, m) && j !in ActiveSet(next) && |ActiveSet(next)| > 1
      ensures RoundTrip(paths[i]) < RoundTrip(paths[j]) || (RoundTrip(paths[i]) == RoundTrip(paths[j]) && i < j)
    {
      assert Precedes(paths, incoming, i, j);
      PrecedesByTrip(paths, incoming, i, j);
    }
  }

  // ---------- one active path ----------

  /** How much longer a one-way trip may be before traffic leaves the current path: a sixteenth of its round trip, between
      0.5 and 5 ms. */
  function Slack(p: Path): nat {
    if RoundTrip(p) / 16 < 500 then 500 else if RoundTrip(p) / 16 > 5_000 then 5_000 else RoundTrip(p) / 16
  }

  /** Best by round trip, then index. */
  predicate IsNearest(paths: seq<Path>, c: nat) {
    && c < |paths| && HasRoom(paths[c])
    && forall i | 0 <= i < |paths| && HasRoom(paths[i]) ::
         RoundTrip(paths[c]) < RoundTrip(paths[i]) || (RoundTrip(paths[c]) == RoundTrip(paths[i]) && c <= i)
  }

  lemma FirstIsNearest(paths: seq<Path>, incoming: nat)
    requires MinRtt(paths, |paths|) < U32_MAX
    ensures var c := Ranking(paths, incoming)[0]; IsNearest(paths, c) && RoundTrip(paths[c]) == MinRtt(paths, |paths|)
  {
    hide Ranking, MinRtt, Precedes;
    var order, m := Ranking(paths, incoming), MinRtt(paths, |paths|);
    RankingExactly(paths, incoming);
    LeastTrip(paths);
    var b :| 0 <= b < |paths| && HasRoom(paths[b]) && RoundTrip(paths[b]) == m;
    EligibleIsClose(paths[b], m);
    assert b in order;
    var c := order[0];
    EligibleIsClose(paths[c], m);
    assert c in order;
    InOrder(paths, incoming, order, b);
    forall i: nat | i < |paths| && HasRoom(paths[i])
      ensures RoundTrip(paths[c]) < RoundTrip(paths[i]) || (RoundTrip(paths[c]) == RoundTrip(paths[i]) && c <= i)
    {
      if RoundTrip(paths[i]) == m {
        EligibleIsClose(paths[i], m);
        InOrder(paths, incoming, order, i);
      }
    }
  }

  lemma InOrder(paths: seq<Path>, incoming: nat, order: seq<nat>, i: nat)
    requires Indices(order, |paths|) && Sorted(paths, incoming, order) && i in order
    ensures i == order[0] || (RoundTrip(paths[order[0]]) < RoundTrip(paths[i])
                              || (RoundTrip(paths[order[0]]) == RoundTrip(paths[i]) && order[0] < i))
  {
    hide Precedes;
    var a :| 0 <= a < |order| && order[a] == i;
    if a > 0 { PrecedesByTrip(paths, incoming, order[0], i); }
  }

  /** While one path suffices, traffic stays on the current path exactly as long as that is within reach and its one-way
      trip is at most the slack longer than the least one; otherwise it goes to the nearest path. */
  lemma StickyExactly(paths: seq<Path>, preferred: Option<nat>, incoming: nat, demand: nat)
    requires 0 < |paths| && MinRtt(paths, |paths|) < U32_MAX && Target(paths, incoming, demand) == 1
    requires incoming <= U64_MAX && forall i | 0 <= i < |paths| :: paths[i].rtt <= U32_MAX
    ensures var m := MinRtt(paths, |paths|);
            var c := Picked(paths, preferred, incoming, demand).1;
            && c.Some? && c.value < |paths|
            && if preferred.Some? && preferred.value < |paths| && Close(paths[preferred.value], m)
                  && RoundTrip(paths[preferred.value]) / 2 <= m / 2 + Slack(paths[preferred.value])
               then c == preferred
               else IsNearest(paths, c.value)
  {
    hide Ranking, MinRtt, Target, Screened, Spread, Only, Close, ReferenceRate;
    FirstIsNearest(paths, incoming);
    RankingCounts(paths, incoming);
    var order := Ranking(paths, incoming);
    var c := Sticky(paths, incoming, order, preferred);
    assert order[0] in order;
    if preferred.Some? && preferred.value in order { BasesCompare(paths[preferred.value], paths[order[0]], incoming); }
  }

  /** Whether no path has room or one suffices: the chosen path alone is active, and every account starts over at 0. If
      no path with a round trip below 2^32 - 1 us has room, the first path takes the frame. */
  lemma LoneExactly(paths: seq<Path>, preferred: Option<nat>, incoming: nat, demand: nat, i: nat)
    requires i < |paths| && (MinRtt(paths, |paths|) < U32_MAX ==> Target(paths, incoming, demand) == 1)
    ensures var (next, c) := Picked(paths, preferred, incoming, demand);
            && c.Some? && (next[i].active <==> c == Some(i)) && next[i].virt == 0
            && ((forall j | 0 <= j < |paths| && HasRoom(paths[j]) :: RoundTrip(paths[j]) >= 0xFFFF_FFFF) ==> c == Some(0))
  {
    hide MinRtt, Target, Ranking, Sticky, Screen, ReferenceRate, HasRoom;
    LeastTrip(paths);
  }

  /** The time of the frame itself cancels out of the comparison. */
  lemma BasesCompare(p: Path, q: Path, incoming: nat)
    requires incoming <= U64_MAX && p.rtt <= U32_MAX && q.rtt <= U32_MAX
    ensures Base(p, incoming) <= Min(Base(q, incoming) + Max(STICKY_MIN_US, Min(Rtt(p) / 16, STICKY_MAX_US)), U64_MAX) <==>
              RoundTrip(p) / 2 <= RoundTrip(q) / 2 + Slack(p)
  {
  }

  // ---------- several active paths ----------

  /** The paths a pick keeps active. */
  function Chosen(paths: seq<Path>, incoming: nat, demand: nat): (top: seq<nat>)
    ensures Indices(top, |paths|)
  {
    Ranking(paths, incoming)[..Target(paths, incoming, demand)]
  }

  /** The accounts that a pick compares. Their least is 0; two paths that were active before differ as before; a path that
      becomes active starts at the least account; all others are cleared. */
  lemma ComparedExactly(paths: seq<Path>, incoming: nat, demand: nat, i: nat, j: nat)
    requires Bounded(paths) && MinRtt(paths, |paths|) < U32_MAX && Target(paths, incoming, demand) > 1
    requires i < |paths| && j < |paths|
    ensures var ready, top := Compared(paths, incoming, demand), Chosen(paths, incoming, demand);
            && (exists a :: 0 <= a < |top| && ready[top[a]].virt == 0)
            && ready[i].virt >= 0
            && (i in top && j in top && paths[i].active && paths[j].active ==>
                  ready[i].virt - ready[j].virt == paths[i].virt - paths[j].virt)
            && (i in top && !paths[i].active ==> ready[i].virt == 0)
            && (i !in top ==> !ready[i].active && ready[i].virt == 0)
            && (i in top ==> ready[i].active)
            && ready[i].queued == paths[i].queued && ready[i].carry == paths[i].carry && ready[i].rtt == paths[i].rtt
  {
    hide Ranking, MinRtt, Target, Eta, ReferenceRate, Shifted, Admitted, Eligible, Bounded;
    var m := MaxRtt(MinRtt(paths, |paths|));
    var screened := Screened(paths, incoming, m, ReferenceRate(paths, m, |paths|));
    var top := Chosen(paths, incoming, demand);
    RankingExactly(paths, incoming);
    forall x | x in top ensures Eligible(paths[x], m) { assert x in Ranking(paths, incoming); }
    ScreenedBounded(paths, incoming, m, ReferenceRate(paths, m, |paths|));
    AdmittedBounded(screened, top);
    ShiftedBounded(Admitted(screened, top), top);
    AccountAt(screened, top, i);
    AccountAt(screened, top, j);
  }

  lemma ScreenedBounded(paths: seq<Path>, incoming: nat, maxRtt: nat, reference: nat)
    requires Bounded(paths)
    ensures Bounded(Screened(paths, incoming, maxRtt, reference))
  {
    hide Eta, Eligible;
  }

  /** The least account among the admitted paths. */
  function LeastAdmitted(paths: seq<Path>, top: seq<nat>): int
    requires Indices(top, |paths|)
  {
    LeastVirtual(Admitted(paths, top), top)
  }

  /** One path through admission and shift. */
  lemma AccountAt(paths: seq<Path>, top: seq<nat>, i: nat)
    requires Indices(top, |paths|) && |top| > 0 && Bounded(paths) && i < |paths|
    ensures var ready := Shifted(Admitted(paths, top), top);
            && ready[i].virt >= 0
            && ready[i].virt == (if i in top && paths[i].active then paths[i].virt - LeastAdmitted(paths, top) else 0)
            && (ready[i].active <==> i in top)
            && ready[i].queued == paths[i].queued && ready[i].carry == paths[i].carry && ready[i].rtt == paths[i].rtt
  {
    hide LeastVirtual, Epoch, Shifted, Admitted;
    AdmittedBounded(paths, top);
    ShiftedBounded(Admitted(paths, top), top);
    NewcomersLeast(paths, top);
    AdmitAt(paths, top, i);
    ShiftAt(Admitted(paths, top), top, i);
    if i in top { var a :| 0 <= a < |top| && top[a] == i; }
  }

  lemma AdmitAt(paths: seq<Path>, top: seq<nat>, i: nat)
    requires Indices(top, |paths|) && i < |paths|
    ensures var p := Admitted(paths, top)[i];
            && (p.active <==> i in top) && p.queued == paths[i].queued && p.carry == paths[i].carry && p.rtt == paths[i].rtt
            && (i !in top ==> p.virt == 0) && (i in top && paths[i].active ==> p.virt == paths[i].virt)
  {
    hide Epoch;
  }

  lemma ShiftAt(paths: seq<Path>, top: seq<nat>, i: nat)
    requires Indices(top, |paths|) && |top| > 0 && Bounded(paths) && i < |paths|
    ensures var p := Shifted(paths, top)[i];
            && p == paths[i].(virt := p.virt)
            && p.virt == paths[i].virt - if i in top then LeastVirtual(paths, top) else 0
  {
    hide LeastVirtual;
    assert LeastVirtual(paths, top) <= paths[top[0]].virt <= MAX_VIRTUAL < I64_MAX;
  }

  lemma {:induction false} EpochLeast(paths: seq<Path>, top: seq<nat>)
    requires Indices(top, |paths|)
    ensures var e := Epoch(paths, top);
            && (forall a | 0 <= a < |top| && paths[top[a]].active :: e.Some? && e.value <= paths[top[a]].virt)
  {
    if |top| == 0 {
    } else {
      EpochLeast(paths, top[..|top| - 1]);
    }
  }

  /** A newcomer is admitted at the least account. */
  lemma NewcomersLeast(paths: seq<Path>, top: seq<nat>)
    requires Indices(top, |paths|) && |top| > 0 && Bounded(paths)
    ensures var adm := Admitted(paths, top);
            forall a | 0 <= a < |top| && !paths[top[a]].active :: adm[top[a]].virt == LeastVirtual(adm, top)
  {
    hide Epoch, LeastVirtual;
    EpochLeast(paths, top);
    var adm := Admitted(paths, top);
    assert forall a | 0 <= a < |top| :: top[a] in top;
    var least := LeastVirtual(adm, top);
    assert least <= adm[top[0]].virt;
    forall a | 0 <= a < |top| && !paths[top[a]].active ensures adm[top[a]].virt == least {
      assert least <= adm[top[a]].virt;
    }
  }

  /** A path's place in the queue for the next frame, in nanoseconds: its account, 40 ns for each queued byte, less 150 us
      if it has a carry. */
  function Standing(p: Path): int {
    p.virt + 40 * p.queued - if p.carry then 150_000 else 0
  }

  /** Over several active paths the frame goes where account, backlog and carry together are least, by the shorter round
      trip if they are equal; and the path's account grows by 40 ns for each byte of the frame. */
  lemma PickLeast(paths: seq<Path>, preferred: Option<nat>, incoming: nat, demand: nat, i: nat)
    requires Bounded(paths) && 0 < |paths| && MinRtt(paths, |paths|) < U32_MAX && Target(paths, incoming, demand) > 1
    requires incoming <= 18_446_744_073 && forall x | 0 <= x < |paths| :: paths[x].queued <= 18_446_744_073
    requires i < |paths| && i in Chosen(paths, incoming, demand)
    ensures var ready := Compared(paths, incoming, demand);
            var (next, c) := Picked(paths, preferred, incoming, demand);
            && c.Some? && c.value < |paths| && c.value in Chosen(paths, incoming, demand)
            && Standing(ready[c.value]) <= Standing(ready[i])
            && (Standing(ready[c.value]) == Standing(ready[i]) ==> RoundTrip(paths[c.value]) <= RoundTrip(paths[i]))
            && next[c.value].virt == ready[c.value].virt + 40 * incoming
            && (i != c.value ==> next[i].virt == ready[i].virt)
  {
    hide Ranking, MinRtt, Target, Compared, Picked, Best, ServiceNs, Bounded;
    var ready, top := Compared(paths, incoming, demand), Chosen(paths, incoming, demand);
    PickCompares(paths, preferred, incoming, demand);
    var c := Best(ready, top);
    var a :| 0 <= a < |top| && top[a] == i;
    BestLeast(ready, top, a);
    ComparedExactly(paths, incoming, demand, i, c);
    ComparedExactly(paths, incoming, demand, c, i);
    DrainTime(paths[i].queued);
    DrainTime(paths[c].queued);
    DrainTime(incoming);
  }

  /** So among paths with level accounts and no carry none with less queued is passed over. */
  lemma ShortestQueue(paths: seq<Path>, preferred: Option<nat>, incoming: nat, demand: nat, i: nat)
    requires Bounded(paths) && 0 < |paths| && MinRtt(paths, |paths|) < U32_MAX && Target(paths, incoming, demand) > 1
    requires incoming <= 18_446_744_073 && forall x | 0 <= x < |paths| :: paths[x].queued <= 18_446_744_073
    requires i < |paths| && i in Chosen(paths, incoming, demand)
    ensures var ready, c := Compared(paths, incoming, demand), Picked(paths, preferred, incoming, demand).1;
            && c.Some? && c.value < |paths|
            && (ready[c.value].virt == ready[i].virt && !paths[i].carry && !paths[c.value].carry ==>
                  paths[c.value].queued <= paths[i].queued)
  {
    hide Ranking, MinRtt, Target, Compared, Picked, Chosen, Bounded;
    PickLeast(paths, preferred, incoming, demand, i);
    var c := Picked(paths, preferred, incoming, demand).1.value;
    ComparedExactly(paths, incoming, demand, i, c);
    ComparedExactly(paths, incoming, demand, c, i);
  }

  // ---------- published estimates ----------

  /** The fastest known rate among the paths within reach of the least round trip, at least 25 MB/s. */
  predicate IsFastest(paths: seq<Path>, n: nat, maxRtt: nat, r: nat)
    requires n <= |paths|
  {
    && r >= 25_000_000
    && (forall i | 0 <= i < n && RoundTrip(paths[i]) <= maxRtt :: paths[i].rate <= r)
    && (r == 25_000_000 || exists i :: 0 <= i < n && RoundTrip(paths[i]) <= maxRtt && paths[i].rate == r)
  }

  lemma {:induction false} ReferenceIsFastest(paths: seq<Path>, maxRtt: nat, n: nat)
    requires n <= |paths|
    ensures IsFastest(paths, n, maxRtt, ReferenceRate(paths, maxRtt, n))
  {
    if n == 0 {
    } else {
      ReferenceIsFastest(paths, maxRtt, n - 1);
    }
  }

  /** The whole microseconds that so many bytes take at this rate. */
  predicate Takes(us: nat, bytes: nat, rate: nat) {
    us * rate <= bytes * 1_000_000 < (us + 1) * rate
  }

  /** The time to arrival: half the round trip and the whole microseconds that backlog and frame take at this rate, less
      150 us with a carry. */
  predicate ArrivesIn(p: Path, incoming: nat, rate: nat, us: nat, eta: nat) {
    && Takes(us, p.queued + incoming, rate)
    && eta == (if p.carry && RoundTrip(p) / 2 + us > 150 then RoundTrip(p) / 2 + us - 150 else RoundTrip(p) / 2 + us)
  }

  /** At the path's own rate, or at the fastest known one if it has none yet. */
  ghost predicate Arrives(p: Path, incoming: nat, reference: nat, eta: nat) {
    exists us: nat :: ArrivesIn(p, incoming, RateOf(p, reference), us, eta)
  }

  function RateOf(p: Path, reference: nat): nat {
    if p.rate == 0 then reference else p.rate
  }

  lemma EtaArrives(p: Path, incoming: nat, reference: nat)
    requires reference > 0 && p.queued + incoming <= 18_446_744_073_709
    ensures Arrives(p, incoming, reference, Eta(p, incoming, reference))
  {
    hide ServiceUs, Takes;
    var rate := RateOf(p, reference);
    ServiceTakes(p.queued + incoming, rate);
    assert ArrivesIn(p, incoming, rate, ServiceUs(p.queued + incoming, rate), Eta(p, incoming, reference));
  }

  lemma ServiceTakes(bytes: nat, rate: nat)
    requires rate > 0 && bytes <= 18_446_744_073_709
    ensures Takes(ServiceUs(bytes, rate), bytes, rate)
  {
    Quotient(bytes * 1_000_000, rate);
  }

  lemma Quotient(a: nat, b: nat)
    requires b > 0
    ensures a / b * b <= a < (a / b + 1) * b
  {
  }

  /** Every pick that finds a path with room publishes this for every path. */
  lemma PickPublishes(paths: seq<Path>, preferred: Option<nat>, incoming: nat, demand: nat, i: nat)
    requires MinRtt(paths, |paths|) < U32_MAX && i < |paths| && paths[i].queued + incoming <= 18_446_744_073_709
    ensures var maxRtt := MaxRtt(MinRtt(paths, |paths|));
            var reference := ReferenceRate(paths, maxRtt, |paths|);
            && IsFastest(paths, |paths|, maxRtt, reference)
            && Arrives(paths[i], incoming, reference, Picked(paths, preferred, incoming, demand).0[i].eta)
  {
    hide Picked, MinRtt, Eta, ReferenceRate, Arrives, IsFastest;
    var maxRtt := MaxRtt(MinRtt(paths, |paths|));
    ReferenceIsFastest(paths, maxRtt, |paths|);
    FastestPositive(paths, |paths|, maxRtt, ReferenceRate(paths, maxRtt, |paths|));
    EtaArrives(paths[i], incoming, ReferenceRate(paths, maxRtt, |paths|));
    PickedEta(paths, preferred, incoming, demand, i);
  }

  lemma PickedEta(paths: seq<Path>, preferred: Option<nat>, incoming: nat, demand: nat, i: nat)
    requires MinRtt(paths, |paths|) < U32_MAX && i < |paths|
    ensures var maxRtt := MaxRtt(MinRtt(paths, |paths|));
            Picked(paths, preferred, incoming, demand).0[i].eta == Eta(paths[i], incoming, ReferenceRate(paths, maxRtt, |paths|))
  {
    hide Ranking, MinRtt, Target, Eta, ReferenceRate, Eligible, Sticky, Spread;
    var maxRtt := MaxRtt(MinRtt(paths, |paths|));
    var screened := Screened(paths, incoming, maxRtt, ReferenceRate(paths, maxRtt, |paths|));
    var top := Chosen(paths, incoming, demand);
    if |top| > 0 { SpreadEta(screened, top, incoming, i); }
  }

  lemma SpreadEta(paths: seq<Path>, top: seq<nat>, incoming: nat, i: nat)
    requires |top| > 0 && Indices(top, |paths|) && i < |paths|
    ensures Spread(paths, top, incoming).0[i].eta == paths[i].eta
  {
    hide Epoch, LeastVirtual, Best, ServiceNs;
  }

  lemma FastestPositive(paths: seq<Path>, n: nat, maxRtt: nat, r: nat)
    requires n <= |paths| && IsFastest(paths, n, maxRtt, r)
    ensures r > 0
  {
  }
}
