/** The adaptive multipath scheduler: which path takes the next frame (src/adaptive_multipath.rs). */
module Scheduler {
  import opened Bytes

  const ACTIVE2_PRESSURE: nat := 24 * 1024
  const ACTIVE3_PRESSURE: nat := 96 * 1024
  const ACTIVE4_PRESSURE: nat := 256 * 1024
  const ACTIVE2_RATE: nat := 40_000_000
  const ACTIVE3_RATE: nat := 100_000_000
  const ACTIVE4_RATE: nat := 180_000_000
  const FALLBACK_RATE: nat := 25_000_000
  const CARRY_BONUS_US: nat := 150
  const STICKY_MIN_US: nat := 500
  const STICKY_MAX_US: nat := 5_000
  const RTT_HYSTERESIS_MIN_US: nat := 5_000
  const UNKNOWN_RTT_US: nat := 50_000
  const I64_MAX: nat := 0x7FFF_FFFF_FFFF_FFFF

  /** The largest charge of one frame, and the largest drain time of one queue, in nanoseconds. */
  const MAX_SERVICE: nat := 737_869_762_948

  const MAX_VIRTUAL: nat := 2 * MAX_SERVICE + 1000 * CARRY_BONUS_US

  /** What `pick` sees of one backend. `active`, `virt` and `eta` are its own; the rest changes between
      picks as it likes. */
  datatype Path = Path(queued: nat, rate: nat, eta: nat, active: bool, carry: bool, virt: int, rtt: nat, len: nat, cap: nat)

  // ---------- times and thresholds ----------

  function ServiceUs(bytes: nat, rate: nat): nat {
    if bytes == 0 then 0 else Min(bytes * 1_000_000, U64_MAX) / Max(rate, 1)
  }

  function ServiceNs(bytes: nat, rate: nat): nat {
    if bytes == 0 then 0 else Min(Min(bytes * 1_000_000_000, U64_MAX) / Max(rate, 1), I64_MAX)
  }

  /** No charge exceeds `MAX_SERVICE`, some charge reaches it, and no frame is free. */
  lemma ServiceBounds(bytes: nat)
    ensures ServiceNs(bytes, FALLBACK_RATE) <= MAX_SERVICE == ServiceNs(U64_MAX, FALLBACK_RATE)
    ensures bytes > 0 ==> ServiceNs(bytes, FALLBACK_RATE) > 0
  {
  }

  function ActiveTarget(pressure: nat, demand: nat, eligible: nat): (n: nat)
    ensures n <= eligible && (eligible > 0 ==> n > 0)
  {
    if eligible == 0 then 0
    else
      var want :=
        if pressure >= ACTIVE4_PRESSURE || demand >= ACTIVE4_RATE then 4
        else if pressure >= ACTIVE3_PRESSURE || demand >= ACTIVE3_RATE then 3
        else if pressure >= ACTIVE2_PRESSURE || demand >= ACTIVE2_RATE then 2
        else 1;
      Min(want, eligible)
  }

  function Rtt(p: Path): nat {
    if p.rtt == 0 then UNKNOWN_RTT_US else p.rtt
  }

  predicate Healthy(p: Path) {
    p.cap > 2 && p.len < p.cap - 2
  }

  function Pressure(paths: seq<Path>, incoming: nat, n: nat): nat
    requires n <= |paths|
  {
    if n == 0 then incoming else Min(Pressure(paths, incoming, n - 1) + paths[n - 1].queued, U64_MAX)
  }

  function MinRtt(paths: seq<Path>, n: nat): (m: nat)
    requires n <= |paths|
    ensures m <= U32_MAX
    ensures forall i | 0 <= i < n && Healthy(paths[i]) :: m <= Rtt(paths[i])
    ensures m < U32_MAX ==> exists i :: 0 <= i < n && Healthy(paths[i]) && Rtt(paths[i]) == m
  {
    if n == 0 then U32_MAX
    else if Healthy(paths[n - 1]) then Min(MinRtt(paths, n - 1), Rtt(paths[n - 1]))
    else MinRtt(paths, n - 1)
  }

  function MaxRtt(minRtt: nat): nat {
    minRtt + Max(RTT_HYSTERESIS_MIN_US, minRtt / 4)
  }

  predicate Eligible(p: Path, maxRtt: nat) {
    Healthy(p) && Rtt(p) <= maxRtt
  }

  function ReferenceRate(paths: seq<Path>, maxRtt: nat, n: nat): nat
    requires n <= |paths|
  {
    if n == 0 then FALLBACK_RATE
    else
      var r := ReferenceRate(paths, maxRtt, n - 1);
      if Rtt(paths[n - 1]) <= maxRtt then Max(r, paths[n - 1].rate) else r
  }

  function Eta(p: Path, incoming: nat, reference: nat): nat {
    var eta := Rtt(p) / 2 + ServiceUs(Min(p.queued + incoming, U64_MAX), Max(if p.rate == 0 then reference else p.rate, 1));
    if p.carry && eta > CARRY_BONUS_US then eta - CARRY_BONUS_US else eta
  }

  // ---------- candidates in order ----------

  function Base(p: Path, incoming: nat): nat {
    Rtt(p) / 2 + ServiceUs(incoming, FALLBACK_RATE)
  }

  /** The sort key `(base_us, rtt_us, idx)`. */
  predicate Precedes(paths: seq<Path>, incoming: nat, i: nat, j: nat)
    requires i < |paths| && j < |paths|
  {
    var a, b := Base(paths[i], incoming), Base(paths[j], incoming);
    || a < b
    || (a == b && (Rtt(paths[i]) < Rtt(paths[j]) || (Rtt(paths[i]) == Rtt(paths[j]) && i < j)))
  }

  predicate Indices(order: seq<nat>, n: nat) {
    forall a | 0 <= a < |order| :: order[a] < n
  }

  predicate Sorted(paths: seq<Path>, incoming: nat, order: seq<nat>)
    requires Indices(order, |paths|)
  {
    forall a, b | 0 <= a < b < |order| :: Precedes(paths, incoming, order[a], order[b])
  }

  /** Adds candidate `i` at its place. */
  function Place(paths: seq<Path>, incoming: nat, order: seq<nat>, i: nat): (r: seq<nat>)
    requires i < |paths| && Indices(order, |paths|)
    ensures |r| == |order| + 1 && Indices(r, |paths|)
  {
    if |order| == 0 then [i]
    else if Precedes(paths, incoming, i, order[|order| - 1]) then
      Place(paths, incoming, order[..|order| - 1], i) + [order[|order| - 1]]
    else order + [i]
  }

  /** The eligible ones among the first `n` paths, sorted. */
  function Candidates(paths: seq<Path>, incoming: nat, maxRtt: nat, n: nat): (order: seq<nat>)
    requires n <= |paths|
    ensures Indices(order, |paths|)
  {
    if n == 0 then []
    else
      var order := Candidates(paths, incoming, maxRtt, n - 1);
      if Eligible(paths[n - 1], maxRtt) then Place(paths, incoming, order, n - 1) else order
  }

  lemma {:induction false} PlaceExactly(paths: seq<Path>, incoming: nat, order: seq<nat>, i: nat)
    requires i < |paths| && Indices(order, |paths|) && Sorted(paths, incoming, order) && i !in order
    ensures Sorted(paths, incoming, Place(paths, incoming, order, i))
    ensures forall j :: j in Place(paths, incoming, order, i) <==> j == i || j in order
  {
    hide Base;
    if |order| == 0 {
    } else {
      var front, last := order[..|order| - 1], order[|order| - 1];
      assert order == front + [last];
      if Precedes(paths, incoming, i, last) {
        PlaceExactly(paths, incoming, front, i);
        var placed := Place(paths, incoming, front, i);
        forall a | 0 <= a < |placed| ensures Precedes(paths, incoming, placed[a], last) {
          assert placed[a] in placed;
          if placed[a] in front { var b :| 0 <= b < |front| && front[b] == placed[a]; assert order[b] == placed[a]; }
        }
      } else {
        forall a | 0 <= a < |order| ensures Precedes(paths, incoming, order[a], i) {
          PrecedesTotal(paths, incoming, i, last);
          if a < |order| - 1 { PrecedesTransitive(paths, incoming, order[a], last, i); }
        }
      }
    }
  }

  lemma PrecedesTotal(paths: seq<Path>, incoming: nat, i: nat, j: nat)
    requires i < |paths| && j < |paths| && i != j
    ensures Precedes(paths, incoming, i, j) <==> !Precedes(paths, incoming, j, i)
  {
  }

  lemma PrecedesTransitive(paths: seq<Path>, incoming: nat, i: nat, j: nat, l: nat)
    requires i < |paths| && j < |paths| && l < |paths|
    requires Precedes(paths, incoming, i, j) && Precedes(paths, incoming, j, l)
    ensures Precedes(paths, incoming, i, l)
  {
  }

  lemma {:induction false} CandidatesExactly(paths: seq<Path>, incoming: nat, maxRtt: nat, n: nat)
    requires n <= |paths|
    ensures Sorted(paths, incoming, Candidates(paths, incoming, maxRtt, n))
    ensures forall i :: i in Candidates(paths, incoming, maxRtt, n) <==> 0 <= i < n && Eligible(paths[i], maxRtt)
  {
    hide Precedes, Eligible;
    if n == 0 {
    } else {
      CandidatesExactly(paths, incoming, maxRtt, n - 1);
      if Eligible(paths[n - 1], maxRtt) {
        PlaceExactly(paths, incoming, Candidates(paths, incoming, maxRtt, n - 1), n - 1);
      }
    }
  }

  /** As long as some healthy path has a known bound on its round trip, there is a candidate. */
  lemma SomeCandidate(paths: seq<Path>, incoming: nat)
    requires MinRtt(paths, |paths|) < U32_MAX
    ensures |Candidates(paths, incoming, MaxRtt(MinRtt(paths, |paths|)), |paths|)| > 0
  {
    hide Precedes, Healthy, Rtt, Sorted;
    var minRtt := MinRtt(paths, |paths|);
    CandidatesExactly(paths, incoming, MaxRtt(minRtt), |paths|);
    var i :| 0 <= i < |paths| && Healthy(paths[i]) && Rtt(paths[i]) == minRtt;
    assert Eligible(paths[i], MaxRtt(minRtt));
    assert i in Candidates(paths, incoming, MaxRtt(minRtt), |paths|);
  }

  // ---------- one pick ----------

  /** Estimates are refreshed, and paths that are not candidates leave the active set. */
  function Screen(p: Path, incoming: nat, maxRtt: nat, reference: nat): Path {
    var p1 := p.(eta := Eta(p, incoming, reference));
    if Eligible(p, maxRtt) then p1 else p1.(active := false, virt := 0)
  }

  function Screened(paths: seq<Path>, incoming: nat, maxRtt: nat, reference: nat): (r: seq<Path>)
    ensures |r| == |paths|
  {
    seq(|paths|, i requires 0 <= i < |paths| => Screen(paths[i], incoming, maxRtt, reference))
  }

  /** Only `chosen` is active and all accounts are cleared. */
  function Only(paths: seq<Path>, chosen: nat): (r: seq<Path>)
    ensures |r| == |paths|
  {
    seq(|paths|, i requires 0 <= i < |paths| => paths[i].(active := i == chosen, virt := 0))
  }

  /** The single path to use: the best candidate, or the current one if it is nearly as good. */
  function Sticky(paths: seq<Path>, incoming: nat, order: seq<nat>, preferred: Option<nat>): (c: nat)
    requires |order| > 0 && Indices(order, |paths|)
    ensures c in order
  {
    if preferred.Some? && preferred.value in order then
      var p := paths[preferred.value];
      var slack := Max(STICKY_MIN_US, Min(Rtt(p) / 16, STICKY_MAX_US));
      if Base(p, incoming) <= Min(Base(paths[order[0]], incoming) + slack, U64_MAX) then preferred.value else order[0]
    else order[0]
  }

  /** The least account among the members of `top` that were active already, if any were. */
  function Epoch(paths: seq<Path>, top: seq<nat>): (e: Option<int>)
    requires Indices(top, |paths|)
    ensures e.Some? ==> exists a :: 0 <= a < |top| && paths[top[a]].active && paths[top[a]].virt == e.value
  {
    if |top| == 0 then None
    else
      var e := Epoch(paths, top[..|top| - 1]);
      var p := paths[top[|top| - 1]];
      if !p.active then e
      else if e.None? || p.virt < e.value then Some(p.virt)
      else e
  }

  /** Members of `top` become active, new ones at the epoch; everyone else becomes inactive. */
  function Admit(p: Path, inTop: bool, epoch: int): Path {
    if !inTop then p.(active := false, virt := 0)
    else p.(active := true, virt := if p.active then p.virt else epoch)
  }

  function Admitted(paths: seq<Path>, top: seq<nat>): (r: seq<Path>)
    requires Indices(top, |paths|)
    ensures |r| == |paths|
  {
    var e := Epoch(paths, top);
    var epoch := if e.Some? then e.value else 0;
    seq(|paths|, i requires 0 <= i < |paths| => Admit(paths[i], i in top, epoch))
  }

  function LeastVirtual(paths: seq<Path>, top: seq<nat>): (m: int)
    requires Indices(top, |paths|)
    ensures m <= I64_MAX && forall a | 0 <= a < |top| :: m <= paths[top[a]].virt
    ensures m == I64_MAX || exists a :: 0 <= a < |top| && paths[top[a]].virt == m
  {
    if |top| == 0 then I64_MAX
    else
      var m := LeastVirtual(paths, top[..|top| - 1]);
      if paths[top[|top| - 1]].virt < m then paths[top[|top| - 1]].virt else m
  }

  function Rebased(p: Path, m: int): Path {
    p.(virt := p.virt - m)
  }

  /** Accounts of `top` are shifted so that the least is zero. */
  function Shifted(paths: seq<Path>, top: seq<nat>): (r: seq<Path>)
    requires Indices(top, |paths|)
    ensures |r| == |paths|
  {
    var m := LeastVirtual(paths, top);
    if m == 0 || m == I64_MAX then paths
    else seq(|paths|, i requires 0 <= i < |paths| => if i in top then Rebased(paths[i], m) else paths[i])
  }

  function Score(p: Path): int {
    p.virt + ServiceNs(p.queued, FALLBACK_RATE) - if p.carry then 1000 * CARRY_BONUS_US else 0
  }

  predicate Better(p: Path, q: Path) {
    Score(p) < Score(q) || (Score(p) == Score(q) && Rtt(p) < Rtt(q))
  }

  function Best(paths: seq<Path>, top: seq<nat>): (c: nat)
    requires |top| > 0 && Indices(top, |paths|)
    ensures c in top && c < |paths|
  {
    if |top| == 1 then top[0]
    else
      var c := Best(paths, top[..|top| - 1]);
      if Better(paths[top[|top| - 1]], paths[c]) then top[|top| - 1] else c
  }

  function Charged(p: Path, incoming: nat): Path {
    p.(virt := p.virt + ServiceNs(incoming, FALLBACK_RATE))
  }

  /** The several-paths branch: admit, shift, choose, charge. */
  function Spread(paths: seq<Path>, top: seq<nat>, incoming: nat): (r: (seq<Path>, nat))
    requires |top| > 0 && Indices(top, |paths|)
    ensures |r.0| == |paths| && r.1 in top
  {
    var ready := Shifted(Admitted(paths, top), top);
    var c := Best(ready, top);
    (ready[c := Charged(ready[c], incoming)], c)
  }

  /** The candidates of a pick, in order. */
  function Ranking(paths: seq<Path>, incoming: nat): (order: seq<nat>)
    ensures Indices(order, |paths|)
    ensures MinRtt(paths, |paths|) < U32_MAX ==> |order| > 0
  {
    var maxRtt := MaxRtt(MinRtt(paths, |paths|));
    if MinRtt(paths, |paths|) < U32_MAX then
      SomeCandidate(paths, incoming);
      Candidates(paths, incoming, maxRtt, |paths|)
    else Candidates(paths, incoming, maxRtt, |paths|)
  }

  /** How many paths a pick keeps active. */
  function Target(paths: seq<Path>, incoming: nat, demand: nat): (n: nat)
    ensures n <= |Ranking(paths, incoming)|
    ensures MinRtt(paths, |paths|) < U32_MAX ==> n > 0
  {
    ActiveTarget(Pressure(paths, incoming, |paths|), demand, |Ranking(paths, incoming)|)
  }

  /** `pick`: the new path states and the path that takes the frame. */
  function Picked(paths: seq<Path>, preferred: Option<nat>, incoming: nat, demand: nat): (r: (seq<Path>, Option<nat>))
    ensures |r.0| == |paths|
  {
    if |paths| == 0 then (paths, None)
    else if MinRtt(paths, |paths|) == U32_MAX then (Only(paths, 0), Some(0))
    else
      var maxRtt := MaxRtt(MinRtt(paths, |paths|));
      var screened := Screened(paths, incoming, maxRtt, ReferenceRate(paths, maxRtt, |paths|));
      var order, target := Ranking(paths, incoming), Target(paths, incoming, demand);
      if target == 1 then
        var c := Sticky(paths, incoming, order, preferred);
        (Only(screened, c), Some(c))
      else
        var (next, c) := Spread(screened, order[..target], incoming);
        (next, Some(c))
  }

  // ---------- what a pick guarantees ----------

  predicate Bounded(paths: seq<Path>) {
    forall i | 0 <= i < |paths| :: 0 <= paths[i].virt <= MAX_VIRTUAL
  }

  /** The best of `top` has the least score, and the least round trip among equal scores. */
  lemma {:induction false} BestLeast(paths: seq<Path>, top: seq<nat>, a: nat)
    requires a < |top| && Indices(top, |paths|)
    ensures !Better(paths[top[a]], paths[Best(paths, top)])
  {
    hide Score, Rtt;
    if |top| <= 1 {
    } else {
      var front := top[..|top| - 1];
      if a < |front| { BestLeast(paths, front, a); }
    }
  }

  lemma AdmittedBounded(paths: seq<Path>, top: seq<nat>)
    requires Indices(top, |paths|) && Bounded(paths)
    ensures Bounded(Admitted(paths, top))
  {
  }

  lemma ShiftedBounded(paths: seq<Path>, top: seq<nat>)
    requires Indices(top, |paths|) && Bounded(paths) && |top| > 0
    ensures Bounded(Shifted(paths, top))
    ensures exists a :: 0 <= a < |top| && Shifted(paths, top)[top[a]].virt == 0
  {
    var m := LeastVirtual(paths, top);
    assert m <= paths[top[0]].virt <= MAX_VIRTUAL < I64_MAX;
    var a :| 0 <= a < |top| && paths[top[a]].virt == m;
    assert top[a] in top;
    assert Shifted(paths, top)[top[a]].virt == 0;
    forall i | 0 <= i < |paths| ensures 0 <= Shifted(paths, top)[i].virt <= MAX_VIRTUAL {
      if i in top { var b :| 0 <= b < |top| && top[b] == i; assert m <= paths[top[b]].virt; }
    }
  }

  /** The charged account: the chosen path's score is at most the score of the path at zero. */
  lemma ChargeBounded(paths: seq<Path>, top: seq<nat>, incoming: nat)
    requires |top| > 0 && Indices(top, |paths|) && Bounded(paths)
    requires exists a :: 0 <= a < |top| && paths[top[a]].virt == 0
    ensures Charged(paths[Best(paths, top)], incoming).virt <= MAX_VIRTUAL
  {
    hide ServiceNs, Best, Rtt;
    var a :| 0 <= a < |top| && paths[top[a]].virt == 0;
    BestLeast(paths, top, a);
    ServiceBounds(incoming);
    ServiceBounds(paths[top[a]].queued);
  }

  lemma SpreadBounded(paths: seq<Path>, top: seq<nat>, incoming: nat)
    requires |top| > 0 && Indices(top, |paths|) && Bounded(paths)
    ensures Bounded(Spread(paths, top, incoming).0)
  {
    hide Admitted, Shifted, Best, ServiceNs;
    AdmittedBounded(paths, top);
    var ready := Shifted(Admitted(paths, top), top);
    ShiftedBounded(Admitted(paths, top), top);
    ChargeBounded(ready, top, incoming);
  }

  /** Every pick keeps every virtual finish between zero and two service times plus the carry bonus. */
  lemma PickBounded(paths: seq<Path>, preferred: Option<nat>, incoming: nat, demand: nat)
    requires Bounded(paths)
    ensures Bounded(Picked(paths, preferred, incoming, demand).0)
  {
    hide Spread, Eta, Candidates, MinRtt, ReferenceRate, Sticky, Pressure;
    if 0 < |paths| && MinRtt(paths, |paths|) < U32_MAX {
      var maxRtt := MaxRtt(MinRtt(paths, |paths|));
      var screened := Screened(paths, incoming, maxRtt, ReferenceRate(paths, maxRtt, |paths|));
      assert Bounded(screened);
      var order, target := Ranking(paths, incoming), Target(paths, incoming, demand);
      if target != 1 { SpreadBounded(screened, order[..target], incoming); }
    }
  }

  /** Neither the sum behind a score nor the score leaves the signed 64-bit range, and neither does a charge. */
  lemma ScoresFit(paths: seq<Path>, i: nat, incoming: nat)
    requires Bounded(paths) && i < |paths|
    ensures 0 <= paths[i].virt + ServiceNs(paths[i].queued, FALLBACK_RATE) <= I64_MAX
    ensures -150_000 <= Score(paths[i]) <= 3 * MAX_SERVICE + 150_000 <= I64_MAX
    ensures 0 <= Charged(paths[i], incoming).virt <= I64_MAX
  {
    ServiceBounds(paths[i].queued);
    ServiceBounds(incoming);
  }

  /** The accounts as a pick over several paths compares them: screened, admitted and shifted. */
  function Compared(paths: seq<Path>, incoming: nat, demand: nat): (r: seq<Path>)
    ensures |r| == |paths|
  {
    var maxRtt := MaxRtt(MinRtt(paths, |paths|));
    var top := Ranking(paths, incoming)[..Target(paths, incoming, demand)];
    Shifted(Admitted(Screened(paths, incoming, maxRtt, ReferenceRate(paths, maxRtt, |paths|)), top), top)
  }

  /** A pick over several paths chooses and charges in the compared state, which is within bounds. */
  lemma PickCompares(paths: seq<Path>, preferred: Option<nat>, incoming: nat, demand: nat)
    requires Bounded(paths) && 0 < |paths| && MinRtt(paths, |paths|) < U32_MAX && Target(paths, incoming, demand) > 1
    ensures var ready := Compared(paths, incoming, demand);
            var c := Best(ready, Ranking(paths, incoming)[..Target(paths, incoming, demand)]);
            && Bounded(ready)
            && Picked(paths, preferred, incoming, demand) == (ready[c := Charged(ready[c], incoming)], Some(c))
            && Charged(ready[c], incoming).virt <= MAX_VIRTUAL
  {
    hide Eta, Candidates, MinRtt, ReferenceRate, Sticky, Pressure, Admitted, Shifted, Ranking, Target, Best;
    var maxRtt := MaxRtt(MinRtt(paths, |paths|));
    var screened := Screened(paths, incoming, maxRtt, ReferenceRate(paths, maxRtt, |paths|));
    var top := Ranking(paths, incoming)[..Target(paths, incoming, demand)];
    assert Bounded(screened);
    AdmittedBounded(screened, top);
    ShiftedBounded(Admitted(screened, top), top);
    ChargeBounded(Compared(paths, incoming, demand), top, incoming);
  }

  // ---------- the active set ----------

  ghost function ActiveSet(paths: seq<Path>): set<nat> {
    set i: nat | i < |paths| && paths[i].active
  }

  lemma {:induction false} DistinctCount(order: seq<nat>)
    requires forall a, b | 0 <= a < b < |order| :: order[a] != order[b]
    ensures |set a | 0 <= a < |order| :: order[a]| == |order|
  {
    if |order| == 0 {
    } else {
      var front, last := order[..|order| - 1], order[|order| - 1];
      DistinctCount(front);
      var s := set a | 0 <= a < |front| :: front[a];
      assert last !in s;
      assert (set a | 0 <= a < |order| :: order[a]) == s + {last} by {
        assert order == front + [last];
        forall x | x in s + {last} ensures x in (set a | 0 <= a < |order| :: order[a]) {
          if x in s { var a :| 0 <= a < |front| && front[a] == x; assert order[a] == x; } else { assert order[|front|] == x; }
        }
      }
    }
  }

  lemma RankingExactly(paths: seq<Path>, incoming: nat)
    ensures var order := Ranking(paths, incoming);
            && Sorted(paths, incoming, order)
            && (forall a, b | 0 <= a < b < |order| :: order[a] != order[b])
            && forall i :: i in order <==> 0 <= i < |paths| && Eligible(paths[i], MaxRtt(MinRtt(paths, |paths|)))
  {
    hide Eligible, Base, Candidates, MinRtt;
    CandidatesExactly(paths, incoming, MaxRtt(MinRtt(paths, |paths|)), |paths|);
  }

  lemma SpreadActive(paths: seq<Path>, top: seq<nat>, incoming: nat, i: nat)
    requires |top| > 0 && Indices(top, |paths|) && i < |paths|
    ensures Spread(paths, top, incoming).0[i].active <==> i in top
  {
    hide Best, Epoch, LeastVirtual, ServiceNs;
  }

  lemma CountActive(paths: seq<Path>, top: seq<nat>)
    requires Indices(top, |paths|) && forall a, b | 0 <= a < b < |top| :: top[a] != top[b]
    requires forall i: nat | i < |paths| :: paths[i].active <==> i in top
    ensures |ActiveSet(paths)| == |top|
  {
    DistinctCount(top);
    assert ActiveSet(paths) == set a | 0 <= a < |top| :: top[a];
  }

  /** After a pick that found a healthy path, exactly the target number of paths are active, all of them
      eligible; the chosen one is among them; and when several are active they are the best ones by round
      trip, then index. */
  lemma PickActive(paths: seq<Path>, preferred: Option<nat>, incoming: nat, demand: nat)
    requires 0 < |paths| && MinRtt(paths, |paths|) < U32_MAX
    ensures var (next, c) := Picked(paths, preferred, incoming, demand);
            var maxRtt := MaxRtt(MinRtt(paths, |paths|));
            && |ActiveSet(next)| == Target(paths, incoming, demand)
            && c.Some? && c.value in ActiveSet(next)
            && (forall i | i in ActiveSet(next) :: Eligible(paths[i], maxRtt))
            && (Target(paths, incoming, demand) > 1 ==>
                  forall i, j | i in ActiveSet(next) && 0 <= j < |paths| && j !in ActiveSet(next) && Eligible(paths[j], maxRtt) ::
                    Precedes(paths, incoming, i, j))
  {
    hide Spread, Eta, MinRtt, ReferenceRate, Pressure, Ranking, Target, Precedes, Eligible;
    RankingExactly(paths, incoming);
    var maxRtt := MaxRtt(MinRtt(paths, |paths|));
    var screened := Screened(paths, incoming, maxRtt, ReferenceRate(paths, maxRtt, |paths|));
    var order, target := Ranking(paths, incoming), Target(paths, incoming, demand);
    var next := Picked(paths, preferred, incoming, demand).0;
    if target == 1 {
      CountActive(next, [Sticky(paths, incoming, order, preferred)]);
    } else {
      var top := order[..target];
      forall i: nat | i < |paths| ensures next[i].active <==> i in top { SpreadActive(screened, top, incoming, i); }
      CountActive(next, top);
      TopPrecedes(paths, incoming, order, target);
    }
  }

  lemma TopPrecedes(paths: seq<Path>, incoming: nat, order: seq<nat>, n: nat)
    requires n <= |order| && Indices(order, |paths|) && Sorted(paths, incoming, order)
    ensures forall i, j | i in order[..n] && j in order && j !in order[..n] :: Precedes(paths, incoming, i, j)
    ensures forall i | i in order[..n] :: i in order
  {
    hide Precedes;
    assert forall b | 0 <= b < n :: order[..n][b] == order[b] && order[b] in order[..n];
    forall i, j | i in order[..n] && j in order && j !in order[..n] ensures Precedes(paths, incoming, i, j) {
      var a :| 0 <= a < n && order[a] == i;
      var b :| 0 <= b < |order| && order[b] == j;
    }
  }

  // ---------- stability ----------

  /** Equal but for what `pick` itself keeps. */
  predicate SameView(p: Path, q: Path) {
    && p.queued == q.queued && p.rate == q.rate && p.carry == q.carry
    && p.rtt == q.rtt && p.len == q.len && p.cap == q.cap
  }

  predicate SameViews(a: seq<Path>, b: seq<Path>) {
    |a| == |b| && forall i | 0 <= i < |a| :: SameView(a[i], b[i])
  }

  lemma {:induction false} ViewMinRtt(a: seq<Path>, b: seq<Path>, n: nat)
    requires SameViews(a, b) && n <= |a|
    ensures MinRtt(a, n) == MinRtt(b, n)
  {
    if n == 0 {
    } else {
      ViewMinRtt(a, b, n - 1);
      assert SameView(a[n - 1], b[n - 1]);
    }
  }

  lemma {:induction false} ViewScans(a: seq<Path>, b: seq<Path>, incoming: nat, maxRtt: nat, n: nat)
    requires SameViews(a, b) && n <= |a|
    ensures Pressure(a, incoming, n) == Pressure(b, incoming, n)
    ensures ReferenceRate(a, maxRtt, n) == ReferenceRate(b, maxRtt, n)
  {
    if n == 0 {
    } else {
      ViewScans(a, b, incoming, maxRtt, n - 1);
      assert SameView(a[n - 1], b[n - 1]);
    }
  }

  lemma {:induction false} ViewPlace(a: seq<Path>, b: seq<Path>, incoming: nat, order: seq<nat>, i: nat)
    requires SameViews(a, b) && i < |a| && Indices(order, |a|)
    ensures Place(a, incoming, order, i) == Place(b, incoming, order, i)
  {
    hide ServiceUs;
    if |order| == 0 {
    } else {
      assert SameView(a[i], b[i]) && SameView(a[order[|order| - 1]], b[order[|order| - 1]]);
      ViewPlace(a, b, incoming, order[..|order| - 1], i);
    }
  }

  lemma {:induction false} ViewCandidates(a: seq<Path>, b: seq<Path>, incoming: nat, maxRtt: nat, n: nat)
    requires SameViews(a, b) && n <= |a|
    ensures Candidates(a, incoming, maxRtt, n) == Candidates(b, incoming, maxRtt, n)
  {
    hide Place;
    if n == 0 {
    } else {
      ViewCandidates(a, b, incoming, maxRtt, n - 1);
      assert SameView(a[n - 1], b[n - 1]);
      ViewPlace(a, b, incoming, Candidates(a, incoming, maxRtt, n - 1), n - 1);
    }
  }

  lemma ViewRanking(a: seq<Path>, b: seq<Path>, incoming: nat, demand: nat)
    requires SameViews(a, b)
    ensures MinRtt(a, |a|) == MinRtt(b, |b|) && Ranking(a, incoming) == Ranking(b, incoming)
    ensures Target(a, incoming, demand) == Target(b, incoming, demand)
  {
    hide MinRtt, Candidates, Pressure, ReferenceRate, SameViews;
    ViewScans(a, b, incoming, 0, |a|);
    ViewMinRtt(a, b, |a|);
    assert |a| == |b| by { SameViewsLength(a, b); }
    ViewCandidates(a, b, incoming, MaxRtt(MinRtt(a, |a|)), |a|);
  }

  lemma SameViewsLength(a: seq<Path>, b: seq<Path>)
    requires SameViews(a, b)
    ensures |a| == |b|
  {
  }

  lemma OnlySettled(paths: seq<Path>, incoming: nat, maxRtt: nat, reference: nat, c: nat)
    requires c < |paths| && Eligible(paths[c], maxRtt)
    ensures var next := Only(Screened(paths, incoming, maxRtt, reference), c);
            SameViews(paths, next) && Only(Screened(next, incoming, maxRtt, reference), c) == next
  {
    hide ServiceUs;
    var next := Only(Screened(paths, incoming, maxRtt, reference), c);
    forall i | 0 <= i < |paths| ensures Eta(next[i], incoming, reference) == next[i].eta && SameView(paths[i], next[i]) {
      assert next[i].eta == Eta(paths[i], incoming, reference);
    }
  }

  lemma ViewSticky(a: seq<Path>, b: seq<Path>, incoming: nat, order: seq<nat>, preferred: Option<nat>)
    requires SameViews(a, b) && |order| > 0 && Indices(order, |a|)
    ensures Sticky(a, incoming, order, preferred) == Sticky(b, incoming, order, preferred)
  {
    hide ServiceUs;
    assert SameView(a[order[0]], b[order[0]]);
    if preferred.Some? && preferred.value in order { assert SameView(a[preferred.value], b[preferred.value]); }
  }

  /** Once chosen, the single path is chosen again. */
  lemma StickyTwice(paths: seq<Path>, incoming: nat, order: seq<nat>, preferred: Option<nat>)
    requires |order| > 0 && Indices(order, |paths|) && incoming <= U64_MAX && forall i | 0 <= i < |paths| :: paths[i].rtt <= U32_MAX
    ensures var c := Sticky(paths, incoming, order, preferred); Sticky(paths, incoming, order, Some(c)) == c
  {
  }

  /** While one path suffices, a pick is settled: as long as nothing around it changes, picking again keeps the
      path and changes no state, so traffic does not flap between paths. */
  lemma SinglePathStable(paths: seq<Path>, preferred: Option<nat>, incoming: nat, demand: nat)
    requires 0 < |paths| && MinRtt(paths, |paths|) < U32_MAX && Target(paths, incoming, demand) == 1
    requires incoming <= U64_MAX && forall i | 0 <= i < |paths| :: paths[i].rtt <= U32_MAX
    ensures var (next, c) := Picked(paths, preferred, incoming, demand);
            Picked(next, c, incoming, demand) == (next, c)
  {
    hide MinRtt, ReferenceRate, Ranking, Target, Eligible, Only, Screened, Sticky, SameViews, Spread;
    var maxRtt := MaxRtt(MinRtt(paths, |paths|));
    var order := Ranking(paths, incoming);
    RankingExactly(paths, incoming);
    var c := Sticky(paths, incoming, order, preferred);
    var reference := ReferenceRate(paths, maxRtt, |paths|);
    OnlySettled(paths, incoming, maxRtt, reference, c);
    var next := Only(Screened(paths, incoming, maxRtt, reference), c);
    ViewRanking(paths, next, incoming, demand);
    ViewScans(paths, next, incoming, maxRtt, |paths|);
    StickyTwice(paths, incoming, order, preferred);
    ViewSticky(paths, next, incoming, order, Some(c));
  }

  // ---------- whole runs ----------

  /** Between picks paths come and go and their queues, rates and round trips change as they like. */
  datatype Event =
    | Joins(queued: nat, rate: nat, carry: bool, rtt: nat, len: nat, cap: nat)
    | Leaves(index: nat)
    | Changes(index: nat, queued: nat, rate: nat, carry: bool, rtt: nat, len: nat, cap: nat)
    | Picks(preferred: Option<nat>, incoming: nat, demand: nat)

  function Next(paths: seq<Path>, event: Event): seq<Path> {
    match event
    case Joins(queued, rate, carry, rtt, len, cap) => paths + [Path(queued, rate, 0, false, carry, 0, rtt, len, cap)]
    case Leaves(i) => if i < |paths| then paths[..i] + paths[i + 1..] else paths
    case Changes(i, queued, rate, carry, rtt, len, cap) =>
      if i < |paths| then
        paths[i := paths[i].(queued := queued, rate := rate, carry := carry, rtt := rtt, len := len, cap := cap)]
      else paths
    case Picks(preferred, incoming, demand) => Picked(paths, preferred, incoming, demand).0
  }

  function Run(paths: seq<Path>, events: seq<Event>): seq<Path>
    decreases |events|
  {
    if |events| == 0 then paths else Run(Next(paths, events[0]), events[1..])
  }

  lemma {:induction false} RunBounded(paths: seq<Path>, events: seq<Event>)
    requires Bounded(paths)
    ensures Bounded(Run(paths, events))
    decreases |events|
  {
    hide Picked;
    if |events| == 0 {
    } else {
      match events[0] {
        case Picks(preferred, incoming, demand) => PickBounded(paths, preferred, incoming, demand);
        case _ =>
      }
      RunBounded(Next(paths, events[0]), events[1..]);
    }
  }

  /** From no paths at all, whatever happens, every account stays within bounds; and when the next pick compares
      several paths, no score it computes, no sum behind a score and no charge leaves the signed 64-bit range. */
  lemma AlwaysBounded(events: seq<Event>, i: nat, incoming: nat, demand: nat)
    requires i < |Run([], events)|
    ensures 0 <= Run([], events)[i].virt <= MAX_VIRTUAL
    ensures var paths := Run([], events);
            var ready := Compared(paths, incoming, demand);
            MinRtt(paths, |paths|) < U32_MAX && Target(paths, incoming, demand) > 1 ==>
              && 0 <= ready[i].virt <= MAX_VIRTUAL
              && 0 <= ready[i].virt + ServiceNs(ready[i].queued, FALLBACK_RATE) <= I64_MAX
              && -150_000 <= Score(ready[i]) <= I64_MAX
              && Charged(ready[i], incoming).virt <= I64_MAX
  {
    hide Run, Compared, MinRtt, Target, Picked;
    RunBounded([], events);
    var paths := Run([], events);
    if MinRtt(paths, |paths|) < U32_MAX && Target(paths, incoming, demand) > 1 {
      PickCompares(paths, None, incoming, demand);
      ScoresFit(Compared(paths, incoming, demand), i, incoming);
    }
  }

  // ---------- fairness ----------

  /** The service time charged to path `i` over a run. */
  function ChargedTo(paths: seq<Path>, events: seq<Event>, i: nat): nat
    decreases |events|
  {
    if |events| == 0 then 0 else ChargeOf(paths, events[0], i) + ChargedTo(Next(paths, events[0]), events[1..], i)
  }

  function ChargeOf(paths: seq<Path>, event: Event, i: nat): nat {
    if event.Picks? && Picked(paths, event.preferred, event.incoming, event.demand).1 == Some(i)
    then ServiceNs(event.incoming, FALLBACK_RATE) else 0
  }

  /** The number of frames path `i` takes over a run. */
  function TakenBy(paths: seq<Path>, events: seq<Event>, i: nat): nat
    decreases |events|
  {
    if |events| == 0 then 0
    else
      var e := events[0];
      var took: nat := if e.Picks? && Picked(paths, e.preferred, e.incoming, e.demand).1 == Some(i) then 1 else 0;
      took + TakenBy(Next(paths, events[0]), events[1..], i)
  }

  /** At this event `i` and `j` keep their places and, if it is a pick, both are among several active paths
      with equal backlogs and no carry, and the frame costs at most `most`. */
  predicate EvenFor(paths: seq<Path>, event: Event, i: nat, j: nat, most: nat) {
    && i < |paths| && j < |paths| && i != j
    && !event.Leaves?
    && (event.Picks? ==>
          && ServiceNs(event.incoming, FALLBACK_RATE) <= most
          && MinRtt(paths, |paths|) < U32_MAX
          && Target(paths, event.incoming, event.demand) > 1
          && i in Ranking(paths, event.incoming)[..Target(paths, event.incoming, event.demand)]
          && j in Ranking(paths, event.incoming)[..Target(paths, event.incoming, event.demand)]
          && paths[i].queued == paths[j].queued && !paths[i].carry && !paths[j].carry)
  }

  predicate EvenRun(paths: seq<Path>, events: seq<Event>, i: nat, j: nat, most: nat)
    decreases |events|
  {
    |events| > 0 ==> EvenFor(paths, events[0], i, j, most) && EvenRun(Next(paths, events[0]), events[1..], i, j, most)
  }

  /** How far the accounts of `i` and `j` are apart; equal while both are inactive. */
  predicate Within(paths: seq<Path>, i: nat, j: nat, most: nat) {
    && i < |paths| && j < |paths|
    && paths[i].active == paths[j].active
    && (!paths[i].active ==> paths[i].virt == paths[j].virt)
    && paths[i].virt <= paths[j].virt + most && paths[j].virt <= paths[i].virt + most
  }

  lemma SpreadApart(paths: seq<Path>, top: seq<nat>, incoming: nat, i: nat, j: nat, most: nat)
    requires Indices(top, |paths|) && i in top && j in top && i != j && Within(paths, i, j, most)
    requires ServiceNs(incoming, FALLBACK_RATE) <= most
    requires paths[i].queued == paths[j].queued && !paths[i].carry && !paths[j].carry
    ensures var (next, c) := Spread(paths, top, incoming);
            var charge := ServiceNs(incoming, FALLBACK_RATE);
            && Within(next, i, j, most)
            && next[i].virt - next[j].virt ==
               paths[i].virt - paths[j].virt + (if c == i then charge else 0) - (if c == j then charge else 0)
  {
    hide Best, Epoch, LeastVirtual, ServiceNs, Rtt;
    var admitted := Admitted(paths, top);
    var ready := Shifted(admitted, top);
    assert ready[i].virt - ready[j].virt == paths[i].virt - paths[j].virt;
    var a :| 0 <= a < |top| && top[a] == i;
    var b :| 0 <= b < |top| && top[b] == j;
    BestLeast(ready, top, a);
    BestLeast(ready, top, b);
  }

  lemma PickApart(paths: seq<Path>, event: Event, i: nat, j: nat, most: nat)
    requires EvenFor(paths, event, i, j, most) && Within(paths, i, j, most)
    ensures var next := Next(paths, event);
            && Within(next, i, j, most)
            && next[i].virt - next[j].virt ==
               paths[i].virt - paths[j].virt + ChargeOf(paths, event, i) - ChargeOf(paths, event, j)
  {
    hide Spread, Eta, MinRtt, ReferenceRate, Pressure, Ranking, Target, Precedes, ServiceNs;
    if event.Picks? {
      var maxRtt := MaxRtt(MinRtt(paths, |paths|));
      var screened := Screened(paths, event.incoming, maxRtt, ReferenceRate(paths, maxRtt, |paths|));
      var order, target := Ranking(paths, event.incoming), Target(paths, event.incoming, event.demand);
      RankingExactly(paths, event.incoming);
      TopPrecedes(paths, event.incoming, order, target);
      SpreadApart(screened, order[..target], event.incoming, i, j, most);
    }
  }

  lemma {:induction false} ChargesTrackAccounts(paths: seq<Path>, events: seq<Event>, i: nat, j: nat, most: nat)
    requires EvenRun(paths, events, i, j, most) && Within(paths, i, j, most)
    ensures var last := Run(paths, events);
            && Within(last, i, j, most)
            && last[i].virt - last[j].virt ==
               paths[i].virt - paths[j].virt + ChargedTo(paths, events, i) - ChargedTo(paths, events, j)
    decreases |events|
  {
    hide Within, EvenFor, Next, ChargeOf;
    WithinIndices(paths, i, j, most);
    if |events| == 0 {
    } else {
      PickApart(paths, events[0], i, j, most);
      ChargesTrackAccounts(Next(paths, events[0]), events[1..], i, j, most);
      WithinIndices(Next(paths, events[0]), i, j, most);
    }
    WithinIndices(Run(paths, events), i, j, most);
  }

  lemma WithinIndices(paths: seq<Path>, i: nat, j: nat, most: nat)
    requires Within(paths, i, j, most)
    ensures i < |paths| && j < |paths|
    ensures paths[i].virt <= paths[j].virt + most && paths[j].virt <= paths[i].virt + most
  {
  }

  /** Two paths that start level and stay active with equal backlogs and no carry are charged the same
      service time up to one frame, however long the run. */
  lemma Fair(paths: seq<Path>, events: seq<Event>, i: nat, j: nat, most: nat)
    requires EvenRun(paths, events, i, j, most)
    requires i < |paths| && j < |paths| && paths[i].active == paths[j].active && paths[i].virt == paths[j].virt
    ensures ChargedTo(paths, events, i) <= ChargedTo(paths, events, j) + most
    ensures ChargedTo(paths, events, j) <= ChargedTo(paths, events, i) + most
  {
    hide Run, ChargedTo, EvenRun;
    ChargesTrackAccounts(paths, events, i, j, most);
    WithinIndices(Run(paths, events), i, j, most);
  }

  /** Every picked frame has size `bytes`. */
  predicate Uniform(events: seq<Event>, bytes: nat) {
    forall e | e in events && e.Picks? :: e.incoming == bytes
  }

  lemma {:induction false} UniformCharges(paths: seq<Path>, events: seq<Event>, i: nat, bytes: nat)
    requires Uniform(events, bytes)
    ensures ChargedTo(paths, events, i) == TakenBy(paths, events, i) * ServiceNs(bytes, FALLBACK_RATE)
    decreases |events|
  {
    hide Picked, ServiceNs, Next;
    if |events| == 0 {
    } else {
      assert events[0] in events;
      UniformCharges(Next(paths, events[0]), events[1..], i, bytes);
    }
  }

  /** With frames of one size, such paths take the same number of frames up to one. */
  lemma FairFrames(paths: seq<Path>, events: seq<Event>, i: nat, j: nat, bytes: nat)
    requires bytes > 0 && Uniform(events, bytes) && EvenRun(paths, events, i, j, ServiceNs(bytes, FALLBACK_RATE))
    requires i < |paths| && j < |paths| && paths[i].active == paths[j].active && paths[i].virt == paths[j].virt
    ensures -1 <= TakenBy(paths, events, i) - TakenBy(paths, events, j) <= 1
  {
    hide ServiceNs, EvenRun, ChargedTo, TakenBy, Uniform;
    var charge := ServiceNs(bytes, FALLBACK_RATE);
    ServiceBounds(bytes);
    Fair(paths, events, i, j, charge);
    UniformCharges(paths, events, i, bytes);
    UniformCharges(paths, events, j, bytes);
    AtMostOne(TakenBy(paths, events, i) - TakenBy(paths, events, j), charge);
  }

  lemma AtMostOne(d: int, c: nat)
    requires c > 0 && 0 <= d * c + c <= 2 * c
    ensures -1 <= d <= 1
  {
  }
}
