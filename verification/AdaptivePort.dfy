/** `AdaptivePortState::pick` as the passes over the backends that it is (src/adaptive_multipath.rs). */
module AdaptivePort {
  import opened Bytes
  import opened Scheduler

  // ---------- read-only passes ----------

  method SumPressure(paths: seq<Path>, incoming: nat) returns (pressure: nat)
    ensures pressure == Pressure(paths, incoming, |paths|)
  {
    pressure := incoming;
    for i := 0 to |paths|
      invariant pressure == Pressure(paths, incoming, i)
    {
      pressure := Min(pressure + paths[i].queued, U64_MAX);
    }
  }

  method FindMinRtt(paths: seq<Path>) returns (m: nat)
    ensures m == MinRtt(paths, |paths|)
  {
    m := U32_MAX;
    for i := 0 to |paths|
      invariant m == MinRtt(paths, i)
    {
      if Healthy(paths[i]) {
        m := Min(m, Rtt(paths[i]));
      }
    }
  }

  method FindReferenceRate(paths: seq<Path>, maxRtt: nat) returns (rate: nat)
    ensures rate == ReferenceRate(paths, maxRtt, |paths|)
  {
    rate := FALLBACK_RATE;
    for i := 0 to |paths|
      invariant rate == ReferenceRate(paths, maxRtt, i)
    {
      if Rtt(paths[i]) <= maxRtt {
        rate := Max(rate, paths[i].rate);
      }
    }
  }

  method FindEpoch(paths: seq<Path>, top: seq<nat>) returns (epoch: int)
    requires Indices(top, |paths|)
    ensures epoch == var e := Epoch(paths, top); if e.Some? then e.value else 0
  {
    var least: Option<int> := None;
    for a := 0 to |top|
      invariant least == Epoch(paths, top[..a])
    {
      assert top[..a + 1][..a] == top[..a];
      if paths[top[a]].active {
        least := if least.None? || paths[top[a]].virt < least.value then Some(paths[top[a]].virt) else least;
      }
    }
    assert top[..|top|] == top;
    return if least.Some? then least.value else 0;
  }

  method FindLeastVirtual(paths: seq<Path>, top: seq<nat>) returns (m: int)
    requires Indices(top, |paths|)
    ensures m == LeastVirtual(paths, top)
  {
    m := I64_MAX;
    for a := 0 to |top|
      invariant m == LeastVirtual(paths, top[..a])
    {
      assert top[..a + 1][..a] == top[..a];
      if paths[top[a]].virt < m {
        m := paths[top[a]].virt;
      }
    }
    assert top[..|top|] == top;
  }

  method FindBest(paths: seq<Path>, top: seq<nat>) returns (chosen: nat)
    requires |top| > 0 && Indices(top, |paths|)
    ensures chosen == Best(paths, top)
  {
    chosen := top[0];
    var chosenScore := Score(paths[chosen]);
    assert top[..1] == [top[0]];
    for a := 1 to |top|
      invariant chosen == Best(paths, top[..a]) && chosenScore == Score(paths[chosen])
    {
      assert top[..a + 1][..a] == top[..a];
      var s := Score(paths[top[a]]);
      if s < chosenScore || (s == chosenScore && Rtt(paths[top[a]]) < Rtt(paths[chosen])) {
        chosen, chosenScore := top[a], s;
      }
    }
    assert top[..|top|] == top;
  }

  // ---------- passes that update the backends ----------

  /** Only `chosen` stays active; all accounts are cleared. */
  method KeepOnly(paths: array<Path>, chosen: nat)
    modifies paths
    ensures paths[..] == Only(old(paths[..]), chosen)
  {
    for i := 0 to paths.Length
      invariant forall j | 0 <= j < i :: paths[j] == old(paths[j]).(active := j == chosen, virt := 0)
      invariant forall j | i <= j < paths.Length :: paths[j] == old(paths[j])
    {
      paths[i] := paths[i].(active := i == chosen, virt := 0);
    }
  }

  /** Refreshes the estimates, drops the ineligible from the active set and lists the others in order. */
  method ListCandidates(paths: array<Path>, incoming: nat, maxRtt: nat, reference: nat) returns (order: seq<nat>)
    modifies paths
    ensures paths[..] == Screened(old(paths[..]), incoming, maxRtt, reference)
    ensures order == Candidates(old(paths[..]), incoming, maxRtt, paths.Length)
  {
    hide Place, Eta, Eligible;
    var seen := paths[..];
    order := [];
    for i := 0 to paths.Length
      invariant Indices(order, |seen|) && order == Candidates(seen, incoming, maxRtt, i)
      invariant forall j | 0 <= j < i :: paths[j] == Screen(seen[j], incoming, maxRtt, reference)
      invariant forall j | i <= j < paths.Length :: paths[j] == seen[j]
    {
      var p := paths[i].(eta := Eta(paths[i], incoming, reference));
      if !Eligible(paths[i], maxRtt) {
        paths[i] := p.(active := false, virt := 0);
      } else {
        paths[i] := p;
        order := Place(seen, incoming, order, i);
      }
    }
  }

  ghost predicate Distinct(order: seq<nat>) {
    forall a, b | 0 <= a < b < |order| :: order[a] != order[b]
  }

  /** Ranks below `target` become active, newcomers at the epoch; the other candidates become inactive. */
  method AdmitTop(paths: array<Path>, order: seq<nat>, target: nat)
    requires Indices(order, paths.Length) && Distinct(order) && target <= |order|
    requires forall i | 0 <= i < paths.Length && i !in order :: !paths[i].active && paths[i].virt == 0
    modifies paths
    ensures paths[..] == Admitted(old(paths[..]), order[..target])
  {
    hide Epoch, Distinct, Admit;
    ghost var was := paths[..];
    var epoch := FindEpoch(paths[..], order[..target]);
    for rank := 0 to |order|
      invariant forall i | 0 <= i < paths.Length ::
          paths[i] == if i in order[..rank] then Admit(was[i], i in order[..target], epoch) else was[i]
    {
      var c := order[rank];
      OneMoreRank(order, rank);
      InTop(order, target, rank);
      paths[c] := Admit(paths[c], rank < target, epoch);
    }
    assert order[..|order|] == order;
    forall i | 0 <= i < paths.Length && i !in order ensures paths[i] == Admit(was[i], i in order[..target], epoch) {
      assert i !in order[..target];
      StaysOut(was[i], epoch);
    }
    assert paths[..] == Admitted(was, order[..target]);
  }

  lemma StaysOut(p: Path, epoch: int)
    requires !p.active && p.virt == 0
    ensures Admit(p, false, epoch) == p
  {
  }

  lemma InTop(order: seq<nat>, target: nat, a: nat)
    requires Distinct(order) && target <= |order| && a < |order|
    ensures order[a] in order[..target] <==> a < target
  {
    assert forall b | 0 <= b < target :: order[..target][b] == order[b];
  }

  lemma OneMoreRank(order: seq<nat>, a: nat)
    requires Distinct(order) && a < |order|
    ensures order[a] !in order[..a]
    ensures forall i :: i in order[..a + 1] <==> i in order[..a] || i == order[a]
  {
    InTop(order, a, a);
    assert order[..a + 1] == order[..a] + [order[a]];
  }

  /** Takes the least account off all accounts of `top`. */
  method ShiftTop(paths: array<Path>, top: seq<nat>)
    requires Indices(top, paths.Length) && Distinct(top)
    modifies paths
    ensures paths[..] == Shifted(old(paths[..]), top)
  {
    hide LeastVirtual, Distinct, Rebased;
    ghost var was := paths[..];
    var m := FindLeastVirtual(paths[..], top);
    if m != 0 && m != I64_MAX {
      for a := 0 to |top|
        invariant forall i | 0 <= i < paths.Length ::
            paths[i] == if i in top[..a] then Rebased(was[i], m) else was[i]
      {
        OneMoreRank(top, a);
        paths[top[a]] := Rebased(paths[top[a]], m);
      }
      assert top[..|top|] == top;
      assert paths[..] == Shifted(was, top);
    }
  }

  // ---------- pick ----------

  class AdaptivePortState {
    var activePaths: nat
    var pressureBytes: nat

    constructor ()
      ensures activePaths == 0 && pressureBytes == 0
    {
      activePaths, pressureBytes := 0, 0;
    }

    /** Chooses the path for a frame of `incoming` bytes, given the input rate `demand` measured so far. */
    method Pick(paths: array<Path>, preferred: Option<nat>, incoming: nat, demand: nat) returns (chosen: Option<nat>)
      modifies this, paths
      ensures (paths[..], chosen) == Picked(old(paths[..]), preferred, incoming, demand)
      ensures paths.Length > 0 ==> pressureBytes == Pressure(old(paths[..]), incoming, paths.Length)
      ensures activePaths == if paths.Length == 0 then 0
                             else if MinRtt(old(paths[..]), paths.Length) == U32_MAX then 1
                             else Target(old(paths[..]), incoming, demand)
    {
      hide Pressure, MinRtt, ReferenceRate, Candidates, Screened, Admitted, Shifted, Best, Eta, Only, Base;
      if paths.Length == 0 {
        activePaths := 0;
        return None;
      }
      ghost var was := paths[..];
      pressureBytes := SumPressure(paths[..], incoming);
      var minRtt := FindMinRtt(paths[..]);
      if minRtt == U32_MAX {
        KeepOnly(paths, 0);
        activePaths := 1;
        return Some(0);
      }
      var maxRtt := MaxRtt(minRtt);
      var reference := FindReferenceRate(paths[..], maxRtt);
      var seen := paths[..];
      var order := ListCandidates(paths, incoming, maxRtt, reference);
      ghost var screened := paths[..];
      SomeCandidate(was, incoming);
      RankingExactly(was, incoming);
      assert order == Ranking(was, incoming);
      var active := ActiveTarget(pressureBytes, demand, |order|);
      if active == 1 {
        var c := Sticky(seen, incoming, order, preferred);
        KeepOnly(paths, c);
        activePaths := 1;
        return Some(c);
      }
      ScreenedOut(was, incoming, maxRtt, reference, order);
      AdmitTop(paths, order, active);
      ShiftTop(paths, order[..active]);
      var c := FindBest(paths[..], order[..active]);
      ghost var ready := paths[..];
      assert ready == Shifted(Admitted(screened, order[..active]), order[..active]);
      paths[c] := Charged(paths[c], incoming);
      assert paths[..] == ready[c := Charged(ready[c], incoming)];
      activePaths := active;
      return Some(c);
    }
  }

  lemma ScreenedOut(paths: seq<Path>, incoming: nat, maxRtt: nat, reference: nat, order: seq<nat>)
    requires forall i :: i in order <==> 0 <= i < |paths| && Eligible(paths[i], maxRtt)
    ensures forall i | 0 <= i < |paths| && i !in order ::
              var p := Screened(paths, incoming, maxRtt, reference)[i]; !p.active && p.virt == 0
  {
    hide Eta, Eligible;
  }
}
