/** The accounts of the FEC decoder through suspensions, resumptions and retirement: every group that matters has
    been passed on completely, or is stored with everything that arrived (src/fec.rs). */
module LossLedger {
  import opened Bytes
  import opened Parity
  import opened FecMode
  import opened DecoderSpec
  import opened DecoderSafety
  import opened GroupLoss
  import opened DataPlane
  import opened FenceWindows
  import E = EndToEnd
  import FD = FecDecoder

  /** Every number below the reorder position is among `i`. */
  predicate Passed(expected: nat, i: set<nat>) {
    forall x: nat | x < expected :: x in i
  }

  lemma BehindIn(expected: nat, i: set<nat>, start: nat, k: nat)
    requires Passed(expected, i) && start + k <= expected
    ensures E.AllIn(i, start, k)
  {
    forall j | 0 <= j < k ensures E.Has(i, start, j) { assert start + j < expected; }
  }

  lemma LedgerGrows(d: Dec, i: set<nat>, i': set<nat>, data: set<nat>, parity: set<nat>)
    requires E.Ledger(d, i, data, parity) && i <= i'
    ensures E.Ledger(d, i', data, parity)
  {
    hide IsDone, IsStart, E.Matches, E.AllIn;
    forall s | IsStart(s, d.k) ensures E.Accounted(d, s, i', data, parity) {
      assert E.Accounted(d, s, i, data, parity);
      if E.AllIn(i, s, d.k) { E.AllInGrows(i, i', s, d.k); }
    }
    forall s | IsDone(d.done, s, d.k) ensures E.AllIn(i', s, d.k) { E.AllInGrows(i, i', s, d.k); }
  }

  predicate NoneIn(data: set<nat>, start: nat, k: nat) {
    forall j | 0 <= j < k :: !E.Has(data, start, j)
  }

  /** Dropping groups that have been passed on, or parity that nothing has arrived for and that is forgotten. */
  lemma DropLedger(d: Dec, d': Dec, i: set<nat>, data: set<nat>, parity: set<nat>, parity': set<nat>)
    requires E.Ledger(d, i, data, parity) && d'.Sized() && d'.k == d.k && d'.done == d.done && parity' <= parity
    requires forall s | s in d'.groups :: s in d.groups && d'.groups[s] == d.groups[s] && (s in parity ==> s in parity')
    requires forall s | s in d.groups && s !in d'.groups :: E.AllIn(i, s, d.k) || (NoneIn(data, s, d.k) && s !in parity')
    ensures E.Ledger(d', i, data, parity')
  {
    hide IsDone, IsStart, E.AllIn;
    forall s | IsStart(s, d.k) ensures E.Accounted(d', s, i, data, parity') {
      assert E.Accounted(d, s, i, data, parity);
    }
  }

  lemma RetireLedger(d: Dec, expected: nat, i: set<nat>, data: set<nat>, parity: set<nat>)
    requires Inv(d) && OnStarts(d) && E.Ledger(d, i, data, parity) && Passed(expected, i)
    ensures E.Ledger(Retire(d, Some(expected)), i, data, parity)
  {
    hide Inv, OnStarts, E.Ledger, Retire, E.AllIn, Passed;
    var d' := Retire(d, Some(expected));
    RetireKeepsSettings(d, Some(expected));
    SizedOf(d);
    RetireSized(d, Some(expected));
    forall s | s in d.groups && s !in d'.groups ensures E.AllIn(i, s, d.k) {
      RetireLoss(d, expected, s);
      BehindIn(expected, i, s, d.k);
    }
    DropLedger(d, d', i, data, parity, parity);
  }

  /** A frame of a group that has been passed on may be counted without touching the decoder. */
  lemma CountIn(d: Dec, sn: nat, start: nat, i: set<nat>, data: set<nat>, parity: set<nat>)
    requires E.Ledger(d, i, data, parity) && IsStart(start, d.k) && start <= sn < start + d.k && E.AllIn(i, start, d.k)
    ensures E.Ledger(d, i + {sn}, data + {sn}, parity)
  {
    hide IsDone, IsStart, E.Ledger, E.AllIn, E.Accounted, E.OnlyTouches, E.SameOutside;
    E.LedgerInserted(d, i, data, parity);
    E.OneNumber(i, data, parity, sn, start, d.k);
    E.AllInGrows(i, i + {sn}, start, d.k);
    E.AllInAccounts(d, start, i + {sn}, data + {sn}, parity);
    TouchesItself(d, i, data, parity, start);
    E.LedgerStep(d, d, start, i, i + {sn}, data, data + {sn}, parity, parity);
  }

  lemma CountParity(d: Dec, start: nat, i: set<nat>, data: set<nat>, parity: set<nat>)
    requires E.Ledger(d, i, data, parity) && IsStart(start, d.k) && E.AllIn(i, start, d.k)
    ensures E.Ledger(d, i, data, parity + {start})
  {
    hide IsDone, IsStart, E.Ledger, E.AllIn, E.Accounted, E.OnlyTouches, E.SameOutside;
    TouchesItself(d, i, data, parity, start);
    E.LedgerInserted(d, i, data, parity);
    E.OneStart(parity, start, d.k);
    E.SameOutsideItself(data, start, d.k);
    E.AllInAccounts(d, start, i, data, parity + {start});
    E.LedgerStep(d, d, start, i, i, data, data, parity, parity + {start});
  }

  lemma TouchesItself(d: Dec, i: set<nat>, data: set<nat>, parity: set<nat>, start: nat)
    requires E.Ledger(d, i, data, parity)
    ensures d.Sized() && E.OnlyTouches(d, d, start)
  {
  }

  /** What retirement has reached. */
  predicate RetiredBehind(d: Dec, expected: nat) {
    d.retired == 0 || (d.k > 0 && IsStart(d.retired, d.k) && d.retired <= expected)
  }

  lemma RetireBehind(d: Dec, expected: nat)
    requires OnStarts(d) && RetiredBehind(d, expected)
    ensures RetiredBehind(Retire(d, Some(expected)), expected)
  {
    hide IsStart, KeepFrom;
  }

  lemma RetiredIn(d: Dec, sn: nat, start: nat, expected: nat, i: set<nat>)
    requires RetiredBehind(d, expected) && IsRetired(d, sn) && Passed(expected, i)
    requires d.k > 0 && IsStart(start, d.k) && start <= sn
    ensures E.AllIn(i, start, d.k)
  {
    hide IsStart, E.AllIn, Passed;
    StartsApart(start, d.retired, d.k);
    BehindIn(expected, i, start, d.k);
  }

  // ---------- data ----------

  /** The data frame would push another group out. */
  predicate DataEvicts(d: Dec, sn: nat)
    requires d.Sized() && sn > 0
  {
    !d.fence.Bypasses(sn) && !IsRetired(d, sn) && !E.Roomy(d, GroupStart(sn, d.k))
  }

  lemma DataLedger(d: Dec, sn: nat, frame: Frame, expected: nat, i: set<nat>, data: set<nat>, parity: set<nat>)
    requires Inv(d) && d.Sized() && Structured(d) && OnStarts(d) && !d.single && |frame| > 0 && sn > 0
    requires E.Ledger(d, i, data, parity) && Passed(expected, i) && RetiredBehind(d, expected) && !DataEvicts(d, sn)
    requires d.fence.Bypasses(sn) ==> E.AllIn(i, GroupStart(sn, d.k), d.k)
    ensures var (d', out) := OnData(d, sn, frame, Some(expected));
            E.Ledger(d', i + {sn} + OutSet(out), data + {sn}, parity) && RetiredBehind(d', expected)
    ensures var d' := OnData(d, sn, frame, Some(expected)).0;
            forall s | s in d'.groups && s !in d.groups :: s == GroupStart(sn, d.k) && !d.fence.Bypasses(sn)
  {
    hide Inv, Structured, OnStarts, E.Ledger, E.AllIn, Passed, RetiredBehind, Admit, Retire, IsStart, GroupStart, E.Roomy;
    var start := GroupStart(sn, d.k);
    StartOf(sn, d.k);
    assert i + {sn} + {} == i + {sn};
    if d.fence.Bypasses(sn) {
      CountIn(d, sn, start, i, data, parity);
      if sn % 256 == 0 {
        PassedMore(expected, i, sn);
        RetireLedger(d, expected, i + {sn}, data + {sn}, parity);
        RetireBehind(d, expected);
        RetireKeepsSettings(d, Some(expected));
      }
    } else if IsRetired(d, sn) {
      RetiredIn(d, sn, start, expected, i);
      CountIn(d, sn, start, i, data, parity);
    } else {
      E.AdmitLedger(d, sn, frame, i, data, parity);
      AdmitGroups(d, sn, frame);
      SameRetired(d, Admit(d, sn, frame).0, expected);
    }
  }

  lemma PassedMore(expected: nat, i: set<nat>, sn: nat)
    requires Passed(expected, i)
    ensures Passed(expected, i + {sn})
  {
  }

  lemma SameRetired(d: Dec, d': Dec, expected: nat)
    requires RetiredBehind(d, expected) && d'.retired == d.retired && d'.k == d.k
    ensures RetiredBehind(d', expected)
  {
  }

  lemma AdmitGroups(d: Dec, sn: nat, frame: Frame)
    requires d.Sized() && Structured(d) && sn > 0
    ensures var d' := Admit(d, sn, frame).0;
            && d'.retired == d.retired && d'.k == d.k
            && forall s | s in d'.groups && s !in d.groups :: s == GroupStart(sn, d.k)
  {
    hide MarkDone, Rebuild, Missing, IsDone, GroupStart, IsStart;
  }

  // ---------- parity ----------

  /** The parity record would push another group out. */
  predicate ParityEvicts(d: Dec, start: nat, expected: nat)
    requires d.Sized()
  {
    var d1 := Retire(d, Some(expected));
    !IsRetired(d1, start) && d1.Sized() && !E.Roomy(d1, start)
  }

  /** The sender's parity record, stored with a group that is not done. */
  lemma HoldLedger(d: Dec, start: nat, held: Held, i: set<nat>, data: set<nat>, parity: set<nat>)
    requires Inv(d) && d.Sized() && IsStart(start, d.k) && |held.lens| == d.k
    requires E.Ledger(d, i, data, parity) && E.Spare(d.groups, start) && !IsDone(d.done, start, d.k)
    ensures var (table, stored) := FD.Holding(d.groups, start, held);
            var d1 := d.(groups := table);
            && FD.Recoverable(d1, start)
            && (forall s | s in table && s !in d.groups :: s == start)
            && if !stored then E.Ledger(d1, i, data, parity + {start})
               else var (d2, out) := TryRecover(d1, start); E.Ledger(d2, i + OutSet(out), data, parity + {start})
  {
    hide Inv, E.Ledger, TryRecover, IsDone, E.OnlyTouches, E.SameOutside, E.Accounted, E.AllIn, IsStart, Entry;
    E.LedgerInserted(d, i, data, parity);
    E.OneStart(parity, start, d.k);
    E.SameOutsideItself(data, start, d.k);
    E.HoldAccounts(d, start, held, i, data, parity);
    var (table, stored) := FD.Holding(d.groups, start, held);
    var d1 := d.(groups := table);
    if stored {
      E.RecoverLedger(d, d1, start, i, i, data, data, parity, parity + {start});
    } else {
      E.LedgerStep(d, d1, start, i, i, data, data, parity, parity + {start});
    }
  }

  lemma RecoverGroups(d: Dec, start: nat)
    requires FD.Recoverable(d, start)
    ensures var d' := TryRecover(d, start).0;
            && d'.retired == d.retired && d'.cleanup == d.cleanup && d'.k == d.k
            && forall s | s in d'.groups :: s in d.groups
  {
    hide Rebuild, Missing;
  }

  lemma ParityLedger(d: Dec, ic: Option<Cipher>, sent: nat -> Frame, start: nat, expected: nat,
                     i: set<nat>, data: set<nat>, parity: set<nat>)
    requires Inv(d) && d.Sized() && Structured(d) && OnStarts(d) && !d.single && SoundCipher(ic)
    requires GenuineParity(ParityOf(ic, sent, start, d.k), ic, d.k, start, sent)
    requires E.Ledger(d, i, data, parity) && Passed(expected, i) && RetiredBehind(d, expected)
    requires !ParityEvicts(d, start, expected)
    ensures var (d', r) := OnParity(d, ic, ParityOf(ic, sent, start, d.k), Some(expected));
            && r.Ok? && E.Ledger(d', i + OutSet(r.value), data, parity + {start}) && RetiredBehind(d', expected)
            && forall s | s in d'.groups && s !in d.groups :: s == start
  {
    hide Inv, Structured, OnStarts, E.Ledger, E.AllIn, Passed, RetiredBehind, Retire, IsStart, ParityOf, ParseHeader, ParseBody,
      FD.Holding, TryRecover, IsDone, OnParity, HeldOf, IsRetired, OutSet;
    var progress := Some(expected);
    var payload := ParityOf(ic, sent, start, d.k);
    E.GenuineStart(payload, ic, d.k, start, sent);
    ParityParses(ic, sent, start, d.k);
    FD.OnParityCases(d, ic, payload, progress);
    var d1 := Retire(d, progress);
    RetireLedger(d, expected, i, data, parity);
    RetireBehind(d, expected);
    RetireKeepsSettings(d, progress);
    NoOutput(i);
    if IsRetired(d1, start) {
      RetiredIn(d1, start, start, expected, i);
      CountParity(d1, start, i, data, parity);
    } else if IsDone(d1.done, start, d.k) {
      DoneIn(d1, start, i, data, parity);
      CountParity(d1, start, i, data, parity);
    } else {
      RetireKeepsInv(d, progress);
      E.HeldSize(sent, start, d.k);
      HeldIs(sent, start, d.k);
      HoldLedger(d1, start, HeldOf(sent, start, d.k), i, data, parity);
      var (table, stored) := FD.Holding(d1.groups, start, HeldOf(sent, start, d.k));
      var d2 := d1.(groups := table);
      if stored {
        RecoverGroups(d2, start);
        var d3 := TryRecover(d2, start).0;
        RetireAgain(d, d3, progress);
        SameRetired(d1, d3, expected);
      } else {
        SameRetired(d1, d2, expected);
      }
    }
  }

  lemma NoOutput(i: set<nat>)
    ensures i + OutSet(None) == i
  {
  }

  lemma HeldIs(sent: nat -> Frame, start: nat, k: nat)
    ensures var lens := LensOf(sent, start, k);
            HeldOf(sent, start, k) == Held(lens, XorBody(GroupOf(sent, start, k), k, MaxOf(lens)))
  {
  }

  lemma DoneIn(d: Dec, start: nat, i: set<nat>, data: set<nat>, parity: set<nat>)
    requires E.Ledger(d, i, data, parity) && IsDone(d.done, start, d.k)
    ensures E.AllIn(i, start, d.k)
  {
  }

  // ---------- mode changes ----------

  lemma ModeLedger(d: Dec, c: Control, expected: nat, i: set<nat>, data: set<nat>, parity: set<nat>, parity': set<nat>)
    requires Inv(d) && OnStarts(d) && Aligned(Apply(d.fence, c), d.k)
    requires E.Ledger(d, i, data, parity) && Passed(expected, i) && RetiredBehind(d, expected)
    requires Apply(d.fence, c) != d.fence && parity' <= parity
    requires forall s | s in d.groups && Apply(d.fence, c).Bypasses(s) ::
               E.AllIn(i, s, d.k) || (NoneIn(data, s, d.k) && s !in parity')
    requires forall s | s in parity && s !in parity' :: Apply(d.fence, c).Bypasses(s)
    ensures var d' := OnMode(d, c, Some(expected));
            && E.Ledger(d', i, data, parity') && RetiredBehind(d', expected)
            && forall s | s in d'.groups :: s in d.groups && d'.groups[s] == d.groups[s]
  {
    hide Inv, E.Ledger, E.AllIn, Passed, RetiredBehind, Apply, IsStart, Retire, NoneIn, OnMode;
    var d' := OnMode(d, c, Some(expected));
    OnModeKeepsInv(d, c, Some(expected));
    SizedOf(d');
    ModeSetsFence(d, c, Some(expected));
    forall s | s in d.groups && s !in d'.groups ensures E.AllIn(i, s, d.k) || (NoneIn(data, s, d.k) && s !in parity') {
      ModeLoss(d, c, expected, s);
      if s + d.k <= expected { BehindIn(expected, i, s, d.k); }
    }
    ModeGroups(d, c, expected);
    ModeDrops(d, c, expected);
    DropLedger(d, d', i, data, parity, parity');
  }

  lemma ModeGroups(d: Dec, c: Control, expected: nat)
    requires OnStarts(d) && Aligned(Apply(d.fence, c), d.k) && RetiredBehind(d, expected)
    ensures var d' := OnMode(d, c, Some(expected));
            && d'.k == d.k && d'.done == d.done && RetiredBehind(d', expected)
            && forall s | s in d'.groups :: s in d.groups && d'.groups[s] == d.groups[s]
  {
    hide Apply, IsStart;
  }

  /** Nothing in the new window stays. */
  lemma ModeDrops(d: Dec, c: Control, expected: nat)
    requires Apply(d.fence, c) != d.fence
    ensures forall s | s in OnMode(d, c, Some(expected)).groups :: !Apply(d.fence, c).Bypasses(s)
  {
    hide Apply;
  }

  // ---------- where the stored parts come from ----------

  predicate GroupSourced(s: nat, g: Group, data: set<nat>, parity: set<nat>) {
    (forall j | j in g.members :: E.Has(data, s, j)) && (g.parity.Some? ==> s in parity)
  }

  /** What is stored is among what arrived. */
  predicate Sourced(d: Dec, data: set<nat>, parity: set<nat>) {
    forall s | s in d.groups :: GroupSourced(s, d.groups[s], data, parity)
  }

  /** Number `x` was rebuilt from the parity and all other members of its group. */
  predicate Rebuilt(x: nat, start: nat, k: nat, data: set<nat>, parity: set<nat>) {
    && start <= x < start + k && start in parity
    && forall j | 0 <= j < k && start + j != x :: E.Has(data, start, j)
  }

  lemma SourcedGrows(d: Dec, data: set<nat>, data': set<nat>, parity: set<nat>, parity': set<nat>)
    requires Sourced(d, data, parity) && data <= data' && parity <= parity'
    ensures Sourced(d, data', parity')
  {
    forall s | s in d.groups ensures GroupSourced(s, d.groups[s], data', parity') {
      assert GroupSourced(s, d.groups[s], data, parity);
      forall j | j in d.groups[s].members ensures E.Has(data', s, j) { assert E.Has(data, s, j); }
    }
  }

  lemma SourcedFewer(d: Dec, d': Dec, data: set<nat>, parity: set<nat>, parity': set<nat>)
    requires Sourced(d, data, parity)
    requires forall s | s in d'.groups :: s in d.groups && d'.groups[s] == d.groups[s] && (s in parity ==> s in parity')
    ensures Sourced(d', data, parity')
  {
    forall s | s in d'.groups ensures GroupSourced(s, d'.groups[s], data, parity') {
      assert GroupSourced(s, d.groups[s], data, parity);
    }
  }

  lemma RecoverSourced(d: Dec, start: nat, data: set<nat>, parity: set<nat>)
    requires FD.Recoverable(d, start) && Sourced(d, data, parity)
    ensures var (d', out) := TryRecover(d, start);
            Sourced(d', data, parity) && (out.Some? ==> Rebuilt(out.value.sn, start, d.k, data, parity))
  {
    hide Rebuild, MarkDone;
    if start in d.groups && d.groups[start].parity.Some? && |Missing(d.groups[start], d.k)| <= 1 {
      var g := d.groups[start];
      assert GroupSourced(start, g, data, parity);
      var missing := Missing(g, d.k);
      if missing != {} {
        NonEmptySize(missing);
        var m := Only(missing);
        assert m in missing;
        forall j | 0 <= j < d.k && start + j != start + m ensures E.Has(data, start, j) { assert j !in missing; }
      }
    }
  }

  lemma EntrySourced(groups: map<nat, Group>, start: nat, data: set<nat>, parity: set<nat>)
    requires forall s | s in groups :: GroupSourced(s, groups[s], data, parity)
    ensures forall s | s in Entry(groups, start) :: GroupSourced(s, Entry(groups, start)[s], data, parity)
  {
    hide Entry;
    forall s | s in Entry(groups, start) ensures GroupSourced(s, Entry(groups, start)[s], data, parity) {
      if s == start && start !in groups { assert Entry(groups, start)[s] == NEW_GROUP; }
    }
  }

  lemma AdmitSourced(d: Dec, sn: nat, frame: Frame, data: set<nat>, parity: set<nat>)
    requires d.Sized() && Structured(d) && sn > 0 && Sourced(d, data, parity)
    ensures var (d', out) := Admit(d, sn, frame);
            && Sourced(d', data + {sn}, parity)
            && (out.Some? ==> Rebuilt(out.value.sn, GroupStart(sn, d.k), d.k, data + {sn}, parity))
  {
    hide Admit, TryRecover, MarkDone, Missing, Entry, IsDone, GroupStart, IsStart;
    var start := GroupStart(sn, d.k);
    SourcedGrows(d, data, data + {sn}, parity, parity);
    EntrySourced(d.groups, start, data + {sn}, parity);
    var groups := Entry(d.groups, start);
    var g := groups[start];
    var g' := g.(members := g.members[sn - start := frame]);
    assert GroupSourced(start, g', data + {sn}, parity) by {
      forall j | j in g'.members ensures E.Has(data + {sn}, start, j) {
        if j != sn - start { assert GroupSourced(start, g, data + {sn}, parity); }
      }
    }
    var d1 := d.(groups := groups[start := g']);
    FD.AdmitCases(d, sn, frame);
    if FD.Recoverable(d1, start) { RecoverSourced(d1, start, data + {sn}, parity); }
  }

  lemma DataSourced(d: Dec, sn: nat, frame: Frame, expected: nat, data: set<nat>, parity: set<nat>)
    requires d.Sized() && Structured(d) && Sourced(d, data, parity)
    ensures var (d', out) := OnData(d, sn, frame, Some(expected));
            && Sourced(d', data + {sn}, parity)
            && (out.Some? ==> sn > 0 && Rebuilt(out.value.sn, GroupStart(sn, d.k), d.k, data + {sn}, parity))
  {
    hide Admit, Retire, Structured, Sourced, Rebuilt;
    SourcedGrows(d, data, data + {sn}, parity, parity);
    RetireKeepsSettings(d, Some(expected));
    SourcedFewer(d, Retire(d, Some(expected)), data + {sn}, parity, parity);
    if sn > 0 { AdmitSourced(d, sn, frame, data, parity); }
  }

  lemma ParitySourced(d: Dec, ic: Option<Cipher>, payload: Frame, start: nat, expected: nat, data: set<nat>, parity: set<nat>)
    requires d.Sized() && Structured(d) && ParseHeader(d.k, payload) == Ok(start) && Sourced(d, data, parity)
    ensures var (d', r) := OnParity(d, ic, payload, Some(expected));
            && Sourced(d', data, parity + {start})
            && (r.Ok? && r.value.Some? ==> Rebuilt(r.value.value.sn, start, d.k, data, parity + {start}))
  {
    hide TryRecover, Retire, Structured, Rebuilt, ParseHeader, ParseBody, IsDone, Entry, OnParity;
    var progress, parity' := Some(expected), parity + {start};
    var d1 := Retire(d, progress);
    RetireKeepsSettings(d, progress);
    SourcedGrows(d, data, data, parity, parity');
    SourcedFewer(d, d1, data, parity', parity');
    FD.OnParityCases(d, ic, payload, progress);
    EntrySourced(d1.groups, start, data, parity');
    var body := ParseBody(d.k, ic, payload, start);
    if !d.single && !IsRetired(d1, start) && body.Ok? && !IsDone(d1.done, start, d.k) {
      var (table, stored) := FD.Holding(d1.groups, start, body.value);
      assert GroupSourced(start, Entry(d1.groups, start)[start], data, parity');
      var d2 := d1.(groups := table);
      assert Sourced(d2, data, parity');
      if stored {
        RecoverSourced(d2, start, data, parity');
        var d3 := TryRecover(d2, start).0;
        RetireKeepsSettings(d3, progress);
        SourcedFewer(d3, Retire(d3, progress), data, parity', parity');
      }
    }
  }
}
