/** End-to-end delivery through FEC, duplicate filter and reorder buffer.

    The sender numbers its frames 1..n and emits the parity of complete groups. Whatever the order and
    duplication, if every lost frame is the only loss of a group whose parity arrives, the receiver makes
    ready exactly the sent frames, in order. */
module EndToEnd {
  import opened Bytes
  import opened Parity
  import opened FecMode
  import opened DecoderSpec
  import opened DecoderSafety
  import opened ReorderSpec
  import opened RingSpec
  import opened RxActor
  import FD = FecDecoder

  // ---------- the reorder buffer against the set of inserted numbers ----------

  /** The first `n` sent frames, in order. */
  function Prefix(sent: nat -> Frame, n: nat): seq<Item> {
    if n == 0 then [] else Prefix(sent, n - 1) + [Item(n, sent(n))]
  }

  /** Everything inserted is either delivered, in order and without a hole, or pending. */
  ghost predicate Delivering(b: Buf, inserted: set<nat>, out: seq<Item>, sent: nat -> Frame, n: nat) {
    && Orderly(b)
    && (forall s | s in inserted :: 1 <= s <= n)
    && (forall s | s in b.pending :: s in inserted && b.pending[s] == sent(s))
    && if b.expected == 0 then inserted == {} && out == []
       else
         && 1 < b.expected && out == Prefix(sent, b.expected - 1)
         && (forall s | s in inserted :: s < b.expected || s in b.pending)
         && (forall s | 1 <= s < b.expected :: s in inserted)
  }

  lemma {:induction false} PrefixExtends(sent: nat -> Frame, n: nat, items: seq<Item>)
    requires forall i | 0 <= i < |items| :: items[i].sn == n + 1 + i && items[i].data == sent(items[i].sn)
    ensures Prefix(sent, n) + items == Prefix(sent, n + |items|)
    decreases |items|
  {
    if |items| == 0 {
      assert Prefix(sent, n) + items == Prefix(sent, n);
    } else {
      var front, last := items[..|items| - 1], items[|items| - 1];
      PrefixExtends(sent, n, front);
      assert items == front + [last];
      assert Prefix(sent, n) + items == (Prefix(sent, n) + front) + [last];
    }
  }

  /** Releasing the run that starts at the number just stored. */
  lemma DrainDelivers(pending: map<nat, Frame>, inserted: set<nat>, sent: nat -> Frame, n: nat, sn: nat)
    requires 1 <= sn <= n < U32_MAX && sn in pending
    requires forall s | s in pending :: s in inserted && pending[s] == sent(s) && sn <= s < sn + MAX_WINDOW && s <= n
    requires forall s | s in inserted :: s < sn || s in pending
    requires forall s | 1 <= s < sn :: s in inserted
    ensures var (e, p, items) := Drain(sn, pending);
            && sn < e && Prefix(sent, sn - 1) + items == Prefix(sent, e - 1)
            && (forall s | s in p :: s in inserted && p[s] == sent(s))
            && (forall s | s in inserted :: s < e || s in p)
            && (forall s | 1 <= s < e :: s in inserted)
  {
    hide Prefix;
    DrainSpec(sn, pending);
    DrainWithin(sn, pending);
    var (e, p, items) := Drain(sn, pending);
    PrefixExtends(sent, sn - 1, items);
    forall s | 1 <= s < e ensures s in inserted {
      if s >= sn { assert items[s - sn].sn == s; }
    }
  }

  lemma InsertDelivers(b: Buf, inserted: set<nat>, out: seq<Item>, sent: nat -> Frame, n: nat, sn: nat, now: nat)
    requires Delivering(b, inserted, out, sent, n) && 1 <= sn <= n < U32_MAX
    requires if b.expected == 0 then sn == 1 else sn < b.expected + MAX_WINDOW
    ensures var (b', items) := Insert(b, sn, sent(sn), now);
            Delivering(b', inserted + {sn}, out + items, sent, n) && 0 < b'.expected && b.expected <= b'.expected
  {
    hide Drain, Prefix;
    InsertKeepsOrderly(b, sn, sent(sn), now);
    assert out + [] == out;
    EmptyPrefix(sent);
    var b1 := Learn(b, sn);
    if sn == b1.expected && sn !in b1.pending {
      DrainDelivers(b1.pending[sn := sent(sn)], inserted + {sn}, sent, n, sn);
    }
  }

  lemma EmptyPrefix(sent: nat -> Frame)
    ensures Prefix(sent, 0) == []
  {
  }

  // ---------- the decoder against the records that arrived ----------

  /** Number `j` of the group starting at `start` is in `s`. */
  predicate Has(s: set<nat>, start: nat, j: nat) {
    start + j in s
  }

  predicate AllIn(inserted: set<nat>, start: nat, k: nat) {
    forall j | 0 <= j < k :: Has(inserted, start, j)
  }

  /** The stored group consists of exactly the members that arrived, and holds the parity if it arrived. */
  predicate Matches(groups: map<nat, Group>, start: nat, k: nat, data: set<nat>, parity: set<nat>) {
    if start in groups then
      && (forall j | 0 <= j < k :: j in groups[start].members <==> Has(data, start, j))
      && (groups[start].parity.Some? <==> start in parity)
    else (forall j | 0 <= j < k :: !Has(data, start, j)) && start !in parity
  }

  /** A group has either been passed on completely, or is still stored with everything that arrived. */
  predicate Accounted(d: Dec, start: nat, inserted: set<nat>, data: set<nat>, parity: set<nat>) {
    AllIn(inserted, start, d.k) || Matches(d.groups, start, d.k, data, parity)
  }

  ghost predicate Ledger(d: Dec, inserted: set<nat>, data: set<nat>, parity: set<nat>) {
    && d.Sized()
    && data <= inserted
    && (forall start | IsStart(start, d.k) :: Accounted(d, start, inserted, data, parity))
    && (forall start | IsDone(d.done, start, d.k) :: AllIn(inserted, start, d.k))
  }

  /** A step that touches only the group starting at `start`. */
  ghost predicate OnlyTouches(d: Dec, d': Dec, start: nat) {
    && d.Sized() && d'.Sized() && d'.k == d.k
    && (forall s | s != start :: (s in d'.groups <==> s in d.groups) && (s in d.groups ==> d'.groups[s] == d.groups[s]))
    && (forall s | IsDone(d'.done, s, d.k) :: s == start || IsDone(d.done, s, d.k))
  }

  ghost predicate SameOutside(a: set<nat>, b: set<nat>, start: nat, k: nat) {
    forall x | !(start <= x < start + k) :: x in a <==> x in b
  }

  lemma LedgerStep(d: Dec, d': Dec, start: nat, i: set<nat>, i': set<nat>,
                   data: set<nat>, data': set<nat>, parity: set<nat>, parity': set<nat>)
    requires Ledger(d, i, data, parity) && OnlyTouches(d, d', start) && IsStart(start, d.k)
    requires i <= i' && data' <= i'
    requires SameOutside(data, data', start, d.k) && SameOutside(parity, parity', start, d.k)
    requires Accounted(d', start, i', data', parity')
    requires IsDone(d'.done, start, d.k) ==> AllIn(i', start, d.k)
    ensures Ledger(d', i', data', parity')
  {
    hide IsDone, IsStart;
    forall s | IsStart(s, d.k) && s != start ensures Accounted(d', s, i', data', parity') {
      assert Accounted(d, s, i, data, parity);
      GroupsDisjoint(s, start, d.k);
      if AllIn(i, s, d.k) {
        AllInGrows(i, i', s, d.k);
      } else {
        assert forall j | 0 <= j < d.k :: Has(data', s, j) <==> Has(data, s, j);
        assert Matches(d'.groups, s, d.k, data', parity');
      }
    }
    forall s | IsDone(d'.done, s, d.k) ensures AllIn(i', s, d.k) {
      if s != start { AllInGrows(i, i', s, d.k); }
    }
  }

  lemma GroupsDisjoint(s: nat, t: nat, k: nat)
    requires k > 0 && IsStart(s, k) && IsStart(t, k) && s != t
    ensures s + k <= t || t + k <= s
  {
    if s < t { StartsApart(s, t, k); } else { StartsApart(t, s, k); }
  }

  lemma AllInGrows(i: set<nat>, i': set<nat>, start: nat, k: nat)
    requires AllIn(i, start, k) && i <= i'
    ensures AllIn(i', start, k)
  {
    forall j | 0 <= j < k ensures Has(i', start, j) { assert Has(i, start, j); }
  }

  /** All members but one arrived, and the one is now there too. */
  lemma AllButOneIn(g: Group, k: nat, start: nat, data: set<nat>, i: set<nat>, missing: set<nat>)
    requires forall j | 0 <= j < k :: j in g.members <==> Has(data, start, j)
    requires data <= i && Missing(g, k) == missing
    requires forall j | j in missing :: Has(i, start, j)
    ensures AllIn(i, start, k)
  {
    forall j | 0 <= j < k ensures Has(i, start, j) {
      if j in g.members { assert Has(data, start, j); } else { assert j in Missing(g, k); }
    }
  }

  /** What `TryRecover` does to the accounts of the group it is called for. */
  lemma RecoverAccounts(d: Dec, start: nat, i: set<nat>, data: set<nat>, parity: set<nat>)
    requires d.Sized() && start in d.groups && IsStart(start, d.k) && GroupOk(d.groups[start], d.k)
    requires data <= i && Accounted(d, start, i, data, parity) && !IsDone(d.done, start, d.k)
    ensures var (d', out) := TryRecover(d, start);
            var i' := i + (if out.Some? then {out.value.sn} else {});
            && OnlyTouches(d, d', start)
            && Accounted(d', start, i', data, parity)
            && (IsDone(d'.done, start, d.k) ==> AllIn(i', start, d.k))
            && (out.Some? ==> start <= out.value.sn < start + d.k)
  {
    hide Rebuild, IsStart, MarkDone, IsDone, Missing, TryRecover;
    var g := d.groups[start];
    assert i + {} == i;
    FD.RecoverCases(d, start);
    if g.parity.Some? && |Missing(g, d.k)| <= 1 {
      var (d', out) := TryRecover(d, start);
      var missing := Missing(g, d.k);
      var i' := i + (if out.Some? then {out.value.sn} else {});
      if missing != {} {
        SingletonMissing(g, d.k);
      }
      assert forall j | j in missing :: Has(i', start, j);
      if AllIn(i, start, d.k) {
        AllInGrows(i, i', start, d.k);
      } else {
        AllButOneIn(g, d.k, start, data, i', missing);
      }
    }
  }

  lemma SingletonMissing(g: Group, k: nat)
    requires |Missing(g, k)| <= 1 && Missing(g, k) != {}
    ensures |Missing(g, k)| == 1 && Missing(g, k) == {Only(Missing(g, k))} && Only(Missing(g, k)) < k
  {
    NonEmptySize(Missing(g, k));
    assert Only(Missing(g, k)) in Missing(g, k);
  }

  /** Opening this entry evicts nothing. */
  predicate Spare(groups: map<nat, Group>, start: nat) {
    start in groups || |groups| < MAX_PENDING_GROUPS
  }

  /** A record of this group evicts nothing: the group is done, stored, or there is room. */
  predicate Roomy(d: Dec, start: nat)
    requires d.Sized()
  {
    IsDone(d.done, start, d.k) || Spare(d.groups, start)
  }

  /** Opening an entry without eviction touches only that entry. */
  lemma EntryTouches(d: Dec, start: nat, g: Group)
    requires d.Sized() && Spare(d.groups, start)
    ensures OnlyTouches(d, d.(groups := Entry(d.groups, start)), start)
    ensures OnlyTouches(d, d.(groups := Entry(d.groups, start)[start := g]), start)
    ensures OnlyTouches(d, d.(groups := Entry(d.groups, start) - {start}), start)
  {
    hide Entry, IsDone;
    FD.EntryCases(d.groups, start);
  }

  /** A group that is not passed on yet: what is stored is what arrived. */
  lemma EntryMatches(d: Dec, start: nat, data: set<nat>, parity: set<nat>)
    requires Spare(d.groups, start) && Matches(d.groups, start, d.k, data, parity)
    ensures Matches(Entry(d.groups, start), start, d.k, data, parity)
  {
    hide Entry;
    FD.EntryCases(d.groups, start);
  }

  lemma MemberMatches(groups: map<nat, Group>, start: nat, k: nat, j: nat, frame: Frame, data: set<nat>, parity: set<nat>)
    requires start in groups && Matches(groups, start, k, data, parity)
    ensures var g := groups[start];
            Matches(groups[start := g.(members := g.members[j := frame])], start, k, data + {start + j}, parity)
  {
    var g := groups[start];
    var members', data' := g.members[j := frame], data + {start + j};
    forall m | 0 <= m < k ensures m in members' <==> Has(data', start, m) {
      assert m in g.members <==> Has(data, start, m);
    }
  }

  lemma DuplicateMatches(groups: map<nat, Group>, start: nat, k: nat, j: nat, data: set<nat>, parity: set<nat>)
    requires start in groups && Matches(groups, start, k, data, parity) && j < k && j in groups[start].members
    ensures data + {start + j} == data
  {
    assert Has(data, start, j);
  }

  /** The accounts after one data frame of the group starting at `start` was counted in. */
  lemma AbsorbAccounts(d: Dec, start: nat, sn: nat, frame: Frame, i: set<nat>, data: set<nat>, parity: set<nat>)
    requires Inv(d) && Ledger(d, i, data, parity) && IsStart(start, d.k) && start <= sn < start + d.k
    requires Spare(d.groups, start) && !IsDone(d.done, start, d.k)
    ensures var (table, absorbed) := FD.Absorption(d.groups, start, sn - start, frame, d.k);
            var d1 := d.(groups := table);
            && OnlyTouches(d, d1, start)
            && (absorbed.Complete? ==> AllIn(i + {sn}, start, d.k))
            && (!absorbed.Complete? ==>
                  && start in table && GroupOk(table[start], d.k)
                  && Accounted(d1, start, i + {sn}, data + {sn}, parity))
  {
    hide IsStart, IsDone, Inv, StoredOk, Entry, Matches, AllIn, GroupOk, Missing, OnlyTouches;
    var j := sn - start;
    assert start + j == sn;
    var groups := Entry(d.groups, start);
    var g := groups[start];
    var g' := g.(members := g.members[j := frame]);
    EntryStored(d, start);
    StoredParts(start, g, d.k);
    MemberKeepsGroupOk(g, d.k, j, frame);
    EntryTouches(d, start, g');
    assert Accounted(d, start, i, data, parity);
    if AllIn(i, start, d.k) {
      AllInGrows(i, i + {sn}, start, d.k);
    } else {
      EntryMatches(d, start, data, parity);
      MemberMatches(groups, start, d.k, j, frame, data, parity);
      if j in g.members {
        DuplicateMatches(groups, start, d.k, j, data, parity);
      } else if Missing(g', d.k) == {} {
        CompleteIn(groups[start := g'], start, d.k, data + {sn}, parity, i + {sn});
      }
    }
  }

  lemma CompleteIn(groups: map<nat, Group>, start: nat, k: nat, data: set<nat>, parity: set<nat>, i: set<nat>)
    requires start in groups && Matches(groups, start, k, data, parity) && data <= i && Missing(groups[start], k) == {}
    ensures AllIn(i, start, k)
  {
    AllButOneIn(groups[start], k, start, data, i, {});
  }

  /** Storing into one group and then trying to recover it. */
  lemma RecoverLedger(d: Dec, d1: Dec, start: nat, i: set<nat>, i1: set<nat>,
                      data: set<nat>, data1: set<nat>, parity: set<nat>, parity1: set<nat>)
    requires Ledger(d, i, data, parity) && OnlyTouches(d, d1, start) && IsStart(start, d.k)
    requires start in d1.groups && GroupOk(d1.groups[start], d1.k) && !IsDone(d1.done, start, d1.k)
    requires i <= i1 && data1 <= i1
    requires SameOutside(data, data1, start, d.k) && SameOutside(parity, parity1, start, d.k)
    requires Accounted(d1, start, i1, data1, parity1)
    ensures var (d', out) := TryRecover(d1, start);
            && Ledger(d', i1 + OutSet(out), data1, parity1)
            && (out.Some? ==> start <= out.value.sn < start + d.k)
  {
    hide IsStart, IsDone, TryRecover, MarkDone, Accounted, AllIn, Ledger, OnlyTouches, SameOutside;
    TouchesSized(d, d1, start);
    var (d', out) := TryRecover(d1, start);
    RecoverAccounts(d1, start, i1, data1, parity1);
    TouchesTwice(d, d1, d', start);
    LedgerStep(d, d', start, i, i1 + OutSet(out), data, data1, parity, parity1);
  }

  lemma TouchesSized(d: Dec, d': Dec, start: nat)
    requires OnlyTouches(d, d', start)
    ensures d.Sized() && d'.Sized() && d'.k == d.k
  {
  }

  /** A data frame of a group that is not done. */
  lemma AbsorbLedger(d: Dec, start: nat, sn: nat, frame: Frame, i: set<nat>, data: set<nat>, parity: set<nat>)
    requires Inv(d) && d.Sized() && Ledger(d, i, data, parity) && IsStart(start, d.k) && start <= sn < start + d.k
    requires Spare(d.groups, start) && !IsDone(d.done, start, d.k)
    ensures var (table, absorbed) := FD.Absorption(d.groups, start, sn - start, frame, d.k);
            var d1 := d.(groups := table);
            var i1, data1 := i + {sn}, data + {sn};
            match absorbed
            case Duplicate => Ledger(d1, i1, data1, parity)
            case Complete => Ledger(d1.(done := MarkDone(d.done, start, d.k)), i1, data1, parity)
            case Partial =>
              && start in table && GroupOk(table[start], d.k)
              && var (d', out) := TryRecover(d1, start);
                 && Ledger(d', i1 + OutSet(out), data1, parity)
                 && (out.Some? ==> start <= out.value.sn < start + d.k)
  {
    hide IsStart, IsDone, Inv, FD.Absorption, TryRecover, MarkDone, Accounted, AllIn, Ledger, OnlyTouches,
      SameOutside;
    var (table, absorbed) := FD.Absorption(d.groups, start, sn - start, frame, d.k);
    var d1 := d.(groups := table);
    var i1, data1 := i + {sn}, data + {sn};
    LedgerInserted(d, i, data, parity);
    OneNumber(i, data, parity, sn, start, d.k);
    AbsorbAccounts(d, start, sn, frame, i, data, parity);
    if absorbed.Duplicate? {
      LedgerStep(d, d1, start, i, i1, data, data1, parity, parity);
    } else if absorbed.Complete? {
      var d' := d1.(done := MarkDone(d.done, start, d.k));
      MarkTouches(d, d1, start);
      AllInAccounts(d', start, i1, data1, parity);
      LedgerStep(d, d', start, i, i1, data, data1, parity, parity);
    } else {
      RecoverLedger(d, d1, start, i, i1, data, data1, parity, parity);
    }
  }

  lemma AdmitLedger(d: Dec, sn: nat, frame: Frame, i: set<nat>, data: set<nat>, parity: set<nat>)
    requires Inv(d) && d.Sized() && Structured(d) && Ledger(d, i, data, parity) && sn > 0
    requires Roomy(d, GroupStart(sn, d.k))
    ensures var (d', out) := Admit(d, sn, frame);
            && Ledger(d', i + {sn} + OutSet(out), data + {sn}, parity)
            && (out.Some? ==> GroupStart(sn, d.k) <= out.value.sn < GroupStart(sn, d.k) + d.k)
  {
    hide IsStart, IsDone, Inv, GroupStart, Admit, FD.Absorption, TryRecover, MarkDone, Ledger, Structured,
      SameOutside, Accounted, OnlyTouches, AllIn;
    var start := GroupStart(sn, d.k);
    var i', data' := i + {sn}, data + {sn};
    assert i' + {} == i';
    FD.AdmitCases(d, sn, frame);
    if IsDone(d.done, start, d.k) {
      OneNumber(i, data, parity, sn, start, d.k);
      DoneAccounts(d, start, i, i', data, data', parity);
      LedgerStep(d, d, start, i, i', data, data', parity, parity);
    } else {
      AbsorbLedger(d, start, sn, frame, i, data, parity);
    }
  }

  lemma LedgerInserted(d: Dec, i: set<nat>, data: set<nat>, parity: set<nat>)
    requires Ledger(d, i, data, parity)
    ensures data <= i
  {
  }

  lemma OneNumber(i: set<nat>, data: set<nat>, parity: set<nat>, sn: nat, start: nat, k: nat)
    requires start <= sn < start + k
    ensures SameOutside(data, data + {sn}, start, k) && SameOutside(parity, parity, start, k)
    ensures data <= i ==> data + {sn} <= i + {sn}
  {
  }

  lemma DoneAccounts(d: Dec, start: nat, i: set<nat>, i': set<nat>, data: set<nat>, data': set<nat>, parity: set<nat>)
    requires Ledger(d, i, data, parity) && IsDone(d.done, start, d.k) && i <= i'
    ensures data <= i && AllIn(i', start, d.k) && Accounted(d, start, i', data', parity) && OnlyTouches(d, d, start)
  {
    AllInGrows(i, i', start, d.k);
  }

  lemma AllInAccounts(d: Dec, start: nat, i: set<nat>, data: set<nat>, parity: set<nat>)
    requires AllIn(i, start, d.k)
    ensures Accounted(d, start, i, data, parity)
  {
  }

  lemma MarkTouches(d: Dec, d1: Dec, start: nat)
    requires OnlyTouches(d, d1, start)
    ensures OnlyTouches(d, d1.(done := MarkDone(d1.done, start, d.k)), start)
  {
  }

  lemma TouchesTwice(d: Dec, d1: Dec, d2: Dec, start: nat)
    requires OnlyTouches(d, d1, start) && OnlyTouches(d1, d2, start)
    ensures OnlyTouches(d, d2, start)
  {
  }

  // ---------- no bypass, no retirement ----------

  /** No mode control has arrived. */
  predicate Plain(d: Dec) {
    !d.single && d.fence == OPEN_FENCE && d.cleanup == 0 && d.retired == 0
  }

  /** Stored groups start at a sent number, and parity is held only for groups that were sent completely. */
  predicate ParityWithin(d: Dec, n: nat) {
    forall s | s in d.groups :: s <= n && (d.groups[s].parity.Some? ==> s + d.k <= n + 1)
  }

  lemma RecoverPlain(d: Dec, start: nat, n: nat)
    requires FD.Recoverable(d, start) && Plain(d) && ParityWithin(d, n)
    ensures var (d', out) := TryRecover(d, start);
            && d'.k == d.k && Plain(d') && ParityWithin(d', n)
            && (out.Some? ==> start + d.k <= n + 1)
  {
    hide Rebuild, MarkDone, Missing;
  }

  lemma AbsorbParityWithin(d: Dec, start: nat, j: nat, frame: Frame, n: nat)
    requires d.Sized() && ParityWithin(d, n) && start <= n
    ensures var (table, absorbed) := FD.Absorption(d.groups, start, j, frame, d.k);
            forall done :: ParityWithin(d.(groups := table, done := done), n)
  {
    hide Entry, Missing;
  }

  lemma AdmitPlain(d: Dec, sn: nat, frame: Frame, n: nat)
    requires d.Sized() && Structured(d) && 0 < sn <= n && Plain(d) && ParityWithin(d, n)
    ensures var (d', out) := Admit(d, sn, frame);
            && d'.k == d.k && Plain(d') && ParityWithin(d', n)
            && (out.Some? ==> GroupStart(sn, d.k) + d.k <= n + 1)
  {
    hide Admit, TryRecover, GroupStart, MarkDone, IsDone, Structured, FD.Absorption, ParityWithin;
    FD.AdmitCases(d, sn, frame);
    var start := GroupStart(sn, d.k);
    if !IsDone(d.done, start, d.k) {
      var (table, absorbed) := FD.Absorption(d.groups, start, sn - start, frame, d.k);
      var d1 := d.(groups := table);
      AbsorbParityWithin(d, start, sn - start, frame, n);
      if absorbed.Partial? { RecoverPlain(d1, start, n); }
    }
  }

  /** The sender's parity record of a complete group, when nothing is bypassed or retired. */
  lemma ParityCases(d: Dec, ic: Option<Cipher>, sent: nat -> Frame, start: nat, progress: Option<nat>)
    requires d.Sized() && Structured(d) && Plain(d) && SoundCipher(ic)
    requires GenuineParity(ParityOf(ic, sent, start, d.k), ic, d.k, start, sent)
    ensures var payload := ParityOf(ic, sent, start, d.k);
            var r := OnControl(d, ic, payload, progress);
            if IsDone(d.done, start, d.k) then r == (d, Ok(None))
            else
              var (table, stored) := FD.Holding(d.groups, start, HeldOf(sent, start, d.k));
              if !stored then r == (d.(groups := table), Ok(None))
              else
                && FD.Recoverable(d.(groups := table), start)
                && var (d', out) := TryRecover(d.(groups := table), start); r == (d', Ok(out))
  {
    hide ParityOf, OnParity, FD.Holding, TryRecover, IsDone, Structured, ParseHeader, ParseBody;
    var payload := ParityOf(ic, sent, start, d.k);
    ParityParses(ic, sent, start, d.k);
    FD.OnParityCases(d, ic, payload, progress);
    RetirePlain(d, progress);
    if !IsDone(d.done, start, d.k) {
      var (table, stored) := FD.Holding(d.groups, start, HeldOf(sent, start, d.k));
      if stored {
        RecoverKeepsCleanup(d.(groups := table), start);
        RetirePlain(TryRecover(d.(groups := table), start).0, progress);
      }
    }
  }

  lemma RecoverKeepsCleanup(d: Dec, start: nat)
    requires FD.Recoverable(d, start)
    ensures TryRecover(d, start).0.cleanup == d.cleanup
  {
  }

  lemma RetirePlain(d: Dec, progress: Option<nat>)
    requires d.cleanup == 0
    ensures Retire(d, progress) == d
  {
  }

  lemma HoldMatches(groups: map<nat, Group>, start: nat, k: nat, held: Held, data: set<nat>, parity: set<nat>)
    requires start in groups && Matches(groups, start, k, data, parity)
    ensures groups[start].parity.Some? ==> Matches(groups, start, k, data, parity + {start})
    ensures Matches(groups[start := groups[start].(parity := Some(held))], start, k, data, parity + {start})
  {
  }

  /** The accounts after a parity record was stored with its group. */
  lemma HoldAccounts(d: Dec, start: nat, held: Held, i: set<nat>, data: set<nat>, parity: set<nat>)
    requires Inv(d) && Ledger(d, i, data, parity) && IsStart(start, d.k) && |held.lens| == d.k
    requires Spare(d.groups, start)
    ensures var (table, stored) := FD.Holding(d.groups, start, held);
            var d1 := d.(groups := table);
            && OnlyTouches(d, d1, start)
            && start in table && GroupOk(table[start], d.k)
            && Accounted(d1, start, i, data, parity + {start})
  {
    hide IsStart, IsDone, Inv, StoredOk, Entry, Matches, AllIn, GroupOk, OnlyTouches;
    var groups := Entry(d.groups, start);
    var g := groups[start];
    EntryStored(d, start);
    StoredParts(start, g, d.k);
    ParityKeepsGroupOk(g, d.k, held);
    EntryTouches(d, start, g.(parity := Some(held)));
    assert Accounted(d, start, i, data, parity);
    if !AllIn(i, start, d.k) {
      EntryMatches(d, start, data, parity);
      HoldMatches(groups, start, d.k, held, data, parity);
    }
  }

  lemma HoldWithin(d: Dec, start: nat, held: Held, n: nat)
    requires d.Sized() && ParityWithin(d, n) && start + d.k <= n + 1
    ensures ParityWithin(d.(groups := FD.Holding(d.groups, start, held).0), n)
  {
    hide Entry;
  }

  lemma OneStart(parity: set<nat>, start: nat, k: nat)
    requires k > 0
    ensures SameOutside(parity, parity + {start}, start, k)
  {
  }

  lemma SameOutsideItself(s: set<nat>, start: nat, k: nat)
    ensures SameOutside(s, s, start, k)
  {
  }

  /** The sender's parity record of a complete group, processed by the decoder. */
  lemma ParityLedger(d: Dec, ic: Option<Cipher>, sent: nat -> Frame, start: nat, progress: Option<nat>, n: nat,
                     i: set<nat>, data: set<nat>, parity: set<nat>)
    requires Inv(d) && d.Sized() && Structured(d) && Plain(d) && ParityWithin(d, n) && SoundCipher(ic)
    requires GenuineParity(ParityOf(ic, sent, start, d.k), ic, d.k, start, sent) && start + d.k <= n + 1
    requires Ledger(d, i, data, parity) && Roomy(d, start)
    ensures var (d', r) := OnControl(d, ic, ParityOf(ic, sent, start, d.k), progress);
            && r.Ok? && d'.k == d.k && Plain(d') && ParityWithin(d', n)
            && Ledger(d', i + OutSet(r.value), data, parity + {start})
            && (r.value.Some? ==> start <= r.value.value.sn < start + d.k)
  {
    hide ParityOf, OnControl, FD.Holding, TryRecover, IsDone, Structured, Inv, Ledger, OnlyTouches, SameOutside,
      Accounted, AllIn, ParityWithin, HeldOf, IsStart;
    ParityCases(d, ic, sent, start, progress);
    GenuineStart(ParityOf(ic, sent, start, d.k), ic, d.k, start, sent);
    LedgerInserted(d, i, data, parity);
    OneStart(parity, start, d.k);
    SameOutsideItself(data, start, d.k);
    assert i + {} == i;
    if IsDone(d.done, start, d.k) {
      DoneParity(d, start, i, data, parity);
      LedgerStep(d, d, start, i, i, data, data, parity, parity + {start});
    } else {
      var held := HeldOf(sent, start, d.k);
      HeldSize(sent, start, d.k);
      HoldAccounts(d, start, held, i, data, parity);
      HoldWithin(d, start, held, n);
      var (table, stored) := FD.Holding(d.groups, start, held);
      var d1 := d.(groups := table);
      if stored {
        RecoverPlain(d1, start, n);
        RecoverLedger(d, d1, start, i, i, data, data, parity, parity + {start});
      } else {
        LedgerStep(d, d1, start, i, i, data, data, parity, parity + {start});
      }
    }
  }

  lemma GenuineStart(payload: Frame, ic: Option<Cipher>, k: nat, start: nat, sent: nat -> Frame)
    requires k < 256 && GenuineParity(payload, ic, k, start, sent)
    ensures k > 0 && IsStart(start, k)
  {
  }

  lemma HeldSize(sent: nat -> Frame, start: nat, k: nat)
    ensures |HeldOf(sent, start, k).lens| == k
  {
  }

  lemma DoneParity(d: Dec, start: nat, i: set<nat>, data: set<nat>, parity: set<nat>)
    requires Ledger(d, i, data, parity) && IsDone(d.done, start, d.k)
    ensures AllIn(i, start, d.k) && Accounted(d, start, i, data, parity + {start}) && OnlyTouches(d, d, start)
  {
  }

  // ---------- one record through the actor ----------

  datatype Arrival = DataFrame(sn: nat, now: nat) | ParityRecord(start: nat, now: nat)

  /** A session: the group size, the FEC cipher, and what the sender numbered 1..n. */
  datatype Session = Session(k: nat, ic: Option<Cipher>, sent: nat -> Frame, n: nat)
  {
    ghost predicate Valid() {
      && 2 <= k <= 64 && SoundCipher(ic) && n < U32_MAX
      && forall s | 1 <= s <= n :: 0 < |sent(s)| <= U32_MAX
    }

    /** Data numbers are the sender's, and parity exists for complete groups only. */
    predicate Admissible(a: Arrival)
      requires k > 0
    {
      match a
      case DataFrame(sn, _) => 1 <= sn <= n
      case ParityRecord(start, _) => IsStart(start, k) && start + k <= n + 1
    }

    function Number(a: Arrival): nat {
      if a.DataFrame? then a.sn else 0
    }

    /** The start of the group a record belongs to. */
    function GroupOf(a: Arrival): nat {
      if a.DataFrame? then GroupStart(a.sn, k) else a.start
    }

    function Payload(a: Arrival): Frame
      requires k < 256
    {
      if a.DataFrame? then sent(a.sn) else ParityOf(ic, sent, a.start, k)
    }
  }

  /** What has been accepted so far, from the receiver's point of view. */
  datatype Log = Log(inserted: set<nat>, data: set<nat>, parity: set<nat>, out: seq<Item>)

  ghost predicate Receiving(rx: Rx, s: Session, log: Log) {
    && rx.Ready() && rx.fec.Some?
    && var d := rx.fec.value;
       && d.k == s.k && d.Sized() && Structured(d) && Plain(d) && ParityWithin(d, s.n) && Genuine(d, s.sent)
       && Ledger(d, log.inserted, log.data, log.parity)
       && Delivering(rx.buf, log.inserted, log.out, s.sent, s.n)
       && (forall j | 0 <= j < |rx.slots| && rx.slots[j] != 0 :: rx.slots[j] in log.inserted)
  }

  /** No eviction, no number 65536 ahead of the position, and the first record that brings a number brings 1. */
  ghost predicate Smooth(rx: Rx, s: Session, a: Arrival)
    requires s.k < 256
  {
    && rx.Ready() && rx.fec.Some? && rx.fec.value.Sized() && Roomy(rx.fec.value, s.GroupOf(a))
    && InReach(Brought(rx.fec, rx.buf.expected, s.ic, s.Number(a), s.Payload(a)), rx.buf.expected)
  }

  /** Frames of the session, not too far ahead, go into the buffer and into the log. */
  ghost predicate Insertable(items: seq<Item>, s: Session) {
    forall j | 0 <= j < |items| :: 1 <= items[j].sn <= s.n && items[j].data == s.sent(items[j].sn)
  }

  function Numbers(items: seq<Item>): set<nat> {
    set j | 0 <= j < |items| :: items[j].sn
  }

  /** Frame 1 comes first, and no frame is 65536 or more ahead. */
  predicate Starts(items: seq<Item>, expected: nat) {
    && (expected == 0 && |items| > 0 ==> items[0].sn == 1)
    && forall j | 0 <= j < |items| :: items[j].sn < Max(expected, 1) + MAX_WINDOW
  }

  /** Frames brought in ascending order start with 1 if 1 is among them. */
  lemma ReachStarts(items: seq<Item>, s: Session, expected: nat)
    requires Insertable(items, s) && InReach(Numbers(items), expected) && |items| <= 2 && (|items| == 2 ==> items[0].sn < items[1].sn)
    ensures Starts(items, expected)
  {
    forall j | 0 <= j < |items| ensures items[j].sn in Numbers(items) {}
    if expected == 0 && |items| > 0 {
      var j :| 0 <= j < |items| && items[j].sn == 1;
    }
  }

  lemma {:induction false} InsertAllDelivers(b: Buf, inserted: set<nat>, out: seq<Item>, s: Session, items: seq<Item>, now: nat)
    requires Delivering(b, inserted, out, s.sent, s.n) && Insertable(items, s) && s.n < U32_MAX
    requires Starts(items, b.expected)
    ensures var (b', released) := InsertAll(b, items, now);
            Delivering(b', inserted + Numbers(items), out + released, s.sent, s.n)
    decreases |items|
  {
    hide Insert, Delivering;
    if |items| == 0 {
      assert inserted + Numbers(items) == inserted && out + [] == out;
    } else {
      var (b1, out1) := Insert(b, items[0].sn, items[0].data, now);
      InsertDelivers(b, inserted, out, s.sent, s.n, items[0].sn, now);
      InsertAllDelivers(b1, inserted + {items[0].sn}, out + out1, s, items[1..], now);
      var (b2, out2) := InsertAll(b1, items[1..], now);
      assert out + (out1 + out2) == (out + out1) + out2;
      assert inserted + {items[0].sn} + Numbers(items[1..]) == inserted + Numbers(items) by {
        assert items == [items[0]] + items[1..];
      }
    }
  }

  function NextLog(log: Log, a: Arrival, rec: Option<Recovered>, released: seq<Item>): Log {
    if a.DataFrame? then
      Log(log.inserted + {a.sn} + OutSet(rec), log.data + {a.sn}, log.parity, log.out + released)
    else Log(log.inserted + OutSet(rec), log.data, log.parity + {a.start}, log.out + released)
  }

  /** The decoder's part of a data frame. */
  lemma DataDecodes(d: Dec, s: Session, log: Log, sn: nat, expected: nat)
    requires s.Valid() && 1 <= sn <= s.n && Inv(d) && d.Sized() && Structured(d) && d.k == s.k
    requires Plain(d) && ParityWithin(d, s.n) && Genuine(d, s.sent) && Roomy(d, GroupStart(sn, d.k))
    requires Ledger(d, log.inserted, log.data, log.parity)
    ensures var (d', rec) := OnData(d, sn, s.sent(sn), Some(expected));
            && Inv(d') && d'.Sized() && Structured(d') && d'.k == s.k && Plain(d') && ParityWithin(d', s.n)
            && Genuine(d', s.sent)
            && Ledger(d', log.inserted + {sn} + OutSet(rec), log.data + {sn}, log.parity)
            && Insertable(RecoveredItems(rec), s)
  {
    hide Admit, Inv, Structured, ParityWithin, Genuine, Ledger, GroupStart, IsStart;
    AdmitLedger(d, sn, s.sent(sn), log.inserted, log.data, log.parity);
    AdmitKeepsInv(d, sn, s.sent(sn));
    AdmitPlain(d, sn, s.sent(sn), s.n);
    AdmitSound(d, sn, s.sent);
    var d' := Admit(d, sn, s.sent(sn)).0;
    InvSized(d');
    InvStructured(d');
    StartPositive(GroupStart(sn, d.k), d.k);
  }

  lemma PairNumbers(sn: nat, data: Frame, rec: Option<Recovered>)
    ensures Numbers(PairItems(sn, data, rec)) == {sn} + OutSet(rec)
    ensures Numbers(RecoveredItems(rec)) == OutSet(rec)
  {
    var p := PairItems(sn, data, rec);
    if |p| == 2 {
      assert p[0].sn in Numbers(p) && p[1].sn in Numbers(p);
    } else {
      assert p[0].sn in Numbers(p);
    }
    var r := RecoveredItems(rec);
    if rec.Some? { assert r[0].sn in Numbers(r); }
  }

  lemma PairInsertable(s: Session, sn: nat, rec: Option<Recovered>)
    requires 1 <= sn <= s.n && Insertable(RecoveredItems(rec), s)
    ensures Insertable(PairItems(sn, s.sent(sn), rec), s)
  {
    if rec.Some? { assert RecoveredItems(rec)[0] == Item(rec.value.sn, rec.value.data); }
  }

  lemma InvSized(d: Dec)
    requires Inv(d)
    ensures d.Sized()
  {
  }

  /** The sender's parity record, as a genuine record of the session. */
  lemma SessionParity(s: Session, start: nat)
    requires s.Valid() && IsStart(start, s.k) && start + s.k <= s.n + 1
    ensures GenuineParity(ParityOf(s.ic, s.sent, start, s.k), s.ic, s.k, start, s.sent)
  {
    hide ParityOf, IsStart;
    StartPositive(start, s.k);
    forall j | 0 <= j < s.k ensures 0 < |MemberOf(s.sent, start, j)| <= U32_MAX {
      assert MemberOf(s.sent, start, j) == s.sent(start + j);
    }
  }

  lemma ParityDecodes(d: Dec, s: Session, log: Log, start: nat, expected: nat)
    requires s.Valid() && IsStart(start, s.k) && start + s.k <= s.n + 1
    requires Inv(d) && d.Sized() && Structured(d) && d.k == s.k
    requires Plain(d) && ParityWithin(d, s.n) && Genuine(d, s.sent) && Roomy(d, start)
    requires Ledger(d, log.inserted, log.data, log.parity)
    ensures var (d', r) := OnControl(d, s.ic, ParityOf(s.ic, s.sent, start, s.k), Some(expected));
            && r.Ok? && Inv(d') && d'.Sized() && Structured(d') && d'.k == s.k && Plain(d') && ParityWithin(d', s.n)
            && Genuine(d', s.sent)
            && Ledger(d', log.inserted + OutSet(r.value), log.data, log.parity + {start})
            && Insertable(RecoveredItems(r.value), s)
  {
    hide OnParity, Inv, Structured, ParityWithin, Genuine, Ledger, ParityOf, GenuineParity;
    var payload := ParityOf(s.ic, s.sent, start, s.k);
    var e := Typed(payload, Some(expected));
    SessionParity(s, start);
    StartPositive(start, s.k);
    ParityLedger(d, s.ic, s.sent, start, Some(expected), s.n, log.inserted, log.data, log.parity);
    StepKeepsInv(d, s.ic, e);
    OnParitySound(d, s.ic, payload, Some(expected), start, s.sent);
    var d' := OnControl(d, s.ic, payload, Some(expected)).0;
    InvSized(d');
    InvStructured(d');
  }

  lemma RecoveredShape(rec: Option<Recovered>)
    ensures RecoveredItems(rec) == if rec.Some? then [Item(rec.value.sn, rec.value.data)] else []
  {
  }

  /** A decoded frame of the session needs no narrowing. */
  lemma NarrowSame(rec: Option<Recovered>, s: Session)
    requires s.Valid() && Insertable(RecoveredItems(rec), s)
    ensures Narrow(rec) == rec && (rec.Some? ==> 1 <= rec.value.sn <= s.n)
  {
    if rec.Some? { assert RecoveredItems(rec)[0].sn <= s.n; }
  }

  lemma NothingInserted(b: Buf, inserted: set<nat>, out: seq<Item>, sent: nat -> Frame, n: nat)
    requires Delivering(b, inserted, out, sent, n) && b.expected == 0
    ensures inserted == {}
  {
  }

  /** The decoder's part of a data record, as the frames handed to the reorder buffer. */
  lemma DecodedData(rx: Rx, s: Session, log: Log, sn: nat, now: nat)
    requires Receiving(rx, s, log) && s.Valid() && 1 <= sn <= s.n && Smooth(rx, s, DataFrame(sn, now))
    ensures var items := Decode(rx, s.ic, sn, s.sent(sn)).items;
            && Insertable(items, s) && Starts(items, rx.buf.expected)
            && log.inserted + Numbers(items) ==
               log.inserted + {sn} + OutSet(OnData(rx.fec.value, sn, s.sent(sn), Some(rx.buf.expected)).1)
  {
    hide OnData, Inv, Structured, ParityWithin, Genuine, Ledger, Delivering, Plain, Orderly, Roomy, Narrow, GroupStart,
      RecoveredItems, PairItems, Starts, InReach;
    DataDecodes(rx.fec.value, s, log, sn, rx.buf.expected);
    var rec := OnData(rx.fec.value, sn, s.sent(sn), Some(rx.buf.expected)).1;
    NarrowSame(rec, s);
    PairInsertable(s, sn, rec);
    PairNumbers(sn, s.sent(sn), rec);
    PairAscends(sn, s.sent(sn), rec);
    RecoveredShape(rec);
    if rx.slots[sn % DEDUP_WINDOW] == sn {
      assert sn in log.inserted;
      ReachFewer({sn} + OutSet(rec), OutSet(rec), rx.buf.expected);
    }
    if rx.buf.expected == 0 { NothingInserted(rx.buf, log.inserted, log.out, s.sent, s.n); }
    ReachStarts(Decode(rx, s.ic, sn, s.sent(sn)).items, s, rx.buf.expected);
  }

  lemma ReachFewer(numbers: set<nat>, fewer: set<nat>, expected: nat)
    requires InReach(numbers, expected) && fewer <= numbers
    ensures expected > 0 ==> InReach(fewer, expected)
  {
  }

  lemma DecodedParity(rx: Rx, s: Session, log: Log, start: nat, now: nat)
    requires Receiving(rx, s, log) && s.Valid() && Smooth(rx, s, ParityRecord(start, now))
    requires IsStart(start, s.k) && start + s.k <= s.n + 1
    ensures var payload := ParityOf(s.ic, s.sent, start, s.k);
            var items := Decode(rx, s.ic, 0, payload).items;
            var r := OnControl(rx.fec.value, s.ic, payload, Some(rx.buf.expected)).1;
            Insertable(items, s) && Starts(items, rx.buf.expected) && r.Ok? && Numbers(items) == OutSet(r.value)
  {
    hide OnControl, Inv, Structured, ParityWithin, Genuine, Ledger, Delivering, Plain, Orderly, ParityOf, IsStart, Roomy,
      Narrow, RecoveredItems, Starts, InReach;
    ParityDecodes(rx.fec.value, s, log, start, rx.buf.expected);
    var rec := OnControl(rx.fec.value, s.ic, ParityOf(s.ic, s.sent, start, s.k), Some(rx.buf.expected)).1.value;
    NarrowSame(rec, s);
    PairNumbers(0, [], rec);
    RecoveredShape(rec);
    ReachStarts(RecoveredItems(rec), s, rx.buf.expected);
  }

  lemma DataStep(rx: Rx, s: Session, log: Log, sn: nat, now: nat)
    requires Receiving(rx, s, log) && s.Valid() && 1 <= sn <= s.n && Smooth(rx, s, DataFrame(sn, now))
    ensures var (rx', released, error) := Process(rx, s.ic, sn, s.sent(sn), now);
            exists rec :: error.None? && Receiving(rx', s, NextLog(log, DataFrame(sn, now), rec, released))
  {
    hide OnData, Inv, Structured, ParityWithin, Genuine, Ledger, Delivering, InsertAll, Plain, Orderly, Roomy, Narrow,
      GroupStart, RecoveredItems, PairItems, Starts, InReach;
    DataDecodes(rx.fec.value, s, log, sn, rx.buf.expected);
    DecodedData(rx, s, log, sn, now);
    var rec := OnData(rx.fec.value, sn, s.sent(sn), Some(rx.buf.expected)).1;
    var x := Decode(rx, s.ic, sn, s.sent(sn));
    InsertAllDelivers(rx.buf, log.inserted, log.out, s, x.items, now);
    var (rx', released, error) := Process(rx, s.ic, sn, s.sent(sn), now);
    DeliveringOrderly(rx'.buf, log.inserted + Numbers(x.items), log.out + released, s.sent, s.n);
    assert Receiving(rx', s, NextLog(log, DataFrame(sn, now), rec, released));
  }

  lemma DeliveringOrderly(b: Buf, inserted: set<nat>, out: seq<Item>, sent: nat -> Frame, n: nat)
    requires Delivering(b, inserted, out, sent, n)
    ensures Orderly(b)
  {
  }

  lemma ParityStep(rx: Rx, s: Session, log: Log, start: nat, now: nat)
    requires Receiving(rx, s, log) && s.Valid() && Smooth(rx, s, ParityRecord(start, now))
    requires IsStart(start, s.k) && start + s.k <= s.n + 1
    ensures var (rx', released, error) := Process(rx, s.ic, 0, ParityOf(s.ic, s.sent, start, s.k), now);
            exists rec :: error.None? && Receiving(rx', s, NextLog(log, ParityRecord(start, now), rec, released))
  {
    hide OnControl, Inv, Structured, ParityWithin, Genuine, Ledger, Delivering, InsertAll, Plain, Orderly, ParityOf,
      IsStart, Roomy, Narrow, RecoveredItems, PairItems, Starts, InReach;
    var payload := ParityOf(s.ic, s.sent, start, s.k);
    ParityDecodes(rx.fec.value, s, log, start, rx.buf.expected);
    DecodedParity(rx, s, log, start, now);
    var r := OnControl(rx.fec.value, s.ic, payload, Some(rx.buf.expected)).1;
    var x := Decode(rx, s.ic, 0, payload);
    InsertAllDelivers(rx.buf, log.inserted, log.out, s, x.items, now);
    var (rx', released, error) := Process(rx, s.ic, 0, payload, now);
    DeliveringOrderly(rx'.buf, log.inserted + Numbers(x.items), log.out + released, s.sent, s.n);
    assert Receiving(rx', s, NextLog(log, ParityRecord(start, now), r.value, released));
  }

  // ---------- whole runs ----------

  /** The receiver after all arrivals, and everything it made ready. */
  ghost function Receive(rx: Rx, s: Session, arrivals: seq<Arrival>): (Rx, seq<Item>)
    requires s.k < 256
    decreases |arrivals|
  {
    if |arrivals| == 0 then (rx, [])
    else
      var a := arrivals[|arrivals| - 1];
      var (rx1, out1) := Receive(rx, s, arrivals[..|arrivals| - 1]);
      if !rx1.Ready() then (rx1, out1)
      else
        var (rx2, out2, _) := Process(rx1, s.ic, s.Number(a), s.Payload(a), a.now);
        (rx2, out1 + out2)
  }

  function FreshRx(k: nat): Rx {
    Rx(Some(NewDec(k)), EMPTY, seq(DEDUP_WINDOW, _ => 0))
  }

  const NO_LOG := Log({}, {}, {}, [])

  lemma FreshReceives(s: Session)
    requires s.Valid()
    ensures Receiving(FreshRx(s.k), s, NO_LOG)
  {
    NewDecInv(s.k);
  }

  function DataOf(arrivals: seq<Arrival>): set<nat> {
    set j | 0 <= j < |arrivals| && arrivals[j].DataFrame? :: arrivals[j].sn
  }

  function ParityOfArrivals(arrivals: seq<Arrival>): set<nat> {
    set j | 0 <= j < |arrivals| && arrivals[j].ParityRecord? :: arrivals[j].start
  }

  /** One record of either kind. */
  lemma ArrivalStep(rx: Rx, s: Session, log: Log, a: Arrival) returns (log': Log)
    requires Receiving(rx, s, log) && s.Valid() && s.Admissible(a) && Smooth(rx, s, a) && rx.Ready()
    ensures var (rx', released, _) := Process(rx, s.ic, s.Number(a), s.Payload(a), a.now);
            Receiving(rx', s, log') && log'.out == log.out + released
    ensures log'.data == log.data + (if a.DataFrame? then {a.sn} else {})
    ensures log'.parity == log.parity + (if a.ParityRecord? then {a.start} else {})
  {
    hide Receiving, Smooth, Process, ParityOf, IsStart;
    match a
    case DataFrame(sn, now) =>
      DataStep(rx, s, log, sn, now);
      var (rx2, out2, error) := Process(rx, s.ic, sn, s.sent(sn), now);
      var rec :| error.None? && Receiving(rx2, s, NextLog(log, a, rec, out2));
      log' := NextLog(log, a, rec, out2);
    case ParityRecord(start, now) =>
      ParityStep(rx, s, log, start, now);
      var (rx2, out2, error) := Process(rx, s.ic, 0, ParityOf(s.ic, s.sent, start, s.k), now);
      var rec :| error.None? && Receiving(rx2, s, NextLog(log, a, rec, out2));
      log' := NextLog(log, a, rec, out2);
  }

  /** Every step of the run is smooth. */
  ghost predicate SmoothRun(s: Session, arrivals: seq<Arrival>)
    requires 0 < s.k < 256
  {
    forall j | 0 <= j < |arrivals| ::
      s.Admissible(arrivals[j]) && Smooth(Receive(FreshRx(s.k), s, arrivals[..j]).0, s, arrivals[j])
  }

  lemma SmoothFront(s: Session, front: seq<Arrival>, a: Arrival)
    requires 0 < s.k < 256 && SmoothRun(s, front + [a])
    ensures SmoothRun(s, front)
    ensures s.Admissible(a) && Smooth(Receive(FreshRx(s.k), s, front).0, s, a)
  {
    hide Smooth, Receive;
    var all := front + [a];
    forall j | 0 <= j < |front|
      ensures s.Admissible(front[j]) && Smooth(Receive(FreshRx(s.k), s, front[..j]).0, s, front[j])
    {
      assert front[..j] == all[..j] && all[j] == front[j];
    }
    assert all[..|front|] == front && all[|front|] == a;
  }

  lemma {:induction false} ReceivingAlways(s: Session, arrivals: seq<Arrival>) returns (log: Log)
    requires s.Valid() && SmoothRun(s, arrivals)
    ensures Receiving(Receive(FreshRx(s.k), s, arrivals).0, s, log)
    ensures log.out == Receive(FreshRx(s.k), s, arrivals).1
    ensures log.data == DataOf(arrivals) && log.parity == ParityOfArrivals(arrivals)
    decreases |arrivals|
  {
    hide Receiving, Smooth, SmoothRun, Process, FreshRx;
    if |arrivals| == 0 {
      FreshReceives(s);
      log := NO_LOG;
    } else {
      var front, a := arrivals[..|arrivals| - 1], arrivals[|arrivals| - 1];
      assert arrivals == front + [a];
      SmoothFront(s, front, a);
      log := ReceivingAlways(s, front);
      ReceivingReady(Receive(FreshRx(s.k), s, front).0, s, log);
      ArrivalSets(front, a);
      log := ArrivalStep(Receive(FreshRx(s.k), s, front).0, s, log, a);
    }
  }

  /** Every frame arrives, or is the only loss of a group whose parity arrives. */
  predicate LossesCovered(s: Session, arrivals: seq<Arrival>)
    requires 2 <= s.k <= 64
  {
    forall x | 1 <= x <= s.n :: x in DataOf(arrivals) || OnlyLoss(s, arrivals, x)
  }

  predicate OnlyLoss(s: Session, arrivals: seq<Arrival>, x: nat)
    requires 2 <= s.k <= 64 && x > 0
  {
    var start := GroupStart(x, s.k);
    && start in ParityOfArrivals(arrivals)
    && forall y | start <= y < start + s.k && y != x :: y in DataOf(arrivals)
  }

  /** A covered frame has been inserted: a stored group that lacks only it would have been finished. */
  lemma CoveredInserted(rx: Rx, s: Session, log: Log, arrivals: seq<Arrival>, x: nat)
    requires s.Valid() && Receiving(rx, s, log) && 1 <= x <= s.n
    requires log.data == DataOf(arrivals) && log.parity == ParityOfArrivals(arrivals)
    requires x in log.data || OnlyLoss(s, arrivals, x)
    ensures x in log.inserted
  {
    hide GroupStart, IsStart, Delivering, Genuine, ParityWithin;
    var d := rx.fec.value;
    if x !in log.data {
      var start := GroupStart(x, s.k);
      assert Accounted(d, start, log.inserted, log.data, log.parity);
      if AllIn(log.inserted, start, d.k) {
        assert Has(log.inserted, start, x - start);
      } else {
        assert start in d.groups;
        assert StoredOk(start, d.groups[start], d.k);
        forall j | j in Missing(d.groups[start], d.k) ensures j == x - start {
          assert !Has(log.data, start, j);
        }
        SubsetSize(Missing(d.groups[start], d.k), {x - start});
        assert false;
      }
    }
  }

  /** The first `m` group starts. */
  ghost function FirstStarts(m: nat, k: nat): set<nat> {
    if m == 0 then {} else FirstStarts(m - 1, k) + {1 + (m - 1) * k}
  }

  lemma {:induction false} FirstStartsSize(m: nat, k: nat)
    ensures |FirstStarts(m, k)| <= m
    ensures forall q: nat | q < m :: 1 + q * k in FirstStarts(m, k)
  {
    if m == 0 {
    } else {
      FirstStartsSize(m - 1, k);
      var last := 1 + (m - 1) * k;
      assert |FirstStarts(m - 1, k) + {last}| <= |FirstStarts(m - 1, k)| + 1;
      forall q: nat | q < m ensures 1 + q * k in FirstStarts(m, k) {
        if q == m - 1 { assert 1 + q * k == last; }
      }
    }
  }

  /** Stored groups start at group starts of the session, so there are no more of them than groups. */
  lemma StartsSize(d: Dec, n: nat, m: nat)
    requires Inv(d) && d.Sized() && ParityWithin(d, n) && n <= m * d.k
    ensures |d.groups| <= m
  {
    hide ParityWithin, Inv, FirstStarts;
    FirstStartsSize(m, d.k);
    forall s | s in d.groups.Keys ensures s in FirstStarts(m, d.k) {
      WithinStart(d, n, s);
      StartRank(s, m, d.k);
    }
    SubsetSize(d.groups.Keys, FirstStarts(m, d.k));
  }

  lemma StartRank(s: nat, m: nat, k: nat)
    requires k > 0 && IsStart(s, k) && s <= m * k
    ensures s in FirstStarts(m, k)
  {
    FirstStartsSize(m, k);
    var q := (s - 1) / k;
    assert s - 1 == q * k;
    RankBelow(q, m, k);
    assert 1 + q * k in FirstStarts(m, k);
  }

  lemma RankBelow(q: nat, m: nat, k: nat)
    requires k > 0 && q * k < m * k
    ensures q < m
  {
  }

  lemma WithinStart(d: Dec, n: nat, s: nat)
    requires Inv(d) && ParityWithin(d, n) && s in d.groups
    ensures d.k > 0 && IsStart(s, d.k) && s <= n
  {
    assert StoredOk(s, d.groups[s], d.k);
  }

  /** Before any frame is in, the decoder holds parity alone. */
  lemma NothingStored(d: Dec, parity: set<nat>)
    requires Ledger(d, {}, {}, parity) && Structured(d)
    ensures NoMembers(d)
  {
    hide IsStart;
    forall s | s in d.groups ensures d.groups[s].members == map[] {
      assert Accounted(d, s, {}, {}, parity);
      assert !Has({}, s, 0);
      forall j ensures j !in d.groups[s].members { assert !Has({}, s, j); }
    }
  }

  /** The second frame of a pair whose parity is held rebuilds the first. */
  lemma PairRebuilt(d: Dec, inserted: set<nat>, parity: set<nat>)
    requires Inv(d) && d.k == 2 && Ledger(d, inserted, {2}, parity) && 1 in parity
    ensures 1 in inserted
  {
    assert IsStart(1, 2);
    assert Accounted(d, 1, inserted, {2}, parity);
    if AllIn(inserted, 1, 2) {
      assert Has(inserted, 1, 0);
    } else {
      assert StoredOk(1, d.groups[1], 2);
      forall j | j in Missing(d.groups[1], 2) ensures j == 0 { assert !Has({2}, 1, j); }
      SubsetSize(Missing(d.groups[1], 2), {0});
      assert false;
    }
  }

  /** The first data frame is frame 1, or frame 2 of a pair whose parity came earlier. */
  predicate Leads(s: Session, parity: set<nat>, sn: nat) {
    sn == 1 || (s.k == 2 && sn == 2 && 1 in parity)
  }

  lemma SmallData(rx: Rx, s: Session, log: Log, sn: nat, now: nat)
    requires Receiving(rx, s, log) && s.Valid() && 1 <= sn <= s.n < MAX_WINDOW && Roomy(rx.fec.value, GroupStart(sn, s.k))
    requires log.data == {} ==> Leads(s, log.parity, sn)
    ensures Smooth(rx, s, DataFrame(sn, now))
  {
    hide OnData, Inv, Structured, Genuine, Ledger, Delivering, Plain, Orderly, IsStart, ParityWithin, GroupStart, Roomy,
      RecoveredItems, Leads;
    DataDecodes(rx.fec.value, s, log, sn, rx.buf.expected);
    var (d', rec) := OnData(rx.fec.value, sn, s.sent(sn), Some(rx.buf.expected));
    NarrowSame(rec, s);
    if rx.buf.expected == 0 {
      NothingInserted(rx.buf, log.inserted, log.out, s.sent, s.n);
      LedgerData(rx.fec.value, log.inserted, log.data, log.parity);
      LeadsBrings(d', s, rec, log.parity, sn);
    }
  }

  lemma LedgerData(d: Dec, inserted: set<nat>, data: set<nat>, parity: set<nat>)
    requires Ledger(d, inserted, data, parity)
    ensures data <= inserted
  {
  }

  lemma LeadsBrings(d: Dec, s: Session, rec: Option<Recovered>, parity: set<nat>, sn: nat)
    requires Inv(d) && d.k == s.k && Ledger(d, {} + {sn} + OutSet(rec), {} + {sn}, parity) && Leads(s, parity, sn)
    ensures 1 in {sn} + OutSet(rec)
  {
    hide Inv, Ledger;
    if sn != 1 {
      assert {} + {sn} == {2};
      PairRebuilt(d, {} + {sn} + OutSet(rec), parity);
    }
  }

  lemma SmallParity(rx: Rx, s: Session, log: Log, start: nat, now: nat)
    requires Receiving(rx, s, log) && s.Valid() && s.n < MAX_WINDOW && Roomy(rx.fec.value, start)
    requires IsStart(start, s.k) && start + s.k <= s.n + 1
    ensures Smooth(rx, s, ParityRecord(start, now))
  {
    hide OnControl, Inv, Structured, Genuine, Ledger, Delivering, Plain, Orderly, IsStart, ParityWithin, ParityOf, Roomy,
      RecoveredItems, NoMembers;
    var d := rx.fec.value;
    var payload := ParityOf(s.ic, s.sent, start, s.k);
    ParityDecodes(d, s, log, start, rx.buf.expected);
    NarrowSame(OnControl(d, s.ic, payload, Some(rx.buf.expected)).1.value, s);
    if rx.buf.expected == 0 {
      NothingInserted(rx.buf, log.inserted, log.out, s.sent, s.n);
      LedgerData(d, log.inserted, log.data, log.parity);
      assert log.data == {};
      NothingStored(d, log.parity);
      BlankControl(d, s.ic, payload, Some(rx.buf.expected));
    }
  }

  /** In a session of at most 511 groups and fewer than 65536 frames nothing can be evicted or too far. */
  lemma SmallSmooth(rx: Rx, s: Session, log: Log, a: Arrival)
    requires Receiving(rx, s, log) && s.Valid() && s.Admissible(a) && s.n <= 511 * s.k && s.n < MAX_WINDOW
    requires log.data == {} && a.DataFrame? ==> Leads(s, log.parity, a.sn)
    ensures Smooth(rx, s, a)
  {
    hide Inv, Structured, Genuine, Ledger, Delivering, Plain, Orderly, IsStart, ParityWithin, GroupStart, IsDone, Smooth, Leads;
    StartsSize(rx.fec.value, s.n, 511);
    match a
    case DataFrame(sn, now) => SmallData(rx, s, log, sn, now);
    case ParityRecord(start, now) => SmallParity(rx, s, log, start, now);
  }

  /** Whatever parity comes before it, the first data frame to arrive is frame 1, or frame 2 of a pair whose parity has
      arrived. */
  predicate LedWell(s: Session, arrivals: seq<Arrival>) {
    forall j | 0 <= j < |arrivals| && arrivals[j].DataFrame? && DataOf(arrivals[..j]) == {} ::
      Leads(s, ParityOfArrivals(arrivals[..j]), arrivals[j].sn)
  }

  lemma {:induction false} SmallRunSmooth(s: Session, arrivals: seq<Arrival>)
    requires s.Valid() && s.n <= 511 * s.k && s.n < MAX_WINDOW
    requires forall j | 0 <= j < |arrivals| :: s.Admissible(arrivals[j])
    requires LedWell(s, arrivals)
    ensures SmoothRun(s, arrivals)
    decreases |arrivals|
  {
    hide Smooth, Process, Receiving, Leads;
    if |arrivals| == 0 {
    } else {
      var front, a := arrivals[..|arrivals| - 1], arrivals[|arrivals| - 1];
      assert forall j | 0 <= j < |front| :: front[..j] == arrivals[..j];
      SmallRunSmooth(s, front);
      var log := ReceivingAlways(s, front);
      var rx := Receive(FreshRx(s.k), s, front).0;
      SmallSmooth(rx, s, log, a);
      forall j | 0 <= j < |arrivals| ensures Smooth(Receive(FreshRx(s.k), s, arrivals[..j]).0, s, arrivals[j]) {
        if j < |front| { assert arrivals[..j] == front[..j]; } else { assert arrivals[..j] == front; }
      }
    }
  }

  lemma {:induction false} ReadyPrefix(s: Session, n: nat)
    requires s.Valid() && n <= s.n
    ensures ReorderSpec.Ready(Prefix(s.sent, n)) == seq(n, i requires 0 <= i < n => s.sent(i + 1))
  {
    if n == 0 {
    } else {
      ReadyPrefix(s, n - 1);
      var last := [Item(n, s.sent(n))];
      ReadyConcat(Prefix(s.sent, n - 1), last);
      assert last[1..] == [];
      assert ReorderSpec.Ready(last) == [s.sent(n)];
    }
  }

  /** With the reorder buffer read as a map: for every arrival order with duplicates, the frames made ready are exactly
      the sent frames, in order. */
  lemma DeliveredByMap(s: Session, arrivals: seq<Arrival>)
    requires s.Valid() && SmoothRun(s, arrivals) && LossesCovered(s, arrivals)
    ensures Receive(FreshRx(s.k), s, arrivals).1 == Prefix(s.sent, s.n)
    ensures ReorderSpec.Ready(Receive(FreshRx(s.k), s, arrivals).1)
         == seq(s.n, i requires 0 <= i < s.n => s.sent(i + 1))
    ensures Receive(FreshRx(s.k), s, arrivals).0.buf.expected == (if s.n == 0 then 0 else s.n + 1)
    ensures Receive(FreshRx(s.k), s, arrivals).0.buf.pending == map[]
  {
    hide Receive, FreshRx, Genuine, ParityWithin, Ledger, Structured, Inv, Smooth, OnlyLoss, Plain, ReorderSpec.Ready;
    var log := ReceivingAlways(s, arrivals);
    var rx := Receive(FreshRx(s.k), s, arrivals).0;
    forall x | 1 <= x <= s.n ensures x in log.inserted { CoveredInserted(rx, s, log, arrivals, x); }
    ReadyPrefix(s, s.n);
    var b := rx.buf;
    assert s.n > 0 ==> s.n in log.inserted;
    assert s.n > 0 ==> b.expected > s.n by {
      assert 1 <= b.expected <= s.n ==> b.expected in log.inserted;
    }
    assert b.expected > 1 ==> b.expected - 1 in log.inserted;
    assert forall p | p in b.pending :: b.expected < p && p in log.inserted;
    assert b.pending.Keys == {};
  }

  lemma ReceivingReady(rx: Rx, s: Session, log: Log)
    requires Receiving(rx, s, log)
    ensures rx.Ready()
  {
  }

  lemma ArrivalSets(front: seq<Arrival>, a: Arrival)
    ensures DataOf(front + [a]) == DataOf(front) + (if a.DataFrame? then {a.sn} else {})
    ensures ParityOfArrivals(front + [a]) == ParityOfArrivals(front) + (if a.ParityRecord? then {a.start} else {})
  {
    var all := front + [a];
    assert all[|front|] == a;
    forall x ensures x in DataOf(all) <==> x in DataOf(front) || (a.DataFrame? && x == a.sn) {
      if x in DataOf(front) {
        var j :| 0 <= j < |front| && front[j].DataFrame? && front[j].sn == x;
        assert all[j] == front[j];
      }
    }
    forall x ensures x in ParityOfArrivals(all) <==> x in ParityOfArrivals(front) || (a.ParityRecord? && x == a.start) {
      if x in ParityOfArrivals(front) {
        var j :| 0 <= j < |front| && front[j].ParityRecord? && front[j].start == x;
        assert all[j] == front[j];
      }
    }
  }

  // ---------- with the ring ----------

  /** Frames of a session that ends a window before the end of the sequence space are never wrapped arrivals. */
  lemma {:induction false} SessionQuiet(b: Buf, inserted: set<nat>, out: seq<Item>, s: Session, items: seq<Item>, now: nat)
    requires Delivering(b, inserted, out, s.sent, s.n) && Insertable(items, s) && s.n <= U32_MAX - MAX_WINDOW
    requires Starts(items, b.expected)
    ensures NoWrappedArrival(b, items, now)
    decreases |items|
  {
    hide Insert, Delivering;
    if |items| == 0 {
    } else {
      DeliveringBound(b, inserted, out, s.sent, s.n);
      InsertDelivers(b, inserted, out, s.sent, s.n, items[0].sn, now);
      var (b1, out1) := Insert(b, items[0].sn, items[0].data, now);
      SessionQuiet(b1, inserted + {items[0].sn}, out + out1, s, items[1..], now);
    }
  }

  lemma DeliveringBound(b: Buf, inserted: set<nat>, out: seq<Item>, sent: nat -> Frame, n: nat)
    requires Delivering(b, inserted, out, sent, n)
    ensures b.expected <= n + 1
  {
    assert b.expected > 1 ==> b.expected - 1 in inserted;
  }

  lemma ArrivalQuiet(rx: Rx, s: Session, log: Log, a: Arrival)
    requires Receiving(rx, s, log) && s.Valid() && s.Admissible(a) && Smooth(rx, s, a) && s.n <= U32_MAX - MAX_WINDOW
    ensures rx.Ready() && Quiet(rx, s.ic, s.Number(a), s.Payload(a), a.now)
  {
    hide Inv, Structured, Genuine, Ledger, Delivering, Plain, Orderly, IsStart, ParityWithin, Decode, ParityOf, NoWrappedArrival, Smooth, Starts, Insertable;
    match a {
      case DataFrame(sn, now) => DecodedData(rx, s, log, sn, now);
      case ParityRecord(start, now) => DecodedParity(rx, s, log, start, now);
    }
    SessionQuiet(rx.buf, log.inserted, log.out, s, Decode(rx, s.ic, s.Number(a), s.Payload(a)).items, a.now);
  }

  /** The session object after all arrivals, and everything it made ready. */
  ghost function ReceiveRing(rx: RxActor.Session, s: Session, arrivals: seq<Arrival>): (RxActor.Session, seq<Item>)
    requires s.k < 256
    decreases |arrivals|
  {
    if |arrivals| == 0 then (rx, [])
    else
      var a := arrivals[|arrivals| - 1];
      var (rx1, out1) := ReceiveRing(rx, s, arrivals[..|arrivals| - 1]);
      if !rx1.Ready() then (rx1, out1)
      else
        var (rx2, out2, _) := ProcessRing(rx1, s.ic, s.Number(a), s.Payload(a), a.now);
        (rx2, out1 + out2)
  }

  function FreshSession(k: nat): RxActor.Session {
    RxActor.Session(Some(NewDec(k)), EMPTY_RING, seq(DEDUP_WINDOW, _ => 0))
  }

  lemma {:induction false} ReceivePlain(s: Session, arrivals: seq<Arrival>)
    requires s.Valid() && SmoothRun(s, arrivals) && s.n <= U32_MAX - MAX_WINDOW
    ensures var (rx, out) := ReceiveRing(FreshSession(s.k), s, arrivals);
            (rx.Plain(), out) == Receive(FreshRx(s.k), s, arrivals) && rx.Ready() && Fits(rx.ring)
    decreases |arrivals|
  {
    hide Receiving, Smooth, Process, ProcessRing, ParityOf, IsStart, Inv;
    if |arrivals| == 0 {
      NewDecInv(s.k);
      assert Receive(FreshRx(s.k), s, arrivals) == (FreshRx(s.k), []);
    } else {
      var front, a := arrivals[..|arrivals| - 1], arrivals[|arrivals| - 1];
      assert arrivals == front + [a];
      SmoothFront(s, front, a);
      ReceivePlain(s, front);
      var log := ReceivingAlways(s, front);
      var rx := ReceiveRing(FreshSession(s.k), s, front).0;
      ArrivalQuiet(rx.Plain(), s, log, a);
      ProcessPlain(rx, s.ic, s.Number(a), s.Payload(a), a.now);
    }
  }

  /** End to end: for every arrival order with duplicates, the frames that the session object makes ready are exactly the
      sent frames, in order. */
  lemma DeliveredExactly(s: Session, arrivals: seq<Arrival>)
    requires s.Valid() && s.n <= U32_MAX - MAX_WINDOW && SmoothRun(s, arrivals) && LossesCovered(s, arrivals)
    ensures ReceiveRing(FreshSession(s.k), s, arrivals).1 == Prefix(s.sent, s.n)
    ensures ReorderSpec.Ready(ReceiveRing(FreshSession(s.k), s, arrivals).1)
         == seq(s.n, i requires 0 <= i < s.n => s.sent(i + 1))
    ensures var b := ReceiveRing(FreshSession(s.k), s, arrivals).0.ring.buf;
            b.expected == (if s.n == 0 then 0 else s.n + 1) && b.pending == map[]
  {
    hide SmoothRun, LossesCovered, Receive, ReceiveRing, FreshRx, FreshSession, Prefix, ReorderSpec.Ready, Fits, RxActor.Session.Ready, RxActor.Session.Plain;
    ReceivePlain(s, arrivals);
    DeliveredByMap(s, arrivals);
    PlainParts(ReceiveRing(FreshSession(s.k), s, arrivals).0);
  }

  lemma PlainParts(s: RxActor.Session)
    ensures s.Plain().buf == s.ring.buf
  {
  }

  /** The same for every session of at most 511 groups and fewer than 65536 frames, without any condition on the run
      but on its first data frame. */
  lemma SmallSessionDelivered(s: Session, arrivals: seq<Arrival>)
    requires s.Valid() && 0 < s.n <= 511 * s.k && s.n < MAX_WINDOW
    requires forall j | 0 <= j < |arrivals| :: s.Admissible(arrivals[j])
    requires LedWell(s, arrivals) && LossesCovered(s, arrivals)
    ensures ReceiveRing(FreshSession(s.k), s, arrivals).1 == Prefix(s.sent, s.n)
  {
    hide SmoothRun, ReceiveRing, LossesCovered, FreshSession, Prefix;
    SmallRunSmooth(s, arrivals);
    DeliveredExactly(s, arrivals);
  }
}
