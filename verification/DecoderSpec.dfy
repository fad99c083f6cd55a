/** The FEC decoder's meaning: partial groups as plain maps of the members received so far.

    This is what the decoder object of module FecDecoder is proved against; it keeps no running XOR,
    no bit mask and no in-place buffers. */
module DecoderSpec {
  import opened Bytes
  import opened Xor
  import opened Parity
  import opened FecMode

  const MAX_PENDING_GROUPS: nat := 512
  const DONE_CACHE: nat := 256

  datatype Group = Group(members: map<nat, Frame>, parity: Option<Held>)

  const NEW_GROUP := Group(map[], None)

  datatype Recovered = Recovered(sn: nat, data: Frame)

  function OutSet(out: Option<Recovered>): set<nat> {
    if out.Some? then {out.value.sn} else {}
  }

  datatype Dec = Dec(
    k: nat,
    single: bool,
    fence: Fence,
    cleanup: nat,
    retired: nat,
    groups: map<nat, Group>,
    done: seq<nat>,
    recovered: nat,
    lost: nat)
  {
    predicate Sized() {
      2 <= k <= 64 && |done| == DONE_CACHE
    }
  }

  function NewDec(k: nat): Dec {
    Dec(ClampGroup(k), false, OPEN_FENCE, 0, 0, map[], seq(DONE_CACHE, _ => 0), 0, 0)
  }

  // ---------- the done cache ----------

  function DoneSlot(start: nat, k: nat): (slot: nat)
    requires start > 0 && k > 0
    ensures slot < DONE_CACHE
  {
    (start - 1) / k % DONE_CACHE
  }

  predicate IsDone(done: seq<nat>, start: nat, k: nat)
    requires |done| == DONE_CACHE && k > 0
  {
    start != 0 && done[DoneSlot(start, k)] == start
  }

  function MarkDone(done: seq<nat>, start: nat, k: nat): (r: seq<nat>)
    requires |done| == DONE_CACHE && k > 0
    ensures |r| == DONE_CACHE
    ensures forall s | IsDone(r, s, k) :: s == start || IsDone(done, s, k)
  {
    if start == 0 then done else done[DoneSlot(start, k) := start]
  }

  // ---------- groups ----------

  /** `entry`: the group starting at `start`, opened if new; the oldest makes room when 512 are pending. */
  ghost function Entry(groups: map<nat, Group>, start: nat): (r: map<nat, Group>)
    ensures start in r && r[start] == (if start in groups then groups[start] else NEW_GROUP)
    ensures forall s | s in r && s != start :: s in groups && r[s] == groups[s]
    ensures |groups| <= MAX_PENDING_GROUPS ==> |r| <= MAX_PENDING_GROUPS
  {
    if start in groups then groups
    else
      var kept := Evict(groups);
      assert kept[start := NEW_GROUP].Keys == kept.Keys + {start};
      kept[start := NEW_GROUP]
  }

  ghost function Evict(groups: map<nat, Group>): (r: map<nat, Group>)
    ensures forall s | s in r :: s in groups && r[s] == groups[s]
    ensures |groups| <= MAX_PENDING_GROUPS ==> |r| < MAX_PENDING_GROUPS
  {
    if |groups| < MAX_PENDING_GROUPS then groups
    else
      var oldest := LeastOf(groups.Keys);
      assert (groups - {oldest}).Keys == groups.Keys - {oldest};
      assert |groups.Keys - {oldest}| == |groups.Keys| - 1;
      groups - {oldest}
  }

  function Below(k: nat): (s: set<nat>)
    ensures forall j: nat :: j in s <==> j < k
  {
    if k == 0 then {} else Below(k - 1) + {k - 1}
  }

  /** The member indices not received yet. */
  function Missing(g: Group, k: nat): set<nat> {
    set j: nat | j < k && j !in g.members
  }

  /** `try_recover`, the XOR step: the parity body with every received member XORed out. */
  function Rebuild(g: Group, k: nat, j: nat): (data: Frame)
    requires g.parity.Some? && j < |g.parity.value.lens|
    ensures |data| == g.parity.value.lens[j]
  {
    var held := g.parity.value;
    seq(held.lens[j], i requires 0 <= i < held.lens[j] =>
      if i < |held.body| then XorByte(held.body[i], FoldAt(g.members, k, i)) else 0)
  }

  ghost function Only(s: set<nat>): (j: nat)
    requires |s| == 1
    ensures s == {j}
  {
    var j :| j in s;
    assert |s - {j}| == 0;
    j
  }

  /** `try_recover`: with the parity held and at most one member missing the group is finished, and the
      missing member, if any, is rebuilt. Members still missing then would count as lost. */
  ghost function TryRecover(d: Dec, start: nat): (Dec, Option<Recovered>)
    requires d.Sized()
    requires start in d.groups && d.groups[start].parity.Some? ==> |d.groups[start].parity.value.lens| == d.k
  {
    if start !in d.groups || d.groups[start].parity.None? then (d, None)
    else
      var g := d.groups[start];
      var missing := Missing(g, d.k);
      if |missing| > 1 then (d, None)
      else
        var finished := d.(groups := d.groups - {start}, done := MarkDone(d.done, start, d.k));
        if |missing| == 0 then (finished, None)
        else
          var j := Only(missing);
          (finished.(recovered := d.recovered + 1, lost := d.lost + |missing - {j}|),
           Some(Recovered(start + j, Rebuild(g, d.k, j))))
  }

  // ---------- retirement ----------

  function KeepFrom(groups: map<nat, Group>, boundary: nat): map<nat, Group> {
    map s | s in groups && s >= boundary :: groups[s]
  }

  /** Drops the groups below the cleanup boundary once in-order delivery has passed it. */
  function Retire(d: Dec, progress: Option<nat>): Dec {
    if d.cleanup == 0 || d.retired >= d.cleanup then d
    else if progress.None? || progress.value == 0 || progress.value < d.cleanup then d
    else d.(retired := d.cleanup, groups := KeepFrom(d.groups, d.cleanup))
  }

  predicate IsRetired(d: Dec, sn: nat) {
    d.retired != 0 && sn < d.retired
  }

  // ---------- events ----------

  /** A data frame that is neither bypassed nor retired. */
  ghost function Admit(d: Dec, sn: nat, frame: Frame): (Dec, Option<Recovered>)
    requires d.Sized() && Structured(d) && sn > 0
  {
    var start := GroupStart(sn, d.k);
    if IsDone(d.done, start, d.k) then (d, None)
    else
      var groups := Entry(d.groups, start);
      var g := groups[start];
      var j := sn - start;
      if j in g.members then (d.(groups := groups), None)
      else
        var g' := g.(members := g.members[j := frame]);
        if Missing(g', d.k) == {} then
          (d.(groups := groups - {start}, done := MarkDone(d.done, start, d.k)), None)
        else TryRecover(d.(groups := groups[start := g']), start)
  }

  ghost function OnData(d: Dec, sn: nat, frame: Frame, progress: Option<nat>): (Dec, Option<Recovered>)
    requires d.Sized() && Structured(d)
  {
    if |frame| == 0 || sn == 0 || d.single then (d, None)
    else if d.fence.Bypasses(sn) then (if sn % 256 == 0 then Retire(d, progress) else d, None)
    else if IsRetired(d, sn) then (d, None)
    else Admit(d, sn, frame)
  }

  ghost function OnParity(d: Dec, ic: Option<Cipher>, payload: Frame, progress: Option<nat>)
    : (Dec, Result<Option<Recovered>>)
    requires d.Sized() && Structured(d)
  {
    if d.single then (d, Ok(None))
    else
      var header := ParseHeader(d.k, payload);
      if header.Err? then (d, Err(header.message))
      else
        var start := header.value;
        var d1 := Retire(d, progress);
        if IsRetired(d1, start) then (d1, Ok(None))
        else
          var body := ParseBody(d.k, ic, payload, start);
          if body.Err? then (d1, Err(body.message))
          else if IsDone(d1.done, start, d.k) then (d1, Ok(None))
          else
            var groups := Entry(d1.groups, start);
            if groups[start].parity.Some? then (d1.(groups := groups), Ok(None))
            else
              var g := groups[start].(parity := Some(body.value));
              var (d2, out) := TryRecover(d1.(groups := groups[start := g]), start);
              (Retire(d2, progress), Ok(out))
  }

  function DropRange(groups: map<nat, Group>, from: nat, until: nat): map<nat, Group> {
    map s | s in groups && !(s >= from && (until == 0 || s < until)) :: groups[s]
  }

  function OnMode(d: Dec, c: Control, progress: Option<nat>): Dec {
    var fence := Apply(d.fence, c);
    if fence == d.fence then d
    else if fence.from == 0 then d.(fence := fence)
    else
      Retire(d.(fence := fence, cleanup := Max(d.cleanup, fence.from),
                groups := DropRange(d.groups, fence.from, fence.until)), progress)
  }

  /** `on_control`: the strict dispatcher of typed controls. */
  ghost function OnControl(d: Dec, ic: Option<Cipher>, payload: Frame, progress: Option<nat>)
    : (Dec, Result<Option<Recovered>>)
    requires d.Sized() && Structured(d)
  {
    var kind := ControlKind(payload);
    if kind.Err? then (d, Err(kind.message))
    else if kind.value == KIND_FEC_PARITY then OnParity(d, ic, payload, progress)
    else
      var c := Parse(payload);
      if c.Err? then (d, Err(c.message)) else (OnMode(d, c.value, progress), Ok(None))
  }

  function ResetState(d: Dec): Dec {
    d.(groups := map[], done := seq(DONE_CACHE, _ => 0), cleanup := 0, retired := 0, fence := OPEN_FENCE)
  }

  function SetStaticSingle(d: Dec, single: bool): Dec {
    if !single then d.(single := false)
    else if d.single then d
    else ResetState(d).(single := true)
  }

  // ---------- what every reachable decoder satisfies ----------

  predicate GroupOk(g: Group, k: nat) {
    && (forall j | j in g.members :: j < k)
    && (g.parity.Some? ==> |g.parity.value.lens| == k)
  }

  /** Keys are group starts, member indices are below K, and length tables have K entries. */
  predicate Structured(d: Dec) {
    forall s | s in d.groups :: d.k > 0 && IsStart(s, d.k) && GroupOk(d.groups[s], d.k)
  }

  /** A stored group lacks at least one member, and at least two once its parity is held. */
  predicate Lacking(g: Group, k: nat) {
    |Missing(g, k)| >= (if g.parity.Some? then 2 else 1)
  }

  predicate StoredOk(s: nat, g: Group, k: nat) {
    k > 0 && IsStart(s, k) && GroupOk(g, k) && Lacking(g, k)
  }

  predicate Inv(d: Dec) {
    && d.Sized()
    && |d.groups| <= MAX_PENDING_GROUPS
    && d.lost == 0
    && forall s | s in d.groups :: StoredOk(s, d.groups[s], d.k)
  }
}
