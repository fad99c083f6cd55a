/** Protocol-v3 typed controls and the dynamic FEC mode of sender and receiver (src/protocol.rs). */
module FecMode {
  import opened Bytes
  import Residue

  const KIND_FEC_PARITY: byte := 1
  const KIND_FEC_MODE: byte := 2
  const MODE_SUSPEND: byte := 1
  const MODE_RESUME: byte := 2
  const MODE_WIRE_LEN: nat := 16

  // ---------- control codec ----------

  datatype Control = Control(generation: nat, op: byte, boundary: nat)
  {
    predicate InRange() {
      generation <= U64_MAX && boundary <= U32_MAX
    }

    /** What the receiver accepts. */
    predicate WellFormed() {
      generation != 0 && boundary != 0 && (op == MODE_SUSPEND || op == MODE_RESUME)
    }
  }

  function Encode(c: Control): (wire: seq<byte>)
    ensures |wire| == MODE_WIRE_LEN && wire[0] == KIND_FEC_MODE
  {
    [KIND_FEC_MODE, c.op, 0, 0] + EncodeBE(c.generation, 8) + EncodeBE(c.boundary, 4)
  }

  function Parse(payload: seq<byte>): Result<Control> {
    if |payload| != MODE_WIRE_LEN then Err("length")
    else if payload[0] != KIND_FEC_MODE then Err("kind")
    else if payload[2] != 0 || payload[3] != 0 then Err("flags")
    else if payload[1] != MODE_SUSPEND && payload[1] != MODE_RESUME then Err("op")
    else
      var generation, boundary := DecodeBE(payload[4..12]), DecodeBE(payload[12..16]);
      if generation == 0 || boundary == 0 then Err("zero field")
      else Ok(Control(generation, payload[1], boundary))
  }

  /** A control survives the wire exactly when it is well formed. */
  lemma EncodeParse(c: Control)
    requires c.InRange()
    ensures if c.WellFormed() then Parse(Encode(c)) == Ok(c) else Parse(Encode(c)).Err?
  {
    var wire := Encode(c);
    Widths();
    assert wire[4..12] == EncodeBE(c.generation, 8);
    assert wire[12..16] == EncodeBE(c.boundary, 4);
    DecodeEncodeBE(c.generation, 8);
    DecodeEncodeBE(c.boundary, 4);
  }

  /** The parser accepts only canonical encodings. */
  lemma ParseEncode(payload: seq<byte>)
    requires Parse(payload).Ok?
    ensures Encode(Parse(payload).value) == payload
    ensures Parse(payload).value.InRange() && Parse(payload).value.WellFormed()
  {
    Widths();
    EncodeDecodeBE(payload[4..12]);
    EncodeDecodeBE(payload[12..16]);
    assert payload == payload[..4] + payload[4..12] + payload[12..16];
    assert payload[..4] == [payload[0], payload[1], payload[2], payload[3]];
  }

  function ControlKind(payload: seq<byte>): Result<byte> {
    if |payload| == 0 then Err("keepalive")
    else if payload[0] == KIND_FEC_PARITY || payload[0] == KIND_FEC_MODE then Ok(payload[0])
    else Err("unsupported control kind")
  }

  // ---------- group boundaries ----------

  function ClampGroup(k: nat): (c: nat)
    ensures 2 <= c <= 64
    ensures 2 <= k <= 64 ==> c == k
  {
    if k < 2 then 2 else if k > 64 then 64 else k
  }

  predicate IsStart(s: nat, k: nat)
    requires k > 0
  {
    s > 0 && (s - 1) % k == 0
  }

  lemma StartsAtOrBelow(sn: nat, c: nat)
    requires sn > 0 && c > 0
    ensures 0 <= (sn - 1) % c < c && (sn - 1) % c < sn
    ensures IsStart(sn - (sn - 1) % c, c)
  {
    var x := sn - 1;
    var s := sn - x % c;
    Residue.RoundDown(x, c);
    assert x % c <= x by { assert x == x / c * c + x % c; }
    assert s - 1 == x - x % c;
  }

  /** `fec_group_start`: the group boundary at or before `sn`. */
  function GroupStart(sn: nat, k: nat): (s: nat)
    ensures sn == 0 ==> s == 0
    ensures sn > 0 ==> IsStart(s, ClampGroup(k)) && s <= sn < s + ClampGroup(k)
  {
    if sn == 0 then 0
    else
      var c := ClampGroup(k);
      StartsAtOrBelow(sn, c);
      sn - (sn - 1) % c
  }

  /** `fec_next_group_start`: the first group boundary at or after `sn`, 0 when it leaves `u32`. */
  function NextGroupStart(sn: nat, k: nat): (s: nat)
    ensures sn == 0 ==> s == 0
    ensures s > 0 ==> IsStart(s, ClampGroup(k)) && sn <= s < sn + ClampGroup(k) && s <= Max(sn, U32_MAX)
    ensures sn > 0 && s == 0 ==> forall b | sn <= b <= U32_MAX :: !IsStart(b, ClampGroup(k))
  {
    if sn == 0 then 0
    else
      var c := ClampGroup(k);
      var offset := (sn - 1) % c;
      if offset == 0 then sn
      else
        var next := sn + (c - offset);
        NextIsFirst(sn, c);
        if next <= U32_MAX then next else 0
  }

  lemma NextIsFirst(sn: nat, c: nat)
    requires c > 0 && sn > 0 && (sn - 1) % c != 0
    ensures IsStart(sn + c - (sn - 1) % c, c)
    ensures forall b | sn <= b < sn + c - (sn - 1) % c :: !IsStart(b, c)
  {
    var below := sn - 1 - (sn - 1) % c;
    Residue.RoundDown(sn - 1, c);
    Residue.NextMultiple(below, c);
    forall b | sn <= b < below + c + 1 ensures !IsStart(b, c) {
      Residue.FromMultiple(below, b - 1, c);
    }
  }

  /** Inside a group only its first member is a start. */
  lemma OnlyStart(s: nat, sn: nat, k: nat)
    requires k > 0 && IsStart(s, k) && s <= sn < s + k
    ensures IsStart(sn, k) <==> sn == s
  {
    Residue.FromMultiple(s - 1, sn - 1, k);
  }

  lemma StartPositive(s: nat, k: nat)
    requires k > 0 && IsStart(s, k)
    ensures s > 0
  {
  }

  lemma StartsApart(s: nat, t: nat, k: nat)
    requires k > 0 && IsStart(s, k) && IsStart(t, k) && s < t
    ensures s + k <= t
  {
    Residue.Apart(s - 1, t - 1, k);
  }

  lemma NextStart(s: nat, k: nat)
    requires k > 0 && IsStart(s, k)
    ensures IsStart(s + k, k)
    ensures s > 1 ==> s > k && IsStart(s - k, k)
  {
    Residue.NextMultiple(s - 1, k);
    if 1 < s { Residue.Apart(0, s - 1, k); }
  }

  /** Every group start is reached from itself, and groups do not overlap. */
  lemma StartOfMember(s: nat, sn: nat, k: nat)
    requires 2 <= k <= 64 && IsStart(s, k) && s <= sn < s + k
    ensures GroupStart(sn, k) == s
  {
    Residue.FromMultiple(s - 1, sn - 1, k);
  }

  // ---------- receiver fence ----------

  /** The receiver's mode: data with `from <= sn < until` bypasses FEC; `until == 0` means no end. */
  datatype Fence = Fence(generation: nat, from: nat, until: nat)
  {
    predicate Bypasses(sn: nat) {
      sn != 0 && from != 0 && sn >= from && (until == 0 || sn < until)
    }
  }

  const OPEN_FENCE := Fence(0, 0, 0)

  function Apply(f: Fence, c: Control): Fence {
    if !c.WellFormed() || c.generation <= f.generation then f
    else if c.op == MODE_SUSPEND then Fence(c.generation, c.boundary, 0)
    else if f.from == 0 || c.boundary <= f.from then Fence(c.generation, 0, 0)
    else Fence(c.generation, f.from, c.boundary)
  }

  function PackWindow(from: nat, until: nat): nat {
    from * 0x1_0000_0000 + until
  }

  function UnpackWindow(v: nat): (nat, nat) {
    (v / 0x1_0000_0000, v % 0x1_0000_0000)
  }

  lemma PackUnpack(from: nat, until: nat)
    requires from <= U32_MAX && until <= U32_MAX
    ensures UnpackWindow(PackWindow(from, until)) == (from, until)
    ensures PackWindow(from, until) <= U64_MAX
  {
    Residue.Unique(PackWindow(from, until), from, until, 0x1_0000_0000);
  }

  /** `FecRxFenceState`: the window is one packed word so that the data path reads it at once. */
  class FecRxFenceState {
    var generation: nat
    var window: nat

    ghost predicate Valid()
      reads this
    {
      window <= U64_MAX
    }

    ghost function Model(): Fence
      reads this
    {
      Fence(generation, UnpackWindow(window).0, UnpackWindow(window).1)
    }

    constructor ()
      ensures Valid() && Model() == OPEN_FENCE
    {
      generation, window := 0, 0;
    }

    method Reset()
      modifies this
      ensures Valid() && Model() == OPEN_FENCE
    {
      generation, window := 0, 0;
    }

    function Window(): (w: (nat, nat))
      reads this
      ensures w == (Model().from, Model().until)
    {
      UnpackWindow(window)
    }

    method Update(control: Control) returns (applied: bool)
      requires Valid() && control.InRange()
      modifies this
      ensures Valid() && Model() == Apply(old(Model()), control)
      ensures applied <==> Model() != old(Model())
      ensures applied ==> Model().generation == control.generation > old(Model().generation)
    {
      if control.generation == 0 || control.boundary == 0
         || (control.op != MODE_SUSPEND && control.op != MODE_RESUME)
      {
        return false;
      }
      if control.generation <= generation {
        return false;
      }
      var (from, _) := UnpackWindow(window);
      generation := control.generation;
      PackUnpack(control.boundary, 0);
      PackUnpack(from, control.boundary);
      if control.op == MODE_SUSPEND {
        window := PackWindow(control.boundary, 0);
      } else if from == 0 || control.boundary <= from {
        window := 0;
      } else {
        window := PackWindow(from, control.boundary);
      }
      return true;
    }

    predicate BypassData(sn: nat)
      reads this
      ensures BypassData(sn) <==> Model().Bypasses(sn)
    {
      var (from, until) := UnpackWindow(window);
      sn != 0 && from != 0 && sn >= from && (until == 0 || sn < until)
    }
  }

  // ---------- sender mode ----------

  datatype TxMode = TxMode(seenMultipath: bool, suspended: bool, generation: nat, current: Option<Control>)

  const FRESH_TX := TxMode(false, false, 0, None)

  function NextGeneration(g: nat): nat {
    Max(Min(g + 1, U64_MAX), 1)
  }

  /** `observe`: what the sender decides about `sn` when it is about to dispatch it over `paths` paths. */
  function Observed(t: TxMode, paths: nat, sn: nat, k: nat): (TxMode, Option<Control>) {
    if paths >= 2 then
      if !t.seenMultipath then (t.(seenMultipath := true), None)
      else if t.suspended then
        var boundary := NextGroupStart(sn, k);
        if boundary == 0 then (t, None)
        else
          var c := Control(NextGeneration(t.generation), MODE_RESUME, boundary);
          (t.(suspended := false, generation := c.generation, current := Some(c)), Some(c))
      else (t, None)
    else if paths == 1 && t.seenMultipath && !t.suspended then
      var c := Control(NextGeneration(t.generation), MODE_SUSPEND, GroupStart(sn, k));
      (t.(suspended := true, generation := c.generation, current := Some(c)), Some(c))
    else (t, None)
  }

  /** What every reachable sender mode satisfies. */
  predicate TxValid(t: TxMode) {
    && t.generation <= U64_MAX
    && (t.current.None? <==> t.generation == 0)
    && (t.current.Some? ==>
          && t.current.value.generation == t.generation
          && t.current.value.WellFormed() && t.current.value.InRange()
          && (t.suspended <==> t.current.value.op == MODE_SUSPEND))
    && (t.suspended ==> t.current.Some?)
  }

  /** Observing keeps the mode valid, never lowers the generation, and publishes only usable controls. */
  lemma ObserveKeepsValid(t: TxMode, paths: nat, sn: nat, k: nat)
    requires TxValid(t) && 0 < sn <= U32_MAX
    ensures var (t', emitted) := Observed(t, paths, sn, k);
            && TxValid(t')
            && t'.generation >= t.generation
            && (emitted.Some? ==> emitted == t'.current)
            && (emitted.None? ==> t'.current == t.current)
  {
  }

  class FecTxModeState {
    var seenMultipath: bool
    var suspended: bool
    var generation: nat
    var current: Option<Control>

    ghost function Model(): TxMode
      reads this
    {
      TxMode(seenMultipath, suspended, generation, current)
    }

    constructor ()
      ensures Model() == FRESH_TX && TxValid(Model())
    {
      seenMultipath, suspended, generation, current := false, false, 0, None;
    }

    method Observe(paths: nat, sn: nat, k: nat) returns (control: Option<Control>)
      modifies this
      ensures (Model(), control) == Observed(old(Model()), paths, sn, k)
      ensures TxValid(old(Model())) && 0 < sn <= U32_MAX ==> TxValid(Model())
    {
      if paths >= 2 {
        if !seenMultipath {
          seenMultipath := true;
          return None;
        }
        if suspended {
          var boundary := NextGroupStart(sn, k);
          if boundary == 0 {
            return None;
          }
          generation := NextGeneration(generation);
          control := Some(Control(generation, MODE_RESUME, boundary));
          suspended := false;
          current := control;
          return;
        }
        return None;
      }
      if paths == 1 && seenMultipath && !suspended {
        generation := NextGeneration(generation);
        control := Some(Control(generation, MODE_SUSPEND, GroupStart(sn, k)));
        suspended := true;
        current := control;
        return;
      }
      return None;
    }
  }
}
