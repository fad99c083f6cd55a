/** Session resumption: the server's current and pending token, and the client's copies in memory and on
    disk (src/server.rs, src/client.rs, src/crypto.rs). */
module ResumeToken {
  import opened Bytes

  type Token = string

  predicate HexDigit(c: char) {
    '0' <= c <= '9' || 'a' <= c <= 'f' || 'A' <= c <= 'F'
  }

  /** `valid_session_token_format`. */
  predicate WellFormed(t: Token) {
    |t| == 64 && forall i | 0 <= i < 64 :: HexDigit(t[i])
  }

  /** `verify_random_session_token`. */
  predicate Verifies(stored: Token, presented: Token) {
    |stored| == 64 && |presented| == 64 && stored == presented
  }

  // ---------- the server's side ----------

  datatype Epoch = Epoch(instance: string, epoch: nat, current: Token, pending: Token)

  /** `accept_session_resume_token`: a presented pending token becomes the current one. */
  function Accepted(e: Epoch, presented: Token): (Epoch, bool) {
    if Verifies(e.current, presented) then (e, true)
    else if |e.pending| > 0 && Verifies(e.pending, presented) then (e.(current := e.pending, pending := ""), true)
    else (e, false)
  }

  function WithPending(e: Epoch, drawn: Token): Epoch {
    if |e.pending| == 0 then e.(pending := drawn) else e
  }

  function ResponseToken(e: Epoch): Token {
    if |e.pending| == 0 then e.current else e.pending
  }

  datatype Response = Response(token: Token, epoch: nat)

  function Respond(e: Epoch): Response {
    Response(ResponseToken(e), e.epoch)
  }

  /** The token part of one handshake. `rotated` says whether the key epoch could be rotated when that was needed;
      `drawn` is a newly drawn token, `None` if drawing one failed. */
  function Handshake(session: Option<Epoch>, instance: string, presented: Token, rotated: bool, drawn: Option<Token>)
    : (Option<Epoch>, Option<Response>)
  {
    match session
    case Some(e) =>
      if e.instance != instance then
        var (e1, ok) := Accepted(e, presented);
        if !ok then (session, None)
        else if !rotated then (Some(e1), None)
        else
          var e2 := e1.(instance := instance, epoch := Min(e1.epoch + 1, U64_MAX));
          if |e2.pending| == 0 && drawn.None? then (Some(e2), None)
          else
            var e3 := WithPending(e2, if drawn.Some? then drawn.value else "");
            (Some(e3), Some(Respond(e3)))
      else
        var e1 := if |e.pending| > 0 && Verifies(e.pending, presented)
                  then e.(current := e.pending, pending := "") else e;
        (Some(e1), Some(Respond(e1)))
    case None =>
      if !WellFormed(presented) && drawn.None? then (None, None)
      else
        var e := Epoch(instance, 1, if WellFormed(presented) then presented else drawn.value, "");
        (Some(e), Some(Respond(e)))
  }

  /** The session exists and turns the instance away because of its token. */
  predicate Refuses(session: Option<Epoch>, instance: string, presented: Token) {
    && session.Some? && session.value.instance != instance
    && !Accepted(session.value, presented).1
  }

  /** One of the server's two tokens, 64 characters long: an empty token is never one. */
  predicate Known(e: Epoch, presented: Token) {
    |presented| == 64 && (presented == e.current || presented == e.pending)
  }

  /** A new instance is refused exactly if its token is neither the current nor the pending one; it then changes nothing.
      The instance and the epoch move exactly if a new instance is let in and the keys could be rotated. */
  lemma RefusedExactly(e: Epoch, instance: string, presented: Token, rotated: bool, drawn: Option<Token>)
    ensures Refuses(Some(e), instance, presented) <==> instance != e.instance && !Known(e, presented)
    ensures Refuses(Some(e), instance, presented) ==> Handshake(Some(e), instance, presented, rotated, drawn) == (Some(e), None)
    ensures var (session, response) := Handshake(Some(e), instance, presented, rotated, drawn);
            var moves := instance != e.instance && Known(e, presented) && rotated;
            && session.Some?
            && session.value.instance == (if moves then instance else e.instance)
            && session.value.epoch == (if moves then Min(e.epoch + 1, 0xFFFF_FFFF_FFFF_FFFF) else e.epoch)
  {
  }

  /** A presented pending token replaces the current one, and no other token does; a response names the newest token. */
  lemma PromotedExactly(e: Epoch, instance: string, presented: Token, rotated: bool, drawn: Option<Token>)
    ensures var (session, response) := Handshake(Some(e), instance, presented, rotated, drawn);
            var promoted := |presented| == 64 && presented == e.pending && (presented != e.current || instance == e.instance);
            && session.Some?
            && session.value.current == (if promoted then e.pending else e.current)
            && (!promoted ==> session.value.pending == e.pending || e.pending == "")
            && (response.Some? ==>
                  && response.value.epoch == session.value.epoch
                  && response.value.token == (if session.value.pending != "" then session.value.pending else session.value.current))
            && (response.None? <==>
                  && instance != e.instance
                  && (!Known(e, presented) || !rotated || (drawn.None? && (e.pending == "" || promoted))))
  {
  }

  /** The epoch state as the server updates it. */
  class SessionEpochState {
    var instanceId: string
    var epoch: nat
    var resumeToken: Token
    var pendingResumeToken: Token

    ghost function Model(): Epoch
      reads this
    {
      Epoch(instanceId, epoch, resumeToken, pendingResumeToken)
    }

    constructor (instance: string, token: Token)
      ensures Model() == Epoch(instance, 1, token, "")
    {
      instanceId, epoch, resumeToken, pendingResumeToken := instance, 1, token, "";
    }

    method AcceptSessionResumeToken(presented: Token) returns (ok: bool)
      modifies this
      ensures (Model(), ok) == Accepted(old(Model()), presented)
    {
      if Verifies(resumeToken, presented) {
        return true;
      }
      if pendingResumeToken != "" && Verifies(pendingResumeToken, presented) {
        resumeToken, pendingResumeToken := pendingResumeToken, "";
        return true;
      }
      return false;
    }

    method EnsurePendingResumeToken(drawn: Option<Token>) returns (ok: bool)
      modifies this
      ensures ok <==> old(pendingResumeToken) != "" || drawn.Some?
      ensures Model() == if drawn.Some? then WithPending(old(Model()), drawn.value) else old(Model())
    {
      if pendingResumeToken == "" {
        if drawn.None? {
          return false;
        }
        pendingResumeToken := drawn.value;
      }
      return true;
    }

    /** The token branch of a handshake on an existing session. */
    method Rejoin(instance: string, presented: Token, rotated: bool, drawn: Option<Token>)
      returns (response: Option<Response>)
      modifies this
      ensures (Some(Model()), response) == Handshake(Some(old(Model())), instance, presented, rotated, drawn)
    {
      if instanceId != instance {
        var ok := AcceptSessionResumeToken(presented);
        if !ok {
          return None;
        }
        if !rotated {
          return None;
        }
        instanceId, epoch := instance, Min(epoch + 1, U64_MAX);
        ok := EnsurePendingResumeToken(drawn);
        if !ok {
          return None;
        }
      } else if pendingResumeToken != "" && Verifies(pendingResumeToken, presented) {
        resumeToken, pendingResumeToken := pendingResumeToken, "";
      }
      return Some(Response(if pendingResumeToken == "" then resumeToken else pendingResumeToken, epoch));
    }
  }

  // ---------- both sides ----------

  datatype Disk = Disk(token: Token, epoch: nat)

  datatype Client = Client(instance: string, token: Token, disk: Disk)

  /** `used` collects every token drawn so far. */
  datatype World = World(session: Option<Epoch>, client: Client, used: set<Token>)

  datatype Step =
    | Connect(rotated: bool, drawn: Option<Token>, delivered: bool)
    | Rekey(instance: string)
    | Restart(instance: string)
    | Lose

  /** `persist_session_state`: an older epoch is not written. */
  function Persist(d: Disk, r: Response): Disk {
    if r.epoch < d.epoch then d else Disk(r.token, r.epoch)
  }

  function Deliver(c: Client, r: Response): Client {
    c.(token := r.token, disk := Persist(c.disk, r))
  }

  function Next(w: World, step: Step): World {
    match step
    case Connect(rotated, drawn, delivered) =>
      var (session, response) := Handshake(w.session, w.client.instance, w.client.token, rotated, drawn);
      w.(session := session,
         client := if delivered && response.Some? then Deliver(w.client, response.value) else w.client,
         used := if drawn.Some? then w.used + {drawn.value} else w.used)
    case Rekey(instance) => w.(client := w.client.(instance := instance))
    case Restart(instance) => w.(client := w.client.(instance := instance, token := w.client.disk.token))
    case Lose => w.(session := None)
  }

  /** Drawn tokens are well formed and new. */
  predicate Fair(w: World, step: Step) {
    step.Connect? && step.drawn.Some? ==> WellFormed(step.drawn.value) && step.drawn.value !in w.used
  }

  function Run(w: World, steps: seq<Step>): World
    decreases |steps|
  {
    if |steps| == 0 then w else Run(Next(w, steps[0]), steps[1..])
  }

  predicate FairRun(w: World, steps: seq<Step>)
    decreases |steps|
  {
    |steps| > 0 ==> Fair(w, steps[0]) && FairRun(Next(w, steps[0]), steps[1..])
  }

  // ---------- tokens kept in memory ----------

  predicate OneOf(e: Epoch, t: Token) {
    t == e.current || t == e.pending
  }

  /** Tokens are well formed; everything drawn or held is remembered as used. */
  predicate Sane(w: World) {
    && (WellFormed(w.client.token) || w.client.token == "")
    && (WellFormed(w.client.disk.token) || w.client.disk.token == "")
    && (w.session.Some? ==>
          && WellFormed(w.session.value.current) && w.session.value.current in w.used
          && (w.session.value.pending == "" || (WellFormed(w.session.value.pending) && w.session.value.pending in w.used))
          && w.session.value.current != w.session.value.pending)
    && (w.client.token == "" || w.client.token in w.used)
    && (w.client.disk.token == "" || w.client.disk.token in w.used)
  }

  /** A stored token is one of the server's two. */
  predicate Holds(w: World) {
    w.client.token != "" && w.session.Some? ==> OneOf(w.session.value, w.client.token)
  }

  lemma StepSane(w: World, step: Step)
    requires Sane(w) && Fair(w, step)
    ensures Sane(Next(w, step))
  {
    hide HexDigit;
  }

  lemma StepHolds(w: World, step: Step)
    requires Sane(w) && Fair(w, step) && Holds(w) && !step.Restart?
    ensures Holds(Next(w, step))
    ensures w.client.token != "" ==> Next(w, step).client.token != ""
    ensures w.client.token != "" ==> !Refuses(w.session, w.client.instance, w.client.token)
  {
    hide HexDigit;
  }

  /** In one process lifetime, whatever responses are lost, whatever sessions the server forgets and however
      often the client takes a new instance, a client that has stored a token holds one of the server's two
      tokens and is never refused. */
  lemma {:induction false} MemoryNeverRefused(w: World, steps: seq<Step>)
    requires Sane(w) && Holds(w) && FairRun(w, steps)
    requires forall i | 0 <= i < |steps| :: !steps[i].Restart?
    ensures var w' := Run(w, steps);
            && Sane(w') && Holds(w')
            && (w'.client.token != "" ==> !Refuses(w'.session, w'.client.instance, w'.client.token))
            && (w.client.token != "" ==> w'.client.token != "")
    decreases |steps|
  {
    hide Next, Fair, Refuses, Sane, Holds;
    if |steps| == 0 {
      AtRest(w);
    } else {
      StepSane(w, steps[0]);
      StepHolds(w, steps[0]);
      MemoryNeverRefused(Next(w, steps[0]), steps[1..]);
    }
  }

  lemma AtRest(w: World)
    requires Sane(w) && Holds(w)
    ensures w.client.token != "" ==> !Refuses(w.session, w.client.instance, w.client.token)
  {
    hide HexDigit;
  }

  // ---------- retired tokens ----------

  predicate NoLoss(steps: seq<Step>) {
    forall i | 0 <= i < |steps| :: !steps[i].Lose?
  }

  lemma StepKeepsRetired(w: World, step: Step, t: Token)
    requires Sane(w) && Fair(w, step) && !step.Lose? && w.session.Some? && t in w.used && t != "" && !OneOf(w.session.value, t)
    ensures var w' := Next(w, step); w'.session.Some? && t in w'.used && !OneOf(w'.session.value, t)
  {
    hide HexDigit;
  }

  lemma {:induction false} RetiredForGood(w: World, steps: seq<Step>, t: Token)
    requires Sane(w) && FairRun(w, steps) && NoLoss(steps)
    requires w.session.Some? && t in w.used && t != "" && !OneOf(w.session.value, t)
    ensures Run(w, steps).session.Some? && !OneOf(Run(w, steps).session.value, t)
    decreases |steps|
  {
    hide Next, Fair, Sane, OneOf;
    if |steps| == 0 {
    } else {
      StepSane(w, steps[0]);
      StepKeepsRetired(w, steps[0], t);
      RetiredForGood(Next(w, steps[0]), steps[1..], t);
    }
  }

  /** Once the pending token is presented, it is the current one, and the token it replaced is refused to
      every other instance for as long as the session lives. */
  lemma PendingRetiresCurrent(w: World, rotated: bool, drawn: Option<Token>, delivered: bool, steps: seq<Step>, instance: string)
    requires Sane(w) && FairRun(w, [Connect(rotated, drawn, delivered)] + steps) && NoLoss(steps)
    requires w.session.Some? && w.session.value.pending != "" && w.client.token == w.session.value.pending
    ensures Next(w, Connect(rotated, drawn, delivered)).session.value.current == w.client.token
    ensures var w' := Run(Next(w, Connect(rotated, drawn, delivered)), steps);
            && w'.session.Some?
            && (instance != w'.session.value.instance ==> Refuses(w'.session, instance, w.session.value.current))
  {
    hide HexDigit, Run;
    var step := Connect(rotated, drawn, delivered);
    var old' := w.session.value.current;
    assert ([step] + steps)[1..] == steps;
    StepSane(w, step);
    var w1 := Next(w, step);
    assert old' != "" && old' in w1.used && !OneOf(w1.session.value, old');
    RetiredForGood(w1, steps, old');
    var e := Run(w1, steps).session.value;
    if instance != e.instance { RetiredRefused(e, instance, old'); }
  }

  lemma RetiredRefused(e: Epoch, instance: string, t: Token)
    requires !OneOf(e, t) && instance != e.instance
    ensures Refuses(Some(e), instance, t)
  {
  }

  // ---------- tokens kept on disk ----------

  /** Memory and disk agree, and nothing the server says next will be too old to be written, unless it says
      what the disk says already. */
  predicate DiskCurrent(w: World) {
    && w.client.token != "" && w.client.disk.token == w.client.token
    && Holds(w)
    && match w.session
       case None => w.client.disk.epoch <= 2
       case Some(e) =>
         || w.client.disk.epoch <= e.epoch
         || (w.client.disk.epoch == 2 && e.epoch == 1 && e.pending == "" && e.current == w.client.token)
  }

  /** A handshake that opens a session or finds its own instance. */
  lemma JoinDisk(w: World, step: Step)
    requires Sane(w) && Fair(w, step) && DiskCurrent(w) && step.Connect? && w.client.disk.epoch <= U64_MAX
    requires w.session.None? || w.session.value.instance == w.client.instance
    requires w.session.Some? ==> 1 <= w.session.value.epoch <= U64_MAX
    ensures var w' := Next(w, step);
            DiskCurrent(w') && w'.client.disk.epoch <= U64_MAX && w'.session.Some? && 1 <= w'.session.value.epoch <= U64_MAX
  {
    hide HexDigit;
  }

  /** A handshake of a new instance. */
  lemma RejoinDisk(w: World, step: Step)
    requires Sane(w) && Fair(w, step) && DiskCurrent(w) && step.Connect? && w.client.disk.epoch <= U64_MAX
    requires w.session.Some? && w.session.value.instance != w.client.instance && 1 <= w.session.value.epoch <= U64_MAX
    ensures var w' := Next(w, step);
            DiskCurrent(w') && w'.client.disk.epoch <= U64_MAX && w'.session.Some? && 1 <= w'.session.value.epoch <= U64_MAX
  {
    hide HexDigit;
  }

  lemma StepDisk(w: World, step: Step)
    requires Sane(w) && Fair(w, step) && DiskCurrent(w)
    requires w.client.disk.epoch <= U64_MAX
    requires step.Lose? ==> w.client.disk.epoch <= 2
    requires w.session.Some? ==> 1 <= w.session.value.epoch <= U64_MAX
    ensures var w' := Next(w, step);
            && DiskCurrent(w') && w'.client.disk.epoch <= U64_MAX
            && (w'.session.Some? ==> 1 <= w'.session.value.epoch <= U64_MAX)
  {
    hide Sane, Handshake, Deliver;
    if step.Connect? {
      if w.session.Some? && w.session.value.instance != w.client.instance {
        RejoinDisk(w, step);
      } else {
        JoinDisk(w, step);
      }
    }
  }

  lemma {:induction false} DiskStaysCurrent(w: World, steps: seq<Step>)
    requires Sane(w) && FairRun(w, steps) && DiskCurrent(w) && NoLoss(steps)
    requires w.client.disk.epoch <= U64_MAX
    requires w.session.Some? ==> 1 <= w.session.value.epoch <= U64_MAX
    ensures Sane(Run(w, steps)) && DiskCurrent(Run(w, steps))
    decreases |steps|
  {
    hide Next, Fair, Sane, DiskCurrent;
    if |steps| == 0 {
    } else {
      StepSane(w, steps[0]);
      StepDisk(w, steps[0]);
      DiskStaysCurrent(Next(w, steps[0]), steps[1..]);
    }
  }

  lemma DiskNotRefused(w: World)
    requires Sane(w) && DiskCurrent(w)
    ensures !Refuses(w.session, w.client.instance, w.client.token)
  {
    hide HexDigit;
  }

  /** Somewhere along the run the client is turned away. */
  ghost predicate EverRefused(w: World, steps: seq<Step>) {
    exists n :: 0 <= n <= |steps| && RefusedNow(Run(w, steps[..n]))
  }

  predicate RefusedNow(w: World) {
    Refuses(w.session, w.client.instance, w.client.token)
  }

  lemma {:induction false} FairPrefix(w: World, steps: seq<Step>, n: nat)
    requires FairRun(w, steps) && n <= |steps|
    ensures FairRun(w, steps[..n])
    decreases n
  {
    hide Next, Fair;
    if n == 0 {
    } else {
      assert steps[..n][1..] == steps[1..][..n - 1];
      FairPrefix(Next(w, steps[0]), steps[1..], n - 1);
    }
  }

  lemma CurrentNeverRefused(w: World, steps: seq<Step>)
    requires Sane(w) && FairRun(w, steps) && DiskCurrent(w) && NoLoss(steps)
    requires w.client.disk.epoch <= U64_MAX
    requires w.session.Some? ==> 1 <= w.session.value.epoch <= U64_MAX
    ensures !EverRefused(w, steps)
  {
    hide Run, Sane, DiskCurrent, Fair, FairRun, Refuses;
    forall n | 0 <= n <= |steps| ensures !RefusedNow(Run(w, steps[..n])) {
      FairPrefix(w, steps, n);
      DiskStaysCurrent(w, steps[..n]);
      DiskNotRefused(Run(w, steps[..n]));
    }
  }

  /** What strands a client after the server lost a session whose epoch had grown: rejoin, take a new
      instance, rejoin and learn a new token that is not written because the epoch restarted, use it, and
      restart from disk. */
  function Stranding(a: string, b: string, t: Token): seq<Step> {
    [Connect(true, None, true), Rekey(a), Connect(true, Some(t), true), Connect(true, None, true), Restart(b)]
  }

  lemma StrandingRefused(w: World, a: string, b: string, t: Token)
    requires Sane(w) && w.session.None? && w.client.token != "" && w.client.disk.token == w.client.token
    requires w.client.disk.epoch > 2 && a != w.client.instance && b != a && WellFormed(t) && t !in w.used
    ensures FairRun(w, Stranding(a, b, t)) && RefusedNow(Run(w, Stranding(a, b, t)))
  {
    hide HexDigit;
    var old' := w.client.token;
    var s := Stranding(a, b, t);
    var w1 := Next(w, s[0]);
    assert w1 == w.(session := Some(Epoch(w.client.instance, 1, old', "")));
    var w2 := Next(w1, s[1]);
    var w3 := Next(w2, s[2]);
    assert w3.session == Some(Epoch(a, 2, old', t)) && w3.client == Client(a, t, w.client.disk);
    var w4 := Next(w3, s[3]);
    assert w4.session == Some(Epoch(a, 2, t, "")) && w4.client == w3.client;
    var w5 := Next(w4, s[4]);
    assert w5.client == Client(b, old', w.client.disk);
    Unroll(w, s, w1, w2, w3, w4, w5);
  }

  lemma Unroll(w: World, s: seq<Step>, w1: World, w2: World, w3: World, w4: World, w5: World)
    requires |s| == 5 && w1 == Next(w, s[0]) && w2 == Next(w1, s[1]) && w3 == Next(w2, s[2])
    requires w4 == Next(w3, s[3]) && w5 == Next(w4, s[4])
    ensures Run(w, s) == w5
    ensures FairRun(w, s) <==> Fair(w, s[0]) && Fair(w1, s[1]) && Fair(w2, s[2]) && Fair(w3, s[3]) && Fair(w4, s[4])
  {
    hide Next, Fair;
    var t1, t2, t3, t4 := s[1..], s[1..][1..], s[1..][1..][1..], s[1..][1..][1..][1..];
    assert t1[0] == s[1] && t2[0] == s[2] && t3[0] == s[3] && t4[0] == s[4] && t4[1..] == [];
    assert Run(w, s) == Run(w1, t1) == Run(w2, t2) == Run(w3, t3) == Run(w4, t4) == Run(w5, t4[1..]);
    assert FairRun(w5, t4[1..]);
    assert FairRun(w4, t4) == Fair(w4, s[4]);
    assert FairRun(w3, t3) == (Fair(w3, s[3]) && FairRun(w4, t4));
    assert FairRun(w2, t2) == (Fair(w2, s[2]) && FairRun(w3, t3));
    assert FairRun(w1, t1) == (Fair(w1, s[1]) && FairRun(w2, t2));
  }

  /** After the server lost a session, a client whose memory and disk hold the same token is safe in every
      future, restarts included, as long as this new session lives, if and only if the epoch recorded on
      disk is at most 2. */
  lemma LossSafeExactly(w: World, a: string, b: string, t: Token)
    requires Sane(w) && w.session.None? && w.client.token != "" && w.client.disk.token == w.client.token
    requires w.client.disk.epoch <= U64_MAX
    requires a != w.client.instance && b != a && WellFormed(t) && t !in w.used
    ensures (forall steps | FairRun(w, steps) && NoLoss(steps) :: !EverRefused(w, steps)) <==> w.client.disk.epoch <= 2
  {
    hide Run, Sane, Fair, FairRun, Refuses, WellFormed, Next;
    if w.client.disk.epoch <= 2 {
      forall steps | FairRun(w, steps) && NoLoss(steps) ensures !EverRefused(w, steps) {
        CurrentNeverRefused(w, steps);
      }
    } else {
      var steps := Stranding(a, b, t);
      StrandingRefused(w, a, b, t);
      assert steps[..|steps|] == steps;
      assert FairRun(w, steps) && NoLoss(steps) && EverRefused(w, steps);
    }
  }
}
