/** Enrollment of agents with one-time tokens: any number of concurrent attempts, failing at any step. */
module Enrollment {
  import opened Text
  import opened Json

  /** A row of enrollment_tokens. The hash stands for the secret: SHA-256 is taken as injective. */
  datatype Row = Row(hash: string, expiresAt: int, used: bool)

  /** How a statement ends: done; failed without effect; or done, with the answer lost. */
  datatype Fault = Fine | NotDone | AnswerLost

  datatype Built = Complete | SignedNothing | Incomplete

  /** What goes wrong after the claim. */
  datatype Late = SignFailed | NothingSigned | NoPem

  datatype Cause = BadInput | BadCsr | NoToken | StoreFailed | AfterClaim(late: Late)

  datatype Phase =
    | Waiting(hash: string)              // input checked, about to claim
    | Claimed(token: nat)
    | Signed(token: nat)
    | Releasing(token: nat, late: Late)
    | Succeeded(token: nat)
    | Failed(cause: Cause)

  /** One call of ProcessEnroll; its context may be cancelled at any time. */
  datatype Attempt = Attempt(phase: Phase, cancelled: bool)

  datatype System = System(
    rows: map<nat, Row>,
    now: int,
    attempts: map<nat, Attempt>,
    owner: map<nat, nat>,      // the attempt that claimed a token and has not given it up
    issued: map<nat, nat>,     // certificates signed on the strength of a token
    spoiled: map<nat, nat>)    // of those, the ones no answer could be built from

  const NO_TOKENS := System(map[], 0, map[], map[], map[], map[])

  /** What the coordinator is handed: the secret, and the CSR with what parsing makes of it. */
  datatype Request = Request(secret: string, csr: string, csrValid: bool, hostname: string)

  datatype Action =
    | Pass(seconds: nat)
    | Mint(id: nat, hash: string, expiresAt: int)
    | Arrive(p: nat, req: Request)
    | Cancel(p: nat)
    | Claim(p: nat, row: Option<nat>, fault: Fault)
    | Sign(p: nat, ok: bool)
    | Build(p: nat, built: Built)
    | Release(p: nat, fault: Fault)

  /** The WHERE clause of the claim. */
  predicate Claimable(rows: map<nat, Row>, now: int, id: nat, hash: string) {
    id in rows && rows[id].hash == hash && !rows[id].used && rows[id].expiresAt > now
  }

  predicate Matches(rows: map<nat, Row>, now: int, hash: string, row: Option<nat>) {
    match row
    case Some(id) => Claimable(rows, now, id, hash)
    case None => forall id | id in rows :: !Claimable(rows, now, id, hash)
  }

  predicate In(s: System, p: nat) { p in s.attempts }

  /** What each attempt may do next. A cancelled context fails signing and keeps statements from running. */
  predicate Enabled(s: System, a: Action) {
    match a
    case Pass(_) => true
    case Mint(id, hash, _) => id !in s.rows && forall i | i in s.rows :: s.rows[i].hash != hash
    case Arrive(p, _) => p !in s.attempts
    case Cancel(p) => In(s, p)
    case Claim(p, row, fault) =>
      In(s, p) && s.attempts[p].phase.Waiting? && Matches(s.rows, s.now, s.attempts[p].phase.hash, row)
      && (s.attempts[p].cancelled ==> fault == NotDone)
    case Sign(p, ok) => In(s, p) && s.attempts[p].phase.Claimed? && (s.attempts[p].cancelled ==> !ok)
    case Build(p, _) => In(s, p) && s.attempts[p].phase.Signed?
    case Release(p, fault) =>
      In(s, p) && s.attempts[p].phase.Releasing? && (s.attempts[p].cancelled ==> fault == NotDone)
  }

  /** The checks before the claim. */
  function Checked(req: Request): Phase {
    if TrimSpace(req.secret) == "" || TrimSpace(req.csr) == "" then Failed(BadInput)
    else if !req.csrValid || TrimSpace(req.hostname) == "" then Failed(BadCsr)
    else Waiting(TrimSpace(req.secret))
  }

  function SetUsed(rows: map<nat, Row>, id: nat, used: bool): map<nat, Row> {
    if id in rows then rows[id := rows[id].(used := used)] else rows
  }

  function Goto(s: System, p: nat, phase: Phase): System
    requires In(s, p)
  {
    s.(attempts := s.attempts[p := s.attempts[p].(phase := phase)])
  }

  function Tally(m: map<nat, nat>, id: nat): nat { if id in m then m[id] else 0 }

  function Step(s: System, a: Action): System {
    if !Enabled(s, a) then s
    else
      match a
      case Pass(seconds) => s.(now := s.now + seconds)
      case Mint(id, hash, expiresAt) => s.(rows := s.rows[id := Row(hash, expiresAt, false)])
      case Arrive(p, req) => s.(attempts := s.attempts[p := Attempt(Checked(req), false)])
      case Cancel(p) => s.(attempts := s.attempts[p := s.attempts[p].(cancelled := true)])
      case Claim(p, row, fault) => ClaimStep(s, p, row, fault)
      case Sign(p, ok) =>
        var id := s.attempts[p].phase.token;
        if ok then Goto(s, p, Signed(id)).(issued := s.issued[id := Tally(s.issued, id) + 1])
        else Goto(s, p, Releasing(id, SignFailed))
      case Build(p, built) =>
        var id := s.attempts[p].phase.token;
        if built == Complete then Goto(s, p, Succeeded(id))
        else Goto(s, p, Releasing(id, if built == SignedNothing then NothingSigned else NoPem))
             .(spoiled := s.spoiled[id := Tally(s.spoiled, id) + 1])
      case Release(p, fault) =>
        var ph := s.attempts[p].phase;
        Goto(s, p, Failed(AfterClaim(ph.late)))
        .(rows := if fault == NotDone then s.rows else SetUsed(s.rows, ph.token, false),
          owner := s.owner - {ph.token})
  }

  function ClaimStep(s: System, p: nat, row: Option<nat>, fault: Fault): System
    requires In(s, p)
  {
    match fault
    case NotDone => Goto(s, p, Failed(StoreFailed))
    case AnswerLost =>
      Goto(s, p, Failed(StoreFailed)).(rows := if row.Some? then SetUsed(s.rows, row.value, true) else s.rows)
    case Fine =>
      if row.None? then Goto(s, p, Failed(NoToken))
      else Goto(s, p, Claimed(row.value))
           .(rows := SetUsed(s.rows, row.value, true), owner := s.owner[row.value := p])
  }

  function Play(s: System, run: seq<Action>): System {
    if run == [] then s else Step(Play(s, run[..|run| - 1]), run[|run| - 1])
  }

  function After(run: seq<Action>): System { Play(NO_TOKENS, run) }

  predicate HasActor(a: Action) { !a.Pass? && !a.Mint? }

  /** A step moves one attempt at most. */
  lemma {:induction false} OthersStay(s: System, a: Action, p: nat)
    requires !HasActor(a) || a.p != p
    ensures In(Step(s, a), p) <==> In(s, p)
    ensures In(s, p) ==> Step(s, a).attempts[p] == s.attempts[p]
  {
  }

  // ---------------------------------------------------------------- what every step keeps

  predicate Holds(s: System, p: nat, id: nat) {
    In(s, p)
    && match s.attempts[p].phase
       case Claimed(t) => t == id
       case Signed(t) => t == id
       case Releasing(t, _) => t == id
       case Succeeded(t) => t == id
       case _ => false
  }

  /** An attempt that holds a token owns it, and its row is used. */
  ghost predicate HolderInv(s: System, p: nat, id: nat) {
    Holds(s, p, id) <==> id in s.owner && s.owner[id] == p
  }

  ghost predicate TokenInv(s: System, id: nat) {
    && (id in s.owner ==> id in s.rows && s.rows[id].used)
    && Tally(s.issued, id) == Tally(s.spoiled, id) + Standing(s, id)
  }

  /** One if the holder of a token has a certificate that may yet be, or was, handed out. */
  function Standing(s: System, id: nat): nat {
    if id in s.owner && In(s, s.owner[id])
       && (s.attempts[s.owner[id]].phase.Signed? || s.attempts[s.owner[id]].phase.Succeeded?) then 1 else 0
  }

  ghost predicate UniqueHashes(s: System) {
    forall i, j | i in s.rows && j in s.rows && s.rows[i].hash == s.rows[j].hash :: i == j
  }

  ghost predicate Inv(s: System) {
    && (forall p, id :: HolderInv(s, p, id))
    && (forall id :: TokenInv(s, id))
    && UniqueHashes(s)
  }

  /** What a step of attempt q about token t leaves alone. */
  ghost predicate Local(s: System, r: System, q: nat, t: nat) {
    && r.attempts.Keys == s.attempts.Keys
    && (forall p | p in s.attempts && p != q :: r.attempts[p] == s.attempts[p])
    && (forall id | id in s.owner && id != t :: id in r.owner && r.owner[id] == s.owner[id])
    && (forall id | id in r.owner && id != t :: id in s.owner)
    && r.rows.Keys == s.rows.Keys
    && (forall id | id in s.rows && id != t :: r.rows[id] == s.rows[id])
    && (forall id | id != t :: Tally(r.issued, id) == Tally(s.issued, id) && Tally(r.spoiled, id) == Tally(s.spoiled, id))
  }

  /** A step of the holder, which stays the holder or stops being it, keeps the invariant. */
  lemma {:induction false} LocalKeepsHolder(s: System, r: System, q: nat, t: nat, p: nat, id: nat)
    requires Inv(s) && Local(s, r, q, t) && q in s.attempts
    requires t in s.owner ==> s.owner[t] == q
    requires forall i | i != t :: !Holds(s, q, i) && !Holds(r, q, i)
    requires HolderInv(r, q, t) && (t in r.owner ==> r.owner[t] == q)
    ensures HolderInv(r, p, id)
  {
    assert HolderInv(s, p, id);
  }

  lemma {:induction false} LocalKeepsToken(s: System, r: System, q: nat, t: nat, id: nat)
    requires Inv(s) && Local(s, r, q, t) && id != t
    requires forall i | i != t :: !Holds(s, q, i)
    ensures TokenInv(r, id)
  {
    assert TokenInv(s, id);
    if id in s.owner { assert HolderInv(s, s.owner[id], id); }
  }

  lemma {:induction false} LocalKeepsInv(s: System, r: System, q: nat, t: nat)
    requires Inv(s) && Local(s, r, q, t) && q in s.attempts
    requires t in s.owner ==> s.owner[t] == q
    requires forall i | i != t :: !Holds(s, q, i) && !Holds(r, q, i)
    requires HolderInv(r, q, t) && (t in r.owner ==> r.owner[t] == q) && TokenInv(r, t)
    requires t in s.rows ==> r.rows[t].hash == s.rows[t].hash
    ensures Inv(r)
  {
    forall p, id ensures HolderInv(r, p, id) { LocalKeepsHolder(s, r, q, t, p, id); }
    forall id ensures TokenInv(r, id) { if id != t { LocalKeepsToken(s, r, q, t, id); } }
  }

  lemma {:induction false} ClaimKeepsInv(s: System, q: nat, t: nat, fault: Fault)
    requires Inv(s) && Enabled(s, Claim(q, Some(t), fault))
    ensures Inv(Step(s, Claim(q, Some(t), fault)))
  {
    assert HolderInv(s, q, t) && TokenInv(s, t);
    LocalKeepsInv(s, ClaimStep(s, q, Some(t), fault), q, t);
  }

  lemma {:induction false} SignKeepsInv(s: System, q: nat, ok: bool)
    requires Inv(s) && Enabled(s, Sign(q, ok))
    ensures Inv(Step(s, Sign(q, ok)))
  {
    var t := s.attempts[q].phase.token;
    assert HolderInv(s, q, t) && TokenInv(s, t);
    LocalKeepsInv(s, Step(s, Sign(q, ok)), q, t);
  }

  lemma {:induction false} BuildKeepsInv(s: System, q: nat, built: Built)
    requires Inv(s) && Enabled(s, Build(q, built))
    ensures Inv(Step(s, Build(q, built)))
  {
    var t := s.attempts[q].phase.token;
    assert HolderInv(s, q, t) && TokenInv(s, t);
    LocalKeepsInv(s, Step(s, Build(q, built)), q, t);
  }

  lemma {:induction false} ReleaseKeepsInv(s: System, q: nat, fault: Fault)
    requires Inv(s) && Enabled(s, Release(q, fault))
    ensures Inv(Step(s, Release(q, fault)))
  {
    var t := s.attempts[q].phase.token;
    assert HolderInv(s, q, t) && TokenInv(s, t);
    LocalKeepsInv(s, Step(s, Release(q, fault)), q, t);
  }

  /** The token an action is about. */
  function TokenOf(s: System, a: Action): Option<nat> {
    if !Enabled(s, a) then None
    else
      match a
      case Claim(_, row, _) => row
      case Sign(p, _) => Some(s.attempts[p].phase.token)
      case Build(p, _) => Some(s.attempts[p].phase.token)
      case Release(p, _) => Some(s.attempts[p].phase.token)
      case _ => None
  }

  /** A step about a token leaves everything else alone. */
  lemma {:induction false} TokenStepIsLocal(s: System, a: Action)
    requires TokenOf(s, a).Some?
    ensures HasActor(a) && In(s, a.p) && Local(s, Step(s, a), a.p, TokenOf(s, a).value)
    ensures forall i: nat | i != TokenOf(s, a).value :: !Holds(Step(s, a), a.p, i)
  {
    match a
    case Claim(p, row, fault) => ClaimIsLocal(s, p, row.value, fault);
    case Sign(p, ok) => SignIsLocal(s, p, ok);
    case Build(p, built) => BuildIsLocal(s, p, built);
    case Release(p, fault) => ReleaseIsLocal(s, p, fault);
  }

  lemma {:induction false} SignIsLocal(s: System, p: nat, ok: bool)
    requires Enabled(s, Sign(p, ok))
    ensures var t, r := s.attempts[p].phase.token, Step(s, Sign(p, ok));
      Local(s, r, p, t) && forall i: nat | i != t :: !Holds(r, p, i)
  {
  }

  lemma {:induction false} BuildIsLocal(s: System, p: nat, built: Built)
    requires Enabled(s, Build(p, built))
    ensures var t, r := s.attempts[p].phase.token, Step(s, Build(p, built));
      Local(s, r, p, t) && forall i: nat | i != t :: !Holds(r, p, i)
  {
  }

  lemma {:induction false} ReleaseIsLocal(s: System, p: nat, fault: Fault)
    requires Enabled(s, Release(p, fault))
    ensures var t, r := s.attempts[p].phase.token, Step(s, Release(p, fault));
      Local(s, r, p, t) && forall i: nat | i != t :: !Holds(r, p, i)
  {
  }

  lemma {:induction false} ClaimIsLocal(s: System, p: nat, t: nat, fault: Fault)
    requires Enabled(s, Claim(p, Some(t), fault))
    ensures Local(s, ClaimStep(s, p, Some(t), fault), p, t)
    ensures forall i: nat | i != t :: !Holds(ClaimStep(s, p, Some(t), fault), p, i)
  {
  }

  /** The steps that are about no token. */
  predicate Plain(a: Action) { a.Pass? || a.Mint? || a.Arrive? || a.Cancel? || (a.Claim? && a.row.None?) }

  lemma {:induction false} PlainKeepsHolder(s: System, a: Action, p: nat, id: nat)
    requires Inv(s) && Plain(a)
    ensures HolderInv(Step(s, a), p, id)
  {
    assert HolderInv(s, p, id);
  }

  lemma {:induction false} PlainKeepsToken(s: System, a: Action, id: nat)
    requires Inv(s) && Plain(a)
    ensures TokenInv(Step(s, a), id)
  {
    assert TokenInv(s, id);
    if id in s.owner { assert HolderInv(s, s.owner[id], id); }
  }

  lemma {:induction false} PlainKeepsInv(s: System, a: Action)
    requires Inv(s) && Plain(a)
    ensures Inv(Step(s, a))
  {
    forall p, id ensures HolderInv(Step(s, a), p, id) { PlainKeepsHolder(s, a, p, id); }
    forall id ensures TokenInv(Step(s, a), id) { PlainKeepsToken(s, a, id); }
  }

  lemma {:induction false} StepKeepsInv(s: System, a: Action)
    requires Inv(s)
    ensures Inv(Step(s, a))
  {
    if Plain(a) {
      PlainKeepsInv(s, a);
    } else if Enabled(s, a) {
      match a
      case Claim(q, row, fault) => ClaimKeepsInv(s, q, row.value, fault);
      case Sign(q, ok) => SignKeepsInv(s, q, ok);
      case Build(q, built) => BuildKeepsInv(s, q, built);
      case Release(q, fault) => ReleaseKeepsInv(s, q, fault);
    }
  }

  lemma {:induction false} RunKeepsInv(run: seq<Action>)
    ensures Inv(After(run))
  {
    if run != [] {
      RunKeepsInv(run[..|run| - 1]);
      StepKeepsInv(After(run[..|run| - 1]), run[|run| - 1]);
    }
  }

  // ---------------------------------------------------------------- one token, one enrollment

  /** However attempts interleave and fail, two successes with one token are the same attempt. */
  lemma {:induction false} OneSuccessPerToken(run: seq<Action>, p: nat, q: nat, id: nat)
    requires In(After(run), p) && In(After(run), q)
    requires After(run).attempts[p].phase == Succeeded(id) && After(run).attempts[q].phase == Succeeded(id)
    ensures p == q
  {
    RunKeepsInv(run);
    assert HolderInv(After(run), p, id) && HolderInv(After(run), q, id);
  }

  lemma {:induction false} StepKeepsSuccess(s: System, a: Action, p: nat)
    requires In(s, p) && s.attempts[p].phase.Succeeded?
    ensures In(Step(s, a), p) && Step(s, a).attempts[p].phase == s.attempts[p].phase
  {
  }

  lemma {:induction false} SuccessStays(run: seq<Action>, k: nat, p: nat)
    requires k <= |run| && In(After(run[..k]), p) && After(run[..k]).attempts[p].phase.Succeeded?
    ensures In(After(run), p) && After(run).attempts[p].phase == After(run[..k]).attempts[p].phase
  {
    if k == |run| {
      assert run[..k] == run;
    } else {
      assert run[..|run| - 1][..k] == run[..k];
      SuccessStays(run[..|run| - 1], k, p);
      StepKeepsSuccess(After(run[..|run| - 1]), run[|run| - 1], p);
    }
  }

  lemma {:induction false} HeldTokenIsUsed(s: System, p: nat, id: nat)
    requires Inv(s) && Holds(s, p, id)
    ensures id in s.rows && s.rows[id].used
  {
    assert HolderInv(s, p, id) && TokenInv(s, id);
  }

  /** A success is for good: its token stays used whatever happens later. */
  lemma {:induction false} SuccessIsFinal(run: seq<Action>, k: nat, p: nat, id: nat)
    requires k <= |run| && In(After(run[..k]), p) && After(run[..k]).attempts[p].phase == Succeeded(id)
    ensures In(After(run), p) && After(run).attempts[p].phase == Succeeded(id)
    ensures id in After(run).rows && After(run).rows[id].used
  {
    SuccessStays(run, k, p);
    RunKeepsInv(run);
    HeldTokenIsUsed(After(run), p, id);
  }

  /** A release frees the claim of the attempt that releases, and no row that another attempt holds. */
  lemma {:induction false} ReleaseFreesOnlyItsOwn(run: seq<Action>, p: nat, fault: Fault, id: nat)
    requires Enabled(After(run), Release(p, fault)) && id in After(run).rows
    requires Step(After(run), Release(p, fault)).rows[id] != After(run).rows[id]
    ensures Holds(After(run), p, id) && forall q | q != p :: !Holds(After(run), q, id)
  {
    RunKeepsInv(run);
    assert HolderInv(After(run), p, id);
    forall q | q != p ensures !Holds(After(run), q, id) { assert HolderInv(After(run), q, id); }
  }

  /** The same secret works again exactly when the release took effect and the token has not expired. */
  lemma {:induction false} RetryIffReleased(run: seq<Action>, p: nat, fault: Fault)
    requires Enabled(After(run), Release(p, fault))
    ensures var s := After(run);
      var id := s.attempts[p].phase.token;
      var t := Step(s, Release(p, fault));
      id in s.rows
      && (Claimable(t.rows, t.now, id, s.rows[id].hash) <==> fault != NotDone && s.rows[id].expiresAt > s.now)
  {
    RunKeepsInv(run);
    var id := After(run).attempts[p].phase.token;
    assert HolderInv(After(run), p, id) && TokenInv(After(run), id);
  }

  /** Certificates signed for a token: one for each that could not be delivered, and at most one more. */
  lemma {:induction false} CertificatesPerToken(run: seq<Action>, id: nat)
    ensures Tally(After(run).issued, id) == Tally(After(run).spoiled, id) + Standing(After(run), id)
  {
    RunKeepsInv(run);
    assert TokenInv(After(run), id);
  }

  // ---------------------------------------------------------------- tokens that never come back

  /** Nobody holds the token, or only an attempt whose cancelled context rules out both signing and releasing. */
  predicate Lost(s: System, id: nat) {
    id in s.rows && s.rows[id].used
    && (id in s.owner ==>
          In(s, s.owner[id]) && s.attempts[s.owner[id]].cancelled
          && (s.attempts[s.owner[id]].phase.Claimed? || s.attempts[s.owner[id]].phase.Releasing?))
  }

  lemma {:induction false} StepKeepsLost(s: System, a: Action, id: nat)
    requires Inv(s) && Lost(s, id)
    ensures Lost(Step(s, a), id)
  {
    if id in s.owner { OwnerHolds(s, s.owner[id], id); }
    if TokenOf(s, a) == Some(id) {
      HereKeepsLost(s, a, id);
    } else if TokenOf(s, a).Some? {
      ElsewhereKeepsLost(s, a, id);
    } else {
      PlainKeepsLost(s, a, id);
    }
  }

  lemma {:induction false} PlainKeepsLost(s: System, a: Action, id: nat)
    requires Lost(s, id) && TokenOf(s, a).None?
    ensures Lost(Step(s, a), id)
  {
  }

  lemma {:induction false} ElsewhereKeepsLost(s: System, a: Action, id: nat)
    requires Inv(s) && Lost(s, id) && TokenOf(s, a).Some? && TokenOf(s, a) != Some(id)
    ensures Lost(Step(s, a), id)
  {
    TokenStepIsLocal(s, a);
    if id in s.owner && s.owner[id] == a.p {
      OwnerHolds(s, a.p, id);
      OneToken(s, a, id);
    }
  }

  /** Who is about to do something with one token holds no other. */
  lemma {:induction false} OneToken(s: System, a: Action, id: nat)
    requires TokenOf(s, a).Some? && TokenOf(s, a) != Some(id)
    ensures HasActor(a) && !Holds(s, a.p, id)
  {
  }

  lemma {:induction false} HereKeepsLost(s: System, a: Action, id: nat)
    requires Inv(s) && Lost(s, id) && TokenOf(s, a) == Some(id)
    ensures Lost(Step(s, a), id)
  {
    AboutToken(s, a, id);
    OwnerHolds(s, a.p, id);
  }

  lemma {:induction false} OwnerHolds(s: System, p: nat, id: nat)
    requires Inv(s)
    ensures Holds(s, p, id) <==> id in s.owner && s.owner[id] == p
  {
    assert HolderInv(s, p, id);
  }

  /** A claim is of a token that is not used, and everything else is done by who holds the token. */
  lemma {:induction false} AboutToken(s: System, a: Action, id: nat)
    requires TokenOf(s, a) == Some(id)
    ensures if a.Claim? then id in s.rows && !s.rows[id].used && s.attempts[a.p].phase.Waiting? else Holds(s, a.p, id)
  {
    if a.Claim? { assert Claimable(s.rows, s.now, id, s.attempts[a.p].phase.hash); }
  }

  lemma {:induction false} LostIsNotFreed(s: System, a: Action, id: nat)
    requires Inv(s) && Lost(s, id)
    ensures !Sets(s, a, id) && !Frees(s, a, id)
  {
    if TokenOf(s, a) == Some(id) {
      AboutToken(s, a, id);
      OwnerHolds(s, a.p, id);
    }
  }

  lemma {:induction false} LostStaysLost(run: seq<Action>, k: nat, p: nat, id: nat)
    requires k <= |run| && In(After(run[..k]), p)
    requires After(run[..k]).attempts[p] == Attempt(Claimed(id), true)
    ensures Lost(After(run), id) && LastClaim(run, id) == Some(p)
  {
    if k == |run| {
      assert run[..k] == run;
      RunKeepsInv(run);
      RunKeepsClaim(run, id);
      assert Holds(After(run), p, id);
      assert HolderInv(After(run), p, id) && TokenInv(After(run), id);
    } else {
      var most := run[..|run| - 1];
      assert most[..k] == run[..k];
      LostStaysLost(most, k, p, id);
      RunKeepsInv(most);
      StepKeepsLost(After(most), run[|run| - 1], id);
      LostIsNotFreed(After(most), run[|run| - 1], id);
    }
  }

  /** The comment on ProcessEnroll promises that a claim is released when signing fails. It is not when the request is
      cancelled between the claim and the signature: the token is then used for good and enrolls nobody. */
  lemma {:induction false} CancelledRequestLosesToken(run: seq<Action>, k: nat, p: nat, id: nat, q: nat)
    requires k <= |run| && In(After(run[..k]), p)
    requires After(run[..k]).attempts[p] == Attempt(Claimed(id), true)
    ensures id in After(run).rows && After(run).rows[id].used
    ensures LastClaim(run, id) == Some(p)
    ensures Holds(After(run), q, id) ==> !After(run).attempts[q].phase.Signed?
    ensures Holds(After(run), q, id) ==> !After(run).attempts[q].phase.Succeeded?
  {
    LostStaysLost(run, k, p, id);
    RunKeepsInv(run);
    assert HolderInv(After(run), q, id);
  }

  // ---------------------------------------------------------------- tokens used for nothing

  /** An action that marks a token used, or frees it. */
  predicate Sets(s: System, a: Action, id: nat) {
    Enabled(s, a) && a.Claim? && a.row == Some(id) && a.fault != NotDone
  }

  predicate Frees(s: System, a: Action, id: nat) {
    Enabled(s, a) && a.Release? && s.attempts[a.p].phase.token == id && a.fault != NotDone
  }

  /** The attempt whose claim of a token took effect last, unless a release did since. */
  function NextClaim(s: System, a: Action, id: nat, c: Option<nat>): Option<nat> {
    if Sets(s, a, id) then Some(a.p) else if Frees(s, a, id) then None else c
  }

  function LastClaim(run: seq<Action>, id: nat): Option<nat> {
    if run == [] then None
    else NextClaim(After(run[..|run| - 1]), run[|run| - 1], id, LastClaim(run[..|run| - 1], id))
  }

  predicate IsUsed(s: System, id: nat) { id in s.rows && s.rows[id].used }

  /** A token is used exactly if a claim stands; the attempt that made it holds the token or has failed, and nobody else
      holds it. */
  ghost predicate ClaimInv(s: System, c: Option<nat>, id: nat) {
    && (IsUsed(s, id) <==> c.Some?)
    && (c.Some? ==> In(s, c.value) && (Holds(s, c.value, id) || s.attempts[c.value].phase.Failed?))
    && forall q: nat | Holds(s, q, id) :: c == Some(q)
  }

  /** A step about another token, or none. */
  lemma {:induction false} ElsewhereKeepsClaim(s: System, a: Action, id: nat, c: Option<nat>)
    requires Inv(s) && ClaimInv(s, c, id) && TokenOf(s, a) != Some(id)
    ensures ClaimInv(Step(s, a), NextClaim(s, a, id, c), id)
  {
    assert TokenInv(s, id);
    forall q: nat | Holds(Step(s, a), q, id) ensures c == Some(q) { ElsewhereHolds(s, a, id, q); }
    if c.Some? { ElsewhereStays(s, a, id, c.value); }
    ElsewhereUsed(s, a, id);
  }

  lemma {:induction false} ElsewhereHolds(s: System, a: Action, id: nat, q: nat)
    requires TokenOf(s, a) != Some(id) && Holds(Step(s, a), q, id)
    ensures Holds(s, q, id)
  {
    if TokenOf(s, a).Some? { TokenStepIsLocal(s, a); } else { PlainHolds(s, a, id, q); }
  }

  lemma {:induction false} PlainHolds(s: System, a: Action, id: nat, q: nat)
    requires TokenOf(s, a).None?
    ensures Holds(Step(s, a), q, id) <==> Holds(s, q, id)
  {
    if !HasActor(a) || a.p != q { OthersStay(s, a, q); }
  }

  lemma {:induction false} ElsewhereStays(s: System, a: Action, id: nat, p: nat)
    requires TokenOf(s, a) != Some(id) && In(s, p) && (Holds(s, p, id) || s.attempts[p].phase.Failed?)
    ensures In(Step(s, a), p) && (Holds(Step(s, a), p, id) || Step(s, a).attempts[p].phase.Failed?)
  {
    if TokenOf(s, a).Some? {
      TokenStepIsLocal(s, a);
      OneToken(s, a, id);
    } else {
      PlainHolds(s, a, id, p);
      if !HasActor(a) || a.p != p { OthersStay(s, a, p); }
    }
  }

  lemma {:induction false} ElsewhereUsed(s: System, a: Action, id: nat)
    requires TokenOf(s, a) != Some(id)
    ensures IsUsed(Step(s, a), id) <==> IsUsed(s, id)
  {
    if TokenOf(s, a).Some? { TokenStepIsLocal(s, a); }
  }

  /** A step about the token itself. */
  lemma {:induction false} HereKeepsClaim(s: System, a: Action, id: nat, c: Option<nat>)
    requires Inv(s) && ClaimInv(s, c, id) && TokenOf(s, a) == Some(id)
    ensures ClaimInv(Step(s, a), NextClaim(s, a, id, c), id)
  {
    AboutToken(s, a, id);
    forall q: nat | Holds(Step(s, a), q, id) ensures NextClaim(s, a, id, c) == Some(q) {
      if q != a.p { HoldsStill(s, a, id, q); }
    }
    assert if a.Claim? then c == None else c == Some(a.p);
  }

  lemma {:induction false} HoldsStill(s: System, a: Action, id: nat, q: nat)
    requires TokenOf(s, a) == Some(id) && HasActor(a) && q != a.p && Holds(Step(s, a), q, id)
    ensures Holds(s, q, id)
  {
    OthersStay(s, a, q);
  }

  lemma {:induction false} RunKeepsClaim(run: seq<Action>, id: nat)
    ensures ClaimInv(After(run), LastClaim(run, id), id)
  {
    if run != [] {
      var most, a := run[..|run| - 1], run[|run| - 1];
      RunKeepsClaim(most, id);
      RunKeepsInv(most);
      if TokenOf(After(most), a) == Some(id) {
        HereKeepsClaim(After(most), a, id, LastClaim(most, id));
      } else {
        ElsewhereKeepsClaim(After(most), a, id, LastClaim(most, id));
      }
    }
  }

  /** Used, and neither enrolled with nor about to be. */
  ghost predicate UsedForNothing(s: System, id: nat) { IsUsed(s, id) && forall q :: !Holds(s, q, id) }

  predicate HasFailed(s: System, p: nat) { In(s, p) && s.attempts[p].phase.Failed? }

  /** In every run: a token is used although nobody enrolled with it or still might, exactly if the last claim of it that
      took effect was not followed by a release that did, and its attempt has failed. */
  lemma {:induction false} UsedForNothingIff(run: seq<Action>, id: nat)
    ensures UsedForNothing(After(run), id)
       <==> LastClaim(run, id).Some? && HasFailed(After(run), LastClaim(run, id).value)
  {
    RunKeepsClaim(run, id);
    var c := LastClaim(run, id);
    if c.Some? && UsedForNothing(After(run), id) { assert !Holds(After(run), c.value, id); }
  }

  /** Such a token never comes back. */
  lemma {:induction false} UsedForNothingIsFinal(run: seq<Action>, k: nat, id: nat)
    requires k <= |run| && UsedForNothing(After(run[..k]), id)
    ensures UsedForNothing(After(run), id)
  {
    if k == |run| {
      assert run[..k] == run;
    } else {
      var most, a := run[..|run| - 1], run[|run| - 1];
      assert most[..k] == run[..k];
      UsedForNothingIsFinal(most, k, id);
      assert TokenOf(After(most), a) != Some(id) by { NothingAboutIt(After(most), a, id); }
      ElsewhereUsed(After(most), a, id);
      forall q ensures !Holds(After(run), q, id) {
        if Holds(After(run), q, id) { ElsewhereHolds(After(most), a, id, q); }
      }
    }
  }

  lemma {:induction false} NothingAboutIt(s: System, a: Action, id: nat)
    requires UsedForNothing(s, id)
    ensures TokenOf(s, a) != Some(id)
  {
    if TokenOf(s, a) == Some(id) { AboutToken(s, a, id); }
  }

  // ---------------------------------------------------------------- what the client is told

  /** MapProcessEnrollHTTP */
  function Status(phase: Phase): int {
    match phase
    case Succeeded(_) => 200
    case Failed(NoToken) => 401
    case Failed(BadCsr) => 400
    case _ => 502
  }

  lemma {:induction false} WhatFails(s: System, a: Action, p: nat)
    requires Enabled(s, a) && In(Step(s, a), p) && Step(s, a).attempts[p].phase.Failed?
    requires In(s, p) ==> !s.attempts[p].phase.Failed?
    ensures (a.Arrive? || a.Claim? || a.Release?) && a.p == p
  {
    if !HasActor(a) || a.p != p { OthersStay(s, a, p); }
  }

  /** An attempt that ends with 400 or 401 leaves every token as it was; and 401 is answered exactly when, at the time
      of the claim, no unused, unexpired token had the presented hash. */
  lemma {:induction false} ClientErrorsTouchNoToken(s: System, a: Action, p: nat)
    requires Enabled(s, a) && In(Step(s, a), p) && Step(s, a).attempts[p].phase.Failed?
    requires In(s, p) ==> !s.attempts[p].phase.Failed?
    ensures Status(Step(s, a).attempts[p].phase) in {400, 401} ==> Step(s, a).rows == s.rows
    ensures Status(Step(s, a).attempts[p].phase) == 401 <==>
      In(s, p) && s.attempts[p].phase.Waiting? && a.Claim? && a.fault == Fine
      && forall id | id in s.rows :: !Claimable(s.rows, s.now, id, s.attempts[p].phase.hash)
  {
    WhatFails(s, a, p);
    match a
    case Arrive(_, req) =>
    case Claim(_, row, fault) => ClaimFailure(s, p, row, fault);
    case Release(_, fault) =>
  }

  lemma {:induction false} ClaimFailure(s: System, p: nat, row: Option<nat>, fault: Fault)
    requires Enabled(s, Claim(p, row, fault)) && ClaimStep(s, p, row, fault).attempts[p].phase.Failed?
    ensures var t := ClaimStep(s, p, row, fault); var hash := s.attempts[p].phase.hash;
      && (Status(t.attempts[p].phase) in {400, 401} ==> t.rows == s.rows)
      && (Status(t.attempts[p].phase) == 401 <==>
            fault == Fine && forall id | id in s.rows :: !Claimable(s.rows, s.now, id, hash))
  {
    assert row.Some? ==> Claimable(s.rows, s.now, row.value, s.attempts[p].phase.hash);
  }

  // ---------------------------------------------------------------- the store and one call

  /** The rows after an UPDATE that hit this row, or none. */
  function Marked(rows: map<nat, Row>, hit: Option<nat>): map<nat, Row> {
    if hit.Some? then SetUsed(rows, hit.value, true) else rows
  }

  class TokenStore {
    var rows: map<nat, Row>
    var now: int

    constructor ()
      ensures rows == map[]
    {
      rows, now := map[], 0;
    }

    /** One UPDATE: of the rows with the hash, at most one is unused and unexpired; that is the one hit. */
    method ClaimByPresentationHash(hash: string, fault: Fault) returns (ok: bool, row: Option<nat>, ghost hit: Option<nat>)
      modifies this`rows
      ensures Matches(old(rows), now, hash, hit)
      ensures ok == (fault == Fine) && (ok ==> row == hit)
      ensures rows == if fault == NotDone then old(rows) else Marked(old(rows), hit)
      ensures rows.Keys == old(rows).Keys
      ensures forall i | i in rows ::
        rows[i] == if fault != NotDone && hit == Some(i) then Row(hash, old(rows)[i].expiresAt, true) else old(rows)[i]
    {
      row, hit := None, None;
      if id :| id in rows && Claimable(rows, now, id, hash) {
        hit := Some(id);
        if fault != NotDone {
          rows := rows[id := rows[id].(used := true)];
          row := Some(id);
        }
      }
      ok := fault == Fine;
    }

    method ReleaseClaim(id: nat, fault: Fault) returns (ok: bool)
      modifies this`rows
      ensures rows == if fault == NotDone then old(rows) else SetUsed(old(rows), id, false)
      ensures rows.Keys == old(rows).Keys
      ensures forall i | i in rows ::
        rows[i] == if fault != NotDone && i == id then Row(old(rows)[i].hash, old(rows)[i].expiresAt, false) else old(rows)[i]
      ensures ok == (fault == Fine && id in old(rows) && old(rows)[id].used)
    {
      var affected := 0;
      if fault != NotDone && id in rows && rows[id].used {
        rows := rows[id := rows[id].(used := false)];
        affected := 1;
      }
      ok := fault == Fine && affected == 1;
    }
  }

  /** What is reported of a signing or response that failed. */
  function LateFailure(signOk: bool, built: Built): Late {
    if !signOk then SignFailed else if built == SignedNothing then NothingSigned else NoPem
  }

  // ----- a call is a run of the machine -----

  predicate AllOf(run: seq<Action>, p: nat) {
    forall a | a in run :: !a.Pass? && !a.Mint? && !a.Cancel? && a.p == p
  }

  /** The run leaves the attempt in this phase, not cancelled, and the tokens like this. */
  predicate Reaches(s: System, run: seq<Action>, p: nat, phase: Phase, rows: map<nat, Row>) {
    var t := Play(s, run);
    In(t, p) && t.attempts[p] == Attempt(phase, false) && t.rows == rows && t.now == s.now
  }

  lemma {:induction false} PlaySnoc(s: System, run: seq<Action>, a: Action)
    ensures Play(s, run + [a]) == Step(Play(s, run), a)
  {
    assert (run + [a])[..|run|] == run;
  }

  lemma {:induction false} Arrives(s: System, p: nat, req: Request)
    requires p !in s.attempts
    ensures Reaches(s, [Arrive(p, req)], p, Checked(req), s.rows)
  {
    PlaySnoc(s, [], Arrive(p, req));
    assert [] + [Arrive(p, req)] == [Arrive(p, req)];
  }

  lemma {:induction false} Claims(s: System, run: seq<Action>, p: nat, hash: string, hit: Option<nat>, fault: Fault)
    requires Reaches(s, run, p, Waiting(hash), s.rows) && Matches(s.rows, s.now, hash, hit)
    ensures Reaches(s, run + [Claim(p, hit, fault)], p,
                    if fault != Fine then Failed(StoreFailed) else if hit.None? then Failed(NoToken) else Claimed(hit.value),
                    if fault == NotDone then s.rows else Marked(s.rows, hit))
  {
    PlaySnoc(s, run, Claim(p, hit, fault));
  }

  lemma {:induction false} Signs(s: System, run: seq<Action>, p: nat, id: nat, ok: bool, rows: map<nat, Row>)
    requires Reaches(s, run, p, Claimed(id), rows)
    ensures Reaches(s, run + [Sign(p, ok)], p, if ok then Signed(id) else Releasing(id, SignFailed), rows)
  {
    PlaySnoc(s, run, Sign(p, ok));
  }

  lemma {:induction false} Builds(s: System, run: seq<Action>, p: nat, id: nat, built: Built, rows: map<nat, Row>)
    requires Reaches(s, run, p, Signed(id), rows)
    ensures Reaches(s, run + [Build(p, built)], p,
                    if built == Complete then Succeeded(id)
                    else Releasing(id, if built == SignedNothing then NothingSigned else NoPem), rows)
  {
    PlaySnoc(s, run, Build(p, built));
  }

  lemma {:induction false} Releases(s: System, run: seq<Action>, p: nat, id: nat, late: Late, fault: Fault,
                                    rows: map<nat, Row>)
    requires Reaches(s, run, p, Releasing(id, late), rows)
    ensures Reaches(s, run + [Release(p, fault)], p, Failed(AfterClaim(late)),
                    if fault == NotDone then rows else SetUsed(rows, id, false))
  {
    PlaySnoc(s, run, Release(p, fault));
  }

  ghost predicate SomeClaimable(rows: map<nat, Row>, now: int, hash: string) {
    exists id | id in rows :: rows[id].hash == hash && !rows[id].used && rows[id].expiresAt > now
  }

  predicate NotBlank(s: string) { TrimSpace(s) != "" }

  /** What the client is told: 200 exactly when a certificate was signed and its answer built; 400 exactly for a request that
      has a secret and a CSR, of which the CSR is no good; 401 exactly for a good request whose secret claims no token; and
      502 for everything else. */
  predicate Answered(status: int, req: Request, claim: Fault, signOk: bool, built: Built, token: bool) {
    var complete := NotBlank(req.secret) && NotBlank(req.csr);
    var good := complete && req.csrValid && NotBlank(req.hostname);
    && (status == 200 <==> good && claim == Fine && token && signOk && built == Complete)
    && (status == 400 <==> complete && !good)
    && (status == 401 <==> good && claim == Fine && !token)
    && (status != 200 && status != 400 && status != 401 ==> status == 502)
  }

  lemma {:induction false} ClaimableIff(rows: map<nat, Row>, now: int, hash: string)
    ensures SomeClaimable(rows, now, hash) <==> !Matches(rows, now, hash, None)
    ensures SomeClaimable(rows, now, hash) <==> exists id :: Claimable(rows, now, id, hash)
  {
    if id :| Claimable(rows, now, id, hash) { assert id in rows && Claimable(rows, now, id, hash); }
    if id :| id in rows && rows[id].hash == hash && !rows[id].used && rows[id].expiresAt > now {
      assert Claimable(rows, now, id, hash);
    }
  }

  lemma {:induction false} AnswerOf(end: Phase, req: Request, claim: Fault, signOk: bool, built: Built, token: bool)
    requires end.Succeeded? || end.Failed?
    requires end.Succeeded? <==> Checked(req).Waiting? && claim == Fine && signOk && built == Complete && token
    requires Checked(req).Failed? ==> end == Checked(req)
    requires Checked(req).Waiting? && claim != Fine ==> end == Failed(StoreFailed)
    requires Checked(req).Waiting? && claim == Fine && end.Failed? ==>
      end == if token then Failed(AfterClaim(LateFailure(signOk, built))) else Failed(NoToken)
    ensures Answered(Status(end), req, claim, signOk, built, token)
  {
  }

  class Coordinator {
    const store: TokenStore

    constructor (store: TokenStore)
      ensures this.store == store
    {
      this.store := store;
    }

    /** What follows the claim. */
    method Finish(token: nat, signOk: bool, built: Built, release: Fault, ghost s: System, ghost p: nat,
                  ghost run: seq<Action>)
      returns (end: Phase, ghost more: seq<Action>)
      requires AllOf(run, p) && Reaches(s, run, p, Claimed(token), store.rows)
      modifies store`rows
      ensures AllOf(more, p) && Reaches(s, more, p, end, store.rows)
      ensures end == if signOk && built == Complete then Succeeded(token) else Failed(AfterClaim(LateFailure(signOk, built)))
      ensures store.rows == if end.Succeeded? || release == NotDone then old(store.rows)
                            else SetUsed(old(store.rows), token, false)
    {
      Signs(s, run, p, token, signOk, store.rows);
      more := run + [Sign(p, signOk)];
      if !signOk {
        Releases(s, more, p, token, SignFailed, release, store.rows);
        var _ := store.ReleaseClaim(token, release);
        return Failed(AfterClaim(SignFailed)), more + [Release(p, release)];
      }
      Builds(s, more, p, token, built, store.rows);
      more := more + [Build(p, built)];
      if built != Complete {
        Releases(s, more, p, token, LateFailure(true, built), release, store.rows);
        var _ := store.ReleaseClaim(token, release);
        return Failed(AfterClaim(if built == SignedNothing then NothingSigned else NoPem)), more + [Release(p, release)];
      }
      end := Succeeded(token);
    }

    /** A call nobody interferes with: a run of the machine, from any of its states with the store's tokens. It succeeds with a token that was claimable and is now used; it fails with the
        token as it was, unless the answer to the claim was lost or the release did not happen. */
    method ProcessEnroll(req: Request, claim: Fault, signOk: bool, built: Built, release: Fault,
                         ghost s: System, ghost p: nat)
      returns (end: Phase, ghost run: seq<Action>)
      requires s.rows == store.rows && s.now == store.now && p !in s.attempts
      modifies store`rows
      ensures AllOf(run, p) && Reaches(s, run, p, end, store.rows)
      ensures end.Succeeded? || end.Failed?
      ensures end.Succeeded? ==>
        Claimable(old(store.rows), store.now, end.token, TrimSpace(req.secret))
        && store.rows == SetUsed(old(store.rows), end.token, true)
      ensures end.Succeeded? <==>
        Checked(req).Waiting? && claim == Fine && signOk && built == Complete
        && exists id :: Claimable(old(store.rows), store.now, id, TrimSpace(req.secret))
      ensures end.Failed? && claim != AnswerLost && release != NotDone ==> store.rows == old(store.rows)
      ensures Checked(req).Failed? ==> end == Checked(req) && store.rows == old(store.rows)
      ensures Checked(req).Waiting? && claim != Fine ==> end == Failed(StoreFailed)
      ensures Checked(req).Waiting? && claim == Fine && end.Failed? ==>
        if Matches(old(store.rows), store.now, TrimSpace(req.secret), None) then
          end == Failed(NoToken) && store.rows == old(store.rows)
        else
          end == Failed(AfterClaim(LateFailure(signOk, built)))
          && exists id :: Claimable(old(store.rows), store.now, id, TrimSpace(req.secret))
                          && store.rows == SetUsed(old(store.rows), id, release == NotDone)
    {
      var secret := TrimSpace(req.secret);
      run := [Arrive(p, req)];
      Arrives(s, p, req);
      if secret == "" || TrimSpace(req.csr) == "" { return Failed(BadInput), run; }
      if !req.csrValid { return Failed(BadCsr), run; }
      if TrimSpace(req.hostname) == "" { return Failed(BadCsr), run; }
      var ok, row, hit := store.ClaimByPresentationHash(secret, claim);
      Claims(s, run, p, secret, hit, claim);
      run := run + [Claim(p, hit, claim)];
      if !ok { return Failed(StoreFailed), run; }
      if row.None? { return Failed(NoToken), run; }
      var token := row.value;
      assert Claimable(old(store.rows), store.now, token, secret);
      end, run := Finish(token, signOk, built, release, s, p, run);
    }

    /** The endpoint: a call, and what its client is told. */
    method Enroll(req: Request, claim: Fault, signOk: bool, built: Built, release: Fault) returns (status: int)
      modifies store`rows
      ensures Answered(status, req, claim, signOk, built, SomeClaimable(old(store.rows), store.now, TrimSpace(req.secret)))
    {
      ClaimableIff(store.rows, store.now, TrimSpace(req.secret));
      ghost var token := SomeClaimable(store.rows, store.now, TrimSpace(req.secret));
      ghost var s := NO_TOKENS.(rows := store.rows, now := store.now);
      var end, run := ProcessEnroll(req, claim, signOk, built, release, s, 0);
      AnswerOf(end, req, claim, signOk, built, token);
      status := Status(end);
    }
  }
}
