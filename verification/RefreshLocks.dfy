/** Refresh coordinators interleaving over shared locks, evidence and accounts.

    Every process steps on its own; a process may stop anywhere, which frees its
    locks and leaves its evidence.  Account writes are atomic store transactions. */
module RefreshLocks {
  import opened Wrappers
  import opened Accounts

  const MAX_STABILIZATION_ATTEMPTS := 4

  datatype Entry = Entry(credentials: Credentials, failed: bool)

  datatype Evidence = Evidence(expected: Credentials, staged: Option<Credentials>)

  /** One call: its target, what the caller saw before taking any lock, and whether
      an operator forced it. */
  datatype Request = Request(target: string, observed: Option<Credentials>, forced: bool)

  datatype Result = Success | Missing | Failure | Unavailable | Unstable | BlockedByEvidence

  datatype Point =
    | Observed
    | Joined
    | Trying(attempt: nat)
    | Expecting(attempt: nat, expected: Credentials)
    | OperationHeld(attempt: nat, expected: Credentials)
    | OperationChecked(attempt: nat, expected: Credentials)
    | EvidenceHeld(attempt: nat, expected: Credentials)
    | Leased(expected: Credentials)
    | Exchanged(expected: Credentials, response: Option<Credentials>)
    | Staged(expected: Credentials, replacement: Credentials)
    | Settled(expected: Credentials, result: Result)
    | Over(result: Result)

  datatype Phase =
    | Idle
    | Working(req: Request, at: Point)
    | Recovering(req: Request, directory: string)
    | Quiescing
    | Quiescent

  // An operation lock is routed by provider and refresh token, through an injective digest.
  type Token = (ProviderId, string)

  datatype World = World(
    accounts: map<string, Entry>,
    operation: map<Token, nat>,
    evidenceLock: map<string, nat>,
    shared: set<nat>,
    exclusive: Option<nat>,
    evidence: map<string, Evidence>,
    phases: map<nat, Phase>)
  {
    function PhaseOf(p: nat): Phase {
      if p in phases then phases[p] else Idle
    }

    function Current(name: string): Option<Credentials> {
      if name in accounts then Some(accounts[name].credentials) else None
    }
  }

  datatype Action =
    | Observe(target: string, forced: bool)
    | Join
    | Leave
    | TryRecover(directory: string)
    | FinishRecovery
    | Read
    | LockOperation
    | Check
    | LockEvidence
    | Grant
    | SkipExchange
    | Exchange(response: Option<Credentials>)
    | WriteStage
    | Merge
    | PersistFailure
    | CleanUp
    | Crash
    | Write(name: string, entry: Option<Entry>)
    | BeginQuiesce
    | CheckQuiescent
    | DestroyTransactions
    | EndQuiesce

  function TokenOf(c: Credentials): Token
    requires c.RefreshToken().Some?
  {
    (c.Provider(), c.RefreshToken().value)
  }

  // Which locks a phase holds.

  function Target(f: Phase): string
    requires f.Working? || f.Recovering?
  {
    f.req.target
  }

  predicate HasExpected(f: Phase) {
    f.Working? && !(f.at.Observed? || f.at.Joined? || f.at.Trying? || f.at.Over?)
  }

  function HeldOperation(f: Phase): Option<Token> {
    if HasExpected(f) && !f.at.Expecting? && f.at.expected.RefreshToken().Some?
    then Some(TokenOf(f.at.expected)) else None
  }

  function HeldEvidence(f: Phase): Option<string> {
    if f.Recovering? then Some(f.directory)
    else if f.Working? && (f.at.EvidenceHeld? || HasLease(f)) then Some(f.req.target)
    else None
  }

  /** From the grant of the lease to its cleanup. */
  predicate HasLease(f: Phase) {
    f.Working? && (f.at.Leased? || f.at.Exchanged? || f.at.Staged? || f.at.Settled?)
  }

  predicate IsShared(f: Phase) {
    f.Recovering? || (f.Working? && !f.at.Observed? && !f.at.Over?)
  }

  predicate IsExclusive(f: Phase) {
    f.Quiescing? || f.Quiescent?
  }

  /** What one step makes of the process and of durable state.  The locks follow the
      phase: each is held exactly while the phase says so. */
  datatype Effect = Effect(phase: Phase, accounts: map<string, Entry>, evidence: map<string, Evidence>)

  function Hold<K>(m: map<K, nat>, p: nat, key: Option<K>): map<K, nat> {
    var others := map k | k in m && m[k] != p :: m[k];
    if key.Some? then others[key.value := p] else others
  }

  function Moved(s: World, p: nat, e: Effect): World {
    World(
      e.accounts,
      Hold(s.operation, p, HeldOperation(e.phase)),
      Hold(s.evidenceLock, p, HeldEvidence(e.phase)),
      if IsShared(e.phase) then s.shared + {p} else s.shared - {p},
      if IsExclusive(e.phase) then Some(p) else if s.exclusive == Some(p) then None else s.exclusive,
      e.evidence,
      s.phases[p := e.phase])
  }

  function Only(s: World, f: Phase): Option<Effect> {
    Some(Effect(f, s.accounts, s.evidence))
  }

  function At(s: World, req: Request, at: Point): Option<Effect> {
    Only(s, Working(req, at))
  }

  function Retry(s: World, req: Request, attempt: nat): Option<Effect> {
    At(s, req, if attempt + 1 < MAX_STABILIZATION_ATTEMPTS then Trying(attempt + 1) else Over(Unstable))
  }

  /** The targeted merge: only an unchanged target is written. */
  function Replaced(accounts: map<string, Entry>, name: string, expected: Credentials,
                    entry: Entry): map<string, Entry> {
    if name in accounts && accounts[name].credentials == expected then accounts[name := entry] else accounts
  }

  /** A stage goes into the account that still holds what its refresh expected, and
      only if it is something else. */
  function StagedInto(accounts: map<string, Entry>, name: string, expected: Credentials,
                      staged: Credentials): map<string, Entry> {
    if staged == expected then accounts else Replaced(accounts, name, expected, Entry(staged, false))
  }

  /** A caller that is not forced is satisfied by credentials it had not seen. */
  predicate Satisfied(req: Request, expected: Credentials) {
    !req.forced && req.observed.Some? && req.observed.value != expected
  }

  /** A free lock can be taken; taking one that is held waits. */
  predicate Free<K>(m: map<K, nat>, key: K) {
    key !in m
  }

  /** The steps of a call once it has joined the lifecycle set. */
  function Call(s: World, req: Request, at: Point, a: Action): Option<Effect> {
    var current := s.Current(req.target);
    match at
    case Joined =>
      if a.TryRecover? && Free(s.evidenceLock, a.directory) then Only(s, Recovering(req, a.directory))
      else if a.Leave? then At(s, req, Over(Failure))
      else if a.Read? then FirstRead(s, req, 0)
      else None
    case Trying(attempt) => if a.Read? then FirstRead(s, req, attempt) else None
    case Expecting(attempt, expected) =>
      if a.LockOperation? && expected.RefreshToken().Some? && Free(s.operation, TokenOf(expected))
      then At(s, req, OperationHeld(attempt, expected)) else None
    case OperationHeld(attempt, expected) =>
      if !a.Check? then None
      else if current != Some(expected) then Retry(s, req, attempt)
      else At(s, req, OperationChecked(attempt, expected))
    case OperationChecked(attempt, expected) =>
      if a.LockEvidence? && Free(s.evidenceLock, req.target)
      then At(s, req, EvidenceHeld(attempt, expected)) else None
    case EvidenceHeld(attempt, expected) =>
      if !a.Grant? then None
      else if current != Some(expected) then Retry(s, req, attempt)
      else if req.target in s.evidence then At(s, req, Over(BlockedByEvidence))
      else Some(Effect(Working(req, Leased(expected)), s.accounts,
                       s.evidence[req.target := Evidence(expected, None)]))
    case _ => None
  }

  function FirstRead(s: World, req: Request, attempt: nat): Option<Effect> {
    var current := s.Current(req.target);
    At(s, req, if current.None? || current.value.RefreshToken().None? then Over(Unavailable)
               else Expecting(attempt, current.value))
  }

  /** The steps of a call that holds its lease. */
  function Lease(s: World, req: Request, at: Point, a: Action): Option<Effect> {
    var current := s.Current(req.target);
    match at
    case Leased(expected) =>
      if a.SkipExchange? && Satisfied(req, expected)
      then At(s, req, Settled(expected, if current.Some? then Success else Missing))
      else if a.Exchange? && !Satisfied(req, expected) then At(s, req, Exchanged(expected, a.response))
      else None
    case Exchanged(expected, response) =>
      if a.WriteStage? && response.Some?
      then Some(Effect(Working(req, Staged(expected, response.value)), s.accounts,
                       s.evidence[req.target := Evidence(expected, response)]))
      else if a.PersistFailure? && response.None?
      then Some(Effect(Working(req, Settled(expected, if current.Some?
                                            && current.value != expected then Success else Failure)),
                       Replaced(s.accounts, req.target, expected, Entry(expected, true)), s.evidence))
      else None
    case Staged(expected, replacement) =>
      if a.Merge?
      then Some(Effect(Working(req, Settled(expected, if req.target in s.accounts then Success else Missing)),
                       StagedInto(s.accounts, req.target, expected, replacement), s.evidence))
      else None
    case Settled(_, result) =>
      if a.CleanUp? then Some(Effect(Working(req, Over(result)), s.accounts, s.evidence - {req.target})) else None
    case _ => None
  }

  function Recovery(s: World, req: Request, directory: string): Option<Effect> {
    var after := Working(req, Joined);
    if directory !in s.evidence then Only(s, after)
    else
      var e := s.evidence[directory];
      Some(Effect(after,
                  if e.staged.Some? then StagedInto(s.accounts, directory, e.expected, e.staged.value) else s.accounts,
                  s.evidence - {directory}))
  }

  function Resting(s: World, a: Action): Option<Effect> {
    match a
    case Observe(target, forced) => At(s, Request(target, s.Current(target), forced), Observed)
    case Write(name, entry) =>
      Some(Effect(Idle, if entry.Some? then s.accounts[name := entry.value] else s.accounts - {name}, s.evidence))
    case BeginQuiesce => if s.exclusive.None? && s.shared == {} then Only(s, Quiescing) else None
    case _ => None
  }

  /** One step of one process, when it is enabled. */
  function Act(s: World, p: nat, a: Action): Option<Effect> {
    var f := s.PhaseOf(p);
    if a.Crash? then Only(s, Idle)
    else
      match f
      case Idle => Resting(s, a)
      case Working(req, at) =>
        if at.Observed? then if a.Join? && s.exclusive.None? then At(s, req, Joined) else None
        else if at.Over? then if a.Leave? then Only(s, Idle) else None
        else if HasLease(f) then Lease(s, req, at, a)
        else Call(s, req, at, a)
      case Recovering(req, directory) => if a.FinishRecovery? then Recovery(s, req, directory) else None
      case Quiescing =>
        if a.CheckQuiescent? then Only(s, if s.operation == map[] && s.evidenceLock == map[] then Quiescent else Idle)
        else None
      case Quiescent =>
        if a.EndQuiesce? then Only(s, Idle)
        else if a.DestroyTransactions? then Some(Effect(Quiescent, s.accounts, map[]))
        else None
  }

  function Step(s: World, p: nat, a: Action): World {
    var e := Act(s, p, a);
    if e.Some? then Moved(s, p, e.value) else s
  }

  // The lock discipline.

  ghost predicate OperationMatches(s: World) {
    && (forall k :: k in s.operation ==> HeldOperation(s.PhaseOf(s.operation[k])) == Some(k))
    && (forall p: nat :: HeldOperation(s.PhaseOf(p)).Some? ==>
                           Lookup(s.operation, HeldOperation(s.PhaseOf(p)).value) == Some(p))
  }

  ghost predicate EvidenceMatches(s: World) {
    && (forall k :: k in s.evidenceLock ==> HeldEvidence(s.PhaseOf(s.evidenceLock[k])) == Some(k))
    && (forall p: nat :: HeldEvidence(s.PhaseOf(p)).Some? ==>
                           Lookup(s.evidenceLock, HeldEvidence(s.PhaseOf(p)).value) == Some(p))
  }

  ghost predicate LifecycleMatches(s: World) {
    && (forall p: nat :: p in s.shared <==> IsShared(s.PhaseOf(p)))
    && (forall p: nat :: s.exclusive == Some(p) <==> IsExclusive(s.PhaseOf(p)))
    && (s.exclusive.Some? ==> s.shared == {})
  }

  ghost predicate LocksMatch(s: World) {
    OperationMatches(s) && EvidenceMatches(s) && LifecycleMatches(s)
  }

  /** A lease's own evidence is in place and says what the lease says. */
  predicate Owns(evidence: map<string, Evidence>, f: Phase) {
    HasLease(f) ==>
      && f.at.expected.RefreshToken().Some?
      && f.req.target in evidence && evidence[f.req.target].expected == f.at.expected
      && (f.at.Staged? ==> evidence[f.req.target].staged == Some(f.at.replacement))
  }

  predicate Rotating(f: Phase) {
    && (HasExpected(f) ==> f.at.expected.RefreshToken().Some?)
    && (f.Working? && (f.at.Trying? || f.at.Expecting? || f.at.OperationHeld? || f.at.OperationChecked?
                       || f.at.EvidenceHeld?) ==>
          f.at.attempt < MAX_STABILIZATION_ATTEMPTS)
  }

  ghost predicate Inv(s: World) {
    && LocksMatch(s)
    && (forall p: nat :: Owns(s.evidence, s.PhaseOf(p)) && Rotating(s.PhaseOf(p)))
  }

  /** What p holds is what its phase says. */
  lemma HeldByPhase(s: World, p: nat)
    requires LocksMatch(s)
    ensures forall k :: Lookup(s.operation, k) == Some(p) <==> HeldOperation(s.PhaseOf(p)) == Some(k)
    ensures forall k :: Lookup(s.evidenceLock, k) == Some(p) <==> HeldEvidence(s.PhaseOf(p)) == Some(k)
    ensures p in s.shared <==> IsShared(s.PhaseOf(p))
    ensures s.exclusive == Some(p) <==> IsExclusive(s.PhaseOf(p))
  {
  }

  predicate Gets<K>(m: map<K, nat>, key: Option<K>, own: Option<K>) {
    key.Some? ==> key == own || Free(m, key.value)
  }

  /** A step takes only free locks, and turns the lifecycle lock only when it may. */
  predicate MayHold(s: World, f: Phase, g: Phase) {
    && Gets(s.operation, HeldOperation(g), HeldOperation(f))
    && Gets(s.evidenceLock, HeldEvidence(g), HeldEvidence(f))
    && (IsShared(g) ==> IsShared(f) || s.exclusive.None?)
    && (IsExclusive(g) ==> IsExclusive(f) || (s.exclusive.None? && s.shared == {}))
  }

  predicate Calling(req: Request, at: Point) {
    !at.Observed? && !at.Over? && !HasLease(Working(req, at))
  }

  lemma CallMayHold(s: World, req: Request, at: Point, a: Action)
    requires Calling(req, at) && Call(s, req, at, a).Some?
    ensures MayHold(s, Working(req, at), Call(s, req, at, a).value.phase)
  {
  }

  lemma LeaseMayHold(s: World, req: Request, at: Point, a: Action)
    requires HasLease(Working(req, at)) && Lease(s, req, at, a).Some?
    ensures MayHold(s, Working(req, at), Lease(s, req, at, a).value.phase)
  {
  }

  lemma ActMayHold(s: World, p: nat, a: Action)
    requires Act(s, p, a).Some?
    ensures MayHold(s, s.PhaseOf(p), Act(s, p, a).value.phase)
  {
    var f := s.PhaseOf(p);
    if f.Working? && !a.Crash? && !f.at.Observed? && !f.at.Over? {
      if HasLease(f) { LeaseMayHold(s, f.req, f.at, a); } else { CallMayHold(s, f.req, f.at, a); }
    }
  }

  lemma MoveKeepsOperation(s: World, p: nat, e: Effect)
    requires OperationMatches(s) && Gets(s.operation, HeldOperation(e.phase), HeldOperation(s.PhaseOf(p)))
    ensures OperationMatches(Moved(s, p, e))
  {
    var t := Moved(s, p, e);
    assert forall q: nat :: t.PhaseOf(q) == if q == p then e.phase else s.PhaseOf(q);
  }

  lemma MoveKeepsEvidence(s: World, p: nat, e: Effect)
    requires EvidenceMatches(s) && Gets(s.evidenceLock, HeldEvidence(e.phase), HeldEvidence(s.PhaseOf(p)))
    ensures EvidenceMatches(Moved(s, p, e))
  {
    var t := Moved(s, p, e);
    assert forall q: nat :: t.PhaseOf(q) == if q == p then e.phase else s.PhaseOf(q);
  }

  lemma MoveKeepsLifecycle(s: World, p: nat, e: Effect)
    requires LifecycleMatches(s) && MayHold(s, s.PhaseOf(p), e.phase)
    ensures LifecycleMatches(Moved(s, p, e))
  {
    var t := Moved(s, p, e);
    assert forall q: nat :: t.PhaseOf(q) == if q == p then e.phase else s.PhaseOf(q);
  }

  lemma CallsTouch(s: World, req: Request, at: Point, a: Action, d: string)
    requires Calling(req, at) && Call(s, req, at, a).Some?
    requires Lookup(Call(s, req, at, a).value.evidence, d) != Lookup(s.evidence, d)
    ensures HeldEvidence(Working(req, at)) == Some(d)
  {
  }

  /** Only the holder of an evidence lock, or a quiescent process, touches evidence. */
  lemma EvidenceFrame(s: World, p: nat, a: Action, d: string)
    requires Act(s, p, a).Some? && Lookup(Act(s, p, a).value.evidence, d) != Lookup(s.evidence, d)
    ensures HeldEvidence(s.PhaseOf(p)) == Some(d) || s.PhaseOf(p).Quiescent?
  {
    var f := s.PhaseOf(p);
    if f.Working? && !a.Crash? && Calling(f.req, f.at) { CallsTouch(s, f.req, f.at, a, d); }
  }

  /** Evidence of a held lease is never touched by another process, nor is the lease. */
  lemma OthersNeverTouchALease(s: World, p: nat, a: Action, q: nat)
    requires Inv(s) && p != q && HasLease(s.PhaseOf(q))
    ensures Lookup(Step(s, p, a).evidence, s.PhaseOf(q).req.target) == Lookup(s.evidence, s.PhaseOf(q).req.target)
    ensures Step(s, p, a).PhaseOf(q) == s.PhaseOf(q)
  {
    var d := s.PhaseOf(q).req.target;
    if Act(s, p, a).Some? && Lookup(Act(s, p, a).value.evidence, d) != Lookup(s.evidence, d) {
      EvidenceFrame(s, p, a, d);
      HeldByPhase(s, p);
      HeldByPhase(s, q);
    }
  }

  lemma CallKeepsOwn(s: World, req: Request, at: Point, a: Action)
    requires Calling(req, at) && Call(s, req, at, a).Some? && Rotating(Working(req, at))
    ensures var e := Call(s, req, at, a).value; Owns(e.evidence, e.phase) && Rotating(e.phase)
  {
  }

  lemma LeaseKeepsOwn(s: World, req: Request, at: Point, a: Action)
    requires Lease(s, req, at, a).Some? && Owns(s.evidence, Working(req, at))
    ensures var e := Lease(s, req, at, a).value; Owns(e.evidence, e.phase) && Rotating(e.phase)
  {
  }

  lemma OwnPhaseKept(s: World, p: nat, a: Action)
    requires Act(s, p, a).Some? && Owns(s.evidence, s.PhaseOf(p)) && Rotating(s.PhaseOf(p))
    ensures Owns(Act(s, p, a).value.evidence, Act(s, p, a).value.phase) && Rotating(Act(s, p, a).value.phase)
  {
    var f := s.PhaseOf(p);
    if f.Working? && !a.Crash? && !f.at.Observed? && !f.at.Over? {
      if HasLease(f) { LeaseKeepsOwn(s, f.req, f.at, a); } else { CallKeepsOwn(s, f.req, f.at, a); }
    }
  }

  lemma CallsLease(s: World, req: Request, at: Point, a: Action)
    requires Calling(req, at) && Call(s, req, at, a).Some?
    requires HasLease(Call(s, req, at, a).value.phase)
    ensures a.Grant? && at.EvidenceHeld? && Call(s, req, at, a).value.phase == Working(req, Leased(at.expected))
    ensures s.Current(req.target) == Some(at.expected) && req.target !in s.evidence
  {
  }

  /** A lease begins only with a grant. */
  lemma LeaseBegins(s: World, p: nat, a: Action)
    requires Act(s, p, a).Some? && HasLease(Act(s, p, a).value.phase) && !HasLease(s.PhaseOf(p))
    ensures var f := s.PhaseOf(p);
            && f.Working? && f.at.EvidenceHeld?
            && Act(s, p, a).value.phase == Working(f.req, Leased(f.at.expected))
            && s.Current(f.req.target) == Some(f.at.expected) && f.req.target !in s.evidence
  {
    var f := s.PhaseOf(p);
    if f.Working? && !f.at.Observed? && !f.at.Over? && !a.Crash? {
      CallsLease(s, f.req, f.at, a);
    }
  }

  /** A lease keeps its call and its credentials to the end; an answer comes from the
      provider, a replacement from an answer. */
  lemma LeaseGoesOn(s: World, p: nat, a: Action)
    requires Act(s, p, a).Some? && HasLease(Act(s, p, a).value.phase) && HasLease(s.PhaseOf(p))
    ensures var f, g := s.PhaseOf(p), Act(s, p, a).value.phase;
            && g.req == f.req && g.at.expected == f.at.expected
            && (g.at.Exchanged? ==> a == Exchange(g.at.response))
            && (g.at.Staged? ==> f.at.Exchanged? && f.at.response == Some(g.at.replacement))
  {
  }

  lemma CallsWriteNoAccount(s: World, req: Request, at: Point, a: Action)
    requires Calling(req, at) && Call(s, req, at, a).Some?
    ensures Call(s, req, at, a).value.accounts == s.accounts
  {
  }

  lemma LeasesWrite(s: World, req: Request, at: Point, a: Action, name: string)
    requires Lease(s, req, at, a).Some? && name in Lease(s, req, at, a).value.accounts
    ensures var now := Lease(s, req, at, a).value.accounts[name].credentials;
            s.Current(name) == Some(now) || (at.Staged? && at.replacement == now)
  {
  }

  /** Where the credentials of an account can come from. */
  lemma CredentialsComeFrom(s: World, p: nat, a: Action, name: string)
    requires Act(s, p, a).Some? && name in Act(s, p, a).value.accounts
    ensures var now := Act(s, p, a).value.accounts[name].credentials;
            var f := s.PhaseOf(p);
            || s.Current(name) == Some(now)
            || (a.Write? && a.name == name && a.entry.Some? && a.entry.value.credentials == now)
            || (f.Working? && f.at.Staged? && f.at.replacement == now)
            || (f.Recovering? && f.directory == name && name in s.evidence && s.evidence[name].staged == Some(now))
  {
    var f := s.PhaseOf(p);
    if f.Working? && !a.Crash? && !f.at.Observed? && !f.at.Over? {
      if HasLease(f) { LeasesWrite(s, f.req, f.at, a, name); } else { CallsWriteNoAccount(s, f.req, f.at, a); }
    }
  }

  lemma CallsStageNothing(s: World, req: Request, at: Point, a: Action, name: string)
    requires Calling(req, at) && Call(s, req, at, a).Some? && name in Call(s, req, at, a).value.evidence
    ensures var staged := Call(s, req, at, a).value.evidence[name].staged;
            staged.None? || (name in s.evidence && s.evidence[name].staged == staged)
  {
  }

  lemma LeasesStage(s: World, req: Request, at: Point, a: Action, name: string)
    requires Lease(s, req, at, a).Some? && name in Lease(s, req, at, a).value.evidence
    ensures var staged := Lease(s, req, at, a).value.evidence[name].staged;
            (name in s.evidence && s.evidence[name].staged == staged) || (at.Exchanged? && at.response == staged)
  {
  }

  /** Where staged replacements can come from. */
  lemma StagesComeFrom(s: World, p: nat, a: Action, name: string)
    requires Act(s, p, a).Some? && name in Act(s, p, a).value.evidence
    ensures var staged := Act(s, p, a).value.evidence[name].staged;
            var f := s.PhaseOf(p);
            || staged.None?
            || (name in s.evidence && s.evidence[name].staged == staged)
            || (f.Working? && f.at.Exchanged? && f.at.response == staged)
  {
    var f := s.PhaseOf(p);
    if f.Working? && !a.Crash? && !f.at.Observed? && !f.at.Over? {
      if HasLease(f) { LeasesStage(s, f.req, f.at, a, name); } else { CallsStageNothing(s, f.req, f.at, a, name); }
    }
  }

  /** Every step of every process keeps the lock discipline. */
  lemma StepKeepsInv(s: World, p: nat, a: Action)
    requires Inv(s)
    ensures Inv(Step(s, p, a))
  {
    if Act(s, p, a).Some? {
      var e := Act(s, p, a).value;
      var t := Step(s, p, a);
      ActMayHold(s, p, a);
      MoveKeepsOperation(s, p, e);
      MoveKeepsEvidence(s, p, e);
      MoveKeepsLifecycle(s, p, e);
      OwnPhaseKept(s, p, a);
      forall q: nat
        ensures Owns(t.evidence, t.PhaseOf(q)) && Rotating(t.PhaseOf(q))
      {
        if q != p && HasLease(s.PhaseOf(q)) { OthersNeverTouchALease(s, p, a, q); }
      }
    }
  }

  // Whole interleavings.

  /** Nobody is doing anything: every run starts from here, with any accounts and any
      evidence that earlier processes left. */
  predicate AtRest(s: World) {
    s.phases == map[] && s.operation == map[] && s.evidenceLock == map[] && s.shared == {} && s.exclusive.None?
  }

  lemma AtRestIsOrderly(s: World)
    requires AtRest(s)
    ensures Inv(s)
  {
    assert forall p: nat :: s.PhaseOf(p) == Idle;
  }

  /** Any interleaving: a script of process steps, those not enabled doing nothing. */
  function Run(s: World, script: seq<(nat, Action)>): World
    decreases |script|
  {
    if script == [] then s else Run(Step(s, script[0].0, script[0].1), script[1..])
  }

  lemma {:induction false} RunKeepsInv(s: World, script: seq<(nat, Action)>)
    requires Inv(s)
    ensures Inv(Run(s, script))
    decreases |script|
  {
    if script != [] {
      StepKeepsInv(s, script[0].0, script[0].1);
      RunKeepsInv(Step(s, script[0].0, script[0].1), script[1..]);
    }
  }

  lemma LeasesApart(t: World, p: nat, q: nat)
    requires Inv(t) && p != q && HasLease(t.PhaseOf(p)) && HasLease(t.PhaseOf(q))
    ensures t.PhaseOf(p).req.target != t.PhaseOf(q).req.target
    ensures HeldOperation(t.PhaseOf(p)).Some? && HeldOperation(t.PhaseOf(p)) != HeldOperation(t.PhaseOf(q))
  {
    assert Owns(t.evidence, t.PhaseOf(p));
    HeldByPhase(t, p);
    HeldByPhase(t, q);
  }

  /** In no interleaving do two leases share a label or a provider's refresh token. */
  lemma LeasesExclude(s: World, script: seq<(nat, Action)>, p: nat, q: nat)
    requires Inv(s) && p != q
    ensures var t := Run(s, script);
            HasLease(t.PhaseOf(p)) && HasLease(t.PhaseOf(q)) ==>
              && t.PhaseOf(p).req.target != t.PhaseOf(q).req.target
              && HeldOperation(t.PhaseOf(p)).Some? && HeldOperation(t.PhaseOf(p)) != HeldOperation(t.PhaseOf(q))
  {
    RunKeepsInv(s, script);
    if HasLease(Run(s, script).PhaseOf(p)) && HasLease(Run(s, script).PhaseOf(q)) {
      LeasesApart(Run(s, script), p, q);
    }
  }

  /** A lease is granted only on credentials read from the durable accounts while
      both of its locks are held, and on a target without evidence. */
  lemma GrantReadsUnderLocks(s: World, p: nat, a: Action)
    requires Inv(s) && HasLease(Step(s, p, a).PhaseOf(p)) && !HasLease(s.PhaseOf(p))
    ensures var f := Step(s, p, a).PhaseOf(p);
            && s.Current(f.req.target) == Some(f.at.expected) && f.at.expected.RefreshToken().Some?
            && Lookup(s.operation, TokenOf(f.at.expected)) == Some(p)
            && Lookup(s.evidenceLock, f.req.target) == Some(p)
            && f.req.target !in s.evidence
  {
    LeaseBegins(s, p, a);
    assert Rotating(s.PhaseOf(p));
    HeldByPhase(s, p);
  }

  /** In no interleaving does a lease or a recovery coexist with a quiescent process. */
  lemma QuiescenceExcludesRefreshes(s: World, script: seq<(nat, Action)>, p: nat, q: nat)
    requires Inv(s)
    ensures var t := Run(s, script);
            IsExclusive(t.PhaseOf(p)) ==> !HasLease(t.PhaseOf(q)) && !t.PhaseOf(q).Recovering?
  {
    RunKeepsInv(s, script);
    HeldByPhase(Run(s, script), p);
    HeldByPhase(Run(s, script), q);
  }

  /** A failed exchange never touches the status of newer credentials. */
  lemma FailureKeepsNewer(s: World, p: nat)
    requires Act(s, p, PersistFailure).Some?
    requires s.Current(s.PhaseOf(p).req.target) != Some(s.PhaseOf(p).at.expected)
    ensures var t := Step(s, p, PersistFailure);
            && t.accounts == s.accounts
            && (s.Current(s.PhaseOf(p).req.target).Some? <==> t.PhaseOf(p).at.result == Success)
  {
  }

  /** A process becomes quiescent exactly when it holds the lifecycle alone and no
      operation or evidence lock is held. */
  lemma QuiescentIff(s: World, p: nat, a: Action)
    requires Inv(s) && !s.PhaseOf(p).Quiescent?
    ensures Step(s, p, a).PhaseOf(p).Quiescent? <==>
            && a.CheckQuiescent? && s.PhaseOf(p).Quiescing?
            && s.exclusive == Some(p) && s.operation == map[] && s.evidenceLock == map[]
  {
    var f := s.PhaseOf(p);
    HeldByPhase(s, p);
    if Act(s, p, a).Some? && f.Working? && !f.at.Observed? && !f.at.Over? && !a.Crash? {
      if HasLease(f) { LeaseStaysWorking(s, f.req, f.at, a); } else { CallStaysCalling(s, f.req, f.at, a); }
    }
  }

  lemma CallStaysCalling(s: World, req: Request, at: Point, a: Action)
    requires Calling(req, at) && Call(s, req, at, a).Some?
    ensures Call(s, req, at, a).value.phase.Working? || Call(s, req, at, a).value.phase.Recovering?
  {
  }

  lemma LeaseStaysWorking(s: World, req: Request, at: Point, a: Action)
    requires Lease(s, req, at, a).Some?
    ensures Lease(s, req, at, a).value.phase.Working?
  {
  }

  /** An answer is staged, a failure is persisted, and never the other way round. */
  lemma AnswerChoosesStep(s: World, p: nat)
    requires s.PhaseOf(p).Working? && s.PhaseOf(p).at.Exchanged?
    ensures Act(s, p, WriteStage).Some? <==> s.PhaseOf(p).at.response.Some?
    ensures Act(s, p, PersistFailure).Some? <==> s.PhaseOf(p).at.response.None?
  {
  }

  // Exchange deduplication, for one target and the credentials its callers saw.

  /** Somebody writes back, or the provider issues again, exactly those credentials. */
  predicate Restores(a: Action, name: string, c: Credentials) {
    || (a.Write? && a.name == name && a.entry.Some? && a.entry.value.credentials == c)
    || (a.Exchange? && a.response == Some(c))
  }

  predicate NoRestore(script: seq<(nat, Action)>, name: string, c: Credentials) {
    forall i :: 0 <= i < |script| ==> !Restores(script[i].1, name, c)
  }

  /** No stage and no answer on its way carries those credentials. */
  ghost predicate NotStaged(s: World, name: string, c: Credentials) {
    && (name in s.evidence ==> s.evidence[name].staged != Some(c))
    && (forall p: nat :: NoAnswer(s.PhaseOf(p), c))
  }

  predicate NoAnswer(f: Phase, c: Credentials) {
    f.Working? ==> (f.at.Exchanged? ==> f.at.response != Some(c)) && (f.at.Staged? ==> f.at.replacement != c)
  }

  lemma OwnAnswer(s: World, p: nat, a: Action, c: Credentials)
    requires Act(s, p, a).Some? && a != Exchange(Some(c)) && NoAnswer(s.PhaseOf(p), c)
    ensures NoAnswer(Act(s, p, a).value.phase, c)
  {
    if HasLease(Act(s, p, a).value.phase) {
      if HasLease(s.PhaseOf(p)) { LeaseGoesOn(s, p, a); } else { LeaseBegins(s, p, a); }
    }
  }

  lemma NeverRestored(s: World, p: nat, a: Action, name: string, c: Credentials)
    requires NotStaged(s, name, c) && !Restores(a, name, c)
    ensures NotStaged(Step(s, p, a), name, c)
    ensures s.Current(name) != Some(c) ==> Step(s, p, a).Current(name) != Some(c)
  {
    if Act(s, p, a).Some? {
      var e := Act(s, p, a).value;
      assert NoAnswer(s.PhaseOf(p), c);
      OwnAnswer(s, p, a, c);
      if name in e.evidence { StagesComeFrom(s, p, a, name); }
      if name in e.accounts { CredentialsComeFrom(s, p, a, name); }
      assert forall q: nat :: Step(s, p, a).PhaseOf(q) == if q == p then e.phase else s.PhaseOf(q);
    }
  }

  /** How often an interleaving replaces those credentials of the target by others. */
  function Replacements(s: World, script: seq<(nat, Action)>, name: string, c: Credentials): nat
    decreases |script|
  {
    if script == [] then 0
    else
      var t := Step(s, script[0].0, script[0].1);
      (if s.Current(name) == Some(c) && t.Current(name).Some? && t.Current(name) != Some(c) then 1 else 0)
      + Replacements(t, script[1..], name, c)
  }

  /** A step that can put those credentials back: an account write, the merge of a
      stage that carries them, or the recovery of such a stage. */
  predicate BringsBack(s: World, p: nat, a: Action, name: string, c: Credentials) {
    var f := s.PhaseOf(p);
    || (f.Idle? && a.Write? && a.name == name && a.entry.Some? && a.entry.value.credentials == c)
    || (f.Working? && f.at.Staged? && f.req.target == name && f.at.replacement == c && a.Merge?)
    || (f.Recovering? && f.directory == name && a.FinishRecovery? && name in s.evidence
        && s.evidence[name].staged == Some(c))
  }

  function Restorations(s: World, script: seq<(nat, Action)>, name: string, c: Credentials): nat
    decreases |script|
  {
    if script == [] then 0
    else
      (if BringsBack(s, script[0].0, script[0].1, name, c) then 1 else 0)
      + Restorations(Step(s, script[0].0, script[0].1), script[1..], name, c)
  }

  lemma LeasesBringBack(s: World, req: Request, at: Point, a: Action, name: string, c: Credentials)
    requires Lease(s, req, at, a).Some? && s.Current(name) != Some(c)
    requires name in Lease(s, req, at, a).value.accounts && Lease(s, req, at, a).value.accounts[name].credentials == c
    ensures at.Staged? && a.Merge? && req.target == name && at.replacement == c
  {
  }

  /** Credentials that are not there come back only by such a step. */
  lemma OnlyThoseBringBack(s: World, p: nat, a: Action, name: string, c: Credentials)
    requires s.Current(name) != Some(c) && Step(s, p, a).Current(name) == Some(c)
    ensures BringsBack(s, p, a, name, c)
  {
    var f := s.PhaseOf(p);
    if f.Working? && !a.Crash? && !f.at.Observed? && !f.at.Over? {
      if HasLease(f) {
        LeasesBringBack(s, f.req, f.at, a, name, c);
      } else {
        CallsWriteNoAccount(s, f.req, f.at, a);
      }
    }
  }

  /** Over any interleaving of any number of refreshes, the credentials they saw are
      replaced at most once for being there and once more for every step that can
      bring them back. */
  lemma {:induction false} ReplacementsBounded(s: World, script: seq<(nat, Action)>, name: string, c: Credentials)
    ensures Replacements(s, script, name, c)
            <= (if s.Current(name) == Some(c) then 1 else 0) + Restorations(s, script, name, c)
    decreases |script|
  {
    if script != [] {
      var (p, a) := script[0];
      if s.Current(name) != Some(c) && Step(s, p, a).Current(name) == Some(c) {
        OnlyThoseBringBack(s, p, a, name, c);
      }
      ReplacementsBounded(Step(s, p, a), script[1..], name, c);
    }
  }

  lemma {:induction false} NothingRestored(s: World, script: seq<(nat, Action)>, name: string, c: Credentials)
    requires NotStaged(s, name, c) && NoRestore(script, name, c)
    ensures Restorations(s, script, name, c) == 0
    decreases |script|
  {
    if script != [] {
      assert !Restores(script[0].1, name, c) && NoAnswer(s.PhaseOf(script[0].0), c);
      NeverRestored(s, script[0].0, script[0].1, name, c);
      assert forall i :: 0 <= i < |script[1..]| ==> script[1..][i] == script[i + 1];
      NothingRestored(Step(s, script[0].0, script[0].1), script[1..], name, c);
    }
  }

  /** Whatever the number of refreshes, the credentials they saw are replaced at most
      once, if nobody restores them. */
  lemma ReplacedAtMostOnce(s: World, script: seq<(nat, Action)>, name: string, c: Credentials)
    requires NotStaged(s, name, c) && NoRestore(script, name, c)
    ensures Replacements(s, script, name, c) <= if s.Current(name) == Some(c) then 1 else 0
  {
    ReplacementsBounded(s, script, name, c);
    NothingRestored(s, script, name, c);
  }

  predicate NotLeasedOn(f: Phase, name: string, c: Credentials) {
    HasLease(f) && f.req.target == name ==> f.at.expected != c
  }

  lemma LaterLease(s: World, p: nat, a: Action, q: nat, name: string, c: Credentials)
    requires s.Current(name) != Some(c) && NotLeasedOn(s.PhaseOf(q), name, c)
    ensures NotLeasedOn(Step(s, p, a).PhaseOf(q), name, c)
  {
    if q == p && Act(s, p, a).Some? && HasLease(Act(s, p, a).value.phase) {
      if HasLease(s.PhaseOf(p)) { LeaseGoesOn(s, p, a); } else { LeaseBegins(s, p, a); }
    }
  }

  /** Every lease granted after the replacement is on other credentials: a caller that
      saw the replaced ones, and is not forced, cannot exchange and succeeds. */
  lemma {:induction false} LaterLeasesSkipExchange(s: World, script: seq<(nat, Action)>, q: nat, name: string,
                                                   c: Credentials, response: Option<Credentials>)
    requires NotStaged(s, name, c) && NoRestore(script, name, c)
    requires s.Current(name) != Some(c) && NotLeasedOn(s.PhaseOf(q), name, c)
    ensures var t := Run(s, script);
            var f := t.PhaseOf(q);
            && NotLeasedOn(f, name, c)
            && (f.Working? && f.at.Leased? && f.req == Request(name, Some(c), false) ==>
                  && Act(t, q, Exchange(response)).None?
                  && Act(t, q, SkipExchange).Some?
                  && (t.Current(name).Some? ==> Act(t, q, SkipExchange).value.phase.at.result == Success))
    decreases |script|
  {
    if script != [] {
      assert !Restores(script[0].1, name, c);
      NeverRestored(s, script[0].0, script[0].1, name, c);
      LaterLease(s, script[0].0, script[0].1, q, name, c);
      assert forall i :: 0 <= i < |script[1..]| ==> script[1..][i] == script[i + 1];
      LaterLeasesSkipExchange(Step(s, script[0].0, script[0].1), script[1..], q, name, c, response);
    }
  }

  // The bound is reached: two refreshes that saw the same credentials each replace them.

  /** One undisturbed refresh, from joining to cleaning up, nested as it is run. */
  function RefreshScript(p: nat, d: Credentials): seq<(nat, Action)> {
    [(p, Join)] + ([(p, Read)] + LockScript(p, d))
  }

  function LockScript(p: nat, d: Credentials): seq<(nat, Action)> {
    [(p, LockOperation)] + ([(p, Check)] + GrantScript(p, d))
  }

  function GrantScript(p: nat, d: Credentials): seq<(nat, Action)> {
    [(p, LockEvidence)] + ([(p, Grant)] + ExchangeScript(p, d))
  }

  function ExchangeScript(p: nat, d: Credentials): seq<(nat, Action)> {
    [(p, Exchange(Some(d)))] + ([(p, WriteStage)] + MergeScript(p))
  }

  function MergeScript(p: nat): seq<(nat, Action)> {
    [(p, Merge)] + ([(p, CleanUp)] + [])
  }

  lemma RunFirst(s: World, p: nat, a: Action, rest: seq<(nat, Action)>, name: string, c: Credentials)
    ensures Run(s, [(p, a)] + rest) == Run(Step(s, p, a), rest)
    ensures var t := Step(s, p, a);
            Replacements(s, [(p, a)] + rest, name, c)
            == (if s.Current(name) == Some(c) && t.Current(name).Some? && t.Current(name) != Some(c) then 1 else 0)
               + Replacements(t, rest, name, c)
    ensures Restorations(s, [(p, a)] + rest, name, c)
            == (if BringsBack(s, p, a, name, c) then 1 else 0) + Restorations(Step(s, p, a), rest, name, c)
  {
    assert ([(p, a)] + rest)[1..] == rest;
  }

  lemma {:induction false} RunBoth(s: World, first: seq<(nat, Action)>, rest: seq<(nat, Action)>, name: string,
                                   c: Credentials)
    ensures Run(s, first + rest) == Run(Run(s, first), rest)
    ensures Replacements(s, first + rest, name, c)
            == Replacements(s, first, name, c) + Replacements(Run(s, first), rest, name, c)
    ensures Restorations(s, first + rest, name, c)
            == Restorations(s, first, name, c) + Restorations(Run(s, first), rest, name, c)
    decreases |first|
  {
    if first == [] {
      assert first + rest == rest;
    } else {
      var (p, a) := first[0];
      assert first + rest == [(p, a)] + (first[1..] + rest) && first == [(p, a)] + first[1..];
      RunFirst(s, p, a, first[1..] + rest, name, c);
      RunFirst(s, p, a, first[1..], name, c);
      RunBoth(Step(s, p, a), first[1..], rest, name, c);
    }
  }

  /** The run so far ends in t, replaced nothing and brought nothing back. */
  predicate GoesOn(s: World, script: seq<(nat, Action)>, t: World, rest: seq<(nat, Action)>, name: string,
                   c: Credentials) {
    && Run(s, script) == Run(t, rest)
    && Replacements(s, script, name, c) == Replacements(t, rest, name, c)
    && Restorations(s, script, name, c) == Restorations(t, rest, name, c)
  }

  /** Nothing is locked, and the target is c and has no evidence. */
  predicate Quiet(s: World, name: string, c: Credentials) {
    && s.operation == map[] && s.evidenceLock == map[] && s.exclusive.None?
    && s.Current(name) == Some(c) && name !in s.evidence
  }

  ghost predicate OthersRest(s: World, t: World, p: nat) {
    forall q: nat :: q != p ==> t.PhaseOf(q) == s.PhaseOf(q)
  }

  function OwnLock<K>(key: Option<K>, p: nat): map<K, nat> {
    if key.Some? then map[key.value := p] else map[]
  }

  /** Process p saw c and is at this point; nobody else holds a lock, and the target is
      now current. */
  predicate Alone(s: World, p: nat, name: string, c: Credentials, at: Point, current: Credentials) {
    var f := Working(Request(name, Some(c), false), at);
    && s.PhaseOf(p) == f && s.exclusive.None?
    && s.operation == OwnLock(HeldOperation(f), p) && s.evidenceLock == OwnLock(HeldEvidence(f), p)
    && s.Current(name) == Some(current) && (name in s.evidence <==> HasLease(f))
  }

  lemma HoldAlone<K>(m: map<K, nat>, p: nat, was: Option<K>, now: Option<K>)
    requires m == OwnLock(was, p)
    ensures Hold(m, p, now) == OwnLock(now, p)
  {
  }

  /** One step of a refresh that is alone, as part of a run. */
  lemma AloneStep(s: World, p: nat, a: Action, name: string, c: Credentials, at: Point, current: Credentials,
                  after: Point, next: Credentials, rest: seq<(nat, Action)>)
    returns (t: World)
    requires Alone(s, p, name, c, at, current) && Act(s, p, a).Some?
    requires Act(s, p, a).value.phase == Working(Request(name, Some(c), false), after)
    requires name in Act(s, p, a).value.accounts && Act(s, p, a).value.accounts[name].credentials == next
    requires name in Act(s, p, a).value.evidence <==> HasLease(Act(s, p, a).value.phase)
    requires at.Staged? ==> at.replacement != c
    ensures t == Step(s, p, a) && Alone(t, p, name, c, after, next) && OthersRest(s, t, p)
    ensures Run(s, [(p, a)] + rest) == Run(t, rest)
    ensures Replacements(s, [(p, a)] + rest, name, c)
            == (if current == c && next != c then 1 else 0) + Replacements(t, rest, name, c)
    ensures Restorations(s, [(p, a)] + rest, name, c) == Restorations(t, rest, name, c)
  {
    t := Step(s, p, a);
    HoldAlone(s.operation, p, HeldOperation(s.PhaseOf(p)), HeldOperation(t.PhaseOf(p)));
    HoldAlone(s.evidenceLock, p, HeldEvidence(s.PhaseOf(p)), HeldEvidence(t.PhaseOf(p)));
    RunFirst(s, p, a, rest, name, c);
  }

  lemma ReadsTarget(s: World, p: nat, name: string, c: Credentials, d: Credentials) returns (t: World)
    requires Alone(s, p, name, c, Observed, c) && c.RefreshToken().Some?
    ensures Alone(t, p, name, c, Expecting(0, c), c) && OthersRest(s, t, p)
    ensures GoesOn(s, RefreshScript(p, d), t, LockScript(p, d), name, c)
  {
    t := AloneStep(s, p, Join, name, c, Observed, c, Joined, c, [(p, Read)] + LockScript(p, d));
    t := AloneStep(t, p, Read, name, c, Joined, c, Expecting(0, c), c, LockScript(p, d));
  }

  lemma LocksOperation(s: World, p: nat, name: string, c: Credentials, d: Credentials) returns (t: World)
    requires Alone(s, p, name, c, Expecting(0, c), c) && c.RefreshToken().Some?
    ensures Alone(t, p, name, c, OperationChecked(0, c), c) && OthersRest(s, t, p)
    ensures GoesOn(s, LockScript(p, d), t, GrantScript(p, d), name, c)
  {
    t := AloneStep(s, p, LockOperation, name, c, Expecting(0, c), c, OperationHeld(0, c), c,
                   [(p, Check)] + GrantScript(p, d));
    t := AloneStep(t, p, Check, name, c, OperationHeld(0, c), c, OperationChecked(0, c), c, GrantScript(p, d));
  }

  lemma IsGranted(s: World, p: nat, name: string, c: Credentials, d: Credentials) returns (t: World)
    requires Alone(s, p, name, c, OperationChecked(0, c), c) && c.RefreshToken().Some?
    ensures Alone(t, p, name, c, Leased(c), c) && OthersRest(s, t, p)
    ensures GoesOn(s, GrantScript(p, d), t, ExchangeScript(p, d), name, c)
  {
    t := AloneStep(s, p, LockEvidence, name, c, OperationChecked(0, c), c, EvidenceHeld(0, c), c,
                   [(p, Grant)] + ExchangeScript(p, d));
    t := AloneStep(t, p, Grant, name, c, EvidenceHeld(0, c), c, Leased(c), c, ExchangeScript(p, d));
  }

  lemma StagesAnswer(s: World, p: nat, name: string, c: Credentials, d: Credentials) returns (t: World)
    requires Alone(s, p, name, c, Leased(c), c) && c.RefreshToken().Some?
    ensures Alone(t, p, name, c, Staged(c, d), c) && OthersRest(s, t, p)
    ensures GoesOn(s, ExchangeScript(p, d), t, MergeScript(p), name, c)
  {
    t := AloneStep(s, p, Exchange(Some(d)), name, c, Leased(c), c, Exchanged(c, Some(d)), c,
                   [(p, WriteStage)] + MergeScript(p));
    t := AloneStep(t, p, WriteStage, name, c, Exchanged(c, Some(d)), c, Staged(c, d), c, MergeScript(p));
  }

  lemma MergesStage(s: World, p: nat, name: string, c: Credentials, d: Credentials)
    requires Alone(s, p, name, c, Staged(c, d), c) && c != d
    ensures var t := Run(s, MergeScript(p)); Alone(t, p, name, c, Over(Success), d) && OthersRest(s, t, p)
    ensures Replacements(s, MergeScript(p), name, c) == 1 && Restorations(s, MergeScript(p), name, c) == 0
  {
    var t := AloneStep(s, p, Merge, name, c, Staged(c, d), c, Settled(c, Success), d, [(p, CleanUp)] + []);
    t := AloneStep(t, p, CleanUp, name, c, Settled(c, Success), d, Over(Success), d, []);
  }

  predicate NoWrites(script: seq<(nat, Action)>) {
    forall i :: 0 <= i < |script| ==> !script[i].1.Write?
  }

  lemma RefreshWritesNothing(p: nat, d: Credentials)
    ensures NoWrites(RefreshScript(p, d))
  {
  }

  /** A refresh that is alone replaces what its caller saw. */
  lemma RefreshReplaces(s: World, p: nat, name: string, c: Credentials, d: Credentials)
    returns (script: seq<(nat, Action)>)
    requires Alone(s, p, name, c, Observed, c) && c.RefreshToken().Some? && c != d
    ensures var t := Run(s, script); Alone(t, p, name, c, Over(Success), d) && OthersRest(s, t, p)
    ensures Replacements(s, script, name, c) == 1 && Restorations(s, script, name, c) == 0 && NoWrites(script)
  {
    script := RefreshScript(p, d);
    RefreshWritesNothing(p, d);
    var t := ReadsTarget(s, p, name, c, d);
    t := LocksOperation(t, p, name, c, d);
    t := IsGranted(t, p, name, c, d);
    t := StagesAnswer(t, p, name, c, d);
    MergesStage(t, p, name, c, d);
  }

  /** One step, as part of a run. */
  lemma FirstStep(s: World, p: nat, a: Action, rest: seq<(nat, Action)>, name: string, c: Credentials)
    returns (script: seq<(nat, Action)>)
    requires !(s.Current(name) == Some(c) && Step(s, p, a).Current(name) != Some(c))
    ensures script == [(p, a)] + rest && Run(s, script) == Run(Step(s, p, a), rest)
    ensures Replacements(s, script, name, c) == Replacements(Step(s, p, a), rest, name, c)
    ensures Restorations(s, script, name, c)
            == (if BringsBack(s, p, a, name, c) then 1 else 0) + Restorations(Step(s, p, a), rest, name, c)
  {
    script := [(p, a)] + rest;
    RunFirst(s, p, a, rest, name, c);
  }

  /** The one write of a run is process 2 writing c back. */
  predicate WritesOnlyBack(script: seq<(nat, Action)>, name: string, c: Credentials) {
    forall i :: 0 <= i < |script| && script[i].1.Write? ==> script[i] == (2, Write(name, Some(Entry(c, false))))
  }

  predicate Succeeded(s: World, p: nat, name: string, c: Credentials) {
    s.PhaseOf(p) == Working(Request(name, Some(c), false), Over(Success))
  }

  lemma ReplacesAfterWriteBack(s: World, name: string, c: Credentials, d: Credentials)
    returns (script: seq<(nat, Action)>)
    requires Quiet(s, name, d) && s.PhaseOf(2) == Idle && c.RefreshToken().Some? && c != d
    requires s.PhaseOf(1) == Working(Request(name, Some(c), false), Observed)
    ensures Replacements(s, script, name, c) == 1 && Restorations(s, script, name, c) == 1
    ensures Succeeded(Run(s, script), 1, name, c) && Run(s, script).PhaseOf(0) == s.PhaseOf(0)
    ensures WritesOnlyBack(script, name, c)
  {
    var back := Write(name, Some(Entry(c, false)));
    var t := Step(s, 2, back);
    assert Alone(t, 1, name, c, Observed, c) && BringsBack(s, 2, back, name, c);
    var rest := RefreshReplaces(t, 1, name, c, d);
    script := FirstStep(s, 2, back, rest, name, c);
  }

  lemma BothReplace(s: World, name: string, c: Credentials, d: Credentials) returns (script: seq<(nat, Action)>)
    requires Alone(s, 0, name, c, Observed, c) && c.RefreshToken().Some? && c != d
    requires s.PhaseOf(1) == Working(Request(name, Some(c), false), Observed) && s.PhaseOf(2) == Idle
    ensures Replacements(s, script, name, c) == 2 && Restorations(s, script, name, c) == 1
    ensures Succeeded(Run(s, script), 0, name, c) && Succeeded(Run(s, script), 1, name, c)
    ensures WritesOnlyBack(script, name, c)
  {
    var first := RefreshReplaces(s, 0, name, c, d);
    var rest := ReplacesAfterWriteBack(Run(s, first), name, c, d);
    script := first + rest;
    RunBoth(s, first, rest, name, c);
  }

  /** One replacement is not all there can be: processes 0 and 1 both saw c, neither is
      forced, process 2 writes c back in between, and both refreshes replace it. */
  lemma RestoredCanBeReplacedAgain(s: World, name: string, c: Credentials, d: Credentials)
    returns (script: seq<(nat, Action)>)
    requires AtRest(s) && Quiet(s, name, c) && c.RefreshToken().Some? && c != d
    ensures Replacements(s, script, name, c) == 2 && Restorations(s, script, name, c) == 1
    ensures Succeeded(Run(s, script), 0, name, c) && Succeeded(Run(s, script), 1, name, c)
    ensures WritesOnlyBack(script, name, c)
  {
    var look := Observe(name, false);
    var t := Step(s, 0, look);
    assert Alone(t, 0, name, c, Observed, c) && t.PhaseOf(1) == Idle && t.PhaseOf(2) == Idle;
    var u := Step(t, 1, look);
    assert Alone(u, 0, name, c, Observed, c) && u.PhaseOf(2) == Idle;
    script := BothReplace(u, name, c, d);
    script := FirstStep(t, 1, look, script, name, c);
    script := FirstStep(s, 0, look, script, name, c);
  }
}
