/** The refresh log and the interleaving model are one protocol: what the log does to
    accounts and evidence is what a step of the interleaving does. */
module CredentialRefreshSteps {
  import opened Wrappers
  import opened Accounts
  import opened AccountMaps
  import opened AccountStores
  import opened CredentialRefresh
  import opened CredentialRefreshCoordinator
  import RefreshLocks

  function EntryOf(a: Account): RefreshLocks.Entry {
    RefreshLocks.Entry(a.credentials, a.lastRefreshStatus == Some(Failed))
  }

  function EntryIn(m: seq<Account>, name: string): Option<RefreshLocks.Entry> {
    var a := Find(m, name);
    if a.Some? then Some(EntryOf(a.value)) else None
  }

  /** The accounts of a world are this durable map. */
  ghost predicate Shows(accounts: map<string, RefreshLocks.Entry>, m: seq<Account>) {
    forall name :: Lookup(accounts, name) == EntryIn(m, name)
  }

  /** One directory, written for one target by a lease that expected these credentials. */
  predicate ShowsOne(v: RefreshLocks.Evidence, name: string, e: RefreshEvidence) {
    && e.journal.Some?
    && var j := e.journal.value;
       && j.target == LabelSha(name) && j.expected == CredentialSha(v.expected)
       && j.provider == v.expected.Provider() && j.expectedKind == KindOf(v.expected)
       && (v.staged.None? <==> e.stage.None?)
       && (e.stage.Some? ==>
             && e.stage.value.account.name == name && e.stage.value.account.lastRefreshAt.Some?
             && v.staged == Some(e.stage.value.account.credentials))
  }

  /** The evidence of a world is these directories. */
  ghost predicate ShowsEvidence(evidence: map<string, RefreshLocks.Evidence>,
                                directories: map<LabelDigest, RefreshEvidence>) {
    forall name ::
      && (name in evidence <==> LabelSha(name) in directories)
      && (name in evidence ==> ShowsOne(evidence[name], name, directories[LabelSha(name)]))
  }

  ghost predicate ShowsWorld(s: RefreshLocks.World, m: seq<Account>, directories: map<LabelDigest, RefreshEvidence>) {
    Shows(s.accounts, m) && ShowsEvidence(s.evidence, directories)
  }

  lemma CurrentIs(s: RefreshLocks.World, m: seq<Account>, name: string)
    requires Shows(s.accounts, m)
    ensures s.Current(name) == if Find(m, name).Some? then Some(Find(m, name).value.credentials) else None
  {
    assert Lookup(s.accounts, name) == EntryIn(m, name);
  }

  /** Under its locks, a call is granted its lease exactly when the log begins an intent:
      the target still holds what was read and has no evidence; and the directories with
      that intent are the evidence after the step. */
  lemma GrantIsBeginIntent(s: RefreshLocks.World, p: nat, req: RefreshLocks.Request, attempt: nat,
                           expected: Credentials, m: seq<Account>, directories: map<LabelDigest, RefreshEvidence>)
    requires ShowsWorld(s, m, directories)
    requires s.PhaseOf(p) == RefreshLocks.Working(req, RefreshLocks.EvidenceHeld(attempt, expected))
    ensures var t := RefreshLocks.Step(s, p, RefreshLocks.Grant);
            var a := Find(m, req.target);
            && (RefreshLocks.HasLease(t.PhaseOf(p)) <==>
                  a.Some? && a.value.credentials == expected && LabelSha(req.target) !in directories)
            && (RefreshLocks.HasLease(t.PhaseOf(p)) ==>
                  ShowsWorld(t, m, directories[LabelSha(a.value.name) := IntentOf(a.value)]))
  {
    CurrentIs(s, m, req.target);
    FindIs(m, req.target);
    assert req.target in s.evidence <==> LabelSha(req.target) in directories;
  }

  /** The request a call makes of what it saw and why it was made. */
  function RequestOf(name: string, observed: Option<Account>, reason: Reason): RefreshLocks.Request {
    RefreshLocks.Request(name, if observed.Some? then Some(observed.value.credentials) else None,
                         reason.OperatorForced?)
  }

  /** With its lease, the coordinator exchanges exactly when the interleaving lets the
      call exchange, and skips exactly when it lets it skip. */
  lemma ChoiceIsStep(s: RefreshLocks.World, p: nat, lease: Lease, observed: Option<Account>, reason: Reason,
                     response: Option<Credentials>)
    requires s.PhaseOf(p) == RefreshLocks.Working(RequestOf(lease.account.name, observed, reason),
                                                  RefreshLocks.Leased(lease.account.credentials))
    ensures RefreshLocks.Act(s, p, RefreshLocks.Exchange(response)).Some? <==> !Satisfied(observed, lease, reason)
    ensures RefreshLocks.Act(s, p, RefreshLocks.SkipExchange).Some? <==> Satisfied(observed, lease, reason)
  {
  }

  /** Writing the stage is the step that writes the stage. */
  lemma StageIsWriteStage(s: RefreshLocks.World, p: nat, req: RefreshLocks.Request, lease: Lease, c: Credentials,
                          r: StageRecord, m: seq<Account>, directories: map<LabelDigest, RefreshEvidence>)
    requires ShowsWorld(s, m, directories) && lease.HeldIn(directories) && lease.account.name == req.target
    requires r.account.name == req.target && r.account.credentials == c && r.account.lastRefreshAt.Some?
    requires s.PhaseOf(p)
             == RefreshLocks.Working(req, RefreshLocks.Exchanged(lease.account.credentials, Some(c)))
    ensures var t := RefreshLocks.Step(s, p, RefreshLocks.WriteStage);
            ShowsWorld(t, m, directories[lease.Directory() :=
                                         RefreshEvidence(Some(Completed(lease.journal, r)), Some(r))])
  {
  }

  /** One account assigned is one entry assigned. */
  lemma UpsertShows(accounts: map<string, RefreshLocks.Entry>, m: seq<Account>, a: Account)
    requires Shows(accounts, m)
    ensures Shows(accounts[a.name := EntryOf(a)], Upsert(m, a))
  {
    forall name
      ensures Lookup(accounts[a.name := EntryOf(a)], name) == EntryIn(Upsert(m, a), name)
    {
      UpsertFinds(m, a, name);
      assert Lookup(accounts, name) == EntryIn(m, name);
    }
  }

  /** A stage merged into the durable map is a stage merged into the world's accounts. */
  lemma StagedIntoIsStagedMap(accounts: map<string, RefreshLocks.Entry>, m: seq<Account>, name: string,
                              expected: Credentials, j: RefreshJournal, r: StageRecord)
    requires Shows(accounts, m)
    requires j.expected == CredentialSha(expected) && j.provider == expected.Provider()
             && j.expectedKind == KindOf(expected)
    requires r.account.name == name && r.account.lastRefreshAt.Some?
    ensures Shows(RefreshLocks.StagedInto(accounts, name, expected, r.account.credentials), StagedMap(m, j, r))
  {
    assert Lookup(accounts, name) == EntryIn(m, name);
    FindIs(m, name);
    if Replaces(m, j, r) {
      UpsertShows(accounts, m, Merged(Find(m, name).value, UpdateOf(r)));
    }
  }

  /** Merging the stage leaves the map that the log's merge leaves. */
  lemma MergeIsMergeStaged(s: RefreshLocks.World, p: nat, req: RefreshLocks.Request, lease: Lease, r: StageRecord,
                           m: seq<Account>)
    requires Shows(s.accounts, m) && lease.account.name == req.target && lease.journal == IntentJournal(lease.account)
    requires r.account.name == req.target && r.account.lastRefreshAt.Some?
    requires s.PhaseOf(p)
             == RefreshLocks.Working(req, RefreshLocks.Staged(lease.account.credentials, r.account.credentials))
    ensures Shows(RefreshLocks.Step(s, p, RefreshLocks.Merge).accounts, StagedMap(m, lease.journal, r))
  {
    StagedIntoIsStagedMap(s.accounts, m, req.target, lease.account.credentials, lease.journal, r);
  }

  /** A failure that is persisted leaves the map that the log's failure merge leaves. */
  lemma FailureIsPersistFailure(s: RefreshLocks.World, p: nat, req: RefreshLocks.Request, expected: Credentials,
                                message: string, at: int, m: seq<Account>)
    requires Shows(s.accounts, m)
    requires s.PhaseOf(p) == RefreshLocks.Working(req, RefreshLocks.Exchanged(expected, None))
    ensures Shows(RefreshLocks.Step(s, p, RefreshLocks.PersistFailure).accounts,
                  MergedMap(m, req.target, expected, FailureMerge(message, at)))
  {
    assert Lookup(s.accounts, req.target) == EntryIn(m, req.target);
    FindIs(m, req.target);
    if HoldsExpected(m, req.target, expected) {
      UpsertShows(s.accounts, m, Merged(Find(m, req.target).value, FailureMerge(message, at)));
    }
  }

  /** Recovery of a free directory leaves the recovered map and drops the directory. */
  lemma RecoveryIsRecoverDirectory(s: RefreshLocks.World, p: nat, req: RefreshLocks.Request, name: string,
                                   m: seq<Account>, directories: map<LabelDigest, RefreshEvidence>)
    requires ShowsWorld(s, m, directories) && LabelSha(name) in directories
    requires s.PhaseOf(p) == RefreshLocks.Recovering(req, name)
    ensures ShowsWorld(RefreshLocks.Step(s, p, RefreshLocks.FinishRecovery),
                       Recovered(m, directories[LabelSha(name)]), directories - {LabelSha(name)})
  {
    assert name in s.evidence && ShowsOne(s.evidence[name], name, directories[LabelSha(name)]);
    var e := directories[LabelSha(name)];
    if e.stage.Some? {
      StagedIntoIsStagedMap(s.accounts, m, name, s.evidence[name].expected, e.journal.value, e.stage.value);
    }
  }
}
