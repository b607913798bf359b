/** Nested logs: a refresh whose merge runs the private transaction, through crashes
    of either and of both recoveries. */
module CredentialRefreshRuns {
  import opened Wrappers
  import opened Accounts
  import opened Storage
  import opened Journals
  import opened CredentialTransactionRecovery
  import opened CredentialTransactionPlans
  import opened CredentialTransactions
  import opened AccountMaps
  import opened AccountStores
  import opened AccountStoreRuns
  import opened CredentialRefresh

  /** Two disks with the same accounts and bundles and nothing pending admit the same
      merges. */
  lemma MergeAdmittedSame(d: Disk, e: Disk, name: string, expected: Credentials, u: Update, key: string -> string)
    requires d.authority == e.authority && d.files == e.files && d.txn.None? && e.txn.None?
    ensures MergeAdmitted(d, name, expected, u, key) == MergeAdmitted(e, name, expected, u, key)
  {
  }

  /** While the authority is still the old one, so is everything a base says. */
  predicate Anchored(base: Disk, start: Disk, now: Option<File>) {
    now == start.authority ==> base.authority == start.authority && base.files == start.files && base.txn.None?
  }

  /** The authority moved only to the staged map, and only if the merge was admitted. */
  predicate MovedToStage(lease: Lease, s: StageRecord, start: Disk, now: Option<File>, key: string -> string) {
    && start.txn.None? && MapOf(start.authority).Some?
    && (now != start.authority ==>
          && MapOf(now) == Some(StagedMap(MapOf(start.authority).value, lease.journal, s))
          && Replaces(MapOf(start.authority).value, lease.journal, s)
          && MergeAdmitted(start, s.account.name, lease.journal.expected.credentials, UpdateOf(s), key))
  }

  lemma StagedMapIsNew(m: seq<Account>, j: RefreshJournal, s: StageRecord)
    requires Replaces(m, j, s)
    ensures StagedMap(m, j, s) != m && StagedMap(m, j, s) != []
    ensures !Replaces(StagedMap(m, j, s), j, s)
  {
    MergeChangesOneAccount(m, s.account.name, j.expected.credentials, UpdateOf(s), s.account.name);
  }

  /** One step of either log keeps the anchor. */
  lemma AnchorKept(j0: Journal, base0: Disk, j: Journal, base: Disk, start: Disk, was: Option<File>, now: Option<File>)
    requires Anchored(base0, start, was) && Matches(j0, base0)
    requires was != start.authority ==> now == was
    requires (j == j0 && base == base0) || (base.txn.None? && Settled(j0, base0, base) && base.authority == was)
    ensures Anchored(base, start, now)
    ensures was == start.authority ==>
              base.authority == start.authority && base.files == start.files && base.txn.None?
  {
    if was == start.authority && !(j == j0 && base == base0) {
      BaseIsNotTarget(j0, base0, base);
    }
  }

  /** Accounts and bundles agree before the refresh, and its bundle is prepared for
      its home. */
  predicate StartsWell(lease: Lease, s: StageRecord, start: Disk) {
    && GoodSide(MapOf(start.authority), start.files)
    && MergesWell(MapOf(start.authority).value, lease.journal, s)
  }

  /** Everything known about one refresh between two processes. */
  ghost predicate Standing(tx: CredentialRefreshTransactions, lease: Lease, s: StageRecord, durable: bool, start: Disk,
                           j: Journal, base: Disk)
    reads tx, tx.store, tx.store.root
  {
    var root := tx.store.root;
    && tx.store.Valid() && tx.store.baseline.Some? && tx.store.hasPrivate
    && MapOf(root.authority).Some? && MovedToStage(lease, s, start, root.authority, tx.store.key)
    && Progress(lease, s, durable, MapOf(start.authority).value, MapOf(root.authority).value,
                Lookup(tx.directories, lease.Directory()))
    && Explains(j, base, root.State()) && j.guard.None? && Anchored(base, start, root.authority)
    && (StartsWell(lease, s, start) ==> BothSides(j, base))
    && lease.journal == IntentJournal(lease.account)
    && s.account.name == lease.account.name && s.account.lastRefreshAt.Some?
  }

  lemma StandingEvidence(lease: Lease, s: StageRecord, durable: bool, before: seq<Account>, now: seq<Account>,
                         e: RefreshEvidence)
    requires Progress(lease, s, durable, before, now, Some(e))
    requires now != before ==> now == StagedMap(before, lease.journal, s) && Replaces(before, lease.journal, s)
    ensures durable ==> Recovered(now, e) == StagedMap(before, lease.journal, s)
    ensures !durable ==> Recovered(now, e) == now == before
    ensures MergesWell(before, lease.journal, s) ==> RecoversWell(now, e)
    ensures (&& lease.journal == IntentJournal(lease.account) && StageDecodes(s) && StageMatches(lease.journal, s)
             && e.journal.value.state != Uncertain) ==> !Blocked(lease.Directory(), e)
    ensures lease.journal == IntentJournal(lease.account) && e.stage.None? ==> !Blocked(lease.Directory(), e)
    ensures ReplacedBy(now, e) ==> now == before && Replaces(before, lease.journal, s)
    ensures ReplacedBy(now, e) ==> UpdateOf(e.stage.value) == UpdateOf(s)
                                   && e.journal.value.expected == lease.journal.expected
  {
    if durable && now != before {
      StagedMapIsNew(before, lease.journal, s);
    }
  }

  /** For one refresh, evidence resolves exactly when it is resolvable from the start. */
  lemma {:induction false} ResolvesIff(lease: Lease, s: StageRecord, durable: bool, start: Disk, now: Disk,
                                       directories: map<LabelDigest, RefreshEvidence>, key: string -> string)
    requires lease.Directory() in directories && MapOf(now.authority).Some?
    requires MovedToStage(lease, s, start, now.authority, key)
    requires Progress(lease, s, durable, MapOf(start.authority).value, MapOf(now.authority).value,
                      Some(directories[lease.Directory()]))
    requires start.authority.Some? && now.txn.None? && (now.authority == start.authority ==> now.files == start.files)
    requires lease.journal == IntentJournal(lease.account) && s.account.name == lease.account.name
             && s.account.lastRefreshAt.Some?
    ensures Resolvable(lease, s, start, directories, key) ==>
              Resolves(lease.Directory(), directories[lease.Directory()], now, key)
  {
    var e := directories[lease.Directory()];
    var before := MapOf(start.authority).value;
    if Resolvable(lease, s, start, directories, key) {
      StandingEvidence(lease, s, durable, before, MapOf(now.authority).value, e);
      if now.authority != start.authority { StagedMapIsNew(before, lease.journal, s); }
      if e.stage.Some? && Awaits(MapOf(now.authority).value, e.journal.value, s) {
        MergeAdmittedSame(now, start, s.account.name, lease.journal.expected.credentials, UpdateOf(s), key);
      }
    }
  }

  /** Recovering the evidence moves the refresh to another of its states. */
  lemma {:induction false} RecoveryMoves(lease: Lease, s: StageRecord, durable: bool, start: Disk, was: Option<File>,
                                         now: Option<File>, e: RefreshEvidence, after: Option<RefreshEvidence>,
                                         key: string -> string)
    requires MovedToStage(lease, s, start, was, key) && MapOf(was).Some? && MapOf(now).Some?
    requires Progress(lease, s, durable, MapOf(start.authority).value, MapOf(was).value, Some(e))
    requires now == was || (MapOf(now).value == Recovered(MapOf(was).value, e) && ReplacedBy(MapOf(was).value, e))
    requires after == Some(e) || (after == None && MapOf(now).value == Recovered(MapOf(was).value, e))
    requires now != was && was == start.authority ==>
               MergeAdmitted(start, s.account.name, lease.journal.expected.credentials, UpdateOf(s), key)
    requires lease.journal == IntentJournal(lease.account) && s.account.lastRefreshAt.Some?
    ensures MovedToStage(lease, s, start, now, key)
    ensures Progress(lease, s, durable, MapOf(start.authority).value, MapOf(now).value, after)
  {
    StandingEvidence(lease, s, durable, MapOf(start.authority).value, MapOf(was).value, e);
    if was != start.authority { StagedMapIsNew(MapOf(start.authority).value, lease.journal, s); }
  }

  /** Once merged, the evidence has nothing left to replace. */
  lemma {:induction false} MovedIsDone(lease: Lease, s: StageRecord, durable: bool, start: Disk, was: Option<File>,
                                       e: RefreshEvidence, key: string -> string)
    requires MovedToStage(lease, s, start, was, key) && MapOf(was).Some?
    requires Progress(lease, s, durable, MapOf(start.authority).value, MapOf(was).value, Some(e))
    ensures ReplacedBy(MapOf(was).value, e) ==>
              && was == start.authority && Replaces(MapOf(was).value, lease.journal, s)
              && e.stage == Some(s) && e.journal.value.expected == lease.journal.expected
    ensures StartsWell(lease, s, start) ==> RecoversWell(MapOf(was).value, e)
  {
    StandingEvidence(lease, s, durable, MapOf(start.authority).value, MapOf(was).value, e);
    if was != start.authority { StagedMapIsNew(MapOf(start.authority).value, lease.journal, s); }
  }

  /** Recover the evidence of one refresh: the story goes on, and the durable map moves
      only by the merge that the start admitted. */
  method RecoverEvidence(tx: CredentialRefreshTransactions, lease: Lease, s: StageRecord, ghost durable: bool,
                         ghost start: Disk, ghost j0: Journal, ghost base0: Disk)
    returns (o: Outcome<()>, ghost j: Journal, ghost base: Disk)
    requires Standing(tx, lease, s, durable, start, j0, base0) && lease.Directory() in tx.directories
    modifies tx`directories, tx`log, tx.store`accounts, tx.store`baseline
    modifies tx.store.root`pending, tx.store.root`looks, tx.store.root`files, tx.store.root`txn, tx.store.root`authority
    ensures tx.store.Valid() && tx.store.baseline.Some? && MapOf(tx.store.root.authority).Some?
    ensures Explains(j, base, tx.store.root.State()) && j.guard.None?
    ensures Anchored(base, start, tx.store.root.authority) && (StartsWell(lease, s, start) ==> BothSides(j, base))
    ensures var d, e, was := lease.Directory(), old(tx.directories)[lease.Directory()], old(tx.store.root.authority);
            var m := MapOf(was).value;
            && (tx.store.root.authority == was
                || (MapOf(tx.store.root.authority) == Some(Recovered(m, e)) && ReplacedBy(m, e)))
            && (tx.directories == old(tx.directories)
                || (tx.directories == old(tx.directories) - {d}
                    && MapOf(tx.store.root.authority) == Some(Recovered(m, e))))
            && (o.Done? ==> d !in tx.directories && !Blocked(d, e))
            && ((o.Done? || tx.store.root.authority != was) && was == start.authority && ReplacedBy(m, e) ==>
                  MergeAdmitted(start, s.account.name, lease.journal.expected.credentials, UpdateOf(s), tx.store.key))
            && ((&& old(tx.store.root.pending) == [] && old(tx.store.root.txn).None?
                 && Resolves(d, e, old(tx.store.root.State()), tx.store.key)) ==> o.Done?)
    ensures old(tx.store.root.pending) == [] && old(tx.store.root.txn).None? ==> tx.store.root.txn.None?
  {
    var d := lease.Directory();
    ghost var was := tx.store.root.authority;
    MovedIsDone(lease, s, durable, start, was, tx.directories[d], tx.store.key);
    o, j, base := tx.RecoverDirectory(d, j0, base0);
    AnchorKept(j0, base0, j, base, start, was, tx.store.root.authority);
    if was == start.authority {
      MergeAdmittedSame(base, start, s.account.name, lease.journal.expected.credentials, UpdateOf(s), tx.store.key);
    }
  }

  /** The refresh log's recovery keeps everything known about the refresh. */
  method RecoverRefresh(tx: CredentialRefreshTransactions, lease: Lease, s: StageRecord, ghost durable: bool,
                        ghost start: Disk, ghost j0: Journal, ghost base0: Disk)
    returns (o: Outcome<()>, ghost j: Journal, ghost base: Disk)
    requires Standing(tx, lease, s, durable, start, j0, base0)
    modifies tx`directories, tx`log, tx.store`accounts, tx.store`baseline
    modifies tx.store.root`pending, tx.store.root`looks, tx.store.root`files, tx.store.root`txn, tx.store.root`authority
    ensures Standing(tx, lease, s, durable, start, j, base)
    ensures OthersSame(lease.Directory(), old(tx.directories), tx.directories)
    ensures o.Done? ==> lease.Directory() !in tx.directories
    ensures lease.Directory() in tx.directories ==> tx.directories == old(tx.directories)
    ensures old(tx.store.root.pending) == [] && old(tx.store.root.txn).None? ==> tx.store.root.txn.None?
    ensures (&& old(tx.store.root.pending) == [] && old(tx.store.root.txn).None? && start.authority.Some?
             && Resolvable(lease, s, start, old(tx.directories), tx.store.key)) ==> o.Done?
    ensures o.Done? && lease.Directory() in old(tx.directories) ==>
              Resolvable(lease, s, start, old(tx.directories), tx.store.key)
  {
    j, base := j0, base0;
    var d := lease.Directory();
    if d !in tx.directories { return Done(()), j, base; }
    ghost var was, e := tx.store.root.State(), tx.directories[d];
    BaseIsNotTarget(j0, base0, was);
    if start.authority.Some? && was.txn.None? {
      ResolvesIff(lease, s, durable, start, was, tx.directories, tx.store.key);
    }
    o, j, base := RecoverEvidence(tx, lease, s, durable, start, j0, base0);
    RecoveryMoves(lease, s, durable, start, was.authority, tx.store.root.authority, e, Lookup(tx.directories, d),
                  tx.store.key);
    if o.Done? { FinishedIsResolvable(lease, s, durable, start, was.authority, e, tx.store.key); }
  }

  /** What a finished recovery says about the refresh it finished. */
  lemma {:induction false} FinishedIsResolvable(lease: Lease, s: StageRecord, durable: bool, start: Disk,
                                                was: Option<File>, e: RefreshEvidence, key: string -> string)
    requires MovedToStage(lease, s, start, was, key) && MapOf(was).Some?
    requires Progress(lease, s, durable, MapOf(start.authority).value, MapOf(was).value, Some(e))
    requires !Blocked(lease.Directory(), e) && lease.journal == IntentJournal(lease.account)
    requires s.account.name == lease.account.name && s.account.lastRefreshAt.Some?
    requires was == start.authority && ReplacedBy(MapOf(was).value, e) ==>
               MergeAdmitted(start, s.account.name, lease.journal.expected.credentials, UpdateOf(s), key)
    ensures forall directories: map<LabelDigest, RefreshEvidence> ::
              Lookup(directories, lease.Directory()) == Some(e) ==> Resolvable(lease, s, start, directories, key)
  {
  }

  /** Recovery can finish the refresh: its fate is known, its stage belongs to its
      journal, and a merge that is still to be done is one the store takes. */
  predicate Resolvable(lease: Lease, s: StageRecord, start: Disk, directories: map<LabelDigest, RefreshEvidence>,
                       key: string -> string) {
    var e := Lookup(directories, lease.Directory());
    e.Some? && e.value.stage.Some? ==>
      && e.value.journal.Some? && e.value.journal.value.state != Uncertain
      && StageDecodes(s) && StageMatches(lease.journal, s)
      && MapOf(start.authority).Some?
      && (Replaces(MapOf(start.authority).value, lease.journal, s) ==>
            MergeAdmitted(start, s.account.name, lease.journal.expected.credentials, UpdateOf(s), key))
  }

  /** The private log's recovery keeps everything known about the refresh. */
  method RecoverPrivate(tx: CredentialRefreshTransactions, lease: Lease, s: StageRecord, ghost durable: bool,
                        ghost start: Disk, ghost j: Journal, ghost base: Disk)
    requires Standing(tx, lease, s, durable, start, j, base)
    modifies tx.store.root`pending, tx.store.root`looks, tx.store.root`files, tx.store.root`txn
    ensures Standing(tx, lease, s, durable, start, j, base)
    ensures tx.store.root.authority == old(tx.store.root.authority)
    ensures old(tx.store.root.pending) == [] ==>
              tx.store.root.pending == [] && tx.store.root.txn.None? && Settled(j, base, tx.store.root.State())
  {
    var recovered := Recover(tx.store.root, None, j, base);
  }

  /** Any number of processes that each meet faults in both recoveries. */
  method Restarts(tx: CredentialRefreshTransactions, lease: Lease, s: StageRecord, ghost durable: bool,
                  restarts: seq<(seq<Fault>, seq<Fault>)>, ghost start: Disk, ghost j0: Journal, ghost base0: Disk)
    returns (ghost j: Journal, ghost base: Disk)
    requires Standing(tx, lease, s, durable, start, j0, base0)
    modifies tx`directories, tx`log, tx.store`accounts, tx.store`baseline
    modifies tx.store.root`pending, tx.store.root`looks, tx.store.root`files, tx.store.root`txn, tx.store.root`authority
    ensures Standing(tx, lease, s, durable, start, j, base)
    ensures lease.Directory() in tx.directories ==>
              Lookup(tx.directories, lease.Directory()) == Lookup(old(tx.directories), lease.Directory())
    ensures OthersSame(lease.Directory(), old(tx.directories), tx.directories)
  {
    j, base := j0, base0;
    for n := 0 to |restarts|
      invariant Standing(tx, lease, s, durable, start, j, base)
      invariant lease.Directory() in tx.directories ==>
                  Lookup(tx.directories, lease.Directory()) == Lookup(old(tx.directories), lease.Directory())
      invariant OthersSame(lease.Directory(), old(tx.directories), tx.directories)
    {
      tx.store.root.Restart(restarts[n].0);
      RecoverPrivate(tx, lease, s, durable, start, j, base);
      tx.store.root.Restart(restarts[n].1);
      var o;
      o, j, base := RecoverRefresh(tx, lease, s, durable, start, j, base);
    }
  }

  /** How one refresh can end once both logs have been recovered undisturbed. */
  predicate RefreshEnd(lease: Lease, s: StageRecord, durable: bool, surely: bool, start: Disk, now: Option<File>,
                       files: map<Loc, Content>, directories: map<LabelDigest, RefreshEvidence>,
                       key: string -> string)
    requires s.account.lastRefreshAt.Some?
  {
    && MapOf(start.authority).Some?
    // Accounts and bundles agree, whatever happened.
    && (StartsWell(lease, s, start) ==> GoodSide(MapOf(now), files))
    // No stage: the old accounts and the old bundles.
    && (!durable ==> lease.Directory() !in directories && now == start.authority)
    && (now == start.authority ==> files == start.files)
    // A stage that resolves: the staged replacement where it applied.
    && (durable && lease.Directory() !in directories ==>
        MapOf(now) == Some(StagedMap(MapOf(start.authority).value, lease.journal, s)))
    // Evidence stays exactly when it cannot be resolved.
    && (lease.Directory() in directories <==> !Resolvable(lease, s, start, directories, key))
    // No write of the refresh took effect and yet reported an error: no durability doubt.
    && (surely && lease.Directory() in directories ==>
          !(StageDecodes(s) && StageMatches(lease.journal, s)
            && (Replaces(MapOf(start.authority).value, lease.journal, s) ==>
                  MergeAdmitted(start, s.account.name, lease.journal.expected.credentials, UpdateOf(s), key))))
    && (lease.Directory() in directories ==>
          now == start.authority || MapOf(now) == Some(StagedMap(MapOf(start.authority).value, lease.journal, s)))
  }

  /** Nested logs over whole runs.

      One provider result is committed under any faults; any number of processes
      recover the private log and then the refresh log under faults of their own;
      one last process recovers both undisturbed. */
  method RefreshThroughCrashes(tx: CredentialRefreshTransactions, lease: Lease, c: Credentials, plan: Option<string>,
                               at: int, bundle: Option<PreparedWrite>, restarts: seq<(seq<Fault>, seq<Fault>)>)
    returns (ghost durable: bool)
    requires tx.store.Valid() && tx.store.baseline.Some? && tx.store.hasPrivate
    requires lease.HeldIn(tx.directories)
    requires tx.store.root.txn.None? && tx.store.root.authority.Some?
    requires MapOf(tx.store.root.authority).Some?
    modifies tx`directories, tx`log, tx.store`accounts, tx.store`baseline
    modifies tx.store.root`pending, tx.store.root`looks, tx.store.root`files, tx.store.root`txn, tx.store.root`authority
    ensures tx.store.root.txn.None?
    ensures OthersSame(lease.Directory(), old(tx.directories), tx.directories)
    ensures RefreshEnd(lease, StageFor(lease, c, plan, at, bundle), durable, NoDoubt(old(tx.store.root.pending)),
                       old(tx.store.root.State()),
                       tx.store.root.authority, tx.store.root.files, tx.directories, tx.store.key)
  {
    ghost var start := tx.store.root.State();
    var s := StageFor(lease, c, plan, at, bundle);
    ghost var j, base;
    durable, j, base := CommitOnce(tx, lease, c, plan, at, bundle);
    j, base := Restarts(tx, lease, s, durable, restarts, start, j, base);
    LastProcess(tx, lease, s, durable, NoDoubt(old(tx.store.root.pending)), start, j, base);
  }

  method CommitOnce(tx: CredentialRefreshTransactions, lease: Lease, c: Credentials, plan: Option<string>,
                    at: int, bundle: Option<PreparedWrite>)
    returns (ghost durable: bool, ghost j: Journal, ghost base: Disk)
    requires tx.store.Valid() && tx.store.baseline.Some? && tx.store.hasPrivate
    requires lease.HeldIn(tx.directories)
    requires tx.store.root.txn.None? && tx.store.root.authority.Some?
    requires MapOf(tx.store.root.authority).Some?
    modifies tx`directories, tx`log, tx.store`accounts, tx.store`baseline
    modifies tx.store.root`pending, tx.store.root`looks, tx.store.root`files, tx.store.root`txn, tx.store.root`authority
    ensures NoDoubt(old(tx.store.root.pending)) ==> !IsUncertain(Lookup(tx.directories, lease.Directory()))
    ensures OthersSame(lease.Directory(), old(tx.directories), tx.directories)
    ensures Standing(tx, lease, StageFor(lease, c, plan, at, bundle), durable, old(tx.store.root.State()), j, base)
  {
    ghost var start := tx.store.root.State();
    var s := StageFor(lease, c, plan, at, bundle);
    IdleExplains(start);
    if GoodSide(MapOf(start.authority), start.files) { IdleIsGood(start); }
    j, base := Idle(start), start;
    var o;
    o, durable, j, base := tx.CommitSuccess(lease, c, plan, at, bundle, j, base);
    AnchorKept(Idle(start), start, j, base, start, start.authority, tx.store.root.authority);
    if Replaces(MapOf(start.authority).value, lease.journal, s) {
      MergeAdmittedSame(base, start, s.account.name, lease.journal.expected.credentials, UpdateOf(s), tx.store.key);
    }
  }

  /** One process that recovers both logs undisturbed. */
  method LastProcess(tx: CredentialRefreshTransactions, lease: Lease, s: StageRecord, ghost durable: bool,
                     ghost surely: bool, ghost start: Disk, ghost j0: Journal, ghost base0: Disk)
    requires surely ==> !IsUncertain(Lookup(tx.directories, lease.Directory()))
    requires Standing(tx, lease, s, durable, start, j0, base0) && start.authority.Some?
    modifies tx`directories, tx`log, tx.store`accounts, tx.store`baseline
    modifies tx.store.root`pending, tx.store.root`looks, tx.store.root`files, tx.store.root`txn, tx.store.root`authority
    ensures tx.store.root.txn.None?
    ensures OthersSame(lease.Directory(), old(tx.directories), tx.directories)
    ensures RefreshEnd(lease, s, durable, surely, start, tx.store.root.authority, tx.store.root.files,
                       tx.directories, tx.store.key)
  {
    tx.store.root.Restart([]);
    RecoverPrivate(tx, lease, s, durable, start, j0, base0);
    var last;
    ghost var j, base;
    last, j, base := RecoverRefresh(tx, lease, s, durable, start, j0, base0);
    if StartsWell(lease, s, start) { SettledIsGood(j, base, tx.store.root.State()); }
    BaseIsNotTarget(j, base, tx.store.root.State());
    if tx.store.root.authority != start.authority {
      StagedMapIsNew(MapOf(start.authority).value, lease.journal, s);
    }
  }

  /** What may happen between the crash of a refresh and its recovery: an operation of
      some store, or a process that recovers both logs under some guard, each under
      faults. */
  datatype Event =
    | Other(step: Step)
    | RecoverBoth(guard: Option<Guard>, source: Option<File>, privateFaults: seq<Fault>, refreshFaults: seq<Fault>)

  /** One link of the durable maps: nothing, the operation, or the evidence recovered. */
  predicate EventAdvances(before: seq<Account>, event: Event, e: RefreshEvidence, after: seq<Account>) {
    match event
    case Other(step) => Advances(before, step.op, after)
    case RecoverBoth(_, _, _, _) => after == before || after == Recovered(before, e)
  }

  predicate EventGuard(g: Option<GuardRecord>, events: seq<Event>) {
    g.None? || exists k :: 0 <= k < |events| && events[k].Other? && GuardRecordOf(GuardOf(events[k].step.op)) == g
  }

  predicate EventPrepared(before: seq<Account>, event: Event) {
    event.Other? ==> WellPrepared(before, event.step.op)
  }

  /** Recover both logs once; the evidence stays, or goes with its stage merged into
      whatever the account was by then.  Undisturbed and with the recorded guard the
      evidence goes exactly when nothing stands in the way of its stage. */
  method RecoverBothLogs(tx: CredentialRefreshTransactions, d: LabelDigest, event: Event, ghost e: RefreshEvidence,
                         ghost j0: Journal, ghost base0: Disk)
    returns (ghost settled: Disk, ghost j: Journal, ghost base: Disk)
    requires tx.store.Valid() && tx.store.baseline.Some? && tx.store.hasPrivate && event.RecoverBoth?
    requires MapOf(tx.store.root.authority).Some? && Explains(j0, base0, tx.store.root.State())
    requires d in tx.directories ==> tx.directories[d] == e
    modifies tx`directories, tx`log, tx.store`accounts, tx.store`baseline, tx.store.root`source
    modifies tx.store.root`pending, tx.store.root`looks, tx.store.root`files, tx.store.root`txn, tx.store.root`authority
    ensures tx.store.Valid() && tx.store.baseline.Some?
    ensures MapOf(tx.store.root.authority).Some? && Explains(j, base, tx.store.root.State())
    ensures BothSides(j0, base0) && EvidenceWell(e) ==> BothSides(j, base)
    ensures j.guard == j0.guard || j.guard.None?
    ensures tx.directories == old(tx.directories) || tx.directories == old(tx.directories) - {d}
    ensures var before, after := MapOf(old(tx.store.root.authority)).value, MapOf(tx.store.root.authority).value;
            && (after == before || (d in old(tx.directories) && after == Recovered(before, e)))
            && (d in old(tx.directories) && d !in tx.directories ==> after == Recovered(before, e))
    ensures settled.authority == old(tx.store.root.authority)
    ensures (&& event.privateFaults == [] && event.refreshFaults == []
             && GuardMatches(PendingGuard(old(tx.store.root.State())), event.guard, event.source)) ==>
              && tx.store.root.txn.None? && settled.txn.None?
              && (d in old(tx.directories) ==> (d !in tx.directories <==> Resolves(d, e, settled, tx.store.key)))
  {
    j, base := j0, base0;
    tx.store.root.RestartWithSource(event.privateFaults, event.source);
    var recovered := Recover(tx.store.root, event.guard, j, base);
    settled := tx.store.root.State();
    tx.store.root.Restart(event.refreshFaults);
    if d in tx.directories {
      assert EvidenceWell(e) ==> RecoversWell(MapOf(tx.store.root.authority).value, e);
      var o;
      o, j, base := tx.RecoverDirectory(d, j, base);
    }
  }

  /** The stores and the refresh log of one account root. */
  ghost predicate Assembled(tx: CredentialRefreshTransactions, stores: seq<AccountStore>)
    reads tx, tx.store, tx.store.root, stores
  {
    && tx.store.Valid() && tx.store.baseline.Some? && tx.store.hasPrivate && tx.store !in stores
    && (forall i :: 0 <= i < |stores| ==>
                      stores[i].root == tx.store.root && stores[i].hasPrivate && stores[i].Valid())
    && MapOf(tx.store.root.authority).Some?
  }

  /** What one event keeps of the story told about the disk. */
  ghost predicate EventGoesOn(j0: Journal, base0: Disk, j: Journal, base: Disk, d: Disk, before: seq<Account>,
                              event: Event, e: RefreshEvidence) {
    && Explains(j, base, d)
    && (j.guard == j0.guard || EventGuard(j.guard, [event]))
    && (BothSides(j0, base0) && EvidenceWell(e) && EventPrepared(before, event) ==> BothSides(j, base))
  }

  method RunEvent(tx: CredentialRefreshTransactions, stores: seq<AccountStore>, event: Event, d: LabelDigest,
                  ghost e: RefreshEvidence, ghost j0: Journal, ghost base0: Disk)
    returns (ghost j: Journal, ghost base: Disk)
    requires Assembled(tx, stores) && (event.Other? ==> event.step.who < |stores|)
    requires Explains(j0, base0, tx.store.root.State()) && (d in tx.directories ==> tx.directories[d] == e)
    modifies tx, tx.store, tx.store.root, stores
    ensures Assembled(tx, stores)
    ensures tx.directories == old(tx.directories) || tx.directories == old(tx.directories) - {d}
    ensures EventAdvances(MapOf(old(tx.store.root.authority)).value, event, e, MapOf(tx.store.root.authority).value)
    ensures EventGoesOn(j0, base0, j, base, tx.store.root.State(), MapOf(old(tx.store.root.authority)).value, event, e)
  {
    match event {
      case Other(step) =>
        var made;
        made, j, base := RunStep(tx.store.root, stores[step.who], step, j0, base0);
        assert [event][0] == event;
      case RecoverBoth(_, _, _, _) =>
        ghost var settled;
        settled, j, base := RecoverBothLogs(tx, d, event, e, j0, base0);
    }
  }

  lemma GuardStays(g: Option<GuardRecord>, events: seq<Event>, n: nat)
    requires n < |events| && EventGuard(g, [events[n]])
    ensures EventGuard(g, events)
  {
    if g.Some? {
      assert [events[n]][0] == events[n];
    }
  }

  method RunEvents(tx: CredentialRefreshTransactions, stores: seq<AccountStore>, events: seq<Event>, d: LabelDigest,
                   ghost e: RefreshEvidence, ghost j0: Journal, ghost base0: Disk)
    returns (ghost history: seq<seq<Account>>, ghost j: Journal, ghost base: Disk)
    requires Assembled(tx, stores)
    requires forall k :: 0 <= k < |events| && events[k].Other? ==> events[k].step.who < |stores|
    requires Explains(j0, base0, tx.store.root.State()) && d in tx.directories && tx.directories[d] == e
    modifies tx, tx.store, tx.store.root, stores
    ensures Assembled(tx, stores) && Explains(j, base, tx.store.root.State())
    ensures tx.directories == old(tx.directories) || tx.directories == old(tx.directories) - {d}
    ensures |history| == |events| + 1 && MapOf(old(tx.store.root.authority)) == Some(history[0])
    ensures MapOf(tx.store.root.authority) == Some(history[|events|])
    ensures forall k :: 0 <= k < |events| ==> EventAdvances(history[k], events[k], e, history[k + 1])
    ensures j.guard == j0.guard || EventGuard(j.guard, events)
    ensures (&& BothSides(j0, base0) && EvidenceWell(e)
             && (forall k :: 0 <= k < |events| ==> EventPrepared(history[k], events[k]))) ==> BothSides(j, base)
  {
    j, base := j0, base0;
    history := [MapOf(tx.store.root.authority).value];
    for n := 0 to |events|
      invariant Assembled(tx, stores) && Explains(j, base, tx.store.root.State())
      invariant tx.directories == old(tx.directories) || tx.directories == old(tx.directories) - {d}
      invariant |history| == n + 1 && MapOf(old(tx.store.root.authority)) == Some(history[0])
      invariant MapOf(tx.store.root.authority) == Some(history[n])
      invariant forall k :: 0 <= k < n ==> EventAdvances(history[k], events[k], e, history[k + 1])
      invariant j.guard == j0.guard || EventGuard(j.guard, events)
      invariant (&& BothSides(j0, base0) && EvidenceWell(e)
                 && (forall k :: 0 <= k < n ==> EventPrepared(history[k], events[k]))) ==> BothSides(j, base)
    {
      j, base := RunEvent(tx, stores, events[n], d, e, j, base);
      if EventGuard(j.guard, [events[n]]) { GuardStays(j.guard, events, n); }
      history := history + [MapOf(tx.store.root.authority).value];
    }
  }

  /** A refresh that crashed, amid other processes: any stores go on changing the
      accounts and any processes recover, under any guards and faults, before one
      process recovers both logs undisturbed.

      Every durable map is the one before it, one operation applied to it, or the
      evidence recovered into it.  If the last process presents the guard that is
      pending and finds the source as recorded, no transaction is left, evidence that
      is still there goes exactly when nothing stands in the way of its stage, and
      accounts and bundles agree if every bundle was well prepared. */
  method RecoverAmidOthers(tx: CredentialRefreshTransactions, stores: seq<AccountStore>, events: seq<Event>,
                           d: LabelDigest, last: Option<Guard>, source: Option<File>, ghost j0: Journal,
                           ghost base0: Disk)
    returns (ghost history: seq<seq<Account>>, ghost recorded: Option<GuardRecord>, ghost left: bool,
             ghost settled: Disk)
    requires Assembled(tx, stores)
    requires forall k :: 0 <= k < |events| && events[k].Other? ==> events[k].step.who < |stores|
    requires Explains(j0, base0, tx.store.root.State())
    requires d in tx.directories
    modifies tx, tx.store, tx.store.root, stores
    ensures |history| == |events| + 2 && MapOf(old(tx.store.root.authority)) == Some(history[0])
    ensures forall k :: 0 <= k < |events| ==>
                          EventAdvances(history[k], events[k], old(tx.directories)[d], history[k + 1])
    ensures EventAdvances(history[|events|], RecoverBoth(last, source, [], []), old(tx.directories)[d],
                          history[|events| + 1])
    ensures MapOf(tx.store.root.authority) == Some(history[|events| + 1])
    ensures tx.directories == old(tx.directories) || tx.directories == old(tx.directories) - {d}
    ensures recorded == j0.guard || EventGuard(recorded, events)
    ensures GuardMatches(recorded, last, source) ==>
              && tx.store.root.txn.None? && settled.txn.None? && MapOf(settled.authority) == Some(history[|events|])
              && (d !in tx.directories <==> !left || Resolves(d, old(tx.directories)[d], settled, tx.store.key))
              && (left && d !in tx.directories ==>
                    history[|events| + 1] == Recovered(history[|events|], old(tx.directories)[d]))
    ensures (&& GuardMatches(recorded, last, source) && BothSides(j0, base0) && EvidenceWell(old(tx.directories)[d])
             && (forall k :: 0 <= k < |events| ==> EventPrepared(history[k], events[k]))) ==>
              GoodSide(MapOf(tx.store.root.authority), tx.store.root.files)
  {
    ghost var e := tx.directories[d];
    ghost var j, base;
    history, j, base := RunEvents(tx, stores, events, d, e, j0, base0);
    recorded, left := PendingGuard(tx.store.root.State()), d in tx.directories;
    settled, j, base := RecoverBothLogs(tx, d, RecoverBoth(last, source, [], []), e, j, base);
    history := history + [MapOf(tx.store.root.authority).value];
    if GuardMatches(recorded, last, source) && BothSides(j, base) { SettledIsGood(j, base, tx.store.root.State()); }
  }
}
