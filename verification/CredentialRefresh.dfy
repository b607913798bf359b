/** Private persistence of one credential refresh: an intent journal, a secret stage,
    a targeted merge that runs the private transaction inside it, and recovery. */
module CredentialRefresh {
  import opened Wrappers
  import opened Accounts
  import opened Storage
  import opened Journals
  import opened CredentialTransactionRecovery
  import opened CredentialTransactionPlans
  import opened CredentialTransactions
  import opened AccountMaps
  import opened AccountStores
  import opened AccountStoreRuns
  import RefreshLocks

  // Digests are injective constructors; the two domains cannot be confused.
  datatype LabelDigest = LabelSha(name: string)
  datatype CredentialDigest = CredentialSha(credentials: Credentials)

  datatype Kind = SubscriptionLogin | CodexLoginKind

  /** Setup tokens do not rotate and have no kind. */
  function KindOf(c: Credentials): Option<Kind> {
    match c
    case SetupToken(_) => None
    case ClaudeLogin(_, _) => Some(SubscriptionLogin)
    case CodexLogin(_, _, _) => Some(CodexLoginKind)
  }

  datatype StageState = Intent | Complete | Recorded | Uncertain

  datatype RefreshJournal = RefreshJournal(
    provider: ProviderId,
    target: LabelDigest,
    expectedKind: Option<Kind>,
    expected: CredentialDigest,
    state: StageState,
    staged: Option<CredentialDigest>)

  datatype StageRecord = StageRecord(account: Account, planUpdate: Option<string>, bundle: Option<PreparedWrite>)

  datatype RefreshEvidence = RefreshEvidence(journal: Option<RefreshJournal>, stage: Option<StageRecord>)

  datatype Lease = Lease(account: Account, journal: RefreshJournal) {
    function Directory(): LabelDigest {
      LabelSha(account.name)
    }

    /** The lease's own evidence, as stabilisation leaves it. */
    predicate HeldIn(directories: map<LabelDigest, RefreshEvidence>) {
      && journal == IntentJournal(account)
      && Lookup(directories, Directory()) == Some(RefreshEvidence(Some(journal), None))
    }
  }

  function IntentJournal(a: Account): RefreshJournal {
    RefreshJournal(a.credentials.Provider(), LabelSha(a.name), KindOf(a.credentials), CredentialSha(a.credentials),
                   Intent, None)
  }

  function IntentOf(a: Account): RefreshEvidence {
    RefreshEvidence(Some(IntentJournal(a)), None)
  }

  function StagedAccount(a: Account, c: Credentials, plan: Option<string>, at: int): Account {
    Merged(a, SuccessMerge(c, plan, at, None))
  }

  /** The stage envelope holds a bundle exactly for an account with a home, and for
      that home, and its account carries the plan it updates. */
  predicate StageDecodes(s: StageRecord) {
    && (s.planUpdate.Some? ==> s.account.plan == s.planUpdate.value)
    && (var home := if s.account.credentials.CodexLogin? then s.account.credentials.home else None;
        && (home.None? <==> s.bundle.None?)
        && (s.bundle.Some? ==> home == Some(Canonical(s.bundle.value.path))))
  }

  /** The stage belongs to the journal beside it. */
  predicate StageMatches(j: RefreshJournal, s: StageRecord) {
    && LabelSha(s.account.name) == j.target
    && s.account.credentials.Provider() == j.provider
    && KindOf(s.account.credentials).Some? && KindOf(s.account.credentials) == j.expectedKind
    && (j.staged.Some? ==> j.staged.value == CredentialSha(s.account.credentials))
  }

  predicate StillExpects(j: RefreshJournal, current: Account) {
    && current.credentials.Provider() == j.provider
    && KindOf(current.credentials) == j.expectedKind
    && CredentialSha(current.credentials) == j.expected
  }

  function UpdateOf(s: StageRecord): Update
    requires s.account.lastRefreshAt.Some?
  {
    SuccessMerge(s.account.credentials, s.planUpdate, s.account.lastRefreshAt.value, s.bundle)
  }

  /** The stage replaces the account exactly when the account still holds the
      expected credentials and not yet the staged ones. */
  predicate Replaces(m: seq<Account>, j: RefreshJournal, s: StageRecord) {
    && Find(m, s.account.name).Some?
    && Find(m, s.account.name).value.credentials != s.account.credentials
    && StillExpects(j, Find(m, s.account.name).value)
    && s.account.lastRefreshAt.Some?
  }

  /** The account still holds what the refresh expected, and not yet the stage. */
  predicate Awaits(m: seq<Account>, j: RefreshJournal, s: StageRecord) {
    && Find(m, s.account.name).Some?
    && Find(m, s.account.name).value.credentials != s.account.credentials
    && StillExpects(j, Find(m, s.account.name).value)
  }

  /** Nothing stands in the way of merging a stage into this disk. */
  predicate StageMerges(d: Disk, j: RefreshJournal, s: StageRecord, key: string -> string) {
    && Readable(d) && MapOf(d.authority).Some?
    && (Awaits(MapOf(d.authority).value, j, s) ==>
          && s.account.lastRefreshAt.Some?
          && MergeAdmitted(d, s.account.name, j.expected.credentials, UpdateOf(s), key))
  }

  /** An undisturbed recovery finishes this evidence. */
  predicate Resolves(d: LabelDigest, e: RefreshEvidence, disk: Disk, key: string -> string) {
    !Blocked(d, e) && (e.stage.Some? ==> StageMerges(disk, e.journal.value, e.stage.value, key))
  }

  /** What a merge keeps of the story told about the disk: it starts over only at the
      authority it found, without a guard, and on both sides accounts and bundles agree
      if the bundle was prepared for its home. */
  ghost predicate MergeStory(j0: Journal, base0: Disk, j: Journal, base: Disk, d: Disk, prior: Option<File>,
                             prepared: bool) {
    && Explains(j, base, d)
    && (|| (j == j0 && base == base0)
        || (base.txn.None? && Settled(j0, base0, base) && base.authority == prior && j.guard.None?))
    && (BothSides(j0, base0) && prepared ==> BothSides(j, base))
  }

  /** The durable map after one stage is merged into it. */
  function StagedMap(m: seq<Account>, j: RefreshJournal, s: StageRecord): seq<Account> {
    if Replaces(m, j, s) then MergedMap(m, s.account.name, j.expected.credentials, UpdateOf(s)) else m
  }

  predicate Blocked(d: LabelDigest, e: RefreshEvidence) {
    || e.journal.None?
    || e.journal.value.target != d
    || e.journal.value.state == Uncertain
    || (e.stage.None? && e.journal.value.state != Intent)
    || (e.stage.Some? && !(StageDecodes(e.stage.value) && StageMatches(e.journal.value, e.stage.value)))
  }

  /** What recovery makes of one account's evidence. */
  function Recovered(m: seq<Account>, e: RefreshEvidence): seq<Account> {
    if e.journal.Some? && e.stage.Some? then StagedMap(m, e.journal.value, e.stage.value) else m
  }

  /** Recovering twice is recovering once: a process may stop between the merge and
      the cleanup. */
  lemma RecoveredTwice(m: seq<Account>, e: RefreshEvidence)
    ensures Recovered(Recovered(m, e), e) == Recovered(m, e)
  {
    if e.journal.Some? && e.stage.Some? && Replaces(m, e.journal.value, e.stage.value) {
      var s := e.stage.value;
      MergeChangesOneAccount(m, s.account.name, e.journal.value.expected.credentials, UpdateOf(s), s.account.name);
    }
  }

  /** The whole outcome, account by account: the staged replacement where the target
      still held the expected credentials, and otherwise what was there. */
  lemma RecoveredAccounts(m: seq<Account>, e: RefreshEvidence, name: string)
    ensures e.stage.None? ==> Recovered(m, e) == m
    ensures e.journal.Some? && e.stage.Some? ==>
              var s := e.stage.value;
              var current := Find(m, s.account.name);
              && (name != s.account.name ==> Find(Recovered(m, e), name) == Find(m, name))
              && (Replaces(m, e.journal.value, s) ==>
                    && Find(Recovered(m, e), s.account.name) == Some(Merged(current.value, UpdateOf(s)))
                    && Find(Recovered(m, e), s.account.name).value.credentials == s.account.credentials)
              && (current.None? || current.value.credentials != e.journal.value.expected.credentials ==>
                    Recovered(m, e) == m)
  {
    if e.journal.Some? && e.stage.Some? {
      var s := e.stage.value;
      if Replaces(m, e.journal.value, s) {
        MergeChangesOneAccount(m, s.account.name, e.journal.value.expected.credentials, UpdateOf(s), name);
      }
    }
  }

  /** What recovery makes of the one account its evidence is about. */
  function RecoveredAccount(a: Option<Account>, e: RefreshEvidence): Option<Account> {
    if a.Some? && e.journal.Some? && e.stage.Some? && e.stage.value.account.lastRefreshAt.Some?
       && a.value.credentials != e.stage.value.account.credentials && StillExpects(e.journal.value, a.value)
    then Some(Merged(a.value, UpdateOf(e.stage.value)))
    else a
  }

  lemma RecoveredFinds(m: seq<Account>, d: LabelDigest, e: RefreshEvidence, name: string)
    requires !Blocked(d, e)
    ensures Find(Recovered(m, e), name)
            == if LabelSha(name) == d then RecoveredAccount(Find(m, name), e) else Find(m, name)
  {
    if e.stage.Some? {
      RecoveredAccounts(m, e, name);
      FindIs(m, name);
    }
  }

  /** A stage that replaces its account carries a bundle prepared for its home. */
  predicate EvidenceWell(e: RefreshEvidence) {
    e.journal.Some? && e.stage.Some? && e.stage.value.account.lastRefreshAt.Some? ==>
      MergePrepared(e.journal.value.expected.credentials, UpdateOf(e.stage.value))
  }

  /** The accounts whose evidence was recovered are recovered; all others are as found. */
  ghost predicate RecoveredOnly(m: seq<Account>, now: seq<Account>, evidence: map<LabelDigest, RefreshEvidence>,
                                recovered: set<LabelDigest>) {
    forall name :: Find(now, name) ==
                   if LabelSha(name) in recovered && LabelSha(name) in evidence
                   then RecoveredAccount(Find(m, name), evidence[LabelSha(name)]) else Find(m, name)
  }

  lemma RecoverOneMore(m: seq<Account>, now: seq<Account>, evidence: map<LabelDigest, RefreshEvidence>,
                       recovered: set<LabelDigest>, d: LabelDigest)
    requires RecoveredOnly(m, now, evidence, recovered) && d in evidence && d !in recovered && !Blocked(d, evidence[d])
    ensures RecoveredOnly(m, Recovered(now, evidence[d]), evidence, recovered + {d})
  {
    forall name
      ensures Find(Recovered(now, evidence[d]), name) ==
              if LabelSha(name) in recovered + {d} && LabelSha(name) in evidence
              then RecoveredAccount(Find(m, name), evidence[LabelSha(name)]) else Find(m, name)
    {
      RecoveredFinds(now, d, evidence[d], name);
    }
  }

  datatype Stabilised = Granted(lease: Lease) | Unavailable(account: Option<Account>) | NotStable

  /** The authority that read number i sees, given what others commit before each. */
  function View(start: Option<File>, others: seq<Option<File>>, i: nat): Option<File> {
    if i < |others| then others[i] else if others == [] then start else others[|others| - 1]
  }

  function Before(start: Option<File>, others: seq<Option<File>>, seen: nat): Option<File> {
    if seen == 0 then start else View(start, others, seen - 1)
  }

  /** Between read number i and the one before it the target changed. */
  predicate Changed(start: Option<File>, others: seq<Option<File>>, name: string, i: nat) {
    i > 0 && CredentialsIn(View(start, others, i), name) != CredentialsIn(View(start, others, i - 1), name)
  }

  function CredentialsIn(authority: Option<File>, name: string): Option<Credentials> {
    var m := MapOf(authority);
    if m.Some? && Find(m.value, name).Some? then Some(Find(m.value, name).value.credentials) else None
  }

  /** Whatever others commit, the store can read it. */
  ghost predicate AllReadable(d: Disk, start: Option<File>, others: seq<Option<File>>) {
    forall i: nat :: Readable(d.(authority := View(start, others, i)))
  }

  /** Every read from number first to number last saw these credentials. */
  predicate ReadsAgree(start: Option<File>, others: seq<Option<File>>, name: string, c: Credentials, first: nat,
                       last: nat) {
    forall i :: first <= i <= last ==> CredentialsIn(View(start, others, i), name) == Some(c)
  }

  /** One durable change of an evidence directory, and the authority at that moment. */
  datatype Entry = Entry(directory: LabelDigest, evidence: Option<RefreshEvidence>, authority: Option<File>)

  class CredentialRefreshTransactions {
    const store: AccountStore
    var directories: map<LabelDigest, RefreshEvidence>
    ghost var log: seq<Entry>

    constructor (store: AccountStore)
      ensures this.store == store && directories == map[] && log == []
    {
      this.store := store;
      this.directories := map[];
      this.log := [];
    }

    /** One atomic write of an evidence directory. */
    method WriteEvidence(d: LabelDigest, e: RefreshEvidence) returns (o: Outcome<()>)
      modifies store.root`pending, this`directories, this`log
      ensures match o
              case Done(_) => directories == old(directories)[d := e]
              case Raised(x) =>
                                directories == if x == DurabilityUncertain then old(directories)[d := e]
                                               else old(directories)
              case Crashed => directories == old(directories)
      ensures log == if o.Done? || o == Raised(DurabilityUncertain)
                     then old(log) + [Entry(d, Some(e), store.root.authority)] else old(log)
      ensures o.Raised? ==> o.error == CandidateWrite || o.error == DurabilityUncertain
      ensures NoDoubt(old(store.root.pending)) ==> NoDoubt(store.root.pending) && o != Raised(DurabilityUncertain)
      ensures old(store.root.pending) == [] ==> store.root.pending == [] && o.Done?
    {
      var f := store.root.NextFault();
      if !f.Reaches() { return f.Stop(); }
      directories := directories[d := e];
      log := log + [Entry(d, Some(e), store.root.authority)];
      return f.Finish(());
    }

    method Cleanup(d: LabelDigest) returns (o: Outcome<()>)
      modifies store.root`pending, this`directories, this`log
      ensures match o
              case Done(_) => directories == old(directories) - {d}
              case Raised(x) => directories == if x == DurabilityUncertain then old(directories) - {d}
                                               else old(directories)
              case Crashed => directories == old(directories)
      ensures log == if o.Done? || o == Raised(DurabilityUncertain)
                     then old(log) + [Entry(d, None, store.root.authority)] else old(log)
      ensures o.Raised? ==> o.error == CandidateWrite || o.error == DurabilityUncertain
      ensures NoDoubt(old(store.root.pending)) ==> NoDoubt(store.root.pending) && o != Raised(DurabilityUncertain)
      ensures old(store.root.pending) == [] ==> store.root.pending == [] && o.Done?
    {
      var f := store.root.NextFault();
      if !f.Reaches() { return f.Stop(); }
      directories := directories - {d};
      log := log + [Entry(d, None, store.root.authority)];
      return f.Finish(());
    }

    /** The last act of stabilisation: an intent journal for an account without
        evidence. */
    method BeginIntent(current: Account) returns (o: Outcome<Lease>)
      modifies store.root`pending, this`directories, this`log
      ensures LabelSha(current.name) in old(directories) ==>
                o == Raised(RecoveryBlocked) && directories == old(directories)
      ensures o.Done? ==>
                log == old(log) + [Entry(LabelSha(current.name), Some(IntentOf(current)), store.root.authority)]
      ensures o.Done? ==> o.value == Lease(current, IntentJournal(current))
                          && directories == old(directories)[LabelSha(current.name) := IntentOf(current)]
      ensures directories == old(directories)
              || directories == old(directories)[LabelSha(current.name) := IntentOf(current)]
      ensures NoDoubt(old(store.root.pending)) ==> NoDoubt(store.root.pending) && o != Raised(DurabilityUncertain)
      ensures old(store.root.pending) == [] ==> store.root.pending == []
      ensures old(store.root.pending) == [] && LabelSha(current.name) !in old(directories) ==> o.Done?
    {
      var d := LabelSha(current.name);
      if d in directories { return Raised(RecoveryBlocked); }
      var _ :- WriteEvidence(d, IntentOf(current));
      return Done(Lease(current, IntentJournal(current)));
    }

    /** A fresh read, after whatever other processes commit before it. */
    method ReadAmid(name: string, others: seq<Option<File>>, seen: nat, ghost start: Option<File>)
      returns (o: Outcome<Option<Account>>)
      requires store.Valid() && store.baseline.Some?
      requires store.root.authority == Before(start, others, seen)
      modifies store`accounts, store`baseline, store.root`pending, store.root`authority
      ensures store.Valid() && store.baseline.Some?
      ensures store.root.authority == View(start, others, seen)
      ensures old(store.root.pending) == [] ==>
                store.root.pending == []
                && (o.Done? <== Readable(old(store.root.State()).(authority := View(start, others, seen))))
      ensures o.Done? ==> && MapOf(store.root.authority).Some?
                          && o.value == Find(MapOf(store.root.authority).value, name)
                          && CredentialsIn(View(start, others, seen), name)
                             == if o.value.Some? then Some(o.value.value.credentials) else None
    {
      if seen < |others| { store.root.authority := others[seen]; }
      o := store.ReadFresh(name);
    }

    /** Under the operation lock and then the evidence lock, the target must still be
        what was read before it. */
    method Confirm(name: string, expected: Credentials, others: seq<Option<File>>, seen: nat, ghost start: Option<File>)
      returns (o: Outcome<(Option<Account>, nat)>)
      requires store.Valid() && store.baseline.Some?
      requires seen > 0 && store.root.authority == View(start, others, seen - 1)
      requires CredentialsIn(store.root.authority, name) == Some(expected)
      modifies store`accounts, store`baseline, store.root`pending, store.root`authority
      ensures store.Valid() && store.baseline.Some?
      ensures old(store.root.pending) == [] ==>
                store.root.pending == []
                && (AllReadable(old(store.root.State()), start, others) ==> o.Done?)
      ensures o.Done? ==>
                && seen < o.value.1 <= seen + 2 && store.root.authority == View(start, others, o.value.1 - 1)
                && (o.value.0.Some? ==> && o.value.1 == seen + 2
                                        && ReadsAgree(start, others, name, expected, seen, seen + 1)
                                        && MapOf(store.root.authority).Some?
                                        && o.value.0 == Find(MapOf(store.root.authority).value, name)
                                        && o.value.0.value.credentials == expected)
                && (o.value.0.None? ==> Changed(start, others, name, o.value.1 - 1))
    {
      var current :- ReadAmid(name, others, seen, start);
      if current.None? || current.value.credentials != expected { return Done((None, seen + 1)); }
      current :- ReadAmid(name, others, seen + 1, start);
      if current.None? || current.value.credentials != expected { return Done((None, seen + 2)); }
      return Done((current, seen + 2));
    }

    /** Read the target, lock what it says, and read it again under each lock.

        A lease is on the account that is durable now; stabilisation gives up only
        after the target changed in each of its attempts. */
    method HoldStable(name: string, others: seq<Option<File>>) returns (o: Outcome<Stabilised>, ghost changes: seq<nat>)
      requires store.Valid() && store.baseline.Some?
      modifies store`accounts, store`baseline, store.root`pending, store.root`authority, this`directories, this`log
      ensures store.Valid() && store.baseline.Some?
      ensures o.Done? && o.value.Granted? ==>
                && MapOf(store.root.authority).Some? && o.value.lease.account.name == name
                && Find(MapOf(store.root.authority).value, name) == Some(o.value.lease.account)
                && o.value.lease.account.credentials.RefreshToken().Some?
                && o.value.lease.HeldIn(directories) && LabelSha(name) !in old(directories)
      ensures o.Done? && o.value.Granted? ==>
                exists n: nat :: n >= 2 && store.root.authority == View(old(store.root.authority), others, n)
                                 && ReadsAgree(old(store.root.authority), others, name,
                                               o.value.lease.account.credentials, n - 2, n)
      ensures o.Done? && o.value.Granted? ==>
                log == old(log) + [Entry(LabelSha(name), Some(IntentOf(o.value.lease.account)), store.root.authority)]
      ensures o.Done? && o.value.Granted? ==>
                directories == old(directories)[LabelSha(name) := IntentOf(o.value.lease.account)]
      ensures o.Done? && o.value.Unavailable? ==>
                && MapOf(store.root.authority).Some? && directories == old(directories)
                && o.value.account == Find(MapOf(store.root.authority).value, name)
                && (o.value.account.Some? ==> o.value.account.value.credentials.RefreshToken().None?)
      ensures o.Done? && o.value.NotStable? ==>
                directories == old(directories) && |changes| == RefreshLocks.MAX_STABILIZATION_ATTEMPTS
      ensures old(store.root.pending) == [] ==> store.root.pending == []
      ensures store.root.files == old(store.root.files) && store.root.txn == old(store.root.txn)
      ensures (&& old(store.root.pending) == [] && LabelSha(name) !in old(directories)
               && AllReadable(old(store.root.State()), old(store.root.authority), others)) ==> o.Done?
      ensures forall i :: 0 <= i < |changes| ==> changes[i] < 3 * RefreshLocks.MAX_STABILIZATION_ATTEMPTS
                                                 && Changed(old(store.root.authority), others, name, changes[i])
      ensures forall i, k :: 0 <= i < k < |changes| ==> changes[i] < changes[k]
    {
      changes := [];
      ghost var start := store.root.authority;
      var seen: nat := 0;
      for attempt := 0 to RefreshLocks.MAX_STABILIZATION_ATTEMPTS
        invariant store.Valid() && store.baseline.Some? && directories == old(directories)
        invariant store.root.files == old(store.root.files) && store.root.txn == old(store.root.txn)
        invariant old(store.root.pending) == [] ==> store.root.pending == []
        invariant log == old(log)
        invariant |changes| == attempt && seen <= 3 * attempt
        invariant store.root.authority == Before(start, others, seen)
        invariant forall i :: 0 <= i < attempt ==> changes[i] < seen && Changed(start, others, name, changes[i])
        invariant forall i, k :: 0 <= i < k < attempt ==> changes[i] < changes[k]
      {
        var account :- ReadAmid(name, others, seen, start);
        if account.None? || account.value.credentials.RefreshToken().None? {
          return Done(Unavailable(account)), changes;
        }
        var confirmed :- Confirm(name, account.value.credentials, others, seen + 1, start);
        if confirmed.0.Some? {
          FindIs(MapOf(store.root.authority).value, name);
          var lease :- BeginIntent(confirmed.0.value);
          return Done(Granted(lease)), changes;
        }
        seen := confirmed.1;
        changes := changes + [seen - 1];
      }
      return Done(NotStable), changes;
    }

    /** Merge one complete stage into freshly read accounts. */
    method MergeStaged(journal: RefreshJournal, s: StageRecord, inode: nat, ghost j0: Journal, ghost base0: Disk)
      returns (o: Outcome<Option<Account>>, ghost j: Journal, ghost base: Disk)
      requires store.Valid() && store.baseline.Some? && store.hasPrivate
      requires store.root.authority.Some? ==> inode != store.root.authority.value.inode
      modifies store`accounts, store`baseline
      modifies store.root`pending, store.root`looks, store.root`files, store.root`txn, store.root`authority
      ensures store.Valid() && store.baseline.Some?
      ensures MapOf(old(store.root.authority)).None? ==> !o.Done? && store.root.authority == old(store.root.authority)
      ensures MapOf(old(store.root.authority)).Some? ==>
                var m := MapOf(old(store.root.authority)).value;
                && (store.root.authority == old(store.root.authority)
                    || MapOf(store.root.authority) == Some(StagedMap(m, journal, s)))
                && (o.Done? ==> MapOf(store.root.authority) == Some(StagedMap(m, journal, s)))
                && (o.Done? ==> (o.value.Some? <==> HoldsStage(StagedMap(m, journal, s), s)))
                && (o.Done? && o.value.Some? ==> o.value == Find(StagedMap(m, journal, s), s.account.name))
                && (o.Done? && o.value.None? ==> store.accounts == m && !Replaces(m, journal, s))
                && (store.root.authority != old(store.root.authority) ==> Replaces(m, journal, s))
      ensures Explains(j0, base0, old(store.root.State())) && MapOf(old(store.root.authority)).Some? ==>
                && MergeStory(j0, base0, j, base, store.root.State(), old(store.root.authority),
                              MergesWell(MapOf(old(store.root.authority)).value, journal, s))
                && (Replaces(MapOf(old(store.root.authority)).value, journal, s)
                    && (o.Done? || store.root.authority != old(store.root.authority)) ==>
                      MergeAdmitted(base, s.account.name, journal.expected.credentials, UpdateOf(s), store.key))
      ensures NoDoubt(old(store.root.pending)) ==> NoDoubt(store.root.pending) && o != Raised(DurabilityUncertain)
      ensures old(store.root.pending) == [] ==> store.root.pending == []
      ensures old(store.root.pending) == [] && old(store.root.txn).None? && !o.Done? ==>
                store.root.State() == old(store.root.State())
      ensures old(store.root.txn).None? && o.Done? ==> StageMerges(old(store.root.State()), journal, s, store.key)
      ensures (&& old(store.root.pending) == [] && old(store.root.txn).None?
               && StageMerges(old(store.root.State()), journal, s, store.key)) ==> o.Done?
      ensures old(store.root.pending) == [] && old(store.root.txn).None? ==> store.root.txn.None?
    {
      j, base := j0, base0;
      var current :- store.ReadFresh(s.account.name);
      if current.None? { return Done(None), j, base; }
      if CredentialSha(current.value.credentials) == CredentialSha(s.account.credentials) {
        return Done(current), j, base;
      }
      if !StillExpects(journal, current.value) { return Done(None), j, base; }
      if s.account.lastRefreshAt.None? { return Raised(RecoveryBlocked), j, base; }
      ghost var m := MapOf(store.root.authority).value;
      o, j, base := store.MergeCredentialRefresh(s.account.name, current.value.credentials, UpdateOf(s), inode, j0,
                                                 base0);
      MergeChangesOneAccount(m, s.account.name, current.value.credentials, UpdateOf(s), s.account.name);
      if Explains(j0, base0, old(store.root.State())) && BothSides(j0, base0) && MergesWell(m, journal, s)
         && !(j == j0 && base == base0) {
        MergeIsGood(j0, base0, j, base, m, s.account.name, current.value.credentials, UpdateOf(s));
      }
    }

    /** Resolve the evidence of one account, whoever left it. */
    method RecoverDirectory(d: LabelDigest, ghost j0: Journal, ghost base0: Disk)
      returns (o: Outcome<()>, ghost j: Journal, ghost base: Disk)
      requires store.Valid() && store.baseline.Some? && store.hasPrivate
      requires d in directories && MapOf(store.root.authority).Some?
      modifies store`accounts, store`baseline, this`directories, this`log
      modifies store.root`pending, store.root`looks, store.root`files, store.root`txn, store.root`authority
      ensures store.Valid() && store.baseline.Some?
      ensures Blocked(d, old(directories)[d]) ==>
                !o.Done? && store.root.State() == old(store.root.State()) && directories == old(directories)
      ensures directories == old(directories) || directories == old(directories) - {d}
      ensures var m := MapOf(old(store.root.authority)).value;
              var e := old(directories)[d];
              && (store.root.authority == old(store.root.authority)
                  || MapOf(store.root.authority) == Some(Recovered(m, e)))
              && (o.Done? ==> directories == old(directories) - {d})
              && (d !in directories ==> MapOf(store.root.authority) == Some(Recovered(m, e)))
              && (store.root.authority != old(store.root.authority) ==> ReplacedBy(m, e))
              && (Explains(j0, base0, old(store.root.State())) ==>
                    && MergeStory(j0, base0, j, base, store.root.State(), old(store.root.authority), RecoversWell(m, e))
                    && (ReplacedBy(m, e) && (o.Done? || store.root.authority != old(store.root.authority)) ==>
                          RecoveryAdmitted(base, e, store.key)))
              && (old(store.root.pending) == [] ==> store.root.pending == [])
              && (old(store.root.pending) == [] && old(store.root.txn).None? ==> store.root.txn.None?)
              && (old(store.root.txn).None? && o.Done? ==> Resolves(d, e, old(store.root.State()), store.key))
              && ((&& old(store.root.pending) == [] && old(store.root.txn).None?
                   && Resolves(d, e, old(store.root.State()), store.key)) ==> o.Done?)
              && (old(store.root.pending) == [] && !o.Done? ==>
                    directories == old(directories)
                    && (old(store.root.txn).None? ==> store.root.State() == old(store.root.State())))
    {
      j, base := j0, base0;
      var e := directories[d];
      if e.journal.None? { return Raised(RecoveryBlocked), j, base; }
      var journal := e.journal.value;
      if journal.target != d { return Raised(RecoveryBlocked), j, base; }
      if journal.state == Uncertain { return Raised(RecoveryBlocked), j, base; }
      if e.stage.None? {
        if journal.state != Intent { return Raised(RecoveryBlocked), j, base; }
        o := Cleanup(d);
        return;
      }
      var s := e.stage.value;
      if !StageDecodes(s) || !StageMatches(journal, s) { return Raised(RecoveryBlocked), j, base; }
      var completed := journal.(state := Complete, staged := Some(CredentialSha(s.account.credentials)));
      var merged;
      merged, j, base := MergeStaged(completed, s, NextInode(store.root.authority), j0, base0);
      if !merged.Done? { return merged.PropagateFailure(), j, base; }
      o := Cleanup(d);
    }

    method RecoverOne(d: LabelDigest, ghost m: seq<Account>, ghost evidence: map<LabelDigest, RefreshEvidence>,
                      ghost done: set<LabelDigest>, ghost j0: Journal, ghost base0: Disk)
      returns (o: Outcome<()>, ghost recovered: set<LabelDigest>, ghost j: Journal, ghost base: Disk)
      requires store.Valid() && store.baseline.Some? && store.hasPrivate && MapOf(store.root.authority).Some?
      requires d in directories && d in evidence && evidence[d] == directories[d] && d !in done
      requires RecoveredOnly(m, MapOf(store.root.authority).value, evidence, done)
      modifies store`accounts, store`baseline, this`directories, this`log
      modifies store.root`pending, store.root`looks, store.root`files, store.root`txn, store.root`authority
      ensures store.Valid() && store.baseline.Some? && MapOf(store.root.authority).Some?
      ensures directories == old(directories) || directories == old(directories) - {d}
      ensures recovered == done || recovered == done + {d}
      ensures RecoveredOnly(m, MapOf(store.root.authority).value, evidence, recovered)
      ensures old(store.root.pending) == [] && old(store.root.txn).None? ==>
                && store.root.pending == [] && store.root.txn.None?
                && (!o.Done? ==> directories == old(directories)
                                 && !Resolves(d, evidence[d], store.root.State(), store.key))
      ensures o.Done? ==> directories == old(directories) - {d} && recovered == done + {d}
      ensures Explains(j0, base0, old(store.root.State())) ==> Explains(j, base, store.root.State())
      ensures Tracked(j0, base0, old(store.root.State())) && EvidenceWell(evidence[d]) ==>
                Tracked(j, base, store.root.State())
    {
      recovered := done;
      ghost var now := MapOf(store.root.authority).value;
      if !Blocked(d, evidence[d]) { RecoverOneMore(m, now, evidence, done, d); }
      o, j, base := RecoverDirectory(d, j0, base0);
      if !Blocked(d, evidence[d]) && MapOf(store.root.authority).value == Recovered(now, evidence[d]) {
        recovered := done + {d};
      }
    }

    /** Resolve all evidence that no other process holds; a held lease's evidence and
        its account are never touched. */
    method Recover(held: set<LabelDigest>, ghost j0: Journal, ghost base0: Disk)
      returns (o: Outcome<()>, ghost recovered: set<LabelDigest>, ghost j: Journal, ghost base: Disk)
      requires store.Valid() && store.baseline.Some? && store.hasPrivate && MapOf(store.root.authority).Some?
      modifies store`accounts, store`baseline, this`directories, this`log
      modifies store.root`pending, store.root`looks, store.root`files, store.root`txn, store.root`authority
      ensures store.Valid() && store.baseline.Some?
      ensures o.Raised? ==> o.error == RecoveryBlocked
      ensures forall d :: d in directories ==> d in old(directories) && directories[d] == old(directories)[d]
      ensures forall d :: d in old(directories) && d in held ==> d in directories
      ensures (forall d :: d in recovered ==> d !in held) && MapOf(store.root.authority).Some?
      ensures RecoveredOnly(MapOf(old(store.root.authority)).value, MapOf(store.root.authority).value,
                            old(directories), recovered)
      ensures old(store.root.pending) == [] && old(store.root.txn).None? && !o.Done? ==>
                exists d :: d in directories && d !in held
                            && !Resolves(d, directories[d], store.root.State(), store.key)
      ensures old(directories) == map[] ==>
                o.Done? && store.root.State() == old(store.root.State()) &&
                store.root.pending == old(store.root.pending)
      ensures o.Done? ==> forall d :: d in old(directories) ==>
                                        (d in directories <==> d in held) && (d in recovered <==> d !in held)
      ensures Explains(j0, base0, old(store.root.State())) ==> Explains(j, base, store.root.State())
      ensures (&& Tracked(j0, base0, old(store.root.State()))
               && (forall d :: d in old(directories) ==> EvidenceWell(old(directories)[d]))) ==>
                Tracked(j, base, store.root.State())
    {
      j, base, recovered := j0, base0, {};
      ghost var m := MapOf(store.root.authority).value;
      ghost var evidence := directories;
      ghost var good := && Tracked(j0, base0, store.root.State())
                        && (forall d :: d in evidence ==> EvidenceWell(evidence[d]));
      var left := directories.Keys;
      while left != {}
        invariant store.Valid() && store.baseline.Some? && MapOf(store.root.authority).Some?
        invariant old(store.root.pending) == [] && old(store.root.txn).None? ==>
                    store.root.pending == [] && store.root.txn.None?
        invariant evidence == map[] ==>
                    store.root.State() == old(store.root.State()) && store.root.pending == old(store.root.pending)
        invariant forall d :: d in left ==> d in evidence && d !in recovered
        invariant forall d :: d in directories ==> d in evidence && directories[d] == evidence[d]
        invariant forall d :: d in evidence ==> (d in directories <==> d in left || d in held)
        invariant forall d :: d in recovered ==> d !in held
        invariant forall d :: d in evidence && d !in left && d !in held ==> d in recovered
        invariant RecoveredOnly(m, MapOf(store.root.authority).value, evidence, recovered)
        invariant Explains(j0, base0, old(store.root.State())) ==> Explains(j, base, store.root.State())
        invariant good ==> Tracked(j, base, store.root.State())
        decreases |left|
      {
        var d :| d in left;
        left := left - {d};
        if d !in held && d in directories {
          var one;
          one, recovered, j, base := RecoverOne(d, m, evidence, recovered, j, base);
          if one.Crashed? { return Crashed, recovered, j, base; }
          if one.Raised? { return Raised(RecoveryBlocked), recovered, j, base; }
        }
      }
      return Done(()), recovered, j, base;
    }

    /** Stage, merge, prove and clean one provider result. */
    method CommitSuccess(lease: Lease, c: Credentials, plan: Option<string>, at: int, bundle: Option<PreparedWrite>,
                         ghost j0: Journal, ghost base0: Disk)
      returns (o: Outcome<Option<Account>>, ghost durable: bool, ghost j: Journal, ghost base: Disk)
      requires store.Valid() && store.baseline.Some? && store.hasPrivate
      requires lease.HeldIn(directories) && MapOf(store.root.authority).Some?
      modifies store`accounts, store`baseline, this`directories, this`log
      modifies store.root`pending, store.root`looks, store.root`files, store.root`txn, store.root`authority
      ensures store.Valid() && store.baseline.Some?
      ensures var s := StageFor(lease, c, plan, at, bundle);
              var merged := StagedMap(MapOf(old(store.root.authority)).value, lease.journal, s);
              o.Done? ==>
                log == old(log) + Begun(lease, s, old(store.root.authority))
                       + Ended(lease, s, HoldsStage(merged, s), store.root.authority)
      ensures OthersSame(lease.Directory(), old(directories), directories)
      ensures IsUncertain(Lookup(directories, lease.Directory())) ==> !NoDoubt(old(store.root.pending))
      ensures NoDoubt(old(store.root.pending)) ==> NoDoubt(store.root.pending) && o != Raised(DurabilityUncertain)
      ensures o == Raised(DurabilityUncertain) && store.root.authority != old(store.root.authority) ==>
                !IsComplete(Lookup(directories, lease.Directory()))
      ensures var s := StageFor(lease, c, plan, at, bundle);
              (&& old(store.root.pending) == [] && old(store.root.txn).None? && StageAccepted(s)
               && StageMerges(old(store.root.State()), lease.journal, s, store.key)) ==> o.Done?
      ensures var m := MapOf(old(store.root.authority)).value;
              var s := StageFor(lease, c, plan, at, bundle);
              && (!StageAccepted(s) ==> !o.Done? && !durable && store.root.State() == old(store.root.State())
                                        && directories == old(directories))
              && MapOf(store.root.authority).Some?
              && Progress(lease, s, durable, m, MapOf(store.root.authority).value,
                          Lookup(directories, lease.Directory()))
              && (o.Done? ==> durable && lease.Directory() !in directories
                              && MapOf(store.root.authority) == Some(StagedMap(m, lease.journal, s))
                              && o.value == Find(StagedMap(m, lease.journal, s), lease.account.name))
              && (store.root.authority != old(store.root.authority) ==>
                    durable && Replaces(m, lease.journal, s)
                    && MapOf(store.root.authority) == Some(StagedMap(m, lease.journal, s)))
              && (Explains(j0, base0, old(store.root.State())) ==>
                    && MergeStory(j0, base0, j, base, store.root.State(), old(store.root.authority),
                                  MergesWell(m, lease.journal, s))
                    && (store.root.authority != old(store.root.authority) ==>
                          MergeAdmitted(base, s.account.name, lease.journal.expected.credentials, UpdateOf(s),
                                        store.key)))
    {
      durable, j, base := false, j0, base0;
      var s := StageFor(lease, c, plan, at, bundle);
      if !StageAccepted(s) { return Raised(InvalidPlan), durable, j, base; }
      var staged;
      staged, durable := WriteStage(lease, s);
      if !staged.Done? { return staged.PropagateFailure(), durable, j, base; }
      o, j, base := MergeAndClean(lease, s, j0, base0);
    }

    /** The stage is durable before the journal says it is complete. */
    method WriteStage(lease: Lease, s: StageRecord) returns (o: Outcome<()>, ghost durable: bool)
      requires lease.HeldIn(directories)
      modifies store.root`pending, this`directories, this`log
      ensures OthersSame(lease.Directory(), old(directories), directories)
      ensures forall m: seq<Account> :: Progress(lease, s, durable, m, m, Lookup(directories, lease.Directory()))
      ensures NoDoubt(old(store.root.pending)) ==> NoDoubt(store.root.pending) && o != Raised(DurabilityUncertain)
      ensures !IsUncertain(Lookup(directories, lease.Directory()))
      ensures old(store.root.pending) == [] ==> store.root.pending == [] && o.Done?
      ensures o.Done? ==> log == old(log) + Begun(lease, s, store.root.authority)
      ensures o.Done? ==> durable && Lookup(directories, lease.Directory())
                                     == Some(RefreshEvidence(Some(Completed(lease.journal, s)), Some(s)))
    {
      var d := lease.Directory();
      durable := false;
      var staged := WriteEvidence(d, directories[d].(stage := Some(s)));
      durable := directories[d].stage.Some?;
      if !staged.Done? { return staged.PropagateFailure(), durable; }
      var _ :- WriteEvidence(d, RefreshEvidence(Some(Completed(lease.journal, s)), Some(s)));
      return Done(()), durable;
    }

    /** Merge a durable stage, record how it ended, and clean it. */
    method MergeAndClean(lease: Lease, s: StageRecord, ghost j0: Journal, ghost base0: Disk)
      returns (o: Outcome<Option<Account>>, ghost j: Journal, ghost base: Disk)
      requires store.Valid() && store.baseline.Some? && store.hasPrivate && MapOf(store.root.authority).Some?
      requires Lookup(directories, lease.Directory()) == Some(RefreshEvidence(Some(Completed(lease.journal, s)),
                                                                              Some(s)))
      requires lease.journal == IntentJournal(lease.account) && s.account.name == lease.account.name
      modifies store`accounts, store`baseline, this`directories, this`log
      modifies store.root`pending, store.root`looks, store.root`files, store.root`txn, store.root`authority
      ensures store.Valid() && store.baseline.Some?
      ensures o.Done? ==>
                var merged := StagedMap(MapOf(old(store.root.authority)).value, lease.journal, s);
                log == old(log) + Ended(lease, s, HoldsStage(merged, s), store.root.authority)
      ensures OthersSame(lease.Directory(), old(directories), directories)
      ensures IsUncertain(Lookup(directories, lease.Directory())) ==> !NoDoubt(old(store.root.pending))
      ensures NoDoubt(old(store.root.pending)) ==> NoDoubt(store.root.pending) && o != Raised(DurabilityUncertain)
      ensures o == Raised(DurabilityUncertain) ==> !IsComplete(Lookup(directories, lease.Directory()))
      ensures (&& old(store.root.pending) == [] && old(store.root.txn).None?
               && StageMerges(old(store.root.State()), lease.journal, s, store.key)) ==> o.Done?
      ensures var m := MapOf(old(store.root.authority)).value;
              && MapOf(store.root.authority).Some?
              && Progress(lease, s, true, m, MapOf(store.root.authority).value, Lookup(directories, lease.Directory()))
              && (o.Done? ==> && lease.Directory() !in directories
                              && o.value == Find(StagedMap(m, lease.journal, s), lease.account.name))
              && (store.root.authority != old(store.root.authority) ==>
                    && Replaces(m, lease.journal, s)
                    && MapOf(store.root.authority) == Some(StagedMap(m, lease.journal, s)))
              && (Explains(j0, base0, old(store.root.State())) ==>
                    && MergeStory(j0, base0, j, base, store.root.State(), old(store.root.authority),
                                  MergesWell(m, lease.journal, s))
                    && (store.root.authority != old(store.root.authority) ==>
                          MergeAdmitted(base, s.account.name, lease.journal.expected.credentials, UpdateOf(s),
                                        store.key)))
    {
      var d := lease.Directory();
      var complete := Completed(lease.journal, s);
      ghost var m := MapOf(store.root.authority).value;
      assert StagedMap(m, complete, s) == StagedMap(m, lease.journal, s);
      o, j, base := MergeStaged(complete, s, NextInode(store.root.authority), j0, base0);
      o := SettleEvidence(lease, s, o);
    }

    /** What becomes of the evidence once the merge ended: doubt about its durability is
        recorded and blocks recovery, any other error leaves the complete journal, and a
        merge that returned is recorded, if it wrote, and cleaned. */
    method SettleEvidence(lease: Lease, s: StageRecord, merged: Outcome<Option<Account>>)
      returns (o: Outcome<Option<Account>>)
      requires Lookup(directories, lease.Directory()) == Some(RefreshEvidence(Some(Completed(lease.journal, s)),
                                                                              Some(s)))
      modifies store.root`pending, this`directories, this`log
      ensures OthersSame(lease.Directory(), old(directories), directories)
      ensures merged == Raised(DurabilityUncertain) ==>
                && (Lookup(directories, lease.Directory()) == Lookup(old(directories), lease.Directory())
                    || Lookup(directories, lease.Directory())
                       == Some(RefreshEvidence(Some(Completed(lease.journal, s).(state := Uncertain)), Some(s))))
                && !o.Done? && (o == Raised(RecoveryBlocked) ==> IsUncertain(Lookup(directories, lease.Directory())))
                && (old(store.root.pending) == [] ==> o == Raised(RecoveryBlocked))
      ensures !merged.Done? && merged != Raised(DurabilityUncertain) ==> o == merged && directories == old(directories)
      ensures o.Done? ==>
                merged.Done? && log == old(log) + Ended(lease, s, merged.value.Some?, store.root.authority)
      ensures merged.Done? ==>
                && !IsUncertain(Lookup(directories, lease.Directory()))
                && (forall m: seq<Account> ::
                      Progress(lease, s, true, m, StagedMap(m, lease.journal, s),
                               Lookup(directories, lease.Directory())))
                && (o.Done? ==> && lease.Directory() !in directories
                                && o.value == if merged.value.Some? then merged.value
                                              else Find(store.accounts, lease.account.name))
                && (old(store.root.pending) == [] ==> o.Done?)
      ensures NoDoubt(old(store.root.pending)) && merged != Raised(DurabilityUncertain) ==>
                NoDoubt(store.root.pending) && o != Raised(DurabilityUncertain)
      ensures o == Raised(DurabilityUncertain) ==> !IsComplete(Lookup(directories, lease.Directory()))
    {
      o := merged;
      if o == Raised(DurabilityUncertain) {
        var doubted := RefreshEvidence(Some(Completed(lease.journal, s).(state := Uncertain)), Some(s));
        var written := WriteEvidence(lease.Directory(), doubted);
        if !written.Done? { return written.PropagateFailure(); }
        return Raised(RecoveryBlocked);
      }
      if !o.Done? { return; }
      var recorded := RecordAndClean(lease, s, o.value.Some?);
      if !recorded.Done? { return recorded.PropagateFailure(); }
      if o.value.None? { o := Done(Find(store.accounts, lease.account.name)); }
    }

    method RecordAndClean(lease: Lease, s: StageRecord, committed: bool) returns (o: Outcome<()>)
      requires Lookup(directories, lease.Directory()) == Some(RefreshEvidence(Some(Completed(lease.journal, s)),
                                                                              Some(s)))
      modifies store.root`pending, this`directories, this`log
      ensures OthersSame(lease.Directory(), old(directories), directories)
      ensures forall m: seq<Account> ::
                Progress(lease, s, true, m, StagedMap(m, lease.journal, s), Lookup(directories, lease.Directory()))
      ensures NoDoubt(old(store.root.pending)) ==> NoDoubt(store.root.pending) && o != Raised(DurabilityUncertain)
      ensures o.Done? ==>
                log == old(log) + Ended(lease, s, committed, store.root.authority)
      ensures !IsUncertain(Lookup(directories, lease.Directory()))
      ensures o == Raised(DurabilityUncertain) ==> !IsComplete(Lookup(directories, lease.Directory()))
      ensures old(store.root.pending) == [] ==> store.root.pending == [] && o.Done?
      ensures o.Done? ==> lease.Directory() !in directories
    {
      var d := lease.Directory();
      if committed {
        var _ :- WriteEvidence(d, RefreshEvidence(Some(Completed(lease.journal, s).(state := Recorded)), Some(s)));
      }
      o := Cleanup(d);
    }

    /** Persist a failure only while the same credentials remain current. */
    method PersistFailureIfCurrent(lease: Lease, message: string, at: int, ghost j0: Journal, ghost base0: Disk)
      returns (o: Outcome<Option<Account>>, ghost j: Journal, ghost base: Disk)
      requires store.Valid() && store.baseline.Some? && store.hasPrivate && MapOf(store.root.authority).Some?
      modifies store`accounts, store`baseline, this`directories, this`log
      modifies store.root`pending, store.root`looks, store.root`files, store.root`txn, store.root`authority
      ensures store.Valid() && store.baseline.Some?
      ensures directories == old(directories) || directories == old(directories) - {lease.Directory()}
      ensures var m := MapOf(old(store.root.authority)).value;
              var failed := MergedMap(m, lease.account.name, lease.account.credentials, FailureMerge(message, at));
              && (store.root.authority == old(store.root.authority) || MapOf(store.root.authority) == Some(failed))
              && (o.Done? ==> && MapOf(store.root.authority) == Some(failed)
                              && directories == old(directories) - {lease.Directory()}
                              && o.value == Find(failed, lease.account.name))
      ensures (&& old(store.root.pending) == [] && old(store.root.txn).None? && Readable(old(store.root.State())))
              ==> o.Done?
      ensures Explains(j0, base0, old(store.root.State())) ==> Explains(j, base, store.root.State())
      ensures Tracked(j0, base0, old(store.root.State())) ==> Tracked(j, base, store.root.State())
    {
      j, base := j0, base0;
      ghost var m := MapOf(store.root.authority).value;
      FailureIsAdmitted(store.root.State(), lease.account.name, lease.account.credentials, message, at, store.key);
      o, j, base := store.MergeCredentialRefresh(lease.account.name, lease.account.credentials,
                                                 FailureMerge(message, at),
                                                 NextInode(store.root.authority), j0, base0);
      if Tracked(j0, base0, old(store.root.State())) && !(j == j0 && base == base0) {
        MergeIsGood(j0, base0, j, base, m, lease.account.name, lease.account.credentials, FailureMerge(message, at));
      }
      if !o.Done? { return; }
      var _ :- Cleanup(lease.Directory());
    }

    /** Clean the intent after a concurrent replacement satisfied the call. */
    method FinishWithoutExchange(lease: Lease) returns (o: Outcome<Option<Account>>)
      requires store.Valid() && store.baseline.Some?
      modifies store`accounts, store`baseline, store.root`pending, this`directories, this`log
      ensures store.Valid() && store.baseline.Some?
      ensures directories == old(directories) || directories == old(directories) - {lease.Directory()}
      ensures old(store.root.pending) == [] && Readable(store.root.State()) ==> o.Done?
      ensures o.Done? ==> && directories == old(directories) - {lease.Directory()}
                          && MapOf(store.root.authority).Some?
                          && o.value == Find(MapOf(store.root.authority).value, lease.account.name)
    {
      var current :- store.ReadFresh(lease.account.name);
      var _ :- Cleanup(lease.Directory());
      return Done(current);
    }
  }

  function StageFor(lease: Lease, c: Credentials, plan: Option<string>, at: int,
                    bundle: Option<PreparedWrite>): StageRecord {
    StageRecord(StagedAccount(lease.account, c, plan, at), plan, bundle)
  }

  /** The account has the staged credentials. */
  predicate HoldsStage(m: seq<Account>, s: StageRecord) {
    Find(m, s.account.name).Some? && Find(m, s.account.name).value.credentials == s.account.credentials
  }

  /** How the log of one refresh ends after its merge returned. */
  function Ended(lease: Lease, s: StageRecord, committed: bool, now: Option<File>): seq<Entry> {
    (if committed
     then [Entry(lease.Directory(), Some(RefreshEvidence(Some(Completed(lease.journal, s).(state := Recorded)),
                                                         Some(s))), now)] else [])
    + [Entry(lease.Directory(), None, now)]
  }

  /** How it begins: the stage is durable before the journal says so, and both before
      the accounts change. */
  function Begun(lease: Lease, s: StageRecord, was: Option<File>): seq<Entry> {
    [Entry(lease.Directory(), Some(RefreshEvidence(Some(lease.journal), Some(s))), was),
     Entry(lease.Directory(), Some(RefreshEvidence(Some(Completed(lease.journal, s)), Some(s))), was)]
  }

  predicate IsUncertain(e: Option<RefreshEvidence>) {
    e.Some? && e.value.journal.Some? && e.value.journal.value.state == Uncertain
  }

  predicate IsComplete(e: Option<RefreshEvidence>) {
    e.Some? && e.value.journal.Some? && e.value.journal.value.state == Complete
  }

  /** The stage encodes: its bundle is for the staged home and decodes again. */
  predicate StageAccepted(s: StageRecord) {
    && (s.bundle.Some? ==> && s.account.credentials.CanonicalHome() == Some(s.bundle.value.path))
    && StageDecodes(s)
  }

  function Completed(j: RefreshJournal, s: StageRecord): RefreshJournal {
    j.(state := Complete, staged := Some(CredentialSha(s.account.credentials)))
  }

  ghost predicate OthersSame(d: LabelDigest, before: map<LabelDigest, RefreshEvidence>,
                       after: map<LabelDigest, RefreshEvidence>) {
    forall x :: x != d ==> Lookup(after, x) == Lookup(before, x)
  }

  /** Where one refresh can stand: what its evidence says about the durable map. */
  predicate Progress(lease: Lease, s: StageRecord, durable: bool, before: seq<Account>, now: seq<Account>,
                     e: Option<RefreshEvidence>) {
    var merged := StagedMap(before, lease.journal, s);
    match e
    case None => now == if durable then merged else before
    case Some(v) =>
      if v.stage.None? then v.journal == Some(lease.journal) && !durable && now == before
      else
        && durable && v.stage == Some(s) && v.journal.Some?
        && (|| v.journal.value == lease.journal
            || v.journal.value == Completed(lease.journal, s)
            || v.journal.value == Completed(lease.journal, s).(state := Recorded)
            || v.journal.value == Completed(lease.journal, s).(state := Uncertain))
        && (now == before || now == merged)
        && (v.journal.value.state == Recorded ==> now == merged)
  }

  /** A candidate is created while the old authority is alive, so it is a new file. */
  function NextInode(authority: Option<File>): (inode: nat)
    ensures authority.Some? ==> inode != authority.value.inode
  {
    if authority.Some? then authority.value.inode + 1 else 0
  }

  predicate ReplacedBy(m: seq<Account>, e: RefreshEvidence) {
    e.journal.Some? && e.stage.Some? && Replaces(m, e.journal.value, e.stage.value)
  }

  predicate RecoversWell(m: seq<Account>, e: RefreshEvidence) {
    e.journal.Some? && e.stage.Some? ==> MergesWell(m, e.journal.value, e.stage.value)
  }

  predicate RecoveryAdmitted(d: Disk, e: RefreshEvidence, key: string -> string)
    requires e.journal.Some? && e.stage.Some? && e.stage.value.account.lastRefreshAt.Some?
  {
    MergeAdmitted(d, e.stage.value.account.name, e.journal.value.expected.credentials, UpdateOf(e.stage.value), key)
  }

  /** If the stage replaces its account, its bundle is prepared for its home. */
  predicate MergesWell(m: seq<Account>, j: RefreshJournal, s: StageRecord) {
    Replaces(m, j, s) ==> MergePrepared(j.expected.credentials, UpdateOf(s))
  }
}
