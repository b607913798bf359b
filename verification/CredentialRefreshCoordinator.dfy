/** The coordinator of one saved refresh: it exchanges only after lock and fresh
    credentials agree, and prefers newer durable accounts over its own failure. */
module CredentialRefreshCoordinator {
  import opened Wrappers
  import opened Accounts
  import opened Storage
  import opened CredentialTransactionPlans
  import opened AccountMaps
  import opened AccountStores
  import opened AccountStoreRuns
  import opened CredentialRefresh

  datatype Reason = ScheduledDue | AccessRejected | CredentialRequired | OperatorForced

  /** What the provider and the preparation of companion state make of one account. */
  datatype Answer =
    | Replacement(credentials: Credentials, plan: Option<string>, bundle: Option<PreparedWrite>)
    | Refused(message: string)

  datatype FailureKind = Missing | Unreadable | Unsupported | Refusal

  datatype Result = Success(name: string) | Failure(kind: FailureKind)

  /** A caller that is not forced is satisfied by credentials it had not seen. */
  predicate Satisfied(observed: Option<Account>, lease: Lease, reason: Reason) {
    !reason.OperatorForced? && observed.Some? && lease.account.credentials != observed.value.credentials
  }

  function MapAfter(m: seq<Account>, lease: Lease, answer: Answer, at: int): seq<Account> {
    match answer
    case Replacement(c, plan, bundle) => StagedMap(m, lease.journal, StageFor(lease, c, plan, at, bundle))
    case Refused(message) =>
      MergedMap(m, lease.account.name, lease.account.credentials, FailureMerge(message, at))
  }

  /** What one answer makes of every account: others stay, the target changes only if it
      still holds the leased credentials, and then in the fields a refresh owns. */
  lemma {:induction false} AnswerEffect(m: seq<Account>, lease: Lease, answer: Answer, at: int, name: string)
    requires lease.journal == IntentJournal(lease.account)
    ensures var after, current := Find(MapAfter(m, lease, answer, at), name), Find(m, name);
            if name != lease.account.name || current.None?
               || current.value.credentials != lease.account.credentials then after == current
            else
              match answer
              case Replacement(c, plan, _) =>
                after == if c == lease.account.credentials then current else
                           Some(current.value.(credentials := c, plan := if plan.Some? then plan.value
                                                                          else current.value.plan,
                                               lastRefreshAt := Some(at), lastRefreshStatus := Some(Succeeded),
                                               lastRefreshError := None))
              case Refused(message) =>
                after == Some(current.value.(lastRefreshAt := Some(at), lastRefreshStatus := Some(Failed),
                                             lastRefreshError := Some(message)))
  {
    FindIs(m, name);
    match answer {
      case Replacement(c, plan, bundle) =>
        var s := StageFor(lease, c, plan, at, bundle);
        MergeChangesOneAccount(m, lease.account.name, lease.account.credentials, UpdateOf(s), name);
      case Refused(message) =>
        MergeChangesOneAccount(m, lease.account.name, lease.account.credentials, FailureMerge(message, at), name);
    }
  }

  /** Nothing stands in the way of storing this answer. */
  predicate Merges(d: Disk, lease: Lease, answer: Answer, at: int, key: string -> string) {
    answer.Replacement? ==>
      var s := StageFor(lease, answer.credentials, answer.plan, at, answer.bundle);
      StageAccepted(s) && StageMerges(d, lease.journal, s, key)
  }

  class Coordinator {
    const tx: CredentialRefreshTransactions
    const supported: Account -> bool
    const provider: Account -> Answer

    constructor (tx: CredentialRefreshTransactions, supported: Account -> bool, provider: Account -> Answer)
      ensures this.tx == tx && this.supported == supported && this.provider == provider
    {
      this.tx := tx;
      this.supported := supported;
      this.provider := provider;
    }

    ghost predicate Ready()
      reads tx, tx.store, tx.store.root
    {
      && tx.store.Valid() && tx.store.baseline.Some? && tx.store.hasPrivate
      && MapOf(tx.store.root.authority).Some?
    }

    /** Persist a current failure, or prefer newer durable credentials. */
    method FinishFailure(lease: Lease, message: string, at: int, ghost j0: Journal, ghost base0: Disk)
      returns (o: Outcome<Result>, ghost j: Journal, ghost base: Disk)
      requires Ready()
      modifies tx`directories, tx`log, tx.store`accounts, tx.store`baseline
      modifies tx.store.root`pending, tx.store.root`looks
      modifies tx.store.root`files, tx.store.root`txn, tx.store.root`authority
      ensures Ready()
      ensures (&& old(tx.store.root.pending) == [] && old(tx.store.root.txn).None?
               && Readable(old(tx.store.root.State()))) ==> o.Done?
      ensures tx.directories == old(tx.directories) || tx.directories == old(tx.directories) - {lease.Directory()}
      ensures var m := MapOf(old(tx.store.root.authority)).value;
              var failed := MapAfter(m, lease, Refused(message), at);
              && (|| tx.store.root.authority == old(tx.store.root.authority)
                  || MapOf(tx.store.root.authority) == Some(failed))
              && (o.Done? ==>
                    && MapOf(tx.store.root.authority) == Some(failed)
                    && tx.directories == old(tx.directories) - {lease.Directory()}
                    && o.value == if Newer(m, lease) then Success(lease.account.name) else Failure(Refusal))
              && (Newer(m, lease) ==> MapOf(tx.store.root.authority) == Some(m))
    {
      j, base := j0, base0;
      ghost var m := MapOf(tx.store.root.authority).value;
      FindIs(m, lease.account.name);
      MergeChangesOneAccount(m, lease.account.name, lease.account.credentials, FailureMerge(message, at),
                             lease.account.name);
      var current;
      current, j, base := tx.PersistFailureIfCurrent(lease, message, at, j0, base0);
      if !current.Done? { return current.PropagateFailure(), j, base; }
      if current.value.Some? && current.value.value.credentials != lease.account.credentials {
        return Done(Success(current.value.value.name)), j, base;
      }
      return Done(Failure(Refusal)), j, base;
    }

    /** Exchange only if the caller is forced or saw exactly the leased credentials. */
    method RefreshStable(observed: Option<Account>, lease: Lease, reason: Reason, at: int,
                         ghost j0: Journal, ghost base0: Disk)
      returns (o: Outcome<Result>, exchanged: bool, ghost j: Journal, ghost base: Disk)
      requires Ready() && lease.HeldIn(tx.directories)
      modifies tx`directories, tx`log, tx.store`accounts, tx.store`baseline
      modifies tx.store.root`pending, tx.store.root`looks
      modifies tx.store.root`files, tx.store.root`txn, tx.store.root`authority
      ensures Ready()
      ensures exchanged <==> reason.OperatorForced? || observed.None?
                             || observed.value.credentials == lease.account.credentials
      ensures (&& old(tx.store.root.pending) == [] && old(tx.store.root.txn).None?
               && Readable(old(tx.store.root.State()))
               && (exchanged ==> Merges(old(tx.store.root.State()), lease, provider(lease.account), at, tx.store.key)))
              ==> o.Done?
      ensures OthersSame(lease.Directory(), old(tx.directories), tx.directories)
      ensures var m := MapOf(old(tx.store.root.authority)).value;
              && (!exchanged ==>
                    && tx.store.root.authority == old(tx.store.root.authority)
                    && tx.store.root.files == old(tx.store.root.files)
                    && (o.Done? ==> && lease.Directory() !in tx.directories
                                    && o.value == if HasLabel(m, lease.account.name) then Success(lease.account.name)
                                                  else Failure(Missing)))
              && (exchanged ==>
                    var after := MapAfter(m, lease, provider(lease.account), at);
                    && (MapOf(tx.store.root.authority) == Some(m) || MapOf(tx.store.root.authority) == Some(after))
                    && (o.Done? ==> && lease.Directory() !in tx.directories
                                    && MapOf(tx.store.root.authority) == Some(after)
                                    && o.value == Verdict(m, lease, provider(lease.account))))
    {
      j, base := j0, base0;
      ghost var m := MapOf(tx.store.root.authority).value;
      FindIs(m, lease.account.name);
      if Satisfied(observed, lease, reason) {
        exchanged := false;
        var current :- tx.FinishWithoutExchange(lease);
        return Done(if current.Some? then Success(current.value.name) else Failure(Missing)), exchanged, j, base;
      }
      exchanged := true;
      var answer := provider(lease.account);
      match answer {
        case Refused(message) =>
          o, j, base := FinishFailure(lease, message, at, j0, base0);
        case Replacement(c, plan, bundle) =>
          var committed;
          ghost var durable;
          committed, durable, j, base := tx.CommitSuccess(lease, c, plan, at, bundle, j0, base0);
          if !committed.Done? { return committed.PropagateFailure(), exchanged, j, base; }
          MergeChangesOneAccount(m, lease.account.name, lease.account.credentials,
                                 UpdateOf(StageFor(lease, c, plan, at, bundle)), lease.account.name);
          o := Done(if committed.value.Some? then Success(committed.value.value.name) else Failure(Missing));
      }
    }

    /** How a call that got its lease ends, given the accounts durable at its merge.

        It exchanges exactly if its provider is supported and it is forced, observed
        nothing, or observed just what the lease holds.  The accounts change by its own
        answer or not at all; newer or removed credentials are left as they are; a normal
        return leaves no evidence and says what became of the target. */
    ghost predicate LeaseEnds(lease: Lease, observed: Option<Account>, reason: Reason, at: int, found: seq<Account>,
                              exchanged: bool, o: Outcome<Result>, current: Option<seq<Account>>,
                              directories: map<LabelDigest, RefreshEvidence>)
    {
      var name, answer := lease.account.name, provider(lease.account);
      var after := MapAfter(found, lease, answer, at);
      && (exchanged <==>
            && supported(lease.account)
            && (reason.OperatorForced? || observed.None? || observed.value.credentials == lease.account.credentials))
      && (current == Some(found) || (exchanged && current == Some(after)))
      && (Newer(found, lease) || Find(found, name).None? ==> current == Some(found))
      && (o.Done? ==>
            && lease.Directory() !in directories && current == Some(if exchanged then after else found)
            && o.value == if !supported(lease.account) then Failure(Unsupported)
                          else if exchanged && answer.Refused?
                          then if Find(found, name).Some?
                                  && Find(found, name).value.credentials != lease.account.credentials
                               then Success(name) else Failure(Refusal)
                          else if Find(found, name).Some? then Success(name) else Failure(Missing))
    }

    /** Refresh one account for one reason, while other processes commit at any time:
        before each read of stabilisation, and while the provider is asked.

        Whatever they do, an exchange is made only for an account that was durable when
        its lease was granted, can rotate and has a provider, and unless forced only with
        exactly the credentials this call saw before it took any lock.  No lease begins
        while evidence is left that no other process holds. */
    method Refresh(name: string, reason: Reason, held: set<LabelDigest>, others: seq<Option<File>>,
                   meanwhile: Option<Disk>, at: int, ghost j0: Journal, ghost base0: Disk)
      returns (o: Outcome<Result>, exchanged: bool, ghost observed: Option<Account>,
               ghost leased: Option<Lease>, ghost granted: seq<Account>, ghost atMerge: Disk)
      requires Ready()
      requires meanwhile.Some? ==> MapOf(meanwhile.value.authority).Some?
      modifies tx`directories, tx`log, tx.store`accounts, tx.store`baseline
      modifies tx.store.root`pending, tx.store.root`looks
      modifies tx.store.root`files, tx.store.root`txn, tx.store.root`authority
      ensures leased.Some? ==> observed == Find(MapOf(old(tx.store.root.authority)).value, name)
      ensures leased.Some? ==> LeaseBegins(name, leased.value, granted, atMerge, meanwhile)
      ensures leased.Some? ==>
                LeaseEnds(leased.value, observed, reason, at, MapOf(atMerge.authority).value, exchanged, o,
                          MapOf(tx.store.root.authority), tx.directories)
      ensures leased.Some? ==>
                forall d :: d in tx.directories && d != leased.value.Directory() ==> d in held
      ensures leased.None? ==> !exchanged && (o.Done? ==> o.value.Failure?)
      ensures (&& Undisturbed(old(tx.store.root.State()), old(tx.store.root.pending), others)
               && old(tx.directories) == map[]
               && (leased.Some? ==> MergesAt(leased.value, exchanged, at, atMerge))) ==> o.Done?
      ensures observed.Some? && observed.value.credentials.SetupToken? ==>
                && leased.None? && tx.directories == old(tx.directories)
                && tx.store.root.State() == old(tx.store.root.State())
    {
      exchanged, observed, leased, granted, atMerge := false, None, None, [], tx.store.root.State();
      var seen :- tx.store.ReadFresh(name);
      observed := seen;
      if seen.Some? && seen.value.credentials.SetupToken? {
        return Done(Failure(Missing)), exchanged, observed, leased, granted, atMerge;
      }
      o, exchanged, leased, granted, atMerge := RefreshHeld(seen, name, reason, held, others, meanwhile, at, j0, base0);
    }

    /** No faults, nothing pending, and every authority that is read decodes. */
    ghost predicate Undisturbed(d: Disk, pending: seq<Fault>, others: seq<Option<File>>) {
      pending == [] && d.txn.None? && Readable(d) && AllReadable(d, d.authority, others)
    }

    /** The disk at the merge takes the answer, if there is one. */
    ghost predicate MergesAt(lease: Lease, exchanged: bool, at: int, d: Disk)
      reads tx, tx.store
    {
      d.txn.None? && Readable(d) && (exchanged ==> Merges(d, lease, provider(lease.account), at, tx.store.key))
    }

    /** The lease is on an account that was durable and can rotate; atMerge is the
        disk others left by the time of the merge. */
    ghost predicate LeaseBegins(name: string, lease: Lease, granted: seq<Account>, atMerge: Disk,
                                meanwhile: Option<Disk>) {
      && lease.account.name == name && lease.account.credentials.RefreshToken().Some?
      && Find(granted, name) == Some(lease.account)
      && MapOf(atMerge.authority).Some?
      && (MapOf(atMerge.authority) == if meanwhile.Some? then MapOf(meanwhile.value.authority) else Some(granted))
      && (meanwhile.Some? ==> atMerge.files == meanwhile.value.files && atMerge.txn == meanwhile.value.txn)
    }

    /** Refresh while participating in lifecycle exclusion. */
    method RefreshHeld(observed: Option<Account>, name: string, reason: Reason, held: set<LabelDigest>,
                       others: seq<Option<File>>, meanwhile: Option<Disk>, at: int, ghost j0: Journal,
                       ghost base0: Disk)
      returns (o: Outcome<Result>, exchanged: bool, ghost leased: Option<Lease>, ghost granted: seq<Account>,
               ghost atMerge: Disk)
      requires Ready()
      requires meanwhile.Some? ==> MapOf(meanwhile.value.authority).Some?
      modifies tx`directories, tx`log, tx.store`accounts, tx.store`baseline
      modifies tx.store.root`pending, tx.store.root`looks
      modifies tx.store.root`files, tx.store.root`txn, tx.store.root`authority
      ensures leased.Some? ==> LeaseBegins(name, leased.value, granted, atMerge, meanwhile)
      ensures leased.Some? ==>
                LeaseEnds(leased.value, observed, reason, at, MapOf(atMerge.authority).value, exchanged, o,
                          MapOf(tx.store.root.authority), tx.directories)
      ensures leased.Some? ==>
                forall d :: d in tx.directories && d != leased.value.Directory() ==> d in held
      ensures leased.None? ==> !exchanged && (o.Done? ==> o.value.Failure?)
      ensures (&& Undisturbed(old(tx.store.root.State()), old(tx.store.root.pending), others)
               && old(tx.directories) == map[]
               && (leased.Some? ==> MergesAt(leased.value, exchanged, at, atMerge))) ==> o.Done?
    {
      exchanged, leased, granted, atMerge := false, None, [], tx.store.root.State();
      ghost var recovered, j, base;
      var resolved;
      resolved, recovered, j, base := tx.Recover(held, j0, base0);
      if !resolved.Done? { return resolved.PropagateFailure(), exchanged, leased, granted, atMerge; }
      o, exchanged, leased, granted, atMerge, j, base :=
        HoldAndRefresh(observed, name, reason, held, others, meanwhile, at, j, base);
    }

    /** Hold one stable target and refresh it. */
    method HoldAndRefresh(observed: Option<Account>, name: string, reason: Reason, held: set<LabelDigest>,
                          others: seq<Option<File>>, meanwhile: Option<Disk>, at: int, ghost j0: Journal,
                          ghost base0: Disk)
      returns (o: Outcome<Result>, exchanged: bool, ghost leased: Option<Lease>, ghost granted: seq<Account>,
               ghost atMerge: Disk, ghost j: Journal, ghost base: Disk)
      requires Ready() && forall d :: d in tx.directories ==> d in held
      requires meanwhile.Some? ==> MapOf(meanwhile.value.authority).Some?
      modifies tx`directories, tx`log, tx.store`accounts, tx.store`baseline
      modifies tx.store.root`pending, tx.store.root`looks
      modifies tx.store.root`files, tx.store.root`txn, tx.store.root`authority
      ensures leased.Some? ==> LeaseBegins(name, leased.value, granted, atMerge, meanwhile)
      ensures leased.Some? ==>
                LeaseEnds(leased.value, observed, reason, at, MapOf(atMerge.authority).value, exchanged, o,
                          MapOf(tx.store.root.authority), tx.directories)
      ensures leased.Some? ==>
                forall d :: d in tx.directories && d != leased.value.Directory() ==> d in held
      ensures leased.None? ==> !exchanged && (o.Done? ==> o.value.Failure?)
      ensures (&& Undisturbed(old(tx.store.root.State()), old(tx.store.root.pending), others)
               && old(tx.directories) == map[]
               && (leased.Some? ==> MergesAt(leased.value, exchanged, at, atMerge))) ==> o.Done?
    {
      exchanged, leased, granted, atMerge, j, base := false, None, [], tx.store.root.State(), j0, base0;
      var stable;
      ghost var changes;
      stable, changes := tx.HoldStable(name, others);
      if !stable.Done? { return stable.PropagateFailure(), exchanged, leased, granted, atMerge, j, base; }
      match stable.value {
        case Unavailable(_) => o := Done(Failure(Missing));
        case NotStable => o := Done(Failure(Unreadable));
        case Granted(lease) =>
          leased, granted := Some(lease), MapOf(tx.store.root.authority).value;
          Meanwhile(meanwhile);
          atMerge := tx.store.root.State();
          ghost var before := tx.directories;
          o, exchanged, j, base := RefreshLeased(observed, lease, reason, at, j, base);
          assert forall d :: d in tx.directories && d != lease.Directory() ==> Lookup(before, d).Some?;
      }
    }

    /** What other processes leave while the provider is asked; they do not touch the
        evidence of a held lease. */
    method Meanwhile(left: Option<Disk>)
      modifies tx.store.root`files, tx.store.root`txn, tx.store.root`authority
      ensures left.Some? ==> tx.store.root.files == left.value.files && tx.store.root.txn == left.value.txn
      ensures left.None? ==> tx.store.root.State() == old(tx.store.root.State())
      ensures tx.store.root.published == old(tx.store.root.published)
      ensures tx.store.root.authority == if left.Some? then left.value.authority else old(tx.store.root.authority)
    {
      if left.Some? {
        tx.store.root.files := left.value.files;
        tx.store.root.txn := left.value.txn;
        tx.store.root.authority := left.value.authority;
      }
    }

    /** A lease without a provider makes no exchange. */
    method RefreshLeased(observed: Option<Account>, lease: Lease, reason: Reason, at: int,
                         ghost j0: Journal, ghost base0: Disk)
      returns (o: Outcome<Result>, exchanged: bool, ghost j: Journal, ghost base: Disk)
      requires Ready() && lease.HeldIn(tx.directories)
      modifies tx`directories, tx`log, tx.store`accounts, tx.store`baseline
      modifies tx.store.root`pending, tx.store.root`looks
      modifies tx.store.root`files, tx.store.root`txn, tx.store.root`authority
      ensures OthersSame(lease.Directory(), old(tx.directories), tx.directories)
      ensures (&& old(tx.store.root.pending) == [] && old(tx.store.root.txn).None?
               && Readable(old(tx.store.root.State()))
               && (exchanged ==> Merges(old(tx.store.root.State()), lease, provider(lease.account), at, tx.store.key)))
              ==> o.Done?
      ensures LeaseEnds(lease, observed, reason, at, MapOf(old(tx.store.root.authority)).value, exchanged, o,
                        MapOf(tx.store.root.authority), tx.directories)
    {
      j, base := j0, base0;
      ghost var found := MapOf(tx.store.root.authority).value;
      FindIs(found, lease.account.name);
      if Newer(found, lease) || Find(found, lease.account.name).None? {
        MovedOnIsLeft(found, lease, provider(lease.account), at);
      }
      if !supported(lease.account) {
        exchanged := false;
        var _ :- tx.FinishWithoutExchange(lease);
        return Done(Failure(Unsupported)), exchanged, j, base;
      }
      o, exchanged, j, base := RefreshStable(observed, lease, reason, at, j0, base0);
    }
  }

  /** Newer or removed credentials are nobody's to change. */
  lemma MovedOnIsLeft(m: seq<Account>, lease: Lease, answer: Answer, at: int)
    requires lease.journal == IntentJournal(lease.account)
    requires Newer(m, lease) || Find(m, lease.account.name).None?
    ensures MapAfter(m, lease, answer, at) == m
  {
    FindIs(m, lease.account.name);
  }

  /** What the caller is told after an exchange on the accounts m. */
  function Verdict(m: seq<Account>, lease: Lease, answer: Answer): Result {
    match answer
    case Replacement(_, _, _) =>
      if HasLabel(m, lease.account.name) then Success(lease.account.name) else Failure(Missing)
    case Refused(_) =>
      if Newer(m, lease) then Success(lease.account.name) else Failure(Refusal)
  }

  /** Somebody replaced the leased credentials meanwhile. */
  predicate Newer(m: seq<Account>, lease: Lease) {
    && Find(m, lease.account.name).Some?
    && Find(m, lease.account.name).value.credentials != lease.account.credentials
  }
}
