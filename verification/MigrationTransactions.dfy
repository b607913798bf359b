/** The migration transaction: a version-two journal, lineage publication before
    the journal goes, and resolution after the guarded source diverged. */
module MigrationTransactions {
  import opened Wrappers
  import opened Accounts
  import opened Storage
  import opened PrivateBundlePaths
  import opened Journals
  import opened CredentialTransactionRecovery
  import opened CredentialTransactionPlans
  import opened CredentialTransactions

  datatype DivergentOutcome = SourceDivergedBase | SourceDivergedTarget

  predicate JournalGone(d: Disk) {
    d.txn.None? || d.txn.value.journal.None?
  }

  /** The exact target bytes are in the published lineage. */
  predicate TargetPublished(j: Journal, d: Disk) {
    j.Migration? && (j.targetGeneration, j.targetAuthority.preimage) in d.published
  }

  predicate BasePublished(j: Journal, base: Disk, d: Disk) {
    && j.Migration?
    && (j.baseGeneration.Some? && base.authority.Some? ==>
          (j.baseGeneration.value, base.authority.value.data) in d.published)
  }

  /** A reachable migration state; its journal disappears with the authority at
      target only after the target was published, and lineage only grows. */
  ghost predicate LineageInv(j: Journal, base: Disk, d: Disk) {
    && j.Migration? && NoDisplacedAncestor(j)
    && Inv(j, base, d)
    && base.published <= d.published
    && (JournalGone(d) && StateOf(j, d.authority) == Target ==> TargetPublished(j, d))
  }

  lemma FinalBaseIsPrivate(j: Journal, base: Disk, d: Disk)
    requires WellFormed(j) && Matches(j, base) && FinalBase(base, d)
    ensures PrivateStateOk(j, Base, d.files)
  {
  }

  lemma FinalTargetIsPrivate(j: Journal, base: Disk, d: Disk)
    requires FinalTarget(j, base, d)
    ensures PrivateStateOk(j, Target, d.files)
  {
  }

  /** A target file below a displaced bundle can never pass the final proof. */
  lemma DisplacedAncestorIsNeverPrivate(j: Journal, files: map<Loc, Content>)
    requires !NoDisplacedAncestor(j)
    ensures !PrivateStateOk(j, Target, files)
  {
    var i :| 0 <= i < |j.files| && IsDisplaced(j, j.files[i].loc);
    var b :| b in j.displaced && b <= j.files[i].loc.bundle;
    if AtTarget(j.files[i], files) {
      assert BundlePresent(files, b);
    }
  }

  /** The caller's guard fits the journal: it is the recorded one, or after a divergence
      another one for the recorded path. */
  predicate Fits(j: Journal, g: Guard, diverged: bool) {
    if diverged then j.guard.Some? && g.path == j.guard.value.path && g.expected != j.guard.value.authority
    else GuardRecordOf(Some(g)) == j.guard
  }

  /** ... and the source looks the way the guard says. */
  predicate Holds(j: Journal, g: Guard, diverged: bool, source: Option<File>) {
    Fits(j, g, diverged) && Observed(g, source)
  }

  /** At two looks around the removal of the artifacts the guard held, the journal was
      there and the private tree was in its state. */
  predicate ProvenTwice(before: seq<Look>, after: seq<Look>, j: Journal, state: AuthorityState, g: Guard) {
    && |after| == |before| + 2 && before <= after
    && (forall k :: |before| <= k < |after| ==>
                      && Observed(g, after[k].source) && HasJournal(after[k].disk, j)
                      && StateOf(j, after[k].disk.authority) == state && PrivateStateOk(j, state, after[k].disk.files))
    && (forall p :: p in after[|before| + 1].disk.txn.value.parts ==> !KnownPart(j, p))
  }

  /** Guard, authority and private state, proved before each cleanup phase. */
  method ProveState(root: AccountRoot, j: Journal, state: AuthorityState, g: Guard, diverged: bool)
    returns (o: Outcome<()>)
    modifies root`pending, root`looks
    ensures o.Done? ==> StateOf(j, root.authority) == state && PrivateStateOk(j, state, root.files)
    ensures o.Done? ==> Fits(j, g, diverged) && Looked(old(root.looks), root.looks, Some(g), root.State())
    ensures old(root.looks) <= root.looks
    ensures old(root.pending) == [] && !Holds(j, g, diverged, root.source) ==> !o.Done?
    ensures old(root.pending) == [] ==> root.pending == []
    ensures (old(root.pending) == [] && StateOf(j, root.authority) == state && PrivateStateOk(j, state, root.files)
             && (if diverged then GuardDiverges(j.guard, g, root.source)
                 else GuardMatches(j.guard, Some(g), root.source))) ==> o.Done?
  {
    if diverged {
      var _ :- RequireDivergentSourceGuard(root, j, g);
    } else {
      var _ :- RequireSourceGuard(root, j.guard, Some(g));
    }
    var _ :- RequireCoherentAuthority(root, j, state);
    o := RequirePrivateState(root, j, state);
  }

  /** Remove the artifacts, prove the state again, and only then the journal. */
  method ProveAndCleanUp(root: AccountRoot, j: Journal, state: AuthorityState, g: Guard, diverged: bool,
                         ghost base: Disk)
    returns (o: Outcome<()>)
    requires HasJournal(root.State(), j)
    modifies root`pending, root`looks, root`txn
    ensures o.Done? ==> root.txn.None?
    ensures !PrivateStateOk(j, state, root.files) ==> !o.Done? && root.State() == old(root.State())
    ensures Inv(j, base, old(root.State())) && Settled(j, base, old(root.State())) ==>
              Inv(j, base, root.State()) && Settled(j, base, root.State())
    ensures o.Done? ==> Fits(j, g, diverged) && ProvenTwice(old(root.looks), root.looks, j, state, g)
    ensures old(root.looks) <= root.looks
    ensures old(root.pending) == [] ==> root.pending == []
    ensures (old(root.pending) == [] && StateOf(j, root.authority) == state && PrivateStateOk(j, state, root.files)
             && (if diverged then GuardDiverges(j.guard, g, root.source)
                 else GuardMatches(j.guard, Some(g), root.source))) ==> o.Done?
  {
    ghost var good := Inv(j, base, root.State()) && Settled(j, base, root.State());
    var _ :- ProveState(root, j, state, g, diverged);
    o := CleanupArtifacts(root, j);
    if good { CleanupKeeps(j, base, old(root.State()), root.State()); }
    if !o.Done? { return; }
    var _ :- ProveState(root, j, state, g, diverged);
    o := FinishCleanup(root, j, base);
  }

  /** Bring a target state to completion and publish its exact bytes. */
  method CompleteTarget(root: AccountRoot, j: Journal, ghost base: Disk) returns (o: Outcome<()>)
    requires j.Migration? && HasJournal(root.State(), j)
    modifies root`pending, root`files, root`txn, root`published
    ensures root.authority == old(root.authority) && HasJournal(root.State(), j)
    ensures old(root.published) <= root.published
    ensures o.Done? ==> StateOf(j, root.authority) == Target && TargetPublished(j, root.State())
    ensures Inv(j, base, old(root.State())) && MidTarget(j, base, old(root.State())) && NoDisplacedAncestor(j) ==>
              && Inv(j, base, root.State()) && MidTarget(j, base, root.State())
              && (o.Done? ==> FinalTarget(j, base, root.State()))
              && (old(root.pending) == [] ==> o.Done?)
    ensures OnlyForward(j, old(root.files), root.files)
    ensures old(root.pending) == [] && StateOf(j, root.authority) == Target && Forwardable(j, old(root.State())) ==>
              o.Done?
    ensures old(root.pending) == [] ==> root.pending == []
  {
    o := EnsureTarget(root, j, base);
    ghost var mid := root.files;
    ForwardThenGone(j, old(root.files), mid, mid);
    if !o.Done? { return; }
    o := DeleteDisplaced(root, j, base);
    ForwardThenGone(j, old(root.files), mid, root.files);
    if !o.Done? { return; }
    var coherent :- RequireCoherentAuthority(root, j, Target);
    if coherent.None? { return Raised(SourceChanged); }
    o := root.PublishImmutable(j.targetGeneration, coherent.value);
  }

  /** Return a base state to base; a divergence also publishes a present base. */
  method CompleteBase(root: AccountRoot, j: Journal, publish: bool, ghost base: Disk) returns (o: Outcome<()>)
    requires j.Migration? && HasJournal(root.State(), j)
    modifies root`pending, root`files, root`txn, root`published
    ensures root.authority == old(root.authority) && HasJournal(root.State(), j)
    ensures old(root.published) <= root.published
    ensures BaseSoFar(j, base, old(root.State()), 0) ==>
              && BaseSoFar(j, base, root.State(), 0)
              && (o.Done? ==> FinalBase(base, root.State()) && (publish ==> BasePublished(j, base, root.State())))
              && (old(root.pending) == [] && (j.baseAuthority.Absent? <==> j.baseGeneration.None?) ==> o.Done?)
    ensures OnlyTargetsLeft(j, old(root.files), root.files)
    ensures old(root.pending) == [] ==> root.pending == []
  {
    var _ :- RestoreBase(root, j, base);
    if publish {
      var coherent :- RequireCoherentAuthority(root, j, Base);
      if j.baseAuthority.Exactly? {
        if coherent.None? || j.baseGeneration.None? { return Raised(SourceChanged); }
        o := root.PublishImmutable(j.baseGeneration.value, coherent.value);
        return;
      } else if coherent.Some? {
        return Raised(SourceChanged);
      }
    }
    return Done(());
  }

  /** Bring a base or target state to completion; a third authority stops it. */
  method CompleteState(root: AccountRoot, j: Journal, diverged: bool, ghost base: Disk)
    returns (o: Outcome<AuthorityState>)
    requires j.Migration? && HasJournal(root.State(), j)
    modifies root`pending, root`files, root`txn, root`published
    ensures root.authority == old(root.authority) && old(root.published) <= root.published
    ensures HasJournal(root.State(), j)
    ensures LineageInv(j, base, old(root.State())) ==> Inv(j, base, root.State())
    ensures LineageInv(j, base, old(root.State())) && o.Done? ==>
              && Settled(j, base, root.State()) && PrivateStateOk(j, o.value, root.files)
              && (o.value == Base && diverged ==> BasePublished(j, base, root.State()))
    ensures o.Done? ==> o.value == StateOf(j, root.authority)
    ensures o == Done(Target) ==> TargetPublished(j, root.State())
    ensures StateOf(j, old(root.authority)) == Third ==> !o.Done? && root.State() == old(root.State())
    ensures StateOf(j, old(root.authority)) == Target && !NoDisplacedAncestor(j) && o.Done? ==>
              !PrivateStateOk(j, Target, root.files)
    ensures FailsClosed(j, StateOf(j, root.authority), old(root.files), root.files)
    ensures old(root.pending) == [] ==> root.pending == []
    ensures (old(root.pending) == [] && LineageInv(j, base, old(root.State()))
             && (j.baseAuthority.Absent? <==> j.baseGeneration.None?)) ==> o.Done?
  {
    ghost var good := LineageInv(j, base, root.State());
    var current :- root.ReadAuthority();
    var state := StateOf(j, current);
    if good { BaseIsNotTarget(j, base, root.State()); }
    if state == Base {
      var _ :- CompleteBase(root, j, diverged, base);
      if good { FinalBaseIsPrivate(j, base, root.State()); }
    } else if state == Target {
      var _ :- CompleteTarget(root, j, base);
      if good { FinalTargetIsPrivate(j, base, root.State()); }
      if !NoDisplacedAncestor(j) { DisplacedAncestorIsNeverPrivate(j, root.files); }
    } else {
      return Raised(SourceChanged);
    }
    return Done(state);
  }

  /** Resolve one version-two journal, under its recorded guard or, after the
      guarded source changed, under a divergent one. */
  method ResolveMigration(root: AccountRoot, j: Journal, g: Guard, diverged: bool, ghost base: Disk)
    returns (o: Outcome<AuthorityState>)
    requires j.Migration? && HasJournal(root.State(), j)
    modifies root`pending, root`looks, root`files, root`txn, root`published
    ensures root.authority == old(root.authority) && old(root.published) <= root.published
    ensures LineageInv(j, base, old(root.State())) ==> LineageInv(j, base, root.State())
    ensures o.Done? ==> o.value == StateOf(j, root.authority) && root.txn.None?
    ensures (LineageInv(j, base, old(root.State())) && diverged && JournalGone(root.State())
             && StateOf(j, root.authority) == Base) ==> BasePublished(j, base, root.State())
    ensures StateOf(j, old(root.authority)) == Target && !NoDisplacedAncestor(j) ==>
              !o.Done? && HasJournal(root.State(), j)
    ensures StateOf(j, old(root.authority)) == Third ==> !o.Done? && root.State() == old(root.State())
    ensures o.Done? ==> && Fits(j, g, diverged) && LookedFirst(old(root.looks), root.looks, g, old(root.State()))
                        && ProvenTwice(root.looks[..|old(root.looks)| + 1], root.looks, j, o.value, g)
    ensures old(root.pending) == [] && !Holds(j, g, diverged, root.source) ==>
              !o.Done? && root.State() == old(root.State())
    ensures FailsClosed(j, StateOf(j, root.authority), old(root.files), root.files)
    ensures old(root.pending) == [] ==> root.pending == []
    ensures (old(root.pending) == [] && LineageInv(j, base, old(root.State()))
             && (j.baseAuthority.Absent? <==> j.baseGeneration.None?)
             && (if diverged then GuardDiverges(j.guard, g, root.source)
                 else GuardMatches(j.guard, Some(g), root.source))) ==> o.Done?
  {
    ghost var good := LineageInv(j, base, root.State());
    if diverged {
      var _ :- RequireDivergentSourceGuard(root, j, g);
    } else {
      var _ :- RequireSourceGuard(root, j.guard, Some(g));
    }
    var state :- CompleteState(root, j, diverged, base);
    var _ :- ProveAndCleanUp(root, j, state, g, diverged, base);
    return Done(state);
  }

  /** Strictly recover one interrupted migration. */
  method RecoverMigration(root: AccountRoot, g: Guard, ghost j: Journal, ghost base: Disk)
    returns (o: Outcome<bool>)
    modifies root`pending, root`looks, root`files, root`txn, root`published
    ensures root.authority == old(root.authority) && old(root.published) <= root.published
    ensures LineageInv(j, base, old(root.State())) ==> LineageInv(j, base, root.State())
    ensures o.Done? && LineageInv(j, base, old(root.State())) ==> root.txn.None?
    ensures o.Done? ==> (o.value <==> old(root.txn).Some?)
    ensures HasRuntimeJournal(old(root.State())) ==>
              o == Raised(InterruptedArtifact) && root.State() == old(root.State())
    ensures (old(root.txn).Some? && old(root.txn).value.journal.None? && old(root.txn).value.parts != map[]) ==>
              o == Raised(InterruptedArtifact) && root.State() == old(root.State())
    ensures old(root.txn).None? ==> o == Done(false) && root.State() == old(root.State())
    ensures ReadsThird(old(root.State())) ==> !o.Done? && root.State() == old(root.State())
    ensures HasJournal(old(root.State()), j) && StateOf(j, old(root.authority)) == Target && !NoDisplacedAncestor(j) ==>
              !o.Done? && HasJournal(root.State(), j)
    ensures (old(root.pending) == [] && HasJournal(old(root.State()), j) && !Holds(j, g, false, root.source)) ==>
              !o.Done? && root.State() == old(root.State())
    ensures old(root.pending) == [] ==> root.pending == []
    ensures (old(root.pending) == [] && LineageInv(j, base, old(root.State()))
             && (j.baseAuthority.Absent? <==> j.baseGeneration.None?)
             && (HasJournal(old(root.State()), j) ==> GuardMatches(j.guard, Some(g), root.source))) ==> o.Done?
  {
    if root.txn.None? { return Done(false); }
    if root.txn.value.journal.None? {
      if root.txn.value.parts != map[] { return Raised(InterruptedArtifact); }
      var _ :- root.DestroyTransactionDirectory();
      return Done(true);
    }
    var journal := root.txn.value.journal.value;
    if journal.Runtime? { return Raised(InterruptedArtifact); }
    var _ :- ResolveMigration(root, journal, g, false, base);
    return Done(true);
  }

  /** Resolve one version-two journal after its source changed. */
  method ResolveSourceDivergence(root: AccountRoot, g: Guard, ghost j: Journal, ghost base: Disk)
    returns (o: Outcome<DivergentOutcome>)
    modifies root`pending, root`looks, root`files, root`txn, root`published
    ensures root.authority == old(root.authority) && old(root.published) <= root.published
    ensures LineageInv(j, base, old(root.State())) ==> LineageInv(j, base, root.State())
    ensures (LineageInv(j, base, old(root.State())) && HasJournal(old(root.State()), j)
             && JournalGone(root.State()) && StateOf(j, root.authority) == Base) ==>
              BasePublished(j, base, root.State())
    ensures o.Done? && HasJournal(old(root.State()), j) ==>
              root.txn.None? && (o.value == SourceDivergedBase <==> StateOf(j, root.authority) == Base)
    ensures HasRuntimeJournal(old(root.State())) || (old(root.txn).Some? && old(root.txn).value.journal.None?) ==>
              o == Raised(InterruptedArtifact) && root.State() == old(root.State())
    ensures old(root.txn).None? ==> o == Raised(InterruptedArtifact) && root.State() == old(root.State())
    ensures ReadsThird(old(root.State())) ==> !o.Done? && root.State() == old(root.State())
    ensures (old(root.pending) == [] && HasJournal(old(root.State()), j) && !Holds(j, g, true, root.source)) ==>
              !o.Done? && root.State() == old(root.State())
    ensures old(root.pending) == [] ==> root.pending == []
    ensures (old(root.pending) == [] && LineageInv(j, base, old(root.State())) && HasJournal(old(root.State()), j)
             && (j.baseAuthority.Absent? <==> j.baseGeneration.None?)
             && GuardDiverges(j.guard, g, root.source)) ==> o.Done?
  {
    if root.txn.None? || root.txn.value.journal.None? || root.txn.value.journal.value.Runtime? {
      return Raised(InterruptedArtifact);
    }
    var state :- ResolveMigration(root, root.txn.value.journal.value, g, true, base);
    return Done(if state == Base then SourceDivergedBase else SourceDivergedTarget);
  }

  /** What one migration asks for. */
  datatype Request = Request(
    payload: Content,
    baseGeneration: Option<Generation>,
    targetGeneration: Generation,
    bundles: seq<PreparedWrite>,
    displaced: seq<Bundle>,
    guard: Guard)
  {
    function Record(): GuardRecord {
      GuardRecord(guard.path, guard.expected)
    }

    function JournalAt(d: Disk): (j: Journal)
      ensures j.Migration?
    {
      MigrationJournal(d, payload, baseGeneration, targetGeneration, bundles, displaced, Record())
    }

    predicate Accepted(d: Disk, key: string -> string) {
      MigrationAccepted(d, payload, baseGeneration, targetGeneration, bundles, displaced, Record(), key)
    }
  }

  lemma AcceptedMigrationIsSound(r: Request, d: Disk, key: string -> string)
    requires d.txn.None? && r.Accepted(d, key)
    ensures WellFormed(r.JournalAt(d)) && Matches(r.JournalAt(d), d) && Inv(r.JournalAt(d), d, d)
    ensures StateOf(r.JournalAt(d), d.authority) == Base
    ensures NoDisplacedAncestor(r.JournalAt(d)) ==> LineageInv(r.JournalAt(d), d, d)
  {
    PlannedMatches(r.JournalAt(d), d, r.bundles, key);
  }

  /** Around the commit point and again after publication, with the journal still there,
      the guard held. */
  predicate HeldThrough(before: seq<Look>, after: seq<Look>, j: Journal, g: Guard, was: Option<File>, f: File) {
    && |after| == |before| + 3 && before <= after
    && HeldAround(before, after[..|before| + 2], g, was, f)
    && PublishedUnder(after[|before| + 2], j, g, f)
  }

  predicate PublishedUnder(l: Look, j: Journal, g: Guard, f: File) {
    && Observed(g, l.source) && l.disk.authority == Some(f) && HasJournal(l.disk, j)
    && PrivateStateOk(j, Target, l.disk.files) && TargetPublished(j, l.disk)
  }

  /** After the commit point: delete what was displaced, publish, prove, clean up. */
  method CompleteMigration(root: AccountRoot, j: Journal, r: Request, final: File, ghost base: Disk)
    returns (o: Outcome<()>)
    requires j == r.JournalAt(base) && HasJournal(root.State(), j) && root.authority == Some(final)
    requires Inv(j, base, root.State()) && MidTarget(j, base, root.State()) && Sha256(final.data) == j.targetAuthority
    requires base.published <= root.published
    modifies root`pending, root`looks, root`files, root`txn, root`published
    ensures NoDisplacedAncestor(j) ==> LineageInv(j, base, root.State())
    ensures !NoDisplacedAncestor(j) ==> !o.Done? && HasJournal(root.State(), j)
    ensures o.Done? ==> root.txn.None? && FinalTarget(j, base, root.State()) && TargetPublished(j, root.State())
    ensures o.Done? ==>
              && |root.looks| == |old(root.looks)| + 1
              && PublishedUnder(root.looks[|old(root.looks)|], j, r.guard, final)
    ensures old(root.looks) <= root.looks
    ensures root.published != old(root.published) ==>
              PrivateStateOk(j, Target, root.files) && StateOf(j, root.authority) == Target
    ensures old(root.pending) == [] && !GuardMatches(j.guard, Some(r.guard), root.source) ==> !o.Done?
    ensures old(root.pending) == [] ==> root.pending == []
    ensures (old(root.pending) == [] && NoDisplacedAncestor(j)
             && GuardMatches(j.guard, Some(r.guard), root.source)) ==> o.Done?
  {
    BaseIsNotTarget(j, base, root.State());
    var _ :- DeleteDisplaced(root, j, base);
    if NoDisplacedAncestor(j) {
      FinalTargetIsPrivate(j, base, root.State());
    } else {
      DisplacedAncestorIsNeverPrivate(j, root.files);
    }
    var _ :- RequireCoherentAuthority(root, j, Target);
    var _ :- RequirePrivateState(root, j, Target);
    var _ :- root.PublishImmutable(r.targetGeneration, final);
    var _ :- ProveState(root, j, Target, r.guard, false);
    var _ :- CleanupTransaction(root, j, base);
    return Done(());
  }

  /** Commit the authority, delete what it displaced, publish, prove, clean up. */
  method FinishMigration(root: AccountRoot, plan: Plan, r: Request, expected: Expected, inode: nat, ghost base: Disk)
    returns (o: Outcome<File>)
    requires plan.journal == r.JournalAt(base)
    requires Applying(plan, base, root.State(), |plan.files|)
    requires base.authority.Some? ==> inode != base.authority.value.inode
    requires base.published == root.published
    modifies root`pending, root`looks, root`files, root`txn, root`authority, root`published
    ensures NoDisplacedAncestor(plan.journal) ==> LineageInv(plan.journal, base, root.State())
    ensures !NoDisplacedAncestor(plan.journal) ==> !o.Done? && HasJournal(root.State(), plan.journal)
    ensures o.Done? ==> && root.txn.None? && root.authority == Some(o.value) && o.value == File(inode, r.payload)
                        && FinalTarget(plan.journal, base, root.State()) && TargetPublished(plan.journal, root.State())
    ensures root.authority == base.authority || root.authority == Some(File(inode, r.payload))
    ensures o.Done? ==>
              HeldThrough(old(root.looks), root.looks, plan.journal, r.guard, old(root.authority),
                          File(inode, r.payload))
    ensures root.authority != old(root.authority) ==>
              HeldBefore(old(root.looks), root.looks, r.guard, old(root.authority))
    ensures old(root.looks) <= root.looks
    ensures root.published != old(root.published) ==>
              PrivateStateOk(plan.journal, Target, root.files) && StateOf(plan.journal, root.authority) == Target
    ensures old(root.pending) == [] && !GuardMatches(plan.journal.guard, Some(r.guard), root.source) ==>
              !o.Done? && root.State() == old(root.State())
    ensures old(root.pending) == [] ==> root.pending == []
    ensures (old(root.pending) == [] && expected == plan.journal.baseAuthority && NoDisplacedAncestor(plan.journal)
             && GuardMatches(plan.journal.guard, Some(r.guard), root.source)) ==> o.Done?
  {
    var j := plan.journal;
    BaseIsNotTarget(j, base, root.State());
    var _ :- RequireSourceGuard(root, j.guard, Some(r.guard));
    AllApplied(plan, base, root.State());
    AuthorityCommitKeeps(j, base, root.State(), File(inode, r.payload));
    var final :- root.CommitAuthority(r.payload, expected, inode);
    if Sha256(final.data) != j.targetAuthority { return Raised(SourceChanged); }
    var _ :- RequireSourceGuard(root, j.guard, Some(r.guard));
    ghost var around := root.looks;
    var _ :- CompleteMigration(root, j, r, final, base);
    assert root.looks[..|around|] == around;
    return Done(final);
  }

  /** Commit one migration generation through a version-two journal.

      No exception handler runs recovery here: whatever interrupts it leaves the
      evidence in place.  It can only ever finish when no displaced bundle is an
      ancestor of a target file. */
  method CommitMigration(root: AccountRoot, r: Request, expected: Expected, inode: nat, key: string -> string)
    returns (o: Outcome<File>)
    requires root.authority.Some? ==> inode != root.authority.value.inode
    modifies root`pending, root`looks, root`files, root`txn, root`authority, root`published
    ensures old(root.txn).Some? ==> o == Raised(InterruptedArtifact) && root.State() == old(root.State())
    ensures !(old(root.txn).None? && r.Accepted(old(root.State()), key)) ==>
              !o.Done? && root.State() == old(root.State())
    ensures (old(root.txn).None? && r.Accepted(old(root.State()), key)
             && NoDisplacedAncestor(r.JournalAt(old(root.State())))) ==>
              LineageInv(r.JournalAt(old(root.State())), old(root.State()), root.State())
    ensures o.Done? ==>
              && root.txn.None? && root.authority == Some(o.value) && o.value == File(inode, r.payload)
              && FinalTarget(r.JournalAt(old(root.State())), old(root.State()), root.State())
              && TargetPublished(r.JournalAt(old(root.State())), root.State())
    ensures root.authority == old(root.authority) || root.authority == Some(File(inode, r.payload))
    ensures o.Done? ==>
              && LookedFirst(old(root.looks), root.looks, r.guard, old(root.State()))
              && HeldThrough(root.looks[..|old(root.looks)| + 1], root.looks, r.JournalAt(old(root.State())), r.guard,
                             old(root.authority), File(inode, r.payload))
    ensures root.published != old(root.published) ==>
              PrivateStateOk(r.JournalAt(old(root.State())), Target, root.files)
    ensures root.authority != old(root.authority) ==>
              GuardedReplace(old(root.looks), root.looks, r.guard, old(root.State()))
    ensures old(root.pending) == [] && r.guard.expected != ExpectedSource(root.source) ==>
              !o.Done? && root.State() == old(root.State())
    ensures old(root.pending) == [] ==> root.pending == []
    ensures (old(root.pending) == [] && old(root.txn).None? && r.Accepted(old(root.State()), key)
             && expected == ExpectedSource(old(root.authority)) && Observed(r.guard, root.source)) ==>
              (o.Done? <==> NoDisplacedAncestor(r.JournalAt(old(root.State()))))
  {
    ghost var base := root.State();
    if root.txn.Some? { return Raised(InterruptedArtifact); }
    if r.Accepted(base, key) {
      AcceptedMigrationIsSound(r, base, key);
    }
    if expected != ExpectedSource(root.authority) { return Raised(SourceChanged); }
    var _ :- RequireSourceGuard(root, Some(r.Record()), Some(r.guard));
    ghost var seen := root.looks;
    var plan :- BuildMigrationPlan(root, r.payload, expected, r.baseGeneration, r.targetGeneration, r.bundles,
                                   r.displaced, r.Record(), key);
    ExactPlanFor(plan, base, Wanted(r.bundles));
    o := ExecuteMigration(root, plan, r, expected, inode);
    assert root.looks[..|seen|] == seen;
  }

  method ExecuteMigration(root: AccountRoot, plan: Plan, r: Request, expected: Expected, inode: nat)
    returns (o: Outcome<File>)
    requires plan.journal == r.JournalAt(root.State()) && PlanFor(plan, root.State())
    requires WellFormed(plan.journal) && Matches(plan.journal, root.State())
    requires root.authority.Some? ==> inode != root.authority.value.inode
    modifies root`pending, root`looks, root`files, root`txn, root`authority, root`published
    ensures NoDisplacedAncestor(plan.journal) ==> LineageInv(plan.journal, old(root.State()), root.State())
    ensures !NoDisplacedAncestor(plan.journal) ==> !o.Done?
    ensures o.Done? ==>
              && root.txn.None? && root.authority == Some(o.value) && o.value == File(inode, r.payload)
              && FinalTarget(plan.journal, old(root.State()), root.State())
                && TargetPublished(plan.journal, root.State())
    ensures root.authority == old(root.authority) || root.authority == Some(File(inode, r.payload))
    ensures o.Done? ==>
              HeldThrough(old(root.looks), root.looks, plan.journal, r.guard, old(root.authority),
                          File(inode, r.payload))
    ensures root.authority != old(root.authority) ==>
              HeldBefore(old(root.looks), root.looks, r.guard, old(root.authority))
    ensures old(root.looks) <= root.looks
    ensures root.published != old(root.published) ==> PrivateStateOk(plan.journal, Target, root.files)
    ensures old(root.pending) == [] ==> root.pending == []
    ensures (old(root.pending) == [] && expected == plan.journal.baseAuthority && NoDisplacedAncestor(plan.journal)
             && GuardMatches(plan.journal.guard, Some(r.guard), root.source)) ==> o.Done?
  {
    ghost var base := root.State();
    BaseIsNotTarget(plan.journal, base, base);
    var _ :- WriteJournal(root, plan.journal, base);
    var _ :- Prepare(root, plan, base);
    o := FinishMigration(root, plan, r, expected, inode, base);
  }

  /** One later process: what it sees at the guarded source, the faults it meets,
      and whether it recovers or resolves a divergence. */
  datatype Attempt = Attempt(seen: Option<File>, guard: Guard, faults: seq<Fault>, diverged: bool)

  method RunAttempt(root: AccountRoot, a: Attempt, ghost j: Journal, ghost base: Disk) returns (done: bool)
    requires LineageInv(j, base, root.State())
    modifies root`pending, root`looks, root`source, root`files, root`txn, root`published
    ensures LineageInv(j, base, root.State()) && root.authority == old(root.authority)
    ensures old(root.published) <= root.published
    ensures (a.diverged && HasJournal(old(root.State()), j) && JournalGone(root.State())
             && StateOf(j, root.authority) == Base) ==> BasePublished(j, base, root.State())
    ensures done && !a.diverged ==> root.txn.None?
    ensures done && a.diverged && HasJournal(old(root.State()), j) ==> root.txn.None?
    ensures (a.faults == [] && (j.baseAuthority.Absent? <==> j.baseGeneration.None?)
             && (if a.diverged then HasJournal(old(root.State()), j) && GuardDiverges(j.guard, a.guard, a.seen)
                 else HasJournal(old(root.State()), j) ==> GuardMatches(j.guard, Some(a.guard), a.seen))) ==> done
  {
    root.RestartWithSource(a.faults, a.seen);
    if a.diverged {
      var o := ResolveSourceDivergence(root, a.guard, j, base);
      done := o.Done?;
    } else {
      var o := RecoverMigration(root, a.guard, j, base);
      done := o.Done?;
    }
  }

  /** Crash atomicity and lineage over whole migration runs.  The commit and any
      number of recoveries and divergence resolutions meet any faults, with the
      guarded source changing between them; one more undisturbed attempt that fits
      the source it sees resolves the transaction.  The authority is then at base
      with base bytes, or at target with target bytes and those bytes published. */
  method MigrateThroughCrashes(root: AccountRoot, r: Request, expected: Expected, inode: nat, key: string -> string,
                               attempts: seq<Attempt>, last: Attempt)
    requires root.authority.Some? ==> inode != root.authority.value.inode
    requires root.txn.None? && r.Accepted(root.State(), key) && NoDisplacedAncestor(r.JournalAt(root.State()))
    requires last.faults == []
    requires if last.diverged then GuardDiverges(Some(r.Record()), last.guard, last.seen)
             else GuardMatches(Some(r.Record()), Some(last.guard), last.seen)
    modifies root
    ensures var base := old(root.State());
            var j := r.JournalAt(base);
            && JournalGone(root.State()) && (!last.diverged ==> root.txn.None?)
            && (root.authority == base.authority ==> root.files == base.files)
            && (root.authority != base.authority ==>
                  root.authority == Some(File(inode, r.payload))
                  && FinalTarget(j, base, root.State()) && TargetPublished(j, root.State()))
  {
    ghost var base := root.State();
    ghost var j := r.JournalAt(base);
    AcceptedMigrationIsSound(r, base, key);
    var committed := CommitMigration(root, r, expected, inode, key);
    var n := 0;
    while n < |attempts|
      invariant LineageInv(j, base, root.State())
      invariant root.authority == base.authority || root.authority == Some(File(inode, r.payload))
    {
      var _ := RunAttempt(root, attempts[n], j, base);
      n := n + 1;
    }
    RunLastAttempt(root, last, j, base);
    GoneIsSettled(j, base, root.State());
  }

  method RunLastAttempt(root: AccountRoot, a: Attempt, ghost j: Journal, ghost base: Disk)
    requires LineageInv(j, base, root.State()) && a.faults == []
    requires j.baseAuthority.Absent? <==> j.baseGeneration.None?
    requires if a.diverged then GuardDiverges(j.guard, a.guard, a.seen)
             else GuardMatches(j.guard, Some(a.guard), a.seen)
    modifies root`pending, root`looks, root`source, root`files, root`txn, root`published
    ensures LineageInv(j, base, root.State()) && root.authority == old(root.authority)
    ensures JournalGone(root.State()) && (!a.diverged ==> root.txn.None?)
  {
    if a.diverged && JournalGone(root.State()) { return; }
    var done := RunAttempt(root, a, j, base);
  }

  /** Once the journal is gone, files, authority and lineage agree. */
  lemma GoneIsSettled(j: Journal, base: Disk, d: Disk)
    requires LineageInv(j, base, d) && JournalGone(d)
    ensures d.authority == base.authority ==> d.files == base.files
    ensures d.authority != base.authority ==> FinalTarget(j, base, d) && TargetPublished(j, d)
  {
    BaseIsNotTarget(j, base, d);
  }

  /** A request for one new home below one that it displaces. */
  function AncestorRequest(): Request {
    Request(Blob([1]), None, VersionTwo,
            [PreparedWrite(["old", "new"], [("auth.json", Blob([2]))], false, map[])],
            [["old"]], Guard("/legacy", Absent))
  }

  lemma {:induction false} AncestorJournal(d: Disk)
    requires d == Disk(map[], None, None, {})
    ensures var j := AncestorRequest().JournalAt(d);
            && j == Migration(Absent, None, Some(GuardRecord("/legacy", Absent)), VersionTwo, Sha256(Blob([1])),
                              [["old", "new"]], [],
                              [Record(Loc(["old", "new"], "auth.json"), Stage(0), None, None, Sha256(Blob([2])))],
                              [["old"]])
  {
    var w := AncestorRequest().bundles[0];
    assert Wanted([w][..0]) == [] && PresentPaths([w][..0]) == [];
    assert Wanted([w]) == [(Loc(["old", "new"], "auth.json"), Blob([2]))];
    assert PathsOf([w]) == [["old", "new"]];
  }

  /** The journal checks accept a displaced home that contains a target home, and
      such a migration can never finish. */
  lemma {:induction false} AncestorIsAccepted(key: string -> string)
    requires key("old") != key("new")
    requires key("old") != key(TRANSACTION_DIRECTORY) && key("new") != key(TRANSACTION_DIRECTORY)
    ensures var d := Disk(map[], None, None, {});
            AncestorRequest().Accepted(d, key) && !NoDisplacedAncestor(AncestorRequest().JournalAt(d))
  {
    var d := Disk(map[], None, None, {});
    var j := AncestorRequest().JournalAt(d);
    AncestorJournal(d);
    assert BackupsOf(j.files[1..]) == [];
    assert KeyOf(["old"], key) == [key("old")] && KeyOf(["old", "new"], key) == [key("old"), key("new")];
    assert KeysOf(j.targetBundles, key) == [[key("old"), key("new")]];
    assert KeysOf(j.displaced, key) == [[key("old")]];
    assert KeysOf(j.basePresent, key) == [];
    assert KeyOf(j.files[0].loc.bundle, key) == [key("old"), key("new")];
    assert ["old"] in j.displaced && ["old"] <= j.files[0].loc.bundle;
    assert IsDisplaced(j, j.files[0].loc);
  }
}
