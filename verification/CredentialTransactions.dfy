/** The runtime transaction: private changes first, the account authority last. */
module CredentialTransactions {
  import opened Wrappers
  import opened Accounts
  import opened Storage
  import opened PrivateBundlePaths
  import opened Journals
  import opened CredentialTransactionRecovery
  import opened CredentialTransactionPlans

  /** A journalled transaction that has changed no bundle file yet. */
  ghost predicate Untouched(j: Journal, base: Disk, d: Disk) {
    && Inv(j, base, d) && HasJournal(d, j) && MidBase(j, base, d)
    && d.files == base.files
  }

  predicate PlanFor(plan: Plan, base: Disk) {
    && plan.journal.files == RecordsOf(plan.files)
    && (forall i :: 0 <= i < |plan.files| ==>
                      && Sha256(plan.files[i].target) == plan.files[i].record.target
                      && plan.files[i].base == Lookup(base.files, plan.files[i].record.loc))
  }

  lemma ExactPlanFor(plan: Plan, base: Disk, wanted: seq<(Loc, Content)>)
    requires PlansExactly(plan.files, base.files, wanted)
    requires plan.journal.files == RecordsFor(base.files, wanted)
    ensures PlanFor(plan, base)
  {
    assert RecordsOf(plan.files) == plan.journal.files;
  }

  predicate StagesWritten(plan: Plan, d: Disk, n: nat)
    requires n <= |plan.files| && d.txn.Some?
  {
    forall i :: 0 <= i < n ==> Lookup(d.txn.value.parts, plan.files[i].record.stage) == Some(plan.files[i].target)
  }

  predicate BackupsWritten(plan: Plan, d: Disk, n: nat)
    requires n <= |plan.files| && d.txn.Some?
  {
    forall i :: 0 <= i < n && plan.files[i].record.backup.Some? ==>
                  Lookup(d.txn.value.parts, plan.files[i].record.backup.value) == plan.files[i].base
  }

  method WritePlannedPart(root: AccountRoot, plan: Plan, p: Part, data: Content, ghost base: Disk)
    returns (o: Outcome<()>)
    requires Untouched(plan.journal, base, root.State()) && KnownPart(plan.journal, p)
    modifies root`pending, root`txn
    ensures Untouched(plan.journal, base, root.State())
    ensures root.txn.value.parts == old(root.txn).value.parts
            || (p !in old(root.txn).value.parts
                && root.txn.value.parts == old(root.txn).value.parts[p := data])
    ensures o.Done? ==> Lookup(root.txn.value.parts, p) == Some(data)
    ensures NoDoubt(old(root.pending)) ==> NoDoubt(root.pending) && o != Raised(DurabilityUncertain)
    ensures old(root.pending) == [] ==> root.pending == []
    ensures old(root.pending) == [] && p !in old(root.txn).value.parts ==> o.Done?
  {
    if p !in root.txn.value.parts {
      PartWriteKeeps(plan.journal, base, root.State(), p, data);
    }
    o := root.WritePart(p, data);
  }

  predicate StagesFresh(plan: Plan, d: Disk, n: nat)
    requires n <= |plan.files| && d.txn.Some?
  {
    forall i :: n <= i < |plan.files| ==> plan.files[i].record.stage !in d.txn.value.parts
  }

  predicate BackupsFresh(plan: Plan, d: Disk, n: nat)
    requires n <= |plan.files| && d.txn.Some?
  {
    forall i :: n <= i < |plan.files| && plan.files[i].record.backup.Some? ==>
                  plan.files[i].record.backup.value !in d.txn.value.parts
  }

  predicate Apart(p: Record, q: Record) {
    && p.loc != q.loc
    && p.stage != q.stage
    && (p.backup.Some? ==> p.backup != q.backup)
  }

  /** The artifacts of different records never collide. */
  lemma ArtifactsApart(plan: Plan)
    requires plan.journal.files == RecordsOf(plan.files) && WellFormed(plan.journal)
    ensures forall i, k :: 0 <= i < |plan.files| && 0 <= k < |plan.files| && i != k ==>
                             Apart(plan.files[i].record, plan.files[k].record)
    ensures forall i :: 0 <= i < |plan.files| ==>
                          && plan.files[i].record.stage.Stage?
                          && KnownPart(plan.journal, plan.files[i].record.stage)
                          && (plan.files[i].record.backup.Some? ==>
                                && plan.files[i].record.backup.value.Backup?
                                && KnownPart(plan.journal, plan.files[i].record.backup.value))
  {
    assert forall i :: 0 <= i < |plan.files| ==> plan.journal.files[i] == plan.files[i].record;
    forall i | 0 <= i < |plan.files|
      ensures KnownPart(plan.journal, plan.files[i].record.stage)
      ensures plan.files[i].record.backup.Some? ==>
                KnownPart(plan.journal, plan.files[i].record.backup.value)
    {
      assert plan.journal.files[i].stage == plan.files[i].record.stage;
    }
  }

  /** Write every stage, then every backup, before any bundle file is touched. */
  method MaterializeStages(root: AccountRoot, plan: Plan, ghost base: Disk)
    returns (o: Outcome<()>)
    requires PlanFor(plan, base) && Untouched(plan.journal, base, root.State())
    requires StagesFresh(plan, root.State(), 0) && BackupsFresh(plan, root.State(), 0)
    modifies root`pending, root`txn
    ensures Untouched(plan.journal, base, root.State())
    ensures o.Done? ==> StagesWritten(plan, root.State(), |plan.files|) && BackupsFresh(plan, root.State(), 0)
    ensures NoDoubt(old(root.pending)) ==> NoDoubt(root.pending) && o != Raised(DurabilityUncertain)
    ensures old(root.pending) == [] ==> root.pending == [] && o.Done?
  {
    var i := 0;
    while i < |plan.files|
      invariant 0 <= i <= |plan.files|
      invariant Untouched(plan.journal, base, root.State())
      invariant StagesWritten(plan, root.State(), i)
      invariant StagesFresh(plan, root.State(), i) && BackupsFresh(plan, root.State(), 0)
      invariant old(root.pending) == [] ==> root.pending == []
      invariant NoDoubt(old(root.pending)) ==> NoDoubt(root.pending)
    {
      ArtifactsApart(plan);
      var _ :- WritePlannedPart(root, plan, plan.files[i].record.stage, plan.files[i].target, base);
      i := i + 1;
    }
    return Done(());
  }

  method MaterializeBackup(root: AccountRoot, plan: Plan, i: nat, ghost base: Disk)
    returns (o: Outcome<()>)
    requires i < |plan.files| && PlanFor(plan, base) && Untouched(plan.journal, base, root.State())
    requires StagesWritten(plan, root.State(), |plan.files|)
    requires BackupsWritten(plan, root.State(), i) && BackupsFresh(plan, root.State(), i)
    modifies root`pending, root`txn
    ensures Untouched(plan.journal, base, root.State())
    ensures StagesWritten(plan, root.State(), |plan.files|)
    ensures o.Done? ==> BackupsWritten(plan, root.State(), i + 1) && BackupsFresh(plan, root.State(), i + 1)
    ensures NoDoubt(old(root.pending)) ==> NoDoubt(root.pending) && o != Raised(DurabilityUncertain)
    ensures old(root.pending) == [] ==> root.pending == [] && o.Done?
  {
    var p := plan.files[i];
    ArtifactsApart(plan);
    assert p.record.backup.Some? ==> p.base.Some? by {
      assert plan.journal.files[i] == p.record;
    }
    if p.base.None? || p.record.backup.None? { return Done(()); }
    o := WritePlannedPart(root, plan, p.record.backup.value, p.base.value, base);
  }

  method MaterializeBackups(root: AccountRoot, plan: Plan, ghost base: Disk)
    returns (o: Outcome<()>)
    requires PlanFor(plan, base) && Untouched(plan.journal, base, root.State())
    requires StagesWritten(plan, root.State(), |plan.files|) && BackupsFresh(plan, root.State(), 0)
    modifies root`pending, root`txn
    ensures Untouched(plan.journal, base, root.State())
    ensures o.Done? ==> StagesWritten(plan, root.State(), |plan.files|)
                        && BackupsWritten(plan, root.State(), |plan.files|)
    ensures NoDoubt(old(root.pending)) ==> NoDoubt(root.pending) && o != Raised(DurabilityUncertain)
    ensures old(root.pending) == [] ==> root.pending == [] && o.Done?
  {
    var i := 0;
    while i < |plan.files|
      invariant 0 <= i <= |plan.files|
      invariant Untouched(plan.journal, base, root.State())
      invariant StagesWritten(plan, root.State(), |plan.files|)
      invariant BackupsWritten(plan, root.State(), i) && BackupsFresh(plan, root.State(), i)
      invariant old(root.pending) == [] ==> root.pending == []
      invariant NoDoubt(old(root.pending)) ==> NoDoubt(root.pending)
    {
      var _ :- MaterializeBackup(root, plan, i, base);
      i := i + 1;
    }
    return Done(());
  }

  /** Files before n are at target, the rest still at base with their stage ready,
      and every backup is in place. */
  ghost predicate Applying(plan: Plan, base: Disk, d: Disk, n: nat)
    requires n <= |plan.files|
  {
    && PlanFor(plan, base)
    && Inv(plan.journal, base, d) && HasJournal(d, plan.journal) && MidBase(plan.journal, base, d)
    && BackupsWritten(plan, d, |plan.files|)
    && (forall i :: 0 <= i < n ==> AtTarget(plan.files[i].record, d.files))
    && (forall i :: n <= i < |plan.files| ==>
                      && SameAt(d.files, base.files, plan.files[i].record.loc)
                      && Lookup(d.txn.value.parts, plan.files[i].record.stage) == Some(plan.files[i].target))
  }

  method ApplyOne(root: AccountRoot, plan: Plan, n: nat, ghost base: Disk) returns (o: Outcome<()>)
    requires n < |plan.files| && Applying(plan, base, root.State(), n)
    modifies root`pending, root`files, root`txn
    ensures Inv(plan.journal, base, root.State()) && HasJournal(root.State(), plan.journal)
    ensures SameEvidence(old(root.State()), root.State())
    ensures o.Done? ==> Applying(plan, base, root.State(), n + 1)
    ensures NoDoubt(old(root.pending)) ==> NoDoubt(root.pending) && o != Raised(DurabilityUncertain)
    ensures old(root.pending) == [] ==> root.pending == [] && o.Done?
  {
    ghost var was := root.State();
    var p := plan.files[n];
    ApplyKeeps(plan, base, was, n, plan.journal.Migration? && root.moves);
    o := InstallRecordArtifact(root, plan.journal, p.record, p.record.stage, p.base);
  }

  lemma ApplyKeepsOthers(plan: Plan, base: Disk, d: Disk, n: nat, moves: bool)
    requires plan.journal.files == RecordsOf(plan.files) && WellFormed(plan.journal)
    requires n < |plan.files| && d.txn.Some? && plan.files[n].record.stage in d.txn.value.parts
    requires BackupsWritten(plan, d, |plan.files|)
    requires forall i :: 0 <= i < n ==> AtTarget(plan.files[i].record, d.files)
    requires forall i :: n < i < |plan.files| ==>
                           && SameAt(d.files, base.files, plan.files[i].record.loc)
                           && Lookup(d.txn.value.parts, plan.files[i].record.stage) == Some(plan.files[i].target)
    ensures var after := Installed(d, plan.files[n].record.loc, plan.files[n].record.stage, moves);
            && BackupsWritten(plan, after, |plan.files|)
            && (forall i :: 0 <= i < n ==> AtTarget(plan.files[i].record, after.files))
            && (forall i :: n < i < |plan.files| ==>
                              && SameAt(after.files, base.files, plan.files[i].record.loc)
                              && Lookup(after.txn.value.parts,
                                        plan.files[i].record.stage) == Some(plan.files[i].target))
  {
    ArtifactsApart(plan);
  }

  lemma ApplyKeeps(plan: Plan, base: Disk, d: Disk, n: nat, moves: bool)
    requires n < |plan.files| && Applying(plan, base, d, n)
    ensures Applying(plan, base, Installed(d, plan.files[n].record.loc, plan.files[n].record.stage, moves), n + 1)
  {
    assert plan.journal.files[n] == plan.files[n].record;
    InstallTargetKeeps(plan.journal, base, d, n, moves);
    ApplyKeepsOthers(plan, base, d, n, moves);
  }

  /** Install every target file, then prove all of them. */
  method ApplyTarget(root: AccountRoot, plan: Plan, ghost base: Disk) returns (o: Outcome<()>)
    requires Applying(plan, base, root.State(), 0)
    modifies root`pending, root`files, root`txn
    ensures Inv(plan.journal, base, root.State()) && HasJournal(root.State(), plan.journal)
    ensures SameEvidence(old(root.State()), root.State())
    ensures o.Done? ==> Applying(plan, base, root.State(), |plan.files|)
    ensures NoDoubt(old(root.pending)) ==> NoDoubt(root.pending) && o != Raised(DurabilityUncertain)
    ensures old(root.pending) == [] ==> root.pending == [] && o.Done?
  {
    var n := 0;
    while n < |plan.files|
      invariant 0 <= n <= |plan.files|
      invariant Applying(plan, base, root.State(), n)
      invariant SameEvidence(old(root.State()), root.State())
      invariant old(root.pending) == [] ==> root.pending == []
      invariant NoDoubt(old(root.pending)) ==> NoDoubt(root.pending)
    {
      var _ :- ApplyOne(root, plan, n, base);
      n := n + 1;
    }
    assert forall k :: 0 <= k < |plan.files| ==> plan.journal.files[k] == plan.files[k].record;
    o := RequireTargetFiles(root, plan.journal);
  }

  /** Journal, stages, backups, installation: everything before the commit point. */
  method Prepare(root: AccountRoot, plan: Plan, ghost base: Disk) returns (o: Outcome<()>)
    requires PlanFor(plan, base) && Untouched(plan.journal, base, root.State())
    requires root.txn.value.parts == map[]
    modifies root`pending, root`files, root`txn
    ensures Inv(plan.journal, base, root.State()) && HasJournal(root.State(), plan.journal)
    ensures SameEvidence(old(root.State()), root.State())
    ensures o.Done? ==> Applying(plan, base, root.State(), |plan.files|)
    ensures NoDoubt(old(root.pending)) ==> NoDoubt(root.pending) && o != Raised(DurabilityUncertain)
    ensures old(root.pending) == [] ==> root.pending == [] && o.Done?
  {
    var _ :- MaterializeStages(root, plan, base);
    var _ :- MaterializeBackups(root, plan, base);
    assert Applying(plan, base, root.State(), 0);
    o := ApplyTarget(root, plan, base);
  }

  /** Write the journal into a fresh, empty transaction directory. */
  method WriteJournal(root: AccountRoot, j: Journal, ghost base: Disk) returns (o: Outcome<()>)
    requires root.State() == base && WellFormed(j) && Matches(j, base)
    modifies root`pending, root`txn
    ensures Inv(j, base, root.State())
    ensures root.files == old(root.files) && root.authority == old(root.authority)
            && root.published == old(root.published)
    ensures o.Done? ==> Untouched(j, base, root.State()) && root.txn.value.parts == map[]
    ensures NoDoubt(old(root.pending)) ==> NoDoubt(root.pending) && o != Raised(DurabilityUncertain)
    ensures old(root.pending) == [] ==> root.pending == [] && o.Done?
  {
    var _ :- root.EnsureTransactionDirectory();
    if root.txn.value.parts != map[] || root.txn.value.journal.Some? { return Raised(InterruptedArtifact); }
    FreshJournalKeeps(j, base, root.State());
    o := root.WriteJournalFile(j);
  }

  lemma FreshJournalKeeps(j: Journal, base: Disk, d: Disk)
    requires WellFormed(j) && Matches(j, base)
    requires d == DirectorySet(base, Some(Evidence(None, map[])))
    ensures Inv(j, base, d) && Untouched(j, base, JournalSet(d, Some(j)))
  {
    var after := JournalSet(d, Some(j));
    assert forall i :: 0 <= i < |j.files| ==> Recoverable(j.files[i], base.files, after);
  }

  /** Around the commit point the guard held at two looks: right before the authority is
      replaced, with everything else prepared, and right after it. */
  predicate HeldAround(before: seq<Look>, after: seq<Look>, g: Guard, was: Option<File>, f: File) {
    && |after| == |before| + 2 && before <= after
    && Observed(g, after[|before|].source) && Observed(g, after[|before| + 1].source)
    && after[|before|].disk.authority == was && after[|before|].disk.txn.Some?
    && after[|before| + 1].disk == Replaced(after[|before|].disk, f)
  }

  /** The authority was replaced only after a look at which the guard held. */
  predicate HeldBefore(before: seq<Look>, after: seq<Look>, g: Guard, was: Option<File>) {
    && |after| > |before| && before <= after
    && Observed(g, after[|before|].source)
    && after[|before|].disk.authority == was && after[|before|].disk.txn.Some?
  }

  /** ... and a whole commit looked once more, before anything was written. */
  predicate GuardedCommit(before: seq<Look>, after: seq<Look>, g: Guard, d: Disk, f: File) {
    LookedFirst(before, after, g, d) && HeldAround(after[..|before| + 1], after, g, d.authority, f)
  }

  predicate GuardedReplace(before: seq<Look>, after: seq<Look>, g: Guard, d: Disk) {
    LookedFirst(before, after, g, d) && HeldBefore(after[..|before| + 1], after, g, d.authority)
  }

  /** Since then, the guard held at three looks in a row: two at the old authority, the
      last at the new one. */
  predicate CommittedUnder(before: seq<Look>, after: seq<Look>, g: Guard, was: Option<File>, now: Option<File>) {
    && before <= after && |after| >= |before| + 3
    && (forall k :: |after| - 3 <= k < |after| ==> Observed(g, after[k].source))
    && after[|after| - 3].disk.authority == was && after[|after| - 2].disk.authority == was
    && after[|after| - 1].disk.authority == now
  }

  /** Since then, the guard held at some look at the old authority, with a journal written. */
  predicate ReplacedUnder(before: seq<Look>, after: seq<Look>, g: Guard, was: Option<File>) {
    before <= after &&
    exists k :: |before| <= k < |after| && Observed(g, after[k].source) && after[k].disk.authority == was
                && after[k].disk.txn.Some?
  }

  lemma {:induction false} GuardedIsUnder(before: seq<Look>, mid: seq<Look>, after: seq<Look>, g: Guard, d: Disk,
                                          f: File)
    requires before <= mid
    ensures GuardedCommit(mid, after, g, d, f) ==> CommittedUnder(before, after, g, d.authority, Some(f))
    ensures GuardedReplace(mid, after, g, d) ==> ReplacedUnder(before, after, g, d.authority)
  {
    if GuardedReplace(mid, after, g, d) {
      var k := |mid| + 1;
      assert Observed(g, after[k].source) && after[k].disk.authority == d.authority && after[k].disk.txn.Some?;
    }
  }

  predicate LookedFirst(before: seq<Look>, after: seq<Look>, g: Guard, d: Disk) {
    |after| > |before| && before <= after && Observed(g, after[|before|].source) && after[|before|].disk == d
  }

  /** The commit point and what follows it, for one prepared runtime plan. */
  method Finish(root: AccountRoot, plan: Plan, payload: Content, expected: Expected, g: Option<Guard>,
                inode: nat, ghost base: Disk)
    returns (o: Outcome<File>)
    requires Applying(plan, base, root.State(), |plan.files|)
    requires NoDisplacedAncestor(plan.journal)
    requires plan.journal.targetAuthority == Sha256(payload)
    requires base.authority.Some? ==> inode != base.authority.value.inode
    modifies root`pending, root`looks, root`files, root`txn, root`authority
    ensures Inv(plan.journal, base, root.State()) && root.published == old(root.published)
    ensures root.authority == old(root.authority) || root.authority == Some(File(inode, payload))
    ensures o.Done? ==> && root.txn.None? && FinalTarget(plan.journal, base, root.State())
                        && root.authority == Some(o.value) && o.value == File(inode, payload)
    ensures NoDoubt(old(root.pending)) ==> NoDoubt(root.pending) && o != Raised(DurabilityUncertain)
    ensures old(root.pending) == [] ==> root.pending == []
    ensures old(root.pending) == [] && expected == plan.journal.baseAuthority
            && GuardMatches(plan.journal.guard, g, root.source) ==>
              o.Done?
    ensures g.Some? && o.Done? ==>
              HeldAround(old(root.looks), root.looks, g.value, old(root.authority), File(inode, payload))
    ensures g.Some? && root.authority != old(root.authority) ==>
              HeldBefore(old(root.looks), root.looks, g.value, old(root.authority))
    ensures old(root.looks) <= root.looks
    ensures old(root.pending) == [] && !GuardMatches(plan.journal.guard, g, root.source) ==>
              !o.Done? && root.State() == old(root.State())
  {
    var j := plan.journal;
    var _ :- RequireSourceGuard(root, j.guard, g);
    AllApplied(plan, base, root.State());
    AuthorityCommitKeeps(j, base, root.State(), File(inode, payload));
    var final :- root.CommitAuthority(payload, expected, inode);
    if Sha256(final.data) != j.targetAuthority { return Raised(SourceChanged); }
    var _ :- RequireSourceGuard(root, j.guard, g);
    var _ :- DeleteDisplaced(root, j, base);
    var _ :- CleanupTransaction(root, j, base);
    BaseIsNotTarget(j, base, root.State());
    return Done(final);
  }

  lemma AllApplied(plan: Plan, base: Disk, d: Disk)
    requires Applying(plan, base, d, |plan.files|)
    ensures forall i :: 0 <= i < |plan.journal.files| ==> AtTarget(plan.journal.files[i], d.files)
  {
    assert forall k :: 0 <= k < |plan.files| ==> plan.journal.files[k] == plan.files[k].record;
  }

  /** Direct children cannot contain one another. */
  lemma RuntimeHasNoDisplacedAncestor(j: Journal, base: Disk)
    requires WellFormed(j) && Matches(j, base)
    requires DirectChildren(j.targetBundles) && DirectChildren(j.displaced)
    ensures NoDisplacedAncestor(j)
  {
    forall i | 0 <= i < |j.files|
      ensures !IsDisplaced(j, j.files[i].loc)
    {
      var home := j.files[i].loc.bundle;
      forall b | b in j.displaced
        ensures !(b <= home)
      {
        assert b != home && |b| == |home|;
      }
    }
  }

  predicate Direct(bundles: seq<PreparedWrite>, displaced: seq<Bundle>, g: Option<Guard>) {
    bundles == [] && displaced == [] && g.None?
  }

  /** An accepted request gives a journal that recovery can always resolve. */
  lemma AcceptedIsSound(d: Disk, payload: Content, bundles: seq<PreparedWrite>, displaced: seq<Bundle>,
                        g: Option<GuardRecord>, key: string -> string)
    requires d.txn.None? && RuntimeAccepted(d, payload, bundles, displaced, g, key)
    ensures var j := RuntimeJournal(d, payload, bundles, displaced, g);
            WellFormed(j) && Matches(j, d) && NoDisplacedAncestor(j) && Inv(j, d, d)
  {
    var j := RuntimeJournal(d, payload, bundles, displaced, g);
    PlannedMatches(j, d, bundles, key);
    RuntimeHasNoDisplacedAncestor(j, d);
  }

  /** Run one accepted plan to the end, whatever the environment does. */
  method Execute(root: AccountRoot, plan: Plan, payload: Content, expected: Expected, g: Option<Guard>,
                 inode: nat, ghost base: Disk)
    returns (o: Outcome<File>)
    requires PlanFor(plan, base) && Untouched(plan.journal, base, root.State())
    requires root.txn.value.parts == map[]
    requires NoDisplacedAncestor(plan.journal) && plan.journal.targetAuthority == Sha256(payload)
    requires base.authority.Some? ==> inode != base.authority.value.inode
    modifies root`pending, root`looks, root`files, root`txn, root`authority
    ensures Inv(plan.journal, base, root.State()) && root.published == old(root.published)
    ensures root.authority == base.authority || root.authority == Some(File(inode, payload))
    ensures o.Done? ==> && root.txn.None? && FinalTarget(plan.journal, base, root.State())
                        && root.authority == Some(o.value) && o.value == File(inode, payload)
    ensures NoDoubt(old(root.pending)) ==> NoDoubt(root.pending) && o != Raised(DurabilityUncertain)
    ensures old(root.pending) == [] ==> root.pending == []
    ensures old(root.pending) == [] && expected == plan.journal.baseAuthority
            && GuardMatches(plan.journal.guard, g, root.source) ==>
              o.Done?
    ensures g.Some? && o.Done? ==>
              HeldAround(old(root.looks), root.looks, g.value, base.authority, File(inode, payload))
    ensures g.Some? && root.authority != base.authority ==>
              HeldBefore(old(root.looks), root.looks, g.value, base.authority)
    ensures old(root.looks) <= root.looks
  {
    var _ :- Prepare(root, plan, base);
    o := Finish(root, plan, payload, expected, g, inode, base);
  }

  /** Execute a journalled plan; an exception recovers before it propagates, and one
      from the recovery takes its place.

      If nothing is left to disturb the recovery and the guard still holds, the
      transaction is resolved when the exception leaves. */
  method ExecuteRecovering(root: AccountRoot, plan: Plan, payload: Content, expected: Expected, g: Option<Guard>,
                           inode: nat, ghost base: Disk)
    returns (o: Outcome<File>, ghost left: seq<Fault>)
    requires PlanFor(plan, base) && Untouched(plan.journal, base, root.State())
    requires root.txn.value.parts == map[]
    requires plan.journal.Runtime? && NoDisplacedAncestor(plan.journal)
    requires plan.journal.targetAuthority == Sha256(payload)
    requires base.authority.Some? ==> inode != base.authority.value.inode
    modifies root`pending, root`looks, root`files, root`txn, root`authority
    ensures Inv(plan.journal, base, root.State()) && root.published == old(root.published)
    ensures root.authority == base.authority || root.authority == Some(File(inode, payload))
    ensures o.Done? ==> && root.txn.None? && FinalTarget(plan.journal, base, root.State())
                        && root.authority == Some(o.value) && o.value == File(inode, payload)
    ensures o.Raised? && left == [] && GuardMatches(plan.journal.guard, g, root.source) ==>
              root.txn.None? && Settled(plan.journal, base, root.State())
    ensures o.Raised? && root.txn.Some? && root.txn.value.journal.Some? ==>
              left != [] || !GuardMatches(plan.journal.guard, g, root.source)
    ensures NoDoubt(old(root.pending)) ==> NoDoubt(root.pending) && o != Raised(DurabilityUncertain)
    ensures old(root.pending) == [] ==> root.pending == []
    ensures old(root.pending) == [] && expected == plan.journal.baseAuthority
            && GuardMatches(plan.journal.guard, g, root.source) ==>
              o.Done?
    ensures g.Some? && o.Done? ==>
              HeldAround(old(root.looks), root.looks, g.value, base.authority, File(inode, payload))
    ensures g.Some? && root.authority != base.authority ==>
              HeldBefore(old(root.looks), root.looks, g.value, base.authority)
    ensures old(root.looks) <= root.looks
  {
    o := Execute(root, plan, payload, expected, g, inode, base);
    left := root.pending;
    if o.Raised? {
      var recovered := Recover(root, g, plan.journal, base);
      if !recovered.Done? { return recovered.PropagateFailure(), left; }
    }
  }

  /** Journal, execute, and on an exception recover before it propagates. */
  method ExecuteOrRecover(root: AccountRoot, plan: Plan, payload: Content, expected: Expected, g: Option<Guard>,
                          inode: nat)
    returns (o: Outcome<File>)
    requires WellFormed(plan.journal) && Matches(plan.journal, root.State()) && PlanFor(plan, root.State())
    requires plan.journal.Runtime? && NoDisplacedAncestor(plan.journal)
    requires plan.journal.targetAuthority == Sha256(payload)
    requires root.authority.Some? ==> inode != root.authority.value.inode
    modifies root`pending, root`looks, root`files, root`txn, root`authority
    ensures Inv(plan.journal, old(root.State()), root.State()) && root.published == old(root.published)
    ensures root.authority == old(root.authority) || root.authority == Some(File(inode, payload))
    ensures o.Done? ==> && root.txn.None? && FinalTarget(plan.journal, old(root.State()), root.State())
                        && root.authority == Some(o.value) && o.value == File(inode, payload)
    ensures NoDoubt(old(root.pending)) ==> NoDoubt(root.pending) && o != Raised(DurabilityUncertain)
    ensures old(root.pending) == [] ==> root.pending == []
    ensures old(root.pending) == [] && expected == plan.journal.baseAuthority
            && GuardMatches(plan.journal.guard, g, root.source) ==>
              o.Done?
    ensures g.Some? && o.Done? ==>
              HeldAround(old(root.looks), root.looks, g.value, old(root.authority), File(inode, payload))
    ensures g.Some? && root.authority != old(root.authority) ==>
              HeldBefore(old(root.looks), root.looks, g.value, old(root.authority))
    ensures old(root.looks) <= root.looks
  {
    ghost var base := root.State();
    var _ :- WriteJournal(root, plan.journal, base);
    ghost var left;
    o, left := ExecuteRecovering(root, plan, payload, expected, g, inode, base);
  }

  /** The request is accepted, so a journal is written for it. */
  predicate WritesJournal(d: Disk, payload: Content, bundles: seq<PreparedWrite>, displaced: seq<Bundle>,
                          g: Option<Guard>, key: string -> string) {
    && !Direct(bundles, displaced, g)
    && d.txn.None?
    && RuntimeAccepted(d, payload, bundles, displaced, GuardRecordOf(g), key)
  }

  /** Plan a guarded request and run the plan. */
  method PlanAndExecute(root: AccountRoot, payload: Content, expected: Expected, bundles: seq<PreparedWrite>,
                        displaced: seq<Bundle>, g: Option<Guard>, inode: nat, key: string -> string)
    returns (o: Outcome<File>)
    requires root.authority.Some? ==> inode != root.authority.value.inode
    requires !Direct(bundles, displaced, g) && root.txn.None? && expected == ExpectedSource(root.authority)
    requires |displaced| <= MAX_ACCOUNTS && DirectChildren(displaced) && Distinct(KeysOf(displaced, key))
    modifies root`pending, root`looks, root`files, root`txn, root`authority
    ensures root.published == old(root.published)
    ensures root.authority == old(root.authority) || root.authority == Some(File(inode, payload))
    ensures o.Done? ==> o.value == File(inode, payload) && root.authority == Some(o.value) && root.txn.None?
    ensures !WritesJournal(old(root.State()), payload, bundles, displaced, g, key) ==>
              !o.Done? && root.State() == old(root.State())
    ensures WritesJournal(old(root.State()), payload, bundles, displaced, g, key) ==>
              var j := RuntimeJournal(old(root.State()), payload, bundles, displaced, GuardRecordOf(g));
              Inv(j, old(root.State()), root.State()) && (o.Done? ==> FinalTarget(j, old(root.State()), root.State()))
    ensures NoDoubt(old(root.pending)) ==> NoDoubt(root.pending) && o != Raised(DurabilityUncertain)
    ensures old(root.pending) == [] ==> root.pending == []
    ensures (old(root.pending) == [] && WritesJournal(old(root.State()), payload, bundles, displaced, g, key)
             && GuardMatches(GuardRecordOf(g), g, root.source)) ==> o.Done?
    ensures g.Some? && o.Done? ==>
              HeldAround(old(root.looks), root.looks, g.value, old(root.authority), File(inode, payload))
    ensures g.Some? && root.authority != old(root.authority) ==>
              HeldBefore(old(root.looks), root.looks, g.value, old(root.authority))
    ensures old(root.looks) <= root.looks
  {
    ghost var base := root.State();
    if WritesJournal(base, payload, bundles, displaced, g, key) {
      AcceptedIsSound(base, payload, bundles, displaced, GuardRecordOf(g), key);
    }
    var plan :- BuildRuntimePlan(root, payload, expected, bundles, displaced, GuardRecordOf(g), key);
    ExactPlanFor(plan, base, Wanted(bundles));
    o := ExecuteOrRecover(root, plan, payload, expected, g, inode);
  }

  /** Guard, plan and run a request that needs a journal. */
  method CommitJournalled(root: AccountRoot, payload: Content, expected: Expected, bundles: seq<PreparedWrite>,
                          displaced: seq<Bundle>, g: Option<Guard>, inode: nat, key: string -> string)
    returns (o: Outcome<File>)
    requires root.authority.Some? ==> inode != root.authority.value.inode
    requires !Direct(bundles, displaced, g) && root.txn.None?
    requires |displaced| <= MAX_ACCOUNTS && DirectChildren(displaced) && Distinct(KeysOf(displaced, key))
    modifies root`pending, root`looks, root`files, root`txn, root`authority
    ensures root.published == old(root.published)
    ensures root.authority == old(root.authority) || root.authority == Some(File(inode, payload))
    ensures o.Done? ==> o.value == File(inode, payload) && root.authority == Some(o.value) && root.txn.None?
    ensures expected != ExpectedSource(old(root.authority)) ==> !o.Done? && root.State() == old(root.State())
    ensures !WritesJournal(old(root.State()), payload, bundles, displaced, g, key) ==>
              !o.Done? && root.State() == old(root.State())
    ensures WritesJournal(old(root.State()), payload, bundles, displaced, g, key) ==>
              var j := RuntimeJournal(old(root.State()), payload, bundles, displaced, GuardRecordOf(g));
              Inv(j, old(root.State()), root.State()) && (o.Done? ==> FinalTarget(j, old(root.State()), root.State()))
    ensures NoDoubt(old(root.pending)) ==> NoDoubt(root.pending) && o != Raised(DurabilityUncertain)
    ensures old(root.pending) == [] ==> root.pending == []
    ensures (old(root.pending) == [] && WritesJournal(old(root.State()), payload, bundles, displaced, g, key)
             && expected == ExpectedSource(old(root.authority)) && GuardMatches(GuardRecordOf(g), g, root.source)) ==>
                       o.Done?
    ensures g.Some? && o.Done? ==>
              GuardedCommit(old(root.looks), root.looks, g.value, old(root.State()), File(inode, payload))
    ensures g.Some? && root.authority != old(root.authority) ==>
              GuardedReplace(old(root.looks), root.looks, g.value, old(root.State()))
    ensures old(root.looks) <= root.looks
    ensures old(root.pending) == [] && g.Some? && !Observed(g.value, root.source) ==>
              !o.Done? && root.State() == old(root.State())
  {
    if WritesJournal(root.State(), payload, bundles, displaced, g, key) {
      AcceptedIsSound(root.State(), payload, bundles, displaced, GuardRecordOf(g), key);
    }
    if expected != ExpectedSource(root.authority) { return Raised(SourceChanged); }
    var _ :- RequireSourceGuard(root, GuardRecordOf(g), g);
    ghost var seen := root.looks;
    o := PlanAndExecute(root, payload, expected, bundles, displaced, g, inode, key);
    assert g.Some? && seen <= root.looks ==> root.looks[..|seen|] == seen;
  }

  /** Commit private changes first and the current authority last.

      A request that is not accepted raises before any write.  An accepted one keeps
      the disk in a state of its journal on every outcome; when it returns, the
      directory is gone and disk is exactly the target. */
  method Commit(root: AccountRoot, payload: Content, expected: Expected, bundles: seq<PreparedWrite>,
                displaced: seq<Bundle>, g: Option<Guard>, inode: nat, key: string -> string)
    returns (o: Outcome<File>)
    requires root.authority.Some? ==> inode != root.authority.value.inode
    modifies root`pending, root`looks, root`files, root`txn, root`authority
    ensures root.published == old(root.published)
    ensures root.authority == old(root.authority) || root.authority == Some(File(inode, payload))
    ensures o.Done? ==> o.value == File(inode, payload) && root.authority == Some(o.value) && root.txn.None?
    ensures old(root.txn).Some? ==> o == Raised(InterruptedArtifact) && root.State() == old(root.State())
    ensures expected != ExpectedSource(old(root.authority)) ==> !o.Done? && root.State() == old(root.State())
    ensures Direct(bundles, displaced, g) && old(root.txn).None? ==>
              StepOutcome(o, old(root.State()), root.State(), Replaced(old(root.State()), File(inode, payload)))
    ensures !Direct(bundles, displaced, g) && !WritesJournal(old(root.State()), payload, bundles, displaced, g, key) ==>
              !o.Done? && root.State() == old(root.State())
    ensures WritesJournal(old(root.State()), payload, bundles, displaced, g, key) ==>
              var j := RuntimeJournal(old(root.State()), payload, bundles, displaced, GuardRecordOf(g));
              Inv(j, old(root.State()), root.State()) && (o.Done? ==> FinalTarget(j, old(root.State()), root.State()))
    ensures NoDoubt(old(root.pending)) ==> NoDoubt(root.pending) && o != Raised(DurabilityUncertain)
    ensures old(root.pending) == [] ==> root.pending == []
    ensures (old(root.pending) == [] && WritesJournal(old(root.State()), payload, bundles, displaced, g, key)
             && expected == ExpectedSource(old(root.authority)) && GuardMatches(GuardRecordOf(g), g, root.source)) ==>
                       o.Done?
    ensures g.Some? && o.Done? ==>
              GuardedCommit(old(root.looks), root.looks, g.value, old(root.State()), File(inode, payload))
    ensures g.Some? && root.authority != old(root.authority) ==>
              GuardedReplace(old(root.looks), root.looks, g.value, old(root.State()))
    ensures old(root.looks) <= root.looks
    ensures old(root.pending) == [] && g.Some? && g.value.expected != ExpectedSource(root.source) ==>
              !o.Done? && root.State() == old(root.State())
    ensures (old(root.pending) == [] && Direct(bundles, displaced, g) && old(root.txn).None?
             && expected == ExpectedSource(old(root.authority))) ==> o.Done?
  {
    if root.txn.Some? { return Raised(InterruptedArtifact); }
    var removed :- ValidateRuntimeDisplaced(displaced, key);
    if Direct(bundles, removed, g) {
      o := root.CommitAuthority(payload, expected, inode);
      return;
    }
    o := CommitJournalled(root, payload, expected, bundles, removed, g, inode, key);
  }

  /** A transaction is resolved when no evidence is left and disk is exactly on the
      side its authority says. */
  ghost predicate Resolved(j: Journal, base: Disk, d: Disk) {
    && d.txn.None?
    && (if d.authority == base.authority then d.files == base.files else FinalTarget(j, base, d))
  }

  /** Any number of recoveries that meet faults of their own, then one undisturbed. */
  method RecoverThroughCrashes(root: AccountRoot, g: Option<Guard>, restarts: seq<seq<Fault>>,
                               ghost j: Journal, ghost base: Disk)
    requires j.Runtime? && NoDisplacedAncestor(j) && Inv(j, base, root.State()) && GuardMatches(j.guard, g, root.source)
    modifies root`pending, root`looks, root`files, root`txn
    ensures Resolved(j, base, root.State()) && root.authority == old(root.authority)
  {
    for n := 0 to |restarts|
      invariant Inv(j, base, root.State()) && root.authority == old(root.authority)
    {
      root.Restart(restarts[n]);
      var recovered := Recover(root, g, j, base);
    }
    root.Restart([]);
    var recovered := Recover(root, g, j, base);
    BaseIsNotTarget(j, base, root.State());
  }

  /** Crash atomicity over whole runs.  A commit meets any faults at any of its
      writes, any number of recoveries meet any faults of their own, and then one
      recovery runs undisturbed: the transaction is resolved. */
  method CommitThroughCrashes(root: AccountRoot, payload: Content, expected: Expected, bundles: seq<PreparedWrite>,
                              displaced: seq<Bundle>, g: Option<Guard>, inode: nat, key: string -> string,
                              restarts: seq<seq<Fault>>)
    requires root.authority.Some? ==> inode != root.authority.value.inode
    requires WritesJournal(root.State(), payload, bundles, displaced, g, key)
    requires GuardMatches(GuardRecordOf(g), g, root.source)
    modifies root`pending, root`looks, root`files, root`txn, root`authority
    ensures Resolved(RuntimeJournal(old(root.State()), payload, bundles, displaced, GuardRecordOf(g)),
                     old(root.State()), root.State())
    ensures root.authority == old(root.authority) || root.authority == Some(File(inode, payload))
  {
    ghost var base := root.State();
    ghost var j := RuntimeJournal(base, payload, bundles, displaced, GuardRecordOf(g));
    AcceptedIsSound(base, payload, bundles, displaced, GuardRecordOf(g), key);
    var committed := Commit(root, payload, expected, bundles, displaced, g, inode, key);
    RecoverThroughCrashes(root, g, restarts, j, base);
  }
}
