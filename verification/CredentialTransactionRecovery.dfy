/** Recovery of interrupted credential transactions. */
module CredentialTransactionRecovery {
  import opened Wrappers
  import opened Accounts
  import opened Storage
  import opened Journals

  function GuardRecordOf(g: Option<Guard>): Option<GuardRecord> {
    if g.None? then None else Some(GuardRecord(g.value.path, g.value.expected))
  }

  predicate Observed(g: Guard, source: Option<File>) {
    g.expected == ExpectedSource(source)
  }

  /** The caller's guard is the recorded one and the source still looks like it. */
  predicate GuardMatches(recorded: Option<GuardRecord>, g: Option<Guard>, source: Option<File>) {
    GuardRecordOf(g) == recorded && (g.Some? ==> Observed(g.value, source))
  }

  /** The caller's guard is for the recorded path, and that source has changed. */
  predicate GuardDiverges(recorded: Option<GuardRecord>, g: Guard, source: Option<File>) {
    && recorded.Some?
    && g.path == recorded.value.path
    && g.expected != recorded.value.authority
    && Observed(g, source)
  }

  /** The guard held at one more look, with this disk; without a guard nobody looked. */
  predicate Looked(before: seq<Look>, after: seq<Look>, g: Option<Guard>, d: Disk) {
    if g.None? then after == before
    else
      && |after| == |before| + 1 && before <= after
      && Observed(g.value, after[|before|].source) && after[|before|].disk == d
  }

  method RequireSourceGuard(root: AccountRoot, recorded: Option<GuardRecord>, g: Option<Guard>)
    returns (o: Outcome<()>)
    modifies root`pending, root`looks
    ensures o.Done? ==> GuardRecordOf(g) == recorded && Looked(old(root.looks), root.looks, g, root.State())
    ensures old(root.looks) <= root.looks
    ensures old(root.pending) == [] && g.Some? && g.value.expected != ExpectedSource(root.source) ==> !o.Done?
    ensures NoDoubt(old(root.pending)) ==> NoDoubt(root.pending) && o != Raised(DurabilityUncertain)
    ensures old(root.pending) == [] ==> root.pending == [] && (o.Done? <==> GuardMatches(recorded, g, root.source))
    ensures GuardRecordOf(g) != recorded ==> o == Raised(SourceChanged) && root.pending == old(root.pending)
  {
    if GuardRecordOf(g) != recorded { return Raised(SourceChanged); }
    if g.None? { return Done(()); }
    var source :- root.ObserveSource();
    if !Observed(g.value, source) { return Raised(SourceChanged); }
    return Done(());
  }

  method RequireDivergentSourceGuard(root: AccountRoot, j: Journal, g: Guard)
    returns (o: Outcome<()>)
    modifies root`pending, root`looks
    ensures o.Done? ==>
              && j.guard.Some? && g.path == j.guard.value.path && g.expected != j.guard.value.authority
              && Looked(old(root.looks), root.looks, Some(g), root.State())
    ensures old(root.looks) <= root.looks
    ensures NoDoubt(old(root.pending)) ==> NoDoubt(root.pending) && o != Raised(DurabilityUncertain)
    ensures old(root.pending) == [] ==> root.pending == [] && (o.Done? <==> GuardDiverges(j.guard, g, root.source))
  {
    if j.guard.None? || g.path != j.guard.value.path || g.expected == j.guard.value.authority {
      return Raised(SourceChanged);
    }
    var source :- root.ObserveSource();
    if !Observed(g, source) { return Raised(SourceChanged); }
    return Done(());
  }

  /** A runtime journal rewrites the bundle file from the artifact's bytes; a
      migration journal installs the artifact itself. */
  method InstallRecordArtifact(root: AccountRoot, j: Journal, r: Record, p: Part, expected: Option<Content>)
    returns (o: Outcome<()>)
    requires root.txn.Some? && p in root.txn.value.parts
    modifies root`pending, root`files, root`txn
    ensures StepOutcome(o, old(root.State()), root.State(),
                        Installed(old(root.State()), r.loc, p, j.Migration? && root.moves))
    ensures NoDoubt(old(root.pending)) ==> NoDoubt(root.pending) && o != Raised(DurabilityUncertain)
    ensures old(root.pending) == [] ==> root.pending == []
    ensures old(root.pending) == [] && expected == Lookup(old(root.files), r.loc) ==> o.Done?
  {
    if j.Runtime? {
      o := root.WriteBundleFile(r.loc, root.txn.value.parts[p], expected);
    } else {
      o := root.InstallStagedFile(r.loc, p, expected);
    }
  }

  /** Rolling back touches only files that are a target of the journal. */
  ghost predicate OnlyTargetsLeft(j: Journal, before: map<Loc, Content>, after: map<Loc, Content>) {
    forall l :: SameAt(after, before, l)
                || exists i :: 0 <= i < |j.files| && j.files[i].loc == l && AtTarget(j.files[i], before)
  }

  /** Rolling forward touches only journalled files that are missing or at base. */
  ghost predicate OnlyBasesLeft(j: Journal, before: map<Loc, Content>, after: map<Loc, Content>) {
    forall l :: SameAt(after, before, l) || LeavesBase(j, before, l)
  }

  predicate LeavesBase(j: Journal, before: map<Loc, Content>, l: Loc) {
    exists i :: 0 <= i < |j.files| && j.files[i].loc == l && (l !in before || DigestAt(before, l) == j.files[i].base)
  }

  /** ... and then only what is displaced goes. */
  ghost predicate OnlyDisplacedGone(j: Journal, before: map<Loc, Content>, after: map<Loc, Content>) {
    forall l :: SameAt(after, before, l) || (IsDisplaced(j, l) && l !in after)
  }

  ghost predicate OnlyForward(j: Journal, before: map<Loc, Content>, after: map<Loc, Content>) {
    forall l :: SameAt(after, before, l) || LeavesBase(j, before, l) || (IsDisplaced(j, l) && l !in after)
  }

  /** Whatever the tree holds, recovery fails closed: it touches nothing it does not know. */
  ghost predicate FailsClosed(j: Journal, state: AuthorityState, before: map<Loc, Content>, after: map<Loc, Content>) {
    match state
    case Base => OnlyTargetsLeft(j, before, after)
    case Target => OnlyForward(j, before, after)
    case Third => after == before
  }

  /** One record was restored, or nothing was touched. */
  ghost predicate RecordRestored(r: Record, done: bool, before: map<Loc, Content>, after: map<Loc, Content>) {
    && (forall l :: l != r.loc ==> SameAt(after, before, l))
    && (SameAt(after, before, r.loc) || (AtTarget(r, before) && DigestAt(after, r.loc) == r.base))
    && (done ==> DigestAt(after, r.loc) == r.base)
  }

  ghost predicate BaseSoFar(j: Journal, base: Disk, d: Disk, n: nat)
    requires n <= |j.files|
  {
    && Inv(j, base, d) && MidBase(j, base, d) && HasJournal(d, j)
    && (forall i :: 0 <= i < n ==> SameAt(d.files, base.files, j.files[i].loc))
  }

  /** A file that was not there at base goes, if it is the one we installed. */
  method DeleteNew(root: AccountRoot, j: Journal, i: nat, ghost base: Disk) returns (o: Outcome<()>)
    requires i < |j.files| && HasJournal(root.State(), j) && j.files[i].base.None?
    modifies root`pending, root`files, root`txn
    ensures SameEvidence(old(root.State()), root.State())
    ensures RecordRestored(j.files[i], o.Done?, old(root.files), root.files)
    ensures BaseSoFar(j, base, old(root.State()), i) ==> BaseSoFar(j, base, root.State(), i)
    ensures BaseSoFar(j, base, old(root.State()), i) && o.Done? ==> BaseSoFar(j, base, root.State(), i + 1)
    ensures NoDoubt(old(root.pending)) ==> NoDoubt(root.pending) && o != Raised(DurabilityUncertain)
    ensures old(root.pending) == [] ==> root.pending == []
    ensures old(root.pending) == [] && BaseSoFar(j, base, old(root.State()), i) ==> o.Done?
  {
    ghost var was := root.State();
    ghost var good := BaseSoFar(j, base, was, i);
    var r := j.files[i];
    assert good ==> Recoverable(r, base.files, was);
    var current := Lookup(root.files, r.loc);
    if current.None? { return Done(()); }
    if Sha256(current.value) != r.target { return Raised(SourceChanged); }
    o := root.DeleteBundleFile(r.loc);
    if good {
      DeleteNewKeeps(j, base, was, i);
      OthersStay(j, base, was, Deleted(was, r.loc), i);
    }
  }

  lemma RestoredSoFar(j: Journal, base: Disk, d: Disk, i: nat, moves: bool)
    requires i < |j.files| && BaseSoFar(j, base, d, i)
    requires j.files[i].backup.Some? && j.files[i].backup.value in d.txn.value.parts
    requires DigestAt(base.files, j.files[i].loc) == Some(Sha256(d.txn.value.parts[j.files[i].backup.value]))
    ensures BaseSoFar(j, base, Installed(d, j.files[i].loc, j.files[i].backup.value, moves), i + 1)
  {
    RestoreKeeps(j, base, d, i, moves);
    OthersStay(j, base, d, Installed(d, j.files[i].loc, j.files[i].backup.value, moves), i);
  }

  /** A file that was moved off its base comes back from its backup. */
  method RestoreBackup(root: AccountRoot, j: Journal, i: nat, ghost base: Disk) returns (o: Outcome<()>)
    requires i < |j.files| && HasJournal(root.State(), j) && j.files[i].base.Some?
    modifies root`pending, root`files, root`txn
    ensures SameEvidence(old(root.State()), root.State())
    ensures RecordRestored(j.files[i], o.Done?, old(root.files), root.files)
    ensures BaseSoFar(j, base, old(root.State()), i) ==> BaseSoFar(j, base, root.State(), i)
    ensures BaseSoFar(j, base, old(root.State()), i) && o.Done? ==> BaseSoFar(j, base, root.State(), i + 1)
    ensures NoDoubt(old(root.pending)) ==> NoDoubt(root.pending) && o != Raised(DurabilityUncertain)
    ensures old(root.pending) == [] ==> root.pending == []
    ensures old(root.pending) == [] && BaseSoFar(j, base, old(root.State()), i) ==> o.Done?
  {
    ghost var was := root.State();
    ghost var good := BaseSoFar(j, base, was, i);
    var r := j.files[i];
    assert good ==> Recoverable(r, base.files, was);
    var current := Lookup(root.files, r.loc);
    if current.Some? && Some(Sha256(current.value)) == r.base { return Done(()); }
    if current.None? || Sha256(current.value) != r.target { return Raised(SourceChanged); }
    if r.backup.None? { return Raised(InterruptedArtifact); }
    var backup := Lookup(root.txn.value.parts, r.backup.value);
    if backup.None? || Some(Sha256(backup.value)) != r.base { return Raised(InterruptedArtifact); }
    o := InstallRecordArtifact(root, j, r, r.backup.value, current);
    if good { RestoredSoFar(j, base, was, i, j.Migration? && root.moves); }
  }

  /** Return one record to its base, or fail closed on anything unexpected. */
  method RestoreRecord(root: AccountRoot, j: Journal, i: nat, ghost base: Disk)
    returns (o: Outcome<()>)
    requires i < |j.files| && HasJournal(root.State(), j)
    modifies root`pending, root`files, root`txn
    ensures SameEvidence(old(root.State()), root.State())
    ensures RecordRestored(j.files[i], o.Done?, old(root.files), root.files)
    ensures BaseSoFar(j, base, old(root.State()), i) ==> BaseSoFar(j, base, root.State(), i)
    ensures BaseSoFar(j, base, old(root.State()), i) && o.Done? ==> BaseSoFar(j, base, root.State(), i + 1)
    ensures NoDoubt(old(root.pending)) ==> NoDoubt(root.pending) && o != Raised(DurabilityUncertain)
    ensures old(root.pending) == [] ==> root.pending == []
    ensures old(root.pending) == [] && BaseSoFar(j, base, old(root.State()), i) ==> o.Done?
  {
    if j.files[i].base.None? {
      o := DeleteNew(root, j, i, base);
    } else {
      o := RestoreBackup(root, j, i, base);
    }
  }

  lemma OthersStay(j: Journal, base: Disk, d: Disk, e: Disk, i: nat)
    requires i < |j.files| && BaseSoFar(j, base, d, i)
    requires forall l :: l != j.files[i].loc ==> SameAt(e.files, d.files, l)
    ensures forall k :: 0 <= k < i ==> SameAt(e.files, base.files, j.files[k].loc)
  {
    forall k | 0 <= k < i
      ensures SameAt(e.files, base.files, j.files[k].loc)
    {
      assert j.files[k].loc != j.files[i].loc;
      assert SameAt(e.files, d.files, j.files[k].loc);
    }
  }

  lemma {:induction false} OneMoreRestored(j: Journal, i: nat, done: bool, before: map<Loc, Content>,
                                           was: map<Loc, Content>, now: map<Loc, Content>)
    requires i < |j.files| && OnlyTargetsLeft(j, before, was) && RecordRestored(j.files[i], done, was, now)
    ensures OnlyTargetsLeft(j, before, now)
  {
    forall l | !SameAt(now, before, l)
      ensures exists k :: 0 <= k < |j.files| && j.files[k].loc == l && AtTarget(j.files[k], before)
    {
      if SameAt(was, before, l) {
        assert !SameAt(now, was, l);
        assert l == j.files[i].loc && AtTarget(j.files[i], was) && AtTarget(j.files[i], before);
      }
    }
  }

  lemma {:induction false} OneMoreForward(j: Journal, i: nat, before: map<Loc, Content>, was: map<Loc, Content>,
                                          now: map<Loc, Content>)
    requires i < |j.files| && OnlyBasesLeft(j, before, was)
    requires forall l :: l != j.files[i].loc ==> SameAt(now, was, l)
    requires SameAt(now, was, j.files[i].loc) || DigestAt(was, j.files[i].loc).None?
             || DigestAt(was, j.files[i].loc) == j.files[i].base
    ensures OnlyBasesLeft(j, before, now)
  {
    forall l | !SameAt(now, before, l)
      ensures LeavesBase(j, before, l)
    {
      if SameAt(was, before, l) {
        assert !SameAt(now, was, l);
        assert l == j.files[i].loc;
        assert l !in before || DigestAt(before, l) == j.files[i].base;
      }
    }
  }

  lemma {:induction false} OneMoreGone(j: Journal, n: nat, before: map<Loc, Content>, was: map<Loc, Content>,
                                       now: map<Loc, Content>)
    requires n < |j.displaced| && OnlyDisplacedGone(j, before, was) && now == WithoutBundle(was, j.displaced[n])
    ensures OnlyDisplacedGone(j, before, now)
  {
    forall l | !SameAt(now, before, l)
      ensures IsDisplaced(j, l) && l !in now
    {
      if SameAt(was, before, l) {
        assert l in was && l !in now;
        assert j.displaced[n] in j.displaced && j.displaced[n] <= l.bundle;
      }
    }
  }

  lemma {:induction false} ForwardThenGone(j: Journal, before: map<Loc, Content>, mid: map<Loc, Content>,
                                           after: map<Loc, Content>)
    requires OnlyBasesLeft(j, before, mid) && OnlyDisplacedGone(j, mid, after)
    ensures OnlyForward(j, before, after)
  {
    forall l | !SameAt(after, before, l) && !LeavesBase(j, before, l)
      ensures IsDisplaced(j, l) && l !in after
    {
      assert SameAt(mid, before, l) && !SameAt(after, mid, l);
    }
  }

  /** Every file is at target, or is missing or at base with its stage at hand. */
  predicate Forwardable(j: Journal, d: Disk) {
    WellFormed(j) && HasJournal(d, j) && forall i :: 0 <= i < |j.files| ==> CanForward(j.files[i], d)
  }

  predicate CanForward(r: Record, d: Disk)
    requires d.txn.Some?
  {
    || AtTarget(r, d.files)
    || (&& (r.loc !in d.files || DigestAt(d.files, r.loc) == r.base)
        && r.stage in d.txn.value.parts && Sha256(d.txn.value.parts[r.stage]) == r.target)
  }

  lemma {:induction false} ForwardKeeps(j: Journal, d: Disk, i: nat, moves: bool)
    requires Forwardable(j, d) && i < |j.files| && j.files[i].stage in d.txn.value.parts
    requires Sha256(d.txn.value.parts[j.files[i].stage]) == j.files[i].target
    ensures Forwardable(j, Installed(d, j.files[i].loc, j.files[i].stage, moves))
  {
    var e := Installed(d, j.files[i].loc, j.files[i].stage, moves);
    forall k | 0 <= k < |j.files|
      ensures CanForward(j.files[k], e)
    {
      if k != i {
        assert j.files[k].loc != j.files[i].loc && SameAt(e.files, d.files, j.files[k].loc);
        assert CanForward(j.files[k], d) && j.files[k].stage != j.files[i].stage;
      }
    }
  }

  /** Roll back: every record to base, then drop the bundles that did not exist. */
  method RestoreBase(root: AccountRoot, j: Journal, ghost base: Disk)
    returns (o: Outcome<()>)
    requires HasJournal(root.State(), j)
    modifies root`pending, root`files, root`txn
    ensures SameEvidence(old(root.State()), root.State())
    ensures OnlyTargetsLeft(j, old(root.files), root.files)
    ensures BaseSoFar(j, base, old(root.State()), 0) ==> BaseSoFar(j, base, root.State(), 0)
    ensures BaseSoFar(j, base, old(root.State()), 0) && o.Done? ==> FinalBase(base, root.State())
    ensures NoDoubt(old(root.pending)) ==> NoDoubt(root.pending) && o != Raised(DurabilityUncertain)
    ensures old(root.pending) == [] ==> root.pending == []
    ensures old(root.pending) == [] && BaseSoFar(j, base, old(root.State()), 0) ==> o.Done?
  {
    ghost var good := BaseSoFar(j, base, root.State(), 0);
    ghost var calm := root.pending == [];
    var i := 0;
    while i < |j.files|
      invariant 0 <= i <= |j.files|
      invariant SameEvidence(old(root.State()), root.State())
      invariant OnlyTargetsLeft(j, old(root.files), root.files)
      invariant good ==> BaseSoFar(j, base, root.State(), i)
      invariant calm ==> root.pending == []
      invariant NoDoubt(old(root.pending)) ==> NoDoubt(root.pending)
    {
      ghost var was := root.files;
      var restored := RestoreRecord(root, j, i, base);
      OneMoreRestored(j, i, restored.Done?, old(root.files), was, root.files);
      if !restored.Done? { return restored; }
      i := i + 1;
    }
    if good {
      AllAtBase(j, base, root.State());
    }
    var n := 0;
    while n < |j.targetBundles|
      invariant 0 <= n <= |j.targetBundles|
      invariant SameEvidence(old(root.State()), root.State())
      invariant OnlyTargetsLeft(j, old(root.files), root.files)
      invariant good ==> BaseSoFar(j, base, root.State(), 0) && FinalBase(base, root.State())
      invariant calm ==> root.pending == []
      invariant NoDoubt(old(root.pending)) ==> NoDoubt(root.pending)
    {
      var bundle := j.targetBundles[n];
      if bundle !in j.basePresent {
        if BundlePresent(root.files, bundle) { return Raised(SourceChanged); }
        AbsentBundle(root.State(), bundle);
        var _ :- root.DestroyBundle(bundle);
      }
      n := n + 1;
    }
    return Done(());
  }

  lemma AbsentBundle(d: Disk, bundle: Bundle)
    requires !BundlePresent(d.files, bundle)
    ensures Destroyed(d, bundle) == d
  {
    assert WithoutBundle(d.files, bundle) == d.files;
  }

  /** Bring one record to target, or fail closed on anything unexpected. */
  method ForwardRecord(root: AccountRoot, j: Journal, i: nat) returns (o: Outcome<()>)
    requires i < |j.files| && HasJournal(root.State(), j)
    modifies root`pending, root`files, root`txn
    ensures SameEvidence(old(root.State()), root.State())
    ensures forall l :: l != j.files[i].loc ==> SameAt(root.files, old(root.files), l)
    ensures SameAt(root.files, old(root.files), j.files[i].loc)
            || DigestAt(old(root.files), j.files[i].loc).None?
            || DigestAt(old(root.files), j.files[i].loc) == j.files[i].base
    ensures o.Done? ==> AtTarget(j.files[i], root.files)
    ensures AtTarget(j.files[i], old(root.files)) ==> o.Done? && root.State() == old(root.State())
    ensures NoDoubt(old(root.pending)) ==> NoDoubt(root.pending) && o != Raised(DurabilityUncertain)
    ensures old(root.pending) == [] ==> root.pending == []
    ensures old(root.pending) == [] && Forwardable(j, old(root.State())) ==> o.Done? && Forwardable(j, root.State())
  {
    var r := j.files[i];
    var current := Lookup(root.files, r.loc);
    if current.Some? && Sha256(current.value) == r.target { return Done(()); }
    if current.Some? && (r.base.None? || Some(Sha256(current.value)) != r.base) { return Raised(SourceChanged); }
    var stage := Lookup(root.txn.value.parts, r.stage);
    assert Forwardable(j, root.State()) ==> CanForward(r, root.State());
    if stage.None? || Sha256(stage.value) != r.target { return Raised(InterruptedArtifact); }
    if Forwardable(j, root.State()) { ForwardKeeps(j, root.State(), i, j.Migration? && root.moves); }
    o := InstallRecordArtifact(root, j, r, r.stage, current);
  }

  /** Roll forward: install what is not yet at target, then prove all of it. */
  method EnsureTarget(root: AccountRoot, j: Journal, ghost base: Disk)
    returns (o: Outcome<()>)
    requires HasJournal(root.State(), j)
    modifies root`pending, root`files, root`txn
    ensures SameEvidence(old(root.State()), root.State())
    ensures MidTarget(j, base, old(root.State())) ==> o.Done? && root.State() == old(root.State())
    ensures OnlyBasesLeft(j, old(root.files), root.files)
    ensures o.Done? ==> forall i :: 0 <= i < |j.files| ==> AtTarget(j.files[i], root.files)
    ensures NoDoubt(old(root.pending)) ==> NoDoubt(root.pending) && o != Raised(DurabilityUncertain)
    ensures old(root.pending) == [] ==> root.pending == []
    ensures old(root.pending) == [] && Forwardable(j, old(root.State())) ==> o.Done?
  {
    ghost var good := MidTarget(j, base, root.State());
    ghost var forwards := root.pending == [] && Forwardable(j, root.State());
    ghost var was := root.State();
    var i := 0;
    while i < |j.files|
      invariant 0 <= i <= |j.files|
      invariant HasJournal(root.State(), j) && SameEvidence(old(root.State()), root.State())
      invariant good ==> root.State() == was
      invariant OnlyBasesLeft(j, was.files, root.files)
      invariant forwards ==> Forwardable(j, root.State()) && TargetsUpTo(j, root.files, i)
      invariant old(root.pending) == [] ==> root.pending == []
      invariant NoDoubt(old(root.pending)) ==> NoDoubt(root.pending)
    {
      assert good ==> AtTarget(j.files[i], root.files);
      ghost var before := root.files;
      var forwarded := ForwardRecord(root, j, i);
      OneMoreForward(j, i, was.files, before, root.files);
      if !forwarded.Done? { return forwarded; }
      if forwards { OneMoreTarget(j, i, before, root.files); }
      i := i + 1;
    }
    o := RequireTargetFiles(root, j);
  }

  predicate TargetsUpTo(j: Journal, files: map<Loc, Content>, n: nat)
    requires n <= |j.files|
  {
    forall k :: 0 <= k < n ==> AtTarget(j.files[k], files)
  }

  lemma {:induction false} OneMoreTarget(j: Journal, i: nat, before: map<Loc, Content>, after: map<Loc, Content>)
    requires WellFormed(j) && i < |j.files| && TargetsUpTo(j, before, i) && AtTarget(j.files[i], after)
    requires forall l :: l != j.files[i].loc ==> SameAt(after, before, l)
    ensures TargetsUpTo(j, after, i + 1)
  {
    forall k | 0 <= k < i
      ensures AtTarget(j.files[k], after)
    {
      assert j.files[k].loc != j.files[i].loc && SameAt(after, before, j.files[k].loc);
    }
  }

  method RequireTargetFiles(root: AccountRoot, j: Journal) returns (o: Outcome<()>)
    ensures o.Done? <==> forall i :: 0 <= i < |j.files| ==> AtTarget(j.files[i], root.files)
    ensures !o.Crashed? && (o.Raised? ==> o.error == SourceChanged)
  {
    var i := 0;
    while i < |j.files|
      invariant 0 <= i <= |j.files|
      invariant forall k :: 0 <= k < i ==> AtTarget(j.files[k], root.files)
    {
      if DigestAt(root.files, j.files[i].loc) != Some(j.files[i].target) { return Raised(SourceChanged); }
      i := i + 1;
    }
    return Done(());
  }

  method RequireBaseFiles(root: AccountRoot, j: Journal) returns (o: Outcome<()>)
    ensures o.Done? <==>
            && (forall i :: 0 <= i < |j.files| ==> DigestAt(root.files, j.files[i].loc) == j.files[i].base)
            && (forall b :: b in j.targetBundles && b !in j.basePresent ==> !BundlePresent(root.files, b))
    ensures !o.Crashed? && (o.Raised? ==> o.error == SourceChanged)
  {
    var i := 0;
    while i < |j.files|
      invariant 0 <= i <= |j.files|
      invariant forall k :: 0 <= k < i ==> DigestAt(root.files, j.files[k].loc) == j.files[k].base
    {
      if DigestAt(root.files, j.files[i].loc) != j.files[i].base { return Raised(SourceChanged); }
      i := i + 1;
    }
    if exists b :: b in j.targetBundles && b !in j.basePresent && BundlePresent(root.files, b) {
      return Raised(SourceChanged);
    }
    return Done(());
  }

  /** What must hold of the private tree in a base or target state. */
  predicate PrivateStateOk(j: Journal, state: AuthorityState, files: map<Loc, Content>) {
    if state == Base then
      && (forall i :: 0 <= i < |j.files| ==> DigestAt(files, j.files[i].loc) == j.files[i].base)
      && (forall b :: b in j.targetBundles && b !in j.basePresent ==> !BundlePresent(files, b))
    else
      && (forall i :: 0 <= i < |j.files| ==> AtTarget(j.files[i], files))
      && !HasDisplacedLeft(j, files)
  }

  method RequirePrivateState(root: AccountRoot, j: Journal, state: AuthorityState) returns (o: Outcome<()>)
    ensures o.Done? <==> PrivateStateOk(j, state, root.files)
    ensures !o.Crashed? && (o.Raised? ==> o.error == SourceChanged)
  {
    if state == Base {
      o := RequireBaseFiles(root, j);
      return;
    }
    var _ :- RequireTargetFiles(root, j);
    if exists b :: b in j.displaced && BundlePresent(root.files, b) {
      return Raised(SourceChanged);
    }
    return Done(());
  }

  method RequireCoherentAuthority(root: AccountRoot, j: Journal, state: AuthorityState)
    returns (o: Outcome<Option<File>>)
    modifies root`pending
    ensures o.Done? ==> StateOf(j, root.authority) == state && o.value == root.authority
    ensures NoDoubt(old(root.pending)) ==> NoDoubt(root.pending) && o != Raised(DurabilityUncertain)
    ensures old(root.pending) == [] ==> root.pending == []
    ensures old(root.pending) == [] && StateOf(j, root.authority) == state ==> o.Done?
  {
    var current :- root.ReadAuthority();
    if StateOf(j, current) != state { return Raised(SourceChanged); }
    return Done(current);
  }

  method DeleteDisplaced(root: AccountRoot, j: Journal, ghost base: Disk)
    returns (o: Outcome<()>)
    modifies root`pending, root`files
    ensures SameEvidence(old(root.State()), root.State()) && root.txn == old(root.txn)
    ensures o.Done? ==> !HasDisplacedLeft(j, root.files)
    ensures NoDisplacedAncestor(j) && MidTarget(j, base, old(root.State())) ==>
              MidTarget(j, base, root.State())
    ensures NoDoubt(old(root.pending)) ==> NoDoubt(root.pending) && o != Raised(DurabilityUncertain)
    ensures old(root.pending) == [] ==> root.pending == [] && o.Done?
    ensures OnlyDisplacedGone(j, old(root.files), root.files)
  {
    ghost var good := NoDisplacedAncestor(j) && MidTarget(j, base, root.State());
    var n := 0;
    while n < |j.displaced|
      invariant 0 <= n <= |j.displaced|
      invariant SameEvidence(old(root.State()), root.State()) && root.txn == old(root.txn)
      invariant forall k :: 0 <= k < n ==> !BundlePresent(root.files, j.displaced[k])
      invariant good ==> MidTarget(j, base, root.State())
      invariant old(root.pending) == [] ==> root.pending == []
      invariant NoDoubt(old(root.pending)) ==> NoDoubt(root.pending)
      invariant OnlyDisplacedGone(j, old(root.files), root.files)
    {
      if good {
        DestroyDisplacedKeeps(j, base, root.State(), j.displaced[n]);
      }
      ghost var before := root.files;
      var destroyed := root.DestroyBundle(j.displaced[n]);
      if root.files != before { OneMoreGone(j, n, old(root.files), before, root.files); }
      if !destroyed.Done? { return destroyed; }
      OneMoreGone(j, n, old(root.files), before, root.files);
      assert forall l :: l in root.files ==> l in before && !(j.displaced[n] <= l.bundle);
      n := n + 1;
    }
    return Done(());
  }

  method CleanupPart(root: AccountRoot, p: Part) returns (o: Outcome<()>)
    requires root.txn.Some?
    modifies root`pending, root`txn
    ensures OnlyPartsRemoved(old(root.State()), root.State())
    ensures o.Done? ==> p !in root.txn.value.parts
    ensures NoDoubt(old(root.pending)) ==> NoDoubt(root.pending) && o != Raised(DurabilityUncertain)
    ensures old(root.pending) == [] ==> root.pending == [] && o.Done?
  {
    if p !in root.txn.value.parts { return Done(()); }
    o := root.DeletePart(p);
  }

  method CleanupArtifacts(root: AccountRoot, j: Journal) returns (o: Outcome<()>)
    requires root.txn.Some?
    modifies root`pending, root`txn
    ensures OnlyPartsRemoved(old(root.State()), root.State())
    ensures o.Done? ==> forall p :: KnownPart(j, p) ==> p !in root.txn.value.parts
    ensures NoDoubt(old(root.pending)) ==> NoDoubt(root.pending) && o != Raised(DurabilityUncertain)
    ensures old(root.pending) == [] ==> root.pending == [] && o.Done?
  {
    var i := 0;
    while i < |j.files|
      invariant 0 <= i <= |j.files|
      invariant OnlyPartsRemoved(old(root.State()), root.State())
      invariant forall k :: 0 <= k < i ==>
                              && j.files[k].stage !in root.txn.value.parts
                              && (j.files[k].backup.Some? ==> j.files[k].backup.value !in root.txn.value.parts)
      invariant old(root.pending) == [] ==> root.pending == []
      invariant NoDoubt(old(root.pending)) ==> NoDoubt(root.pending)
    {
      var _ :- CleanupPart(root, j.files[i].stage);
      if j.files[i].backup.Some? {
        var _ :- CleanupPart(root, j.files[i].backup.value);
      }
      i := i + 1;
    }
    return Done(());
  }

  /** The journal goes last, and only after every artifact it names is gone. */
  method FinishCleanup(root: AccountRoot, j: Journal, ghost base: Disk)
    returns (o: Outcome<()>)
    requires HasJournal(root.State(), j)
    modifies root`pending, root`txn
    ensures o.Done? ==> root.txn.None?
    ensures root.txn.Some? ==> root.txn.value.journal.None? || root.txn == old(root.txn)
    ensures Inv(j, base, old(root.State())) && Settled(j, base, old(root.State()))
            && (forall p :: KnownPart(j, p) ==> p !in old(root.txn).value.parts) ==>
              Inv(j, base, root.State()) && Settled(j, base, root.State())
    ensures NoDoubt(old(root.pending)) ==> NoDoubt(root.pending) && o != Raised(DurabilityUncertain)
    ensures old(root.pending) == [] ==> root.pending == [] && o.Done?
  {
    var _ :- root.DeleteJournalFile();
    o := root.DestroyTransactionDirectory();
  }

  method CleanupTransaction(root: AccountRoot, j: Journal, ghost base: Disk)
    returns (o: Outcome<()>)
    requires HasJournal(root.State(), j)
    modifies root`pending, root`txn
    ensures o.Done? ==> root.txn.None?
    ensures Inv(j, base, old(root.State())) && Settled(j, base, old(root.State())) ==>
              Inv(j, base, root.State()) && Settled(j, base, root.State())
    ensures NoDoubt(old(root.pending)) ==> NoDoubt(root.pending) && o != Raised(DurabilityUncertain)
    ensures old(root.pending) == [] ==> root.pending == [] && o.Done?
  {
    ghost var good := Inv(j, base, root.State()) && Settled(j, base, root.State());
    o := CleanupArtifacts(root, j);
    if good { CleanupKeeps(j, base, old(root.State()), root.State()); }
    if !o.Done? { return; }
    o := FinishCleanup(root, j, base);
  }

  /** Roll back at base, roll forward at target, and stop before any change otherwise. */
  method RollBackOrForward(root: AccountRoot, journal: Journal, state: AuthorityState, ghost j: Journal,
                           ghost base: Disk)
    returns (o: Outcome<()>)
    requires HasJournal(root.State(), journal) && state == StateOf(journal, root.authority)
    modifies root`pending, root`files, root`txn
    ensures root.authority == old(root.authority) && root.published == old(root.published)
    ensures HasJournal(root.State(), journal)
    ensures NoDisplacedAncestor(j) && Inv(j, base, old(root.State())) ==>
              Inv(j, base, root.State()) && (o.Done? ==> Settled(j, base, root.State()))
    ensures o.Done? && state == Target ==>
              (!HasDisplacedLeft(journal, root.files)
               && (NoDisplacedAncestor(journal) ==>
                     forall i :: 0 <= i < |journal.files| ==> AtTarget(journal.files[i], root.files)))
    ensures state == Third ==> o == Raised(SourceChanged) && root.State() == old(root.State())
    ensures FailsClosed(journal, state, old(root.files), root.files)
    ensures (old(root.pending) == [] && state == Target && Forwardable(journal, old(root.State()))) ==> o.Done?
    ensures NoDoubt(old(root.pending)) ==> NoDoubt(root.pending) && o != Raised(DurabilityUncertain)
    ensures old(root.pending) == [] ==> root.pending == []
    ensures old(root.pending) == [] && NoDisplacedAncestor(j) && Inv(j, base, old(root.State())) ==> o.Done?
  {
    if NoDisplacedAncestor(j) && Inv(j, base, root.State()) { BaseIsNotTarget(j, base, root.State()); }
    if state == Base {
      o := RestoreBase(root, journal, base);
    } else if state == Target {
      ghost var before := root.files;
      o := EnsureTarget(root, journal, base);
      ghost var mid := root.files;
      ForwardThenGone(journal, before, mid, mid);
      if !o.Done? { return; }
      o := DeleteDisplaced(root, journal, base);
      ForwardThenGone(journal, before, mid, root.files);
    } else {
      return Raised(SourceChanged);
    }
  }

  /** Guard, authority reading, roll back or forward, clean up. */
  method RecoverRuntime(root: AccountRoot, journal: Journal, g: Option<Guard>, ghost j: Journal, ghost base: Disk)
    returns (o: Outcome<()>)
    requires HasJournal(root.State(), journal)
    modifies root`pending, root`looks, root`files, root`txn
    ensures root.authority == old(root.authority) && root.published == old(root.published)
    ensures NoDisplacedAncestor(j) && Inv(j, base, old(root.State())) ==>
              Inv(j, base, root.State()) && (o.Done? ==> Settled(j, base, root.State()))
    ensures o.Done? ==> root.txn.None?
    ensures FailsClosed(journal, StateOf(journal, root.authority), old(root.files), root.files)
    ensures StateOf(journal, old(root.authority)) == Third ==> !o.Done? && root.State() == old(root.State())
    ensures old(root.looks) <= root.looks
    ensures o.Done? ==> GuardRecordOf(g) == journal.guard && Looked(old(root.looks), root.looks, g, old(root.State()))
    ensures GuardRecordOf(g) != journal.guard ==> o == Raised(SourceChanged) && root.State() == old(root.State())
    ensures NoDoubt(old(root.pending)) ==> NoDoubt(root.pending) && o != Raised(DurabilityUncertain)
    ensures old(root.pending) == [] && !GuardMatches(journal.guard, g, root.source) ==>
              !o.Done? && root.State() == old(root.State())
    ensures old(root.pending) == [] ==> root.pending == []
    ensures old(root.pending) == [] && NoDisplacedAncestor(j) && Inv(j, base, old(root.State()))
            && GuardMatches(journal.guard, g, root.source) ==>
              o.Done?
  {
    var _ :- RequireSourceGuard(root, journal.guard, g);
    var current :- root.ReadAuthority();
    var state := StateOf(journal, current);
    var _ :- RollBackOrForward(root, journal, state, j, base);
    var _ :- CleanupTransaction(root, journal, base);
    return Done(());
  }

  /** Resolve one interrupted runtime transaction from fresh filesystem state.

      Whatever the environment does, a reachable state stays reachable.  In a calm
      environment with the recorded guard, every reachable state resolves: no
      transaction directory is left and the authority decides which side the
      private tree is on.  A third authority stops recovery before any change. */
  method Recover(root: AccountRoot, g: Option<Guard>, ghost j: Journal, ghost base: Disk)
    returns (o: Outcome<bool>)
    modifies root`pending, root`looks, root`files, root`txn
    ensures root.authority == old(root.authority) && root.published == old(root.published)
    ensures NoDisplacedAncestor(j) && Inv(j, base, old(root.State())) ==>
              Inv(j, base, root.State())
    ensures o.Done? && NoDisplacedAncestor(j) && Inv(j, base, old(root.State())) ==>
              root.txn.None? && Settled(j, base, root.State())
    ensures if HasRuntimeJournal(old(root.State()))
            then var j := old(root.txn).value.journal.value;
                 FailsClosed(j, StateOf(j, root.authority), old(root.files), root.files)
            else root.files == old(root.files)
    ensures o.Done? ==> (o.value <==> old(root.txn).Some?)
    ensures old(root.txn).Some? && old(root.txn).value.journal.Some? && old(root.txn).value.journal.value.Migration? ==>
              o == Raised(InterruptedArtifact) && root.State() == old(root.State())
    ensures (old(root.txn).Some? && old(root.txn).value.journal.None? && old(root.txn).value.parts != map[]) ==>
              o == Raised(InterruptedArtifact) && root.State() == old(root.State())
    ensures old(root.txn).None? ==> o == Done(false) && root.State() == old(root.State())
    ensures ReadsThird(old(root.State())) ==> !o.Done? && root.State() == old(root.State())
    ensures old(root.looks) <= root.looks
    ensures o.Done? && HasRuntimeJournal(old(root.State())) ==>
              GuardRecordOf(g) == PendingGuard(old(root.State()))
              && Looked(old(root.looks), root.looks, g, old(root.State()))
    ensures (old(root.pending) == [] && HasRuntimeJournal(old(root.State()))
             && !GuardMatches(PendingGuard(old(root.State())), g, root.source)) ==>
              !o.Done? && root.State() == old(root.State())
    ensures NoDoubt(old(root.pending)) ==> NoDoubt(root.pending) && o != Raised(DurabilityUncertain)
    ensures old(root.pending) == [] && g.Some? && !Observed(g.value, root.source) ==> root.files == old(root.files)
    ensures Guarded(old(root.State()), g) ==> o == Raised(SourceChanged) && root.State() == old(root.State())
    ensures old(root.pending) == [] ==> root.pending == []
    ensures old(root.pending) == [] && NoDisplacedAncestor(j) && Inv(j, base, old(root.State()))
            && (HasJournal(old(root.State()), j) ==> j.Runtime? && GuardMatches(j.guard, g, root.source)) ==>
              o.Done?
  {
    if root.txn.None? { return Done(false); }
    if root.txn.value.journal.None? {
      if root.txn.value.parts != map[] { return Raised(InterruptedArtifact); }
      var _ :- root.DestroyTransactionDirectory();
      return Done(true);
    }
    var journal := root.txn.value.journal.value;
    if journal.Migration? { return Raised(InterruptedArtifact); }
    var _ :- RecoverRuntime(root, journal, g, j, base);
    return Done(true);
  }

  /** What the pending journal recorded about a guarded source. */
  function PendingGuard(d: Disk): Option<GuardRecord> {
    if d.txn.Some? && d.txn.value.journal.Some? then d.txn.value.journal.value.guard else None
  }

  predicate HasRuntimeJournal(d: Disk) {
    d.txn.Some? && d.txn.value.journal.Some? && d.txn.value.journal.value.Runtime?
  }

  /** There is a runtime journal under another guard than this one. */
  predicate Guarded(d: Disk, g: Option<Guard>) {
    HasRuntimeJournal(d) && PendingGuard(d) != GuardRecordOf(g)
  }

  /** There is a journal and the authority is neither its base nor its target. */
  predicate ReadsThird(d: Disk) {
    d.txn.Some? && d.txn.value.journal.Some? && StateOf(d.txn.value.journal.value, d.authority) == Third
  }
}
