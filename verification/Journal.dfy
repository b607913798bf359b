/** Credential journals: when one is well formed, what it says about the private
    tree, and the states a transaction may be interrupted in. */
module Journals {
  import opened Wrappers
  import opened Accounts
  import opened Storage
  import opened PrivateBundlePaths

  datatype AuthorityState = Base | Target | Third

  /** Base is the exact old file; target is any file with the target bytes. */
  function StateOf(j: Journal, current: Option<File>): AuthorityState {
    if ExpectedSource(current) == j.baseAuthority then Base
    else if current.Some? && Sha256(current.value.data) == j.targetAuthority then Target
    else Third
  }

  function FileKeys(files: seq<Record>, key: string -> string): seq<(seq<string>, string)> {
    seq(|files|, i requires 0 <= i < |files| => (KeyOf(files[i].loc.bundle, key), key(files[i].loc.name)))
  }

  function BackupsOf(files: seq<Record>): (parts: seq<Part>) {
    if files == [] then []
    else (if files[0].backup.Some? then [files[0].backup.value] else []) + BackupsOf(files[1..])
  }

  const TRANSACTION_DIRECTORY := ".credential-transaction"

  /** No component of the path is the reserved directory under another spelling. */
  predicate Unreserved(b: Bundle, key: string -> string) {
    forall i :: 0 <= i < |b| ==> key(b[i]) != key(TRANSACTION_DIRECTORY)
  }

  /** The checks both journal schemas make, for any portable key function.  A
      migration's nested paths are unique within each list; but between the lists
      only equal keys are refused: nothing relates a displaced path to a target path
      that lies below it. */
  predicate Coherent(j: Journal, key: string -> string) {
    && (j.Migration? ==>
          j.guard.Some? && (j.baseAuthority.Absent? <==> j.baseGeneration.None?))
    && (j.targetBundles == [] <==> j.files == [])
    && (forall b :: b in j.targetBundles ==> Unreserved(b, key))
    && (forall b :: b in j.displaced ==> Unreserved(b, key))
    && (j.Migration? ==>
          && PortableUnique(j.targetBundles, key)
          && PortableUnique(j.basePresent, key)
          && PortableUnique(j.displaced, key))
    && Distinct(KeysOf(j.targetBundles, key))
    && Distinct(KeysOf(j.basePresent, key))
    && Distinct(KeysOf(j.displaced, key))
    && (forall r :: r in j.files ==>
                      && r.stage.Stage?
                      && (r.backup.Some? ==> r.backup.value.Backup?)
                      && (r.backup.None? <==> r.base.None?))
    && Distinct(FileKeys(j.files, key))
    && (forall i, k :: 0 <= i < k < |j.files| ==> j.files[i].stage != j.files[k].stage)
    && Distinct(BackupsOf(j.files))
    && (forall b :: b in KeysOf(j.basePresent, key) ==> b in KeysOf(j.targetBundles, key))
    && (forall b :: b in KeysOf(j.displaced, key) ==> b !in KeysOf(j.targetBundles, key))
    && (forall b :: b in KeysOf(j.targetBundles, key) ==>
                      exists i :: 0 <= i < |j.files| && KeyOf(j.files[i].loc.bundle, key) == b)
    && (forall i :: 0 <= i < |j.files| ==>
                      KeyOf(j.files[i].loc.bundle, key) in KeysOf(j.targetBundles, key))
  }

  /** What recovery relies on, stated on the names themselves. */
  predicate WellFormed(j: Journal) {
    && (forall i, k :: 0 <= i < k < |j.files| ==>
                         && j.files[i].loc != j.files[k].loc
                         && j.files[i].stage != j.files[k].stage
                         && (j.files[i].backup.Some? && j.files[k].backup.Some? ==>
                               j.files[i].backup != j.files[k].backup))
    && (forall i :: 0 <= i < |j.files| ==>
                      && j.files[i].stage.Stage?
                      && (j.files[i].backup.Some? ==> j.files[i].backup.value.Backup?)
                      && (j.files[i].backup.None? <==> j.files[i].base.None?))
    && (forall b :: b in j.displaced ==> b !in j.targetBundles)
  }

  lemma BackupInBackups(files: seq<Record>, i: nat)
    requires i < |files| && files[i].backup.Some?
    ensures files[i].backup.value in BackupsOf(files)
  {
    if i > 0 {
      BackupInBackups(files[1..], i - 1);
    }
  }

  lemma {:induction false} BackupsDistinct(files: seq<Record>, i: nat, k: nat)
    requires Distinct(BackupsOf(files))
    requires i < k < |files| && files[i].backup.Some? && files[k].backup.Some?
    ensures files[i].backup != files[k].backup
  {
    var head := if files[0].backup.Some? then [files[0].backup.value] else [];
    var all := BackupsOf(files);
    assert all[|head|..] == BackupsOf(files[1..]);
    if i == 0 {
      BackupInBackups(files[1..], k - 1);
      var at :| 0 <= at < |all| - 1 && all[1..][at] == files[k].backup.value;
      assert all[0] != all[at + 1];
    } else {
      BackupsDistinct(files[1..], i - 1, k - 1);
    }
  }

  lemma KeyInKeys(s: seq<Bundle>, b: Bundle, key: string -> string)
    ensures b in s ==> KeyOf(b, key) in KeysOf(s, key)
  {
    if b in s {
      var at :| 0 <= at < |s| && s[at] == b;
      assert KeysOf(s, key)[at] == KeyOf(b, key);
    }
  }

  predicate OnceEach(s: seq<Bundle>, key: string -> string) {
    forall i, k :: 0 <= i < k < |s| ==> KeyOf(s[i], key) != KeyOf(s[k], key)
  }

  /** In the portable namespace: no list names a bundle twice, only targets were present
      at base, no displaced bundle is a target, and the targets are the bundles of the
      files. */
  predicate NamesFit(j: Journal, key: string -> string) {
    && OnceEach(j.targetBundles, key) && OnceEach(j.basePresent, key) && OnceEach(j.displaced, key)
    && (forall b :: b in j.basePresent ==> exists t :: t in j.targetBundles && KeyOf(t, key) == KeyOf(b, key))
    && (forall b, t :: b in j.displaced && t in j.targetBundles ==> KeyOf(b, key) != KeyOf(t, key))
    && (forall t :: t in j.targetBundles ==> exists r :: r in j.files && KeyOf(r.loc.bundle, key) == KeyOf(t, key))
    && (forall r :: r in j.files ==> exists t :: t in j.targetBundles && KeyOf(t, key) == KeyOf(r.loc.bundle, key))
    && (j.targetBundles == [] <==> j.files == [])
  }

  lemma {:induction false} DistinctIsOnceEach(s: seq<Bundle>, key: string -> string)
    requires Distinct(KeysOf(s, key))
    ensures OnceEach(s, key)
  {
    assert forall i :: 0 <= i < |s| ==> KeysOf(s, key)[i] == KeyOf(s[i], key);
  }

  lemma {:induction false} KeysFrom(s: seq<Bundle>, k: seq<string>, key: string -> string)
    ensures k in KeysOf(s, key) <==> exists b :: b in s && KeyOf(b, key) == k
  {
    if k in KeysOf(s, key) {
      var i :| 0 <= i < |s| && KeysOf(s, key)[i] == k;
      assert s[i] in s && KeyOf(s[i], key) == k;
    }
    if b :| b in s && KeyOf(b, key) == k { KeyInKeys(s, b, key); }
  }

  /** ... and the names fit together; a migration also has its guard, its generation and
      portable nested paths. */
  lemma {:induction false} CoherentNamesFit(j: Journal, key: string -> string)
    requires Coherent(j, key)
    ensures NamesFit(j, key)
    ensures j.Migration? ==>
              && j.guard.Some? && (j.baseAuthority.Absent? <==> j.baseGeneration.None?)
              && PortableUnique(j.targetBundles, key) && PortableUnique(j.basePresent, key)
              && PortableUnique(j.displaced, key)
  {
    DistinctIsOnceEach(j.targetBundles, key);
    DistinctIsOnceEach(j.basePresent, key);
    DistinctIsOnceEach(j.displaced, key);
    forall b | b in j.basePresent
      ensures exists t :: t in j.targetBundles && KeyOf(t, key) == KeyOf(b, key)
    {
      KeyInKeys(j.basePresent, b, key);
      KeysFrom(j.targetBundles, KeyOf(b, key), key);
    }
    forall b, t | b in j.displaced && t in j.targetBundles
      ensures KeyOf(b, key) != KeyOf(t, key)
    {
      KeyInKeys(j.displaced, b, key);
      KeyInKeys(j.targetBundles, t, key);
    }
    forall t | t in j.targetBundles
      ensures exists r :: r in j.files && KeyOf(r.loc.bundle, key) == KeyOf(t, key)
    {
      KeyInKeys(j.targetBundles, t, key);
      var i :| 0 <= i < |j.files| && KeyOf(j.files[i].loc.bundle, key) == KeyOf(t, key);
      assert j.files[i] in j.files;
    }
    forall r | r in j.files
      ensures exists t :: t in j.targetBundles && KeyOf(t, key) == KeyOf(r.loc.bundle, key)
    {
      var i :| 0 <= i < |j.files| && j.files[i] == r;
      KeysFrom(j.targetBundles, KeyOf(r.loc.bundle, key), key);
    }
  }

  /** Whatever the portable key function is, the schema checks give the facts
      recovery relies on. */
  lemma {:induction false} CoherentIsWellFormed(j: Journal, key: string -> string)
    requires Coherent(j, key)
    ensures WellFormed(j)
    ensures forall b :: b in j.targetBundles || b in j.displaced ==> TRANSACTION_DIRECTORY !in b
  {
    forall i, k | 0 <= i < k < |j.files|
      ensures j.files[i].loc != j.files[k].loc
      ensures j.files[i].backup.Some? && j.files[k].backup.Some? ==> j.files[i].backup != j.files[k].backup
    {
      assert FileKeys(j.files, key)[i] != FileKeys(j.files, key)[k];
      if j.files[i].backup.Some? && j.files[k].backup.Some? {
        BackupsDistinct(j.files, i, k);
      }
    }
    forall b | b in j.displaced
      ensures b !in j.targetBundles
    {
      KeyInKeys(j.displaced, b, key);
      KeyInKeys(j.targetBundles, b, key);
    }
  }

  // What a journal means for one base state.

  predicate SameAt(m: map<Loc, Content>, n: map<Loc, Content>, l: Loc) {
    Lookup(m, l) == Lookup(n, l)
  }

  function DigestAt(m: map<Loc, Content>, l: Loc): Option<Digest> {
    if l in m then Some(Sha256(m[l])) else None
  }

  predicate IsJournalled(j: Journal, l: Loc) {
    exists i :: 0 <= i < |j.files| && j.files[i].loc == l
  }

  predicate IsDisplaced(j: Journal, l: Loc) {
    exists b :: b in j.displaced && b <= l.bundle
  }

  /** No displaced bundle is at or above the home of a target file. */
  predicate NoDisplacedAncestor(j: Journal) {
    forall i :: 0 <= i < |j.files| ==> !IsDisplaced(j, j.files[i].loc)
  }

  predicate HasDisplacedLeft(j: Journal, files: map<Loc, Content>) {
    exists b :: b in j.displaced && BundlePresent(files, b)
  }

  predicate KnownPart(j: Journal, p: Part) {
    exists i :: 0 <= i < |j.files| && (j.files[i].stage == p || j.files[i].backup == Some(p))
  }

  /** The journal was planned against exactly this state. */
  predicate Matches(j: Journal, base: Disk) {
    && base.txn.None?
    && j.baseAuthority == ExpectedSource(base.authority)
    && (forall i :: 0 <= i < |j.files| ==>
                      && j.files[i].base == DigestAt(base.files, j.files[i].loc)
                      && j.files[i].loc.bundle in j.targetBundles)
    && (forall b :: b in j.targetBundles ==> (b in j.basePresent <==> BundlePresent(base.files, b)))
  }

  predicate AtTarget(r: Record, files: map<Loc, Content>) {
    DigestAt(files, r.loc) == Some(r.target)
  }

  predicate Recoverable(r: Record, base: map<Loc, Content>, d: Disk)
    requires d.txn.Some?
  {
    || SameAt(d.files, base, r.loc)
    || (AtTarget(r, d.files)
        && (r.backup.Some? ==> Lookup(d.txn.value.parts, r.backup.value) == Lookup(base, r.loc)))
  }

  /** Before the authority commit: every journalled file is at base or target, each
      one moved off an existing base still has its backup, nothing else changed. */
  ghost predicate MidBase(j: Journal, base: Disk, d: Disk) {
    && d.txn.Some?
    && d.authority == base.authority
    && (forall l :: !IsJournalled(j, l) ==> SameAt(d.files, base.files, l))
    && (forall i :: 0 <= i < |j.files| ==> Recoverable(j.files[i], base.files, d))
  }

  /** After the authority commit: every journalled file is at target, and nothing
      else changed except that displaced bundles may be gone. */
  ghost predicate MidTarget(j: Journal, base: Disk, d: Disk) {
    && StateOf(j, d.authority) == Target
    && (forall i :: 0 <= i < |j.files| ==> AtTarget(j.files[i], d.files))
    && (forall l :: !IsJournalled(j, l) ==>
                      SameAt(d.files, base.files, l) || (IsDisplaced(j, l) && l !in d.files))
  }

  predicate FinalBase(base: Disk, d: Disk) {
    d.files == base.files && d.authority == base.authority
  }

  ghost predicate FinalTarget(j: Journal, base: Disk, d: Disk) {
    MidTarget(j, base, d) && !HasDisplacedLeft(j, d.files)
  }

  /** Every state a transaction can be found in. */
  ghost predicate Inv(j: Journal, base: Disk, d: Disk) {
    && WellFormed(j)
    && Matches(j, base)
    && match d.txn
       case None => FinalBase(base, d) || FinalTarget(j, base, d)
       case Some(e) =>
         match e.journal
         case None => e.parts == map[] && (FinalBase(base, d) || FinalTarget(j, base, d))
         case Some(k) =>
           && k == j
           && (forall p :: p in e.parts ==> KnownPart(j, p))
           && (MidBase(j, base, d) || MidTarget(j, base, d))
  }

  /** Writing a stage or backup that is not there yet loses nothing. */
  lemma PartWriteKeeps(j: Journal, base: Disk, d: Disk, p: Part, data: Content)
    requires d.txn.Some? && p !in d.txn.value.parts && KnownPart(j, p)
    requires Inv(j, base, d) && d.txn.value.journal.Some?
    requires MidBase(j, base, d)
    ensures Inv(j, base, PartWritten(d, p, data)) && MidBase(j, base, PartWritten(d, p, data))
  {
    var after := PartWritten(d, p, data);
    forall i | 0 <= i < |j.files|
      ensures Recoverable(j.files[i], base.files, after)
    {
      var r := j.files[i];
      assert Recoverable(r, base.files, d);
      if r.backup == Some(p) {
        assert Lookup(d.txn.value.parts, p) == None;
      }
    }
  }

  /** Installing the target of one record keeps it recoverable, given its backup. */
  lemma InstallTargetKeeps(j: Journal, base: Disk, d: Disk, i: nat, moves: bool)
    requires WellFormed(j) && i < |j.files|
    requires d.txn.Some? && MidBase(j, base, d)
    requires j.files[i].stage in d.txn.value.parts
    requires Sha256(d.txn.value.parts[j.files[i].stage]) == j.files[i].target
    requires j.files[i].backup.Some? ==>
               Lookup(d.txn.value.parts, j.files[i].backup.value) == Lookup(base.files, j.files[i].loc)
    ensures MidBase(j, base, Installed(d, j.files[i].loc, j.files[i].stage, moves))
    ensures AtTarget(j.files[i], Installed(d, j.files[i].loc, j.files[i].stage, moves).files)
  {
    var r := j.files[i];
    var after := Installed(d, r.loc, r.stage, moves);
    forall k | 0 <= k < |j.files|
      ensures Recoverable(j.files[k], base.files, after)
    {
      assert Recoverable(j.files[k], base.files, d);
      if k != i {
        assert j.files[k].loc != r.loc;
        assert SameAt(after.files, d.files, j.files[k].loc);
      }
    }
    forall l | !IsJournalled(j, l)
      ensures SameAt(after.files, base.files, l)
    {
      assert l != r.loc;
      assert SameAt(d.files, base.files, l);
    }
  }

  /** Putting the backup of one record back returns that file to base. */
  lemma RestoreKeeps(j: Journal, base: Disk, d: Disk, i: nat, moves: bool)
    requires WellFormed(j) && i < |j.files|
    requires d.txn.Some? && MidBase(j, base, d)
    requires j.files[i].backup.Some? && j.files[i].backup.value in d.txn.value.parts
    requires DigestAt(base.files, j.files[i].loc) == Some(Sha256(d.txn.value.parts[j.files[i].backup.value]))
    ensures MidBase(j, base, Installed(d, j.files[i].loc, j.files[i].backup.value, moves))
    ensures SameAt(Installed(d, j.files[i].loc, j.files[i].backup.value, moves).files, base.files, j.files[i].loc)
  {
    var r := j.files[i];
    var after := Installed(d, r.loc, r.backup.value, moves);
    forall k | 0 <= k < |j.files|
      ensures Recoverable(j.files[k], base.files, after)
    {
      assert Recoverable(j.files[k], base.files, d);
      if k != i {
        assert j.files[k].loc != r.loc;
        assert SameAt(after.files, d.files, j.files[k].loc);
        assert j.files[k].backup != r.backup;
      }
    }
    forall l | !IsJournalled(j, l)
      ensures SameAt(after.files, base.files, l)
    {
      assert l != r.loc;
      assert SameAt(d.files, base.files, l);
    }
  }

  /** Deleting a file that did not exist at base returns it to base. */
  lemma DeleteNewKeeps(j: Journal, base: Disk, d: Disk, i: nat)
    requires WellFormed(j) && i < |j.files|
    requires d.txn.Some? && MidBase(j, base, d)
    requires j.files[i].loc !in base.files
    ensures MidBase(j, base, Deleted(d, j.files[i].loc))
    ensures SameAt(Deleted(d, j.files[i].loc).files, base.files, j.files[i].loc)
  {
    var r := j.files[i];
    var after := Deleted(d, r.loc);
    forall k | 0 <= k < |j.files|
      ensures Recoverable(j.files[k], base.files, after)
    {
      assert Recoverable(j.files[k], base.files, d);
      if k != i {
        assert j.files[k].loc != r.loc;
        assert SameAt(after.files, d.files, j.files[k].loc);
      }
    }
    forall l | !IsJournalled(j, l)
      ensures SameAt(after.files, base.files, l)
    {
      assert l != r.loc;
      assert SameAt(d.files, base.files, l);
    }
  }

  /** The authority commit is the commit point: with every file at target it turns
      a state that rolls back into one that rolls forward. */
  lemma AuthorityCommitKeeps(j: Journal, base: Disk, d: Disk, f: File)
    requires Matches(j, base) && MidBase(j, base, d)
    requires Sha256(f.data) == j.targetAuthority
    requires base.authority.Some? ==> f.inode != base.authority.value.inode
    requires forall i :: 0 <= i < |j.files| ==> AtTarget(j.files[i], d.files)
    ensures MidTarget(j, base, Replaced(d, f))
  {
  }

  /** Destroying a displaced bundle keeps the target, if no target file lies below it. */
  lemma DestroyDisplacedKeeps(j: Journal, base: Disk, d: Disk, b: Bundle)
    requires NoDisplacedAncestor(j) && MidTarget(j, base, d) && b in j.displaced
    ensures MidTarget(j, base, Destroyed(d, b))
  {
    var after := Destroyed(d, b);
    forall i | 0 <= i < |j.files|
      ensures AtTarget(j.files[i], after.files)
    {
      assert !IsDisplaced(j, j.files[i].loc);
      assert SameAt(after.files, d.files, j.files[i].loc);
    }
    forall l | !IsJournalled(j, l)
      ensures SameAt(after.files, base.files, l) || (IsDisplaced(j, l) && l !in after.files)
    {
      if b <= l.bundle {
        assert IsDisplaced(j, l);
      } else {
        assert SameAt(after.files, d.files, l);
      }
    }
  }

  /** With every record back at base the whole tree is the base tree. */
  lemma AllAtBase(j: Journal, base: Disk, d: Disk)
    requires MidBase(j, base, d)
    requires forall i :: 0 <= i < |j.files| ==> SameAt(d.files, base.files, j.files[i].loc)
    ensures FinalBase(base, d)
  {
    forall l
      ensures SameAt(d.files, base.files, l)
    {
      if IsJournalled(j, l) {
        var i :| 0 <= i < |j.files| && j.files[i].loc == l;
      }
    }
    SameEverywhere(d.files, base.files);
  }

  lemma SameEverywhere(m: map<Loc, Content>, n: map<Loc, Content>)
    requires forall l :: SameAt(m, n, l)
    ensures m == n
  {
    forall l
      ensures l in m <==> l in n
      ensures l in m ==> m[l] == n[l]
    {
      assert SameAt(m, n, l);
    }
  }

  /** A target state leaves no freedom: the private tree is determined by the
      journal and the base. */
  lemma FinalTargetUnique(j: Journal, base: Disk, d: Disk, e: Disk)
    requires FinalTarget(j, base, d) && FinalTarget(j, base, e)
    ensures d.files == e.files
  {
    forall l
      ensures SameAt(d.files, e.files, l)
    {
      if IsJournalled(j, l) {
        var i :| 0 <= i < |j.files| && j.files[i].loc == l;
        assert AtTarget(j.files[i], d.files) && AtTarget(j.files[i], e.files);
      } else if IsDisplaced(j, l) {
        var b :| b in j.displaced && b <= l.bundle;
        assert !BundlePresent(d.files, b) && !BundlePresent(e.files, b);
        assert l !in d.files && l !in e.files;
      } else {
        assert SameAt(d.files, base.files, l) && SameAt(e.files, base.files, l);
      }
    }
    SameEverywhere(d.files, e.files);
  }

  /** Base and target can never be confused. */
  lemma BaseIsNotTarget(j: Journal, base: Disk, d: Disk)
    requires Matches(j, base)
    ensures d.authority == base.authority ==> StateOf(j, d.authority) == Base
    ensures MidTarget(j, base, d) ==> d.authority != base.authority
  {
  }

  /** A transaction that has nothing left to undo or redo. */
  ghost predicate Settled(j: Journal, base: Disk, d: Disk) {
    FinalBase(base, d) || FinalTarget(j, base, d)
  }

  predicate HasJournal(d: Disk, j: Journal) {
    d.txn.Some? && d.txn.value.journal == Some(j)
  }

  /** The same journal, authority and lineage; only files and artifacts differ. */
  predicate SameEvidence(d: Disk, e: Disk) {
    && d.authority == e.authority
    && d.published == e.published
    && (d.txn.Some? <==> e.txn.Some?)
    && (d.txn.Some? ==> d.txn.value.journal == e.txn.value.journal)
  }

  /** Removing artifacts leaves files, authority, journal and lineage alone. */
  predicate OnlyPartsRemoved(before: Disk, after: Disk) {
    && SameEvidence(before, after)
    && after.files == before.files
    && (before.txn.Some? ==>
          forall p :: p in after.txn.value.parts ==> p in before.txn.value.parts)
  }

  /** Cleaning up is safe exactly because a settled state needs no artifact. */
  lemma CleanupKeeps(j: Journal, base: Disk, d: Disk, e: Disk)
    requires HasJournal(d, j) && Inv(j, base, d) && Settled(j, base, d)
    requires OnlyPartsRemoved(d, e)
    ensures Inv(j, base, e) && Settled(j, base, e)
  {
    if FinalBase(base, d) {
      assert forall i :: 0 <= i < |j.files| ==> Recoverable(j.files[i], base.files, e);
    }
  }

  /** What every reachable state looks like from outside: the authority alone tells
      which private bytes can be there. */
  lemma ReachableStates(j: Journal, base: Disk, d: Disk)
    requires Inv(j, base, d)
    ensures StateOf(j, d.authority) != Third
    ensures StateOf(j, d.authority) == Target ==>
              forall i :: 0 <= i < |j.files| ==> DigestAt(d.files, j.files[i].loc) == Some(j.files[i].target)
    ensures StateOf(j, d.authority) == Base ==>
              && d.authority == base.authority
              && (forall i :: 0 <= i < |j.files| ==>
                                SameAt(d.files, base.files, j.files[i].loc) || AtTarget(j.files[i], d.files))
              && (forall i :: 0 <= i < |j.files| && j.files[i].base.Some?
                              && !SameAt(d.files, base.files, j.files[i].loc) ==>
                                && d.txn.Some?
                                && Lookup(d.txn.value.parts, j.files[i].backup.value)
                                   == Lookup(base.files, j.files[i].loc))
              && (forall l :: IsDisplaced(j, l) && !IsJournalled(j, l) ==> SameAt(d.files, base.files, l))
    ensures forall l :: !IsJournalled(j, l) && !IsDisplaced(j, l) ==> SameAt(d.files, base.files, l)
  {
    BaseIsNotTarget(j, base, d);
  }
}
