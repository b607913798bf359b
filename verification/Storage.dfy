/** The durable state below one account root, and the atomic operations on it.

    One authority file, one private tree of bundles, one reserved transaction
    directory and the content-addressed snapshots beside the authority. */
module Storage {
  import opened Wrappers
  import opened Accounts

  datatype Generation = GenerationZero | VersionOne | VersionTwo

  datatype File = File(inode: nat, data: Content)
  datatype Fingerprint = Fingerprint(inode: nat, digest: Digest)
  datatype Expected = Absent | Exactly(fingerprint: Fingerprint)

  function FingerprintOf(f: File): Fingerprint {
    Fingerprint(f.inode, Sha256(f.data))
  }

  function ExpectedSource(f: Option<File>): Expected {
    if f.None? then Absent else Exactly(FingerprintOf(f.value))
  }

  // A bundle is a path of components below the private root.
  type Bundle = seq<string>
  datatype Loc = Loc(bundle: Bundle, name: string)
  datatype Part = Stage(index: nat) | Backup(index: nat)

  datatype GuardRecord = GuardRecord(path: string, authority: Expected)
  datatype Guard = Guard(path: string, expected: Expected)

  datatype Record = Record(
    loc: Loc,
    stage: Part,
    backup: Option<Part>,
    base: Option<Digest>,
    target: Digest)

  /** Journal version one is the runtime form, version two the migration form. */
  datatype Journal =
    | Runtime(
        baseAuthority: Expected,
        guard: Option<GuardRecord>,
        targetAuthority: Digest,
        targetBundles: seq<Bundle>,
        basePresent: seq<Bundle>,
        files: seq<Record>,
        displaced: seq<Bundle>)
    | Migration(
        baseAuthority: Expected,
        baseGeneration: Option<Generation>,
        guard: Option<GuardRecord>,
        targetGeneration: Generation,
        targetAuthority: Digest,
        targetBundles: seq<Bundle>,
        basePresent: seq<Bundle>,
        files: seq<Record>,
        displaced: seq<Bundle>)

  datatype Evidence = Evidence(journal: Option<Journal>, parts: map<Part, Content>)

  datatype Disk = Disk(
    files: map<Loc, Content>,
    txn: Option<Evidence>,
    authority: Option<File>,
    published: set<(Generation, Content)>)

  /** One look at a guarded source: what it showed, and the disk at that moment. */
  datatype Look = Look(source: Option<File>, disk: Disk)

  /** No operation still to come takes effect and yet reports an error. */
  predicate NoDoubt(pending: seq<Fault>) {
    FailAfter !in pending
  }

  /** A bundle is present when anything lies at or below its path. */
  predicate BundlePresent(files: map<Loc, Content>, bundle: Bundle) {
    exists l | l in files :: bundle <= l.bundle
  }

  /** Destroying a bundle removes its whole subtree. */
  function WithoutBundle(files: map<Loc, Content>, bundle: Bundle): map<Loc, Content> {
    map l | l in files && !(bundle <= l.bundle) :: files[l]
  }

  // The effect of each atomic operation on the durable state.

  function Written(d: Disk, l: Loc, data: Content): Disk {
    d.(files := d.files[l := data])
  }

  function Deleted(d: Disk, l: Loc): Disk {
    d.(files := d.files - {l})
  }

  function Destroyed(d: Disk, bundle: Bundle): Disk {
    d.(files := WithoutBundle(d.files, bundle))
  }

  function PartWritten(d: Disk, p: Part, data: Content): Disk
    requires d.txn.Some?
  {
    d.(txn := Some(d.txn.value.(parts := d.txn.value.parts[p := data])))
  }

  function PartDeleted(d: Disk, p: Part): Disk
    requires d.txn.Some?
  {
    d.(txn := Some(d.txn.value.(parts := d.txn.value.parts - {p})))
  }

  /** Installing a transaction artifact copies it, or moves it out of the directory. */
  function Installed(d: Disk, l: Loc, p: Part, moves: bool): Disk
    requires d.txn.Some? && p in d.txn.value.parts
  {
    var after := Written(d, l, d.txn.value.parts[p]);
    if moves then PartDeleted(after, p) else after
  }

  function JournalSet(d: Disk, j: Option<Journal>): Disk
    requires d.txn.Some?
  {
    d.(txn := Some(d.txn.value.(journal := j)))
  }

  function DirectorySet(d: Disk, e: Option<Evidence>): Disk {
    d.(txn := e)
  }

  function Replaced(d: Disk, f: File): Disk {
    d.(authority := Some(f))
  }

  function PublishedIn(d: Disk, g: Generation, data: Content): Disk {
    d.(published := d.published + {(g, data)})
  }

  /** One atomic operation ends in its target state, raises on either side of the
      write, or dies before it. */
  predicate StepOutcome<T>(o: Outcome<T>, before: Disk, after: Disk, target: Disk) {
    match o
    case Done(_) => after == target
    case Raised(_) => after == before || after == target
    case Crashed => after == before
  }

  class AccountRoot {
    var files: map<Loc, Content>
    var txn: Option<Evidence>
    var authority: Option<File>
    var published: set<(Generation, Content)>
    // The separate authority a source guard points at; never written here, but
    // another process may change it between two processes of this root.
    var source: Option<File>
    // What a look at it shows while faults are pending: it may change at any time.
    const glimpse: nat -> Option<File>
    ghost var looks: seq<Look>
    // Whether the platform installs a stage by moving it rather than copying it.
    const moves: bool
    // What the environment does to the operations still to come; a calm
    // environment has nothing pending.
    var pending: seq<Fault>

    function State(): Disk
      reads this
    {
      Disk(files, txn, authority, published)
    }

    constructor (d: Disk, source: Option<File>, glimpse: nat -> Option<File>, moves: bool, pending: seq<Fault>)
      ensures State() == d && this.source == source && this.glimpse == glimpse && this.moves == moves
      ensures this.pending == pending && looks == []
    {
      this.files := d.files;
      this.txn := d.txn;
      this.authority := d.authority;
      this.published := d.published;
      this.source := source;
      this.glimpse := glimpse;
      this.looks := [];
      this.moves := moves;
      this.pending := pending;
    }

    /** A new process starts with its own environment; the disk stays as it is. */
    method Restart(faults: seq<Fault>)
      modifies this`pending
      ensures pending == faults
    {
      pending := faults;
    }

    /** A new process that also finds the guarded source in another state. */
    method RestartWithSource(faults: seq<Fault>, seen: Option<File>)
      modifies this`pending, this`source
      ensures pending == faults && source == seen
    {
      pending := faults;
      source := seen;
    }

    method NextFault() returns (f: Fault)
      modifies this`pending
      ensures NoDoubt(old(pending)) ==> NoDoubt(pending) && f != FailAfter
      ensures if old(pending) == [] then f == Proceed && pending == []
              else f == old(pending)[0] && pending == old(pending)[1..]
    {
      if pending == [] {
        f := Proceed;
      } else {
        f := pending[0];
        pending := pending[1..];
      }
    }

    /** Observe a guarded source; a failed or changed read raises. */
    method ObserveSource() returns (o: Outcome<Option<File>>)
      modifies this`pending, this`looks
      ensures looks == if o.Done? then old(looks) + [Look(o.value, State())] else old(looks)
      ensures NoDoubt(old(pending)) ==> NoDoubt(pending) && o != Raised(DurabilityUncertain)
      ensures old(pending) == [] ==> pending == [] && o == Done(source)
    {
      var seen := if pending == [] then source else glimpse(|pending|);
      var f := NextFault();
      if !f.Reaches() { return f.Stop(); }
      o := f.Finish(seen);
      if o.Done? { looks := looks + [Look(seen, State())]; }
    }

    /** Read the current authority; the read itself may fail. */
    method ReadAuthority() returns (o: Outcome<Option<File>>)
      modifies this`pending
      ensures o.Done? ==> o.value == authority
      ensures NoDoubt(old(pending)) ==> NoDoubt(pending) && o != Raised(DurabilityUncertain)
      ensures old(pending) == [] ==> pending == [] && o.Done?
    {
      var f := NextFault();
      if !f.Reaches() { return f.Stop(); }
      return f.Finish(authority);
    }

    method WriteBundleFile(l: Loc, data: Content, expected: Option<Content>) returns (o: Outcome<()>)
      modifies this`pending, this`files
      ensures expected != Lookup(old(files), l) ==> o.Raised? && State() == old(State())
      ensures StepOutcome(o, old(State()), State(), Written(old(State()), l, data))
      ensures NoDoubt(old(pending)) ==> NoDoubt(pending) && o != Raised(DurabilityUncertain)
      ensures old(pending) == [] ==> pending == []
      ensures old(pending) == [] && expected == Lookup(old(files), l) ==> o.Done?
    {
      if expected != Lookup(files, l) {
        return Raised(Collision);
      }
      var f := NextFault();
      if !f.Reaches() { return f.Stop(); }
      files := files[l := data];
      return f.Finish(());
    }

    method InstallStagedFile(l: Loc, p: Part, expected: Option<Content>) returns (o: Outcome<()>)
      requires txn.Some?
      modifies this`pending, this`files, this`txn
      ensures expected != Lookup(old(files), l) ==> o.Raised? && State() == old(State())
      ensures p !in old(txn).value.parts ==> !o.Done? && State() == old(State())
      ensures p in old(txn).value.parts ==>
                StepOutcome(o, old(State()), State(), Installed(old(State()), l, p, moves))
      ensures NoDoubt(old(pending)) ==> NoDoubt(pending) && o != Raised(DurabilityUncertain)
      ensures old(pending) == [] ==> pending == []
      ensures old(pending) == [] && p in old(txn).value.parts && expected == Lookup(old(files), l) ==> o.Done?
    {
      if expected != Lookup(files, l) || p !in txn.value.parts {
        return Raised(Collision);
      }
      var f := NextFault();
      if !f.Reaches() { return f.Stop(); }
      files := files[l := txn.value.parts[p]];
      if moves {
        txn := Some(txn.value.(parts := txn.value.parts - {p}));
      }
      return f.Finish(());
    }

    method DeleteBundleFile(l: Loc) returns (o: Outcome<()>)
      modifies this`pending, this`files
      ensures l !in old(files) ==> o.Raised? && State() == old(State())
      ensures StepOutcome(o, old(State()), State(), Deleted(old(State()), l))
      ensures NoDoubt(old(pending)) ==> NoDoubt(pending) && o != Raised(DurabilityUncertain)
      ensures old(pending) == [] ==> pending == []
      ensures old(pending) == [] && l in old(files) ==> o.Done?
    {
      if l !in files { return Raised(Collision); }
      var f := NextFault();
      if !f.Reaches() { return f.Stop(); }
      files := files - {l};
      return f.Finish(());
    }

    /** Destroying an absent bundle is a no-op. */
    method DestroyBundle(bundle: Bundle) returns (o: Outcome<()>)
      modifies this`pending, this`files
      ensures StepOutcome(o, old(State()), State(), Destroyed(old(State()), bundle))
      ensures NoDoubt(old(pending)) ==> NoDoubt(pending) && o != Raised(DurabilityUncertain)
      ensures old(pending) == [] ==> pending == [] && o.Done?
    {
      var f := NextFault();
      if !f.Reaches() { return f.Stop(); }
      files := map l | l in files && !(bundle <= l.bundle) :: files[l];
      return f.Finish(());
    }

    method EnsureTransactionDirectory() returns (o: Outcome<()>)
      modifies this`pending, this`txn
      ensures StepOutcome(o, old(State()), State(),
                          if old(txn).Some? then old(State())
                          else DirectorySet(old(State()), Some(Evidence(None, map[]))))
      ensures NoDoubt(old(pending)) ==> NoDoubt(pending) && o != Raised(DurabilityUncertain)
      ensures old(pending) == [] ==> pending == [] && o.Done?
    {
      var f := NextFault();
      if !f.Reaches() { return f.Stop(); }
      if txn.None? { txn := Some(Evidence(None, map[])); }
      return f.Finish(());
    }

    method WriteJournalFile(j: Journal) returns (o: Outcome<()>)
      requires txn.Some?
      modifies this`pending, this`txn
      ensures old(txn).value.journal.Some? ==> o.Raised? && State() == old(State())
      ensures StepOutcome(o, old(State()), State(), JournalSet(old(State()), Some(j)))
      ensures NoDoubt(old(pending)) ==> NoDoubt(pending) && o != Raised(DurabilityUncertain)
      ensures old(pending) == [] ==> pending == []
      ensures old(pending) == [] && old(txn).value.journal.None? ==> o.Done?
    {
      if txn.value.journal.Some? { return Raised(SourceChanged); }
      var f := NextFault();
      if !f.Reaches() { return f.Stop(); }
      txn := Some(txn.value.(journal := Some(j)));
      return f.Finish(());
    }

    method WritePart(p: Part, data: Content) returns (o: Outcome<()>)
      requires txn.Some?
      modifies this`pending, this`txn
      ensures StepOutcome(o, old(State()), State(), PartWritten(old(State()), p, data))
      ensures p in old(txn).value.parts ==> o.Raised? && State() == old(State())
      ensures NoDoubt(old(pending)) ==> NoDoubt(pending) && o != Raised(DurabilityUncertain)
      ensures old(pending) == [] ==> pending == []
      ensures old(pending) == [] && p !in old(txn).value.parts ==> o.Done?
    {
      if p in txn.value.parts { return Raised(SourceChanged); }
      var f := NextFault();
      if !f.Reaches() { return f.Stop(); }
      txn := Some(txn.value.(parts := txn.value.parts[p := data]));
      return f.Finish(());
    }

    method DeletePart(p: Part) returns (o: Outcome<()>)
      requires txn.Some? && p in txn.value.parts
      modifies this`pending, this`txn
      ensures StepOutcome(o, old(State()), State(), PartDeleted(old(State()), p))
      ensures NoDoubt(old(pending)) ==> NoDoubt(pending) && o != Raised(DurabilityUncertain)
      ensures old(pending) == [] ==> pending == [] && o.Done?
    {
      var f := NextFault();
      if !f.Reaches() { return f.Stop(); }
      txn := Some(txn.value.(parts := txn.value.parts - {p}));
      return f.Finish(());
    }

    method DeleteJournalFile() returns (o: Outcome<()>)
      requires txn.Some? && txn.value.journal.Some?
      modifies this`pending, this`txn
      ensures StepOutcome(o, old(State()), State(), JournalSet(old(State()), None))
      ensures NoDoubt(old(pending)) ==> NoDoubt(pending) && o != Raised(DurabilityUncertain)
      ensures old(pending) == [] ==> pending == [] && o.Done?
    {
      var f := NextFault();
      if !f.Reaches() { return f.Stop(); }
      txn := Some(txn.value.(journal := None));
      return f.Finish(());
    }

    method DestroyTransactionDirectory() returns (o: Outcome<()>)
      modifies this`pending, this`txn
      ensures StepOutcome(o, old(State()), State(), DirectorySet(old(State()), None))
      ensures NoDoubt(old(pending)) ==> NoDoubt(pending) && o != Raised(DurabilityUncertain)
      ensures old(pending) == [] ==> pending == [] && o.Done?
    {
      var f := NextFault();
      if !f.Reaches() { return f.Stop(); }
      txn := None;
      return f.Finish(());
    }

    /** Replace the authority if it is still the expected one.  The candidate is a
        new file, created while the old one is still alive. */
    method CommitAuthority(payload: Content, expected: Expected, inode: nat) returns (o: Outcome<File>)
      modifies this`pending, this`authority
      ensures StepOutcome(o, old(State()), State(), Replaced(old(State()), File(inode, payload)))
      ensures o.Done? ==> o.value == File(inode, payload)
      ensures expected != ExpectedSource(old(authority)) ==> o.Raised? && State() == old(State())
      ensures NoDoubt(old(pending)) ==> NoDoubt(pending) && o != Raised(DurabilityUncertain)
      ensures old(pending) == [] ==> pending == []
      ensures old(pending) == [] && expected == ExpectedSource(old(authority)) ==> o.Done?
    {
      if expected != ExpectedSource(authority) { return Raised(SourceChanged); }
      var f := NextFault();
      if !f.Reaches() { return f.Stop(); }
      authority := Some(File(inode, payload));
      return f.Finish(File(inode, payload));
    }

    /** Publish the exact bytes of the current authority under their own digest. */
    method PublishImmutable(g: Generation, snapshot: File) returns (o: Outcome<()>)
      modifies this`pending, this`published
      ensures authority != Some(snapshot) ==> o.Raised? && State() == old(State())
      ensures StepOutcome(o, old(State()), State(), PublishedIn(old(State()), g, snapshot.data))
      ensures NoDoubt(old(pending)) ==> NoDoubt(pending) && o != Raised(DurabilityUncertain)
      ensures old(pending) == [] ==> pending == []
      ensures old(pending) == [] && authority == Some(snapshot) ==> o.Done?
    {
      if authority != Some(snapshot) { return Raised(SourceChanged); }
      var f := NextFault();
      if !f.Reaches() { return f.Stop(); }
      published := published + {(g, snapshot.data)};
      return f.Finish(());
    }
  }
}
