/** One directory of managed names: content-addressed publication, the authority
    commit, and recovery of interrupted publications.

    A name maps to a file, that is an inode with its bytes; the link count of an
    inode is the number of names that map to it. */
module PersistenceFilesystem {
  import opened Wrappers
  import ArtifactGrammar

  type Purpose = ArtifactGrammar.Purpose

  /** What the strict decoders make of some bytes. */
  datatype Shape =
    | GenerationZeroDocument
    | VersionOneDocument(canonical: bool)
    | VersionTwoDocument
    | ReceiptFor(prototype: Digest)
    | Undecodable

  datatype Payload = Payload(text: seq<int>, shape: Shape)
  datatype Digest = Sha256(preimage: Payload)

  datatype FinalKind = GenerationZeroBackup | VersionOneSnapshot | VersionTwoSnapshot | PrototypeReceipt

  datatype Name =
    | Authority
    | Final(kind: FinalKind, digest: Digest)
    | Temporary(purpose: Purpose, token: nat)
    | Foreign(basename: string)

  datatype Node = Node(inode: nat, data: Payload)
  type Tree = map<Name, Node>

  datatype Snapshot = Snapshot(node: Node, links: nat)
  datatype Expected = Absent | Exactly(node: Node)

  const TEMPORARY_CREATE_ATTEMPTS := 32

  /** One inode has one content. */
  predicate Coherent(t: Tree) {
    forall n, m :: n in t && m in t && t[n].inode == t[m].inode ==> t[n] == t[m]
  }

  predicate NewInode(t: Tree, inode: nat) {
    forall n :: n in t ==> t[n].inode != inode
  }

  function NamesOf(t: Tree, inode: nat): set<Name> {
    set n | n in t && t[n].inode == inode
  }

  function Links(t: Tree, inode: nat): nat {
    |NamesOf(t, inode)|
  }

  predicate OnlyName(t: Tree, n: Name) {
    n in t && forall m :: m in t && t[m].inode == t[n].inode ==> m == n
  }

  predicate OnlyNames(t: Tree, n: Name, m: Name) {
    n in t && m in t && n != m && t[n].inode == t[m].inode
    && forall k :: k in t && t[k].inode == t[n].inode ==> k == n || k == m
  }

  lemma LinksOne(t: Tree, n: Name)
    requires n in t
    ensures Links(t, t[n].inode) == 1 <==> OnlyName(t, n)
  {
    var s := NamesOf(t, t[n].inode);
    assert n in s;
    if |s| == 1 {
      assert |s - {n}| == 0;
      assert s == {n};
      assert forall m :: m in t && t[m].inode == t[n].inode ==> m in s;
    }
    if OnlyName(t, n) {
      assert s == {n};
    }
  }

  lemma LinksTwo(t: Tree, n: Name, m: Name)
    requires n in t && m in t && n != m && t[n].inode == t[m].inode
    ensures Links(t, t[n].inode) == 2 <==> OnlyNames(t, n, m)
    ensures Links(t, t[n].inode) >= 2
  {
    var s := NamesOf(t, t[n].inode);
    assert n in s && m in s;
    assert |s - {n, m}| == |s| - 2;
    if |s| == 2 {
      assert s - {n, m} == {};
      assert s == {n, m};
      assert forall k :: k in t && t[k].inode == t[n].inode ==> k in s;
    }
    if OnlyNames(t, n, m) {
      assert s == {n, m};
    }
  }

  /** Which final a temporary of one purpose is published as. */
  function KindFor(p: Purpose): Option<FinalKind> {
    match p
    case ForAuthority => None
    case ForBackup => Some(GenerationZeroBackup)
    case ForSnapshot => Some(VersionOneSnapshot)
    case ForReceipt => Some(PrototypeReceipt)
  }

  predicate IsPublicationPair(left: Name, right: Name) {
    var temporary, final := if left.Temporary? then left else right, if left.Temporary? then right else left;
    temporary.Temporary? &&
    if temporary.purpose == ArtifactGrammar.ForAuthority then final == Authority
    else final.Final? && Some(final.kind) == KindFor(temporary.purpose)
  }

  /** The other name of an inode with exactly two, when the two are a pair. */
  predicate IsPartner(t: Tree, n: Name, m: Name) {
    OnlyNames(t, n, m) && IsPublicationPair(n, m)
  }

  predicate HasPartner(t: Tree, n: Name) {
    exists m :: m in t && IsPartner(t, n, m)
  }

  /** What recovery demands of a final before it completes it. */
  predicate ValidForRecovery(n: Name, data: Payload) {
    match n
    case Authority =>
      data.shape.GenerationZeroDocument? || data.shape.VersionOneDocument? || data.shape.VersionTwoDocument?
    case Final(PrototypeReceipt, digest) => data.shape == ReceiptFor(digest)
    case Final(GenerationZeroBackup, digest) => digest == Sha256(data) && data.shape.GenerationZeroDocument?
    case Final(VersionOneSnapshot, digest) => digest == Sha256(data) && data.shape == VersionOneDocument(true)
    case _ => false
  }

  /** A final matches its name: its bytes hash to it, or it is the receipt for it. */
  predicate MatchesName(n: Name, data: Payload) {
    match n
    case Final(PrototypeReceipt, digest) => data.shape == ReceiptFor(digest)
    case Final(_, digest) => digest == Sha256(data)
    case _ => true
  }

  /** One of the names tried for a temporary is free. */
  predicate FreeName(t: Tree, purpose: Purpose, tokens: seq<nat>) {
    exists i :: 0 <= i < |tokens| && i < TEMPORARY_CREATE_ATTEMPTS && Temporary(purpose, tokens[i]) !in t
  }

  /** The authority is still what the publication relies on, if it relies on one. */
  predicate Unmoved(t: Tree, expected: Option<Expected>) {
    expected.Some? ==> IsExpected(t, expected.value) && (Authority in t ==> OnlyName(t, Authority))
  }

  /** Since then some tree was made durable, the last one with this file under this name. */
  predicate HardenedWith(before: seq<Tree>, after: seq<Tree>, n: Name, node: Node) {
    |after| > |before| && before <= after && Lookup(after[|after| - 1], n) == Some(node)
  }

  datatype Native<+T> = Ok(value: T) | Exists | Failed | Died

  class Directory {
    var tree: Tree
    var pending: seq<Fault>
    // A process that died does nothing more; what was hardened survives it.
    ghost var dead: bool
    ghost var hardened: seq<Tree>

    constructor (t: Tree, pending: seq<Fault>)
      ensures tree == t && this.pending == pending && !dead && hardened == []
    {
      this.tree := t;
      this.pending := pending;
      this.dead := false;
      this.hardened := [];
    }

    /** A new process, with its own environment. */
    method Restart(faults: seq<Fault>)
      modifies this`pending, this`dead
      ensures pending == faults && !dead
    {
      pending := faults;
      dead := false;
    }

    method NextFault() returns (f: Fault)
      requires !dead
      modifies this`pending, this`dead
      ensures dead <==> f.Crash?
      ensures if old(pending) == [] then f == Proceed && pending == []
              else f == old(pending)[0] && pending == old(pending)[1..]
    {
      if pending == [] { return Proceed; }
      f := pending[0];
      pending := pending[1..];
      dead := f.Crash?;
    }

    /** Make the present tree durable. */
    method Harden() returns (r: Native<()>)
      requires !dead
      modifies this`pending, this`dead, this`hardened
      ensures dead <==> r.Died?
      ensures !r.Exists? && hardened == if r.Ok? then old(hardened) + [tree] else old(hardened)
      ensures old(pending) == [] ==> pending == [] && r.Ok?
    {
      var f := NextFault();
      if f.Crash? { return Died; }
      if !f.Proceed? { return Failed; }
      hardened := hardened + [tree];
      return Ok(());
    }

    /** Read one name with its link count; a read can fail. */
    method ReadNative(n: Name) returns (r: Native<Option<Snapshot>>)
      requires !dead
      modifies this`pending, this`dead
      ensures dead <==> r.Died?
      ensures !r.Exists?
      ensures r.Ok? ==> r.value == if n in tree then Some(Snapshot(tree[n], Links(tree, tree[n].inode))) else None
      ensures old(pending) == [] ==> pending == [] && r.Ok?
    {
      var f := NextFault();
      if f.Crash? { return Died; }
      if !f.Proceed? { return Failed; }
      return Ok(if n in tree then Some(Snapshot(tree[n], Links(tree, tree[n].inode))) else None);
    }

    /** One mutation that may fail on either side of its effect, or never happen. */
    method Mutate(after: Tree) returns (r: Native<()>)
      requires !dead
      modifies this
      ensures hardened == old(hardened)
      ensures dead <==> r.Died?
      ensures !r.Exists?
      ensures match r
              case Ok(_) => tree == after
              case Failed => tree == old(tree) || tree == after
              case _ => tree == old(tree)
      ensures old(pending) == [] ==> pending == [] && r.Ok?
    {
      var f := NextFault();
      if f.Crash? { return Died; }
      if f.FailBefore? { return Failed; }
      tree := after;
      return if f.FailAfter? then Failed else Ok(());
    }

    /** The pair of an interrupted publication: the one paired name of this inode. */
    method FindLinkPartner(n: Name) returns (partner: Option<Name>)
      requires n in tree
      ensures partner.Some? ==> partner.value in tree && IsPartner(tree, n, partner.value)
      ensures partner.None? ==> !HasPartner(tree, n)
    {
      if Links(tree, tree[n].inode) != 2 || n.Foreign? {
        if m :| m in tree && IsPartner(tree, n, m) { LinksTwo(tree, n, m); }
        return None;
      }
      var matches: set<Name> := {};
      var left := tree.Keys;
      while left != {}
        invariant left <= tree.Keys
        invariant forall m :: m in matches <==> m in tree && m !in left && IsPartner(tree, n, m)
        decreases |left|
      {
        var m :| m in left;
        left := left - {m};
        if m != n && IsPublicationPair(n, m) && tree[m].inode == tree[n].inode {
          LinksTwo(tree, n, m);
          matches := matches + {m};
        }
      }
      if matches == {} { return None; }
      var m :| m in matches;
      assert matches == {m};
      return Some(m);
    }

    /** A read proven complete, or a link-count-two read proven to be an interrupted
        publication. */
    method Read(n: Name, requireComplete: bool) returns (o: Outcome<Option<Snapshot>>)
      requires !dead
      modifies this`pending, this`dead
      ensures dead <==> o.Crashed?
      ensures o.Raised? ==> o.error == ReadError || o.error == UnsafeManagedFile || o.error == InterruptedArtifact
      ensures o.Done? && o.value.None? ==> n !in tree
      ensures o.Done? && o.value.Some? ==>
                && n in tree && o.value.value.node == tree[n]
                && (o.value.value.links == 1 <==> OnlyName(tree, n))
                && (OnlyName(tree, n) || (!requireComplete && o.value.value.links == 2 && HasPartner(tree, n)))
      ensures old(pending) == [] ==> pending == []
      ensures (old(pending) == [] && (n in tree ==> OnlyName(tree, n) || (!requireComplete && HasPartner(tree, n)))) ==>
                o.Done?
    {
      var native := ReadNative(n);
      if native.Died? { return Crashed; }
      if !native.Ok? { return Raised(ReadError); }
      if native.value.None? { return Done(None); }
      LinksOne(tree, n);
      if native.value.value.links == 1 { return Done(native.value); }
      var partner := FindLinkPartner(n);
      if partner.None? { return Raised(UnsafeManagedFile); }
      LinksTwo(tree, n, partner.value);
      if requireComplete { return Raised(InterruptedArtifact); }
      return Done(native.value);
    }

    /** Remove a candidate of our own: a single-link temporary, or nothing. */
    method RemoveCandidate(n: Name) returns (o: Outcome<()>)
      requires !dead
      modifies this
      ensures hardened == old(hardened)
      ensures dead <==> o.Crashed?
      ensures o.Done? ==> tree == old(tree) - {n}
      ensures o.Raised? ==> o.error == InterruptedArtifact
      ensures tree == old(tree) || tree == old(tree) - {n}
      ensures old(pending) == [] ==> pending == []
      ensures old(pending) == [] && (n in old(tree) ==> OnlyName(old(tree), n)) ==> o.Done?
    {
      if n !in tree {
        assert tree == tree - {n};
        return Done(());
      }
      LinksOne(tree, n);
      if Links(tree, tree[n].inode) != 1 { return Raised(InterruptedArtifact); }
      var removed := Mutate(tree - {n});
      if removed.Died? { return Crashed; }
      if !removed.Ok? { return Raised(InterruptedArtifact); }
      return Done(());
    }

    /** Remove exactly the identity that was validated before. */
    method RemoveValidated(n: Name, inode: nat) returns (r: Native<bool>)
      requires !dead
      modifies this
      ensures hardened == old(hardened)
      ensures dead <==> r.Died?
      ensures !r.Exists?
      ensures r.Ok? ==> tree == old(tree) - {n} && (r.value <==> n in old(tree))
      ensures tree == old(tree) || (n in old(tree) && old(tree)[n].inode == inode && tree == old(tree) - {n})
      ensures r.Died? ==> tree == old(tree)
      ensures old(pending) == [] ==> pending == []
      ensures old(pending) == [] && (n in old(tree) ==> old(tree)[n].inode == inode) ==> r.Ok?
    {
      if n !in tree {
        assert tree == tree - {n};
        return Ok(false);
      }
      if tree[n].inode != inode { return Failed; }
      var removed := Mutate(tree - {n});
      if removed.Died? { return Died; }
      return if removed.Ok? then Ok(true) else Failed;
    }

    method RequireExpectedAuthority(expected: Expected) returns (o: Outcome<()>)
      requires !dead
      modifies this`pending, this`dead
      ensures dead <==> o.Crashed?
      ensures o.Done? ==> IsExpected(tree, expected)
      ensures old(pending) == [] ==> pending == []
      ensures old(pending) == [] && IsExpected(tree, expected) && (Authority in tree ==> OnlyName(tree, Authority)) ==>
                o.Done?
    {
      var observed :- Read(Authority, true);
      if observed.None? != expected.Absent? { return Raised(SourceChanged); }
      if observed.Some? && observed.value.node != expected.node { return Raised(SourceChanged); }
      return Done(());
    }

    /** Create a fresh temporary; a taken name is skipped, a failed write removed. */
    method CreateCandidate(purpose: Purpose, payload: Payload, tokens: seq<nat>, inode: nat)
      returns (o: Outcome<Name>)
      requires NewInode(tree, inode)
      requires !dead
      modifies this
      ensures hardened == old(hardened)
      ensures dead <==> o.Crashed?
      ensures OwnTemporary(old(tree), tree, purpose, Node(inode, payload))
      ensures o.Done? ==> o.value.Temporary? && o.value.purpose == purpose && o.value !in old(tree)
                          && tree == old(tree)[o.value := Node(inode, payload)]
      ensures o.Raised? ==> o.error == CandidateWrite || o.error == InterruptedArtifact
      ensures o == Raised(CandidateWrite) ==> tree == old(tree)
      ensures old(pending) == [] ==> pending == []
      ensures (&& old(pending) == []
               && FreeName(old(tree), purpose, tokens)) ==>
                o.Done?
    {
      var node := Node(inode, payload);
      for i := 0 to if |tokens| < TEMPORARY_CREATE_ATTEMPTS then |tokens| else TEMPORARY_CREATE_ATTEMPTS
        invariant !dead
        invariant tree == old(tree) && hardened == old(hardened)
        invariant old(pending) == [] ==> pending == []
        invariant forall k :: 0 <= k < i ==> Temporary(purpose, tokens[k]) in tree
      {
        var n := Temporary(purpose, tokens[i]);
        if n !in tree {
          ghost var before := tree;
          var created := Mutate(tree[n := node]);
          if created.Died? { return Crashed; }
          if !created.Ok? {
            assert before[n := node] - {n} == before;
            assert before - {n} == before;
            var _ :- RemoveCandidate(n);
            return Raised(CandidateWrite);
          }
          return Done(n);
        }
      }
      return Raised(CandidateWrite);
    }

    /** Whether a replacement that reported an error could have taken effect. */
    method ReplacementMayHaveCommitted(payload: Payload, expected: Expected) returns (o: Outcome<bool>)
      requires !dead
      modifies this`pending, this`dead
      ensures dead <==> o.Crashed?
      ensures !o.Raised?
      ensures o == Done(false) ==> IsExpected(tree, expected)
      ensures old(pending) == [] && (Authority in tree ==> OnlyName(tree, Authority)) ==>
                pending == [] && o == Done(!IsExpected(tree, expected))
    {
      var observed := Read(Authority, false);
      if observed.Crashed? { return Crashed; }
      if observed.Raised? { return Done(true); }
      var seen := observed.value;
      if expected.Exactly? && seen.Some? && seen.value.node == expected.node { return Done(false); }
      if seen.Some? && seen.value.node.data == payload { return Done(true); }
      if expected.Absent? { return Done(seen.Some?); }
      return Done(seen.None? || seen.value.node != expected.node);
    }

    /** What a process that ignores the locks may do to the authority in between. */
    method Meddle(m: Option<Expected>)
      modifies this`tree
      ensures tree == Meddled(old(tree), m)
    {
      if m.Some? {
        tree := if m.value.Absent? then tree - {Authority} else tree[Authority := m.value.node];
      }
    }

    /** Rename the candidate over the authority. */
    method Replace(candidate: Name, destinationExists: bool) returns (r: Native<()>)
      requires candidate in tree && candidate != Authority
      requires !dead
      modifies this
      ensures hardened == old(hardened)
      ensures dead <==> r.Died?
      ensures r.Exists? <==> !destinationExists && Authority in old(tree)
      ensures match r
              case Ok(_) => tree == Renamed(old(tree), candidate)
              case Failed => tree == old(tree) || tree == Renamed(old(tree), candidate)
              case _ => tree == old(tree)
      ensures old(pending) == [] ==> pending == []
      ensures old(pending) == [] && (destinationExists || Authority !in old(tree)) ==> r.Ok?
    {
      if !destinationExists && Authority in tree { return Exists; }
      r := Mutate(Renamed(tree, candidate));
    }

    /** Prove the committed authority; any doubt is durability-uncertain. */
    method ProveCommitted(node: Node) returns (o: Outcome<Node>)
      requires !dead
      modifies this`pending, this`dead, this`hardened
      ensures dead <==> o.Crashed?
      ensures o.Done? ==> Lookup(tree, Authority) == Some(node) && o.value == node && hardened == old(hardened) + [tree]
      ensures o.Raised? ==> o.error == DurabilityUncertain
      ensures old(pending) == [] ==> pending == []
      ensures old(pending) == [] && Lookup(tree, Authority) == Some(node) && OnlyName(tree, Authority) ==> o.Done?
    {
      var proof := Harden();
      if proof.Died? { return Crashed; }
      if !proof.Ok? { return Raised(DurabilityUncertain); }
      var final := Read(Authority, true);
      if final.Crashed? { return Crashed; }
      if final.Raised? || final.value.None? || final.value.value.node != node { return Raised(DurabilityUncertain); }
      return Done(node);
    }

    /** Commit exact bytes as the authority.

        Returning normally means the authority is this payload under the candidate's
        identity; source-changed and replace-failed mean this call did not change it;
        whenever this call did change it, the outcome is normal, durability-uncertain
        or a crash.  The native replace may report an error after taking effect, and a
        process that ignores the locks may change the authority just before it. */
    method CommitPayload(payload: Payload, expected: Expected, tokens: seq<nat>, inode: nat, meddle: Option<Expected>)
      returns (o: Outcome<Node>, ghost mid: Tree)
      requires NewInode(tree, inode)
      requires meddle.Some? && meddle.value.Exactly? ==>
                 NewInode(tree, meddle.value.node.inode) && meddle.value.node.inode != inode
      requires !dead
      modifies this
      ensures dead <==> o.Crashed?
      ensures Lookup(tree, Authority) == Lookup(mid, Authority) || Lookup(tree, Authority) == Some(Node(inode, payload))
      ensures mid == old(tree) || mid == Meddled(old(tree), meddle)
      ensures o.Done? ==> && IsExpected(old(tree), expected) && mid == Meddled(old(tree), meddle)
                          && o.value == Node(inode, payload) && tree == mid[Authority := o.value]
      ensures o.Done? ==> hardened == old(hardened) + [tree]
      ensures o.Raised? && o.error != DurabilityUncertain ==> Lookup(tree, Authority) == Lookup(mid, Authority)
      ensures o.Raised? && o.error != DurabilityUncertain && o.error != InterruptedArtifact ==> tree == mid
      ensures OwnTemporary(mid, tree, ArtifactGrammar.ForAuthority, Node(inode, payload))
              || tree == mid[Authority := Node(inode, payload)]
      ensures Lookup(tree, Authority) != Lookup(mid, Authority) ==>
                o.Done? || o == Raised(DurabilityUncertain) || o.Crashed?
      ensures (&& old(pending) == [] && meddle.None? && IsExpected(old(tree), expected)
               && (Authority in old(tree) ==> OnlyName(old(tree), Authority))
               && FreeName(old(tree), ArtifactGrammar.ForAuthority, tokens)) ==>
                o.Done?
    {
      mid := tree;
      var node := Node(inode, payload);
      var candidate :- CreateCandidate(ArtifactGrammar.ForAuthority, payload, tokens, inode);
      var required := RequireExpectedAuthority(expected);
      if required.Crashed? { return Crashed, mid; }
      if required.Raised? {
        var _ :- RemoveCandidate(candidate);
        return Raised(required.error), mid;
      }
      Meddle(meddle);
      WithoutCandidate(old(tree), candidate, node, meddle);
      mid := tree - {candidate};
      var replaced := Replace(candidate, !expected.Absent?);
      if replaced.Died? { return Crashed, mid; }
      if replaced.Exists? {
        var _ :- RemoveCandidate(candidate);
        return Raised(SourceChanged), mid;
      }
      if replaced.Failed? {
        var doubt :- ReplacementMayHaveCommitted(payload, expected);
        if doubt { return Raised(DurabilityUncertain), mid; }
        var _ :- RemoveCandidate(candidate);
        return Raised(ReplaceFailed), mid;
      }
      o := ProveCommitted(node);
    }

    /** Another process that publishes the same name in between. */
    method Race(final: Name, raced: Option<Node>)
      modifies this`tree
      ensures tree == Raced(old(tree), final, raced)
    {
      if raced.Some? { tree := tree[final := raced.value]; }
    }

    /** Link the candidate under its final name; a taken name is never replaced. */
    method PublishNoReplace(candidate: Name, final: Name) returns (r: Native<()>)
      requires candidate in tree
      requires !dead
      modifies this
      ensures hardened == old(hardened)
      ensures dead <==> r.Died?
      ensures r.Exists? <==> final in old(tree)
      ensures match r
              case Ok(_) => tree == old(tree)[final := old(tree)[candidate]]
              case Failed => tree == old(tree) || tree == old(tree)[final := old(tree)[candidate]]
              case _ => tree == old(tree)
      ensures old(pending) == [] ==> pending == []
      ensures old(pending) == [] && final !in old(tree) ==> r.Ok?
    {
      if final in tree { return Exists; }
      r := Mutate(tree[final := tree[candidate]]);
    }

    /** The native link reported an error that is not a collision. */
    method HandleFailedPublication(candidate: Name, final: Name, payload: Payload) returns (o: Outcome<()>)
      requires !dead
      modifies this
      ensures hardened == old(hardened)
      ensures dead <==> o.Crashed?
      ensures !o.Done?
      ensures tree == old(tree) || tree == old(tree) - {candidate}
      ensures o.Raised? ==> o.error == CandidateWrite || o.error == BackupConflict
                            || o.error == InterruptedArtifact || o.error == DurabilityUncertain
      ensures o == Raised(CandidateWrite) ==> tree == old(tree) - {candidate} && final !in old(tree)
      ensures o == Raised(BackupConflict) ==> tree == old(tree) - {candidate} && OnlyName(old(tree), final)
      ensures o == Raised(BackupConflict) ==> old(tree)[final].data != payload
      ensures o.Raised? && o.error == DurabilityUncertain ==> tree == old(tree)
      ensures (&& old(pending) == [] && final in old(tree) && OnlyName(old(tree), final)
               && old(tree)[final].data == payload) ==> o == Raised(DurabilityUncertain)
      ensures old(pending) == [] ==> pending == []
    {
      var observed := Read(final, true);
      if observed.Crashed? { return Crashed; }
      if observed.Raised? { return Raised(DurabilityUncertain); }
      if observed.value.Some? {
        if observed.value.value.node.data == payload { return Raised(DurabilityUncertain); }
        var _ :- RemoveCandidate(candidate);
        return Raised(BackupConflict);
      }
      var _ :- RemoveCandidate(candidate);
      return Raised(CandidateWrite);
    }

    /** Drop the temporary name and prove the final alone. */
    method VerifyPublished(candidate: Name, final: Name, node: Node) returns (o: Outcome<()>)
      requires !dead
      modifies this
      ensures old(hardened) <= hardened
      ensures dead <==> o.Crashed?
      ensures tree == old(tree) || tree == old(tree) - {candidate}
      ensures o.Done? ==> tree == old(tree) - {candidate} && Lookup(tree, final) == Some(node) && OnlyName(tree, final)
      ensures o.Raised? ==> o.error == DurabilityUncertain
      ensures o.Done? ==> hardened == old(hardened) + [old(tree)]
      ensures old(pending) == [] ==> pending == []
      ensures (&& old(pending) == [] && candidate in old(tree) && old(tree)[candidate] == node
               && Lookup(old(tree) - {candidate}, final) == Some(node) && OnlyName(old(tree) - {candidate}, final)) ==>
                         o.Done?
    {
      var proof := Harden();
      if proof.Died? { return Crashed; }
      if !proof.Ok? { return Raised(DurabilityUncertain); }
      var removed := RemoveValidated(candidate, node.inode);
      if removed.Died? { return Crashed; }
      if !removed.Ok? { return Raised(DurabilityUncertain); }
      var proven := Read(final, true);
      if proven.Crashed? { return Crashed; }
      if proven.Raised? || proven.value.None? || proven.value.value.node != node { return Raised(DurabilityUncertain); }
      return Done(());
    }

    /** Publish immutable bytes under the name of their digest, or reuse them.

        An existing final is never replaced or removed; whatever happens, the tree is
        the old one, the old one with our temporary, with both names of one file, or
        with the final alone. */
    method PublishContentAddressed(final: Name, payload: Payload, purpose: Purpose, expected: Option<Expected>,
                                   tokens: seq<nat>, inode: nat, raced: Option<Node>)
      returns (o: Outcome<()>, ghost mid: Tree)
      requires NewInode(tree, inode) && final.Final?
      requires raced.Some? ==> raced.value.inode != inode
      requires !dead
      modifies this
      ensures old(hardened) <= hardened
      ensures dead <==> o.Crashed?
      ensures mid == old(tree) || mid == Raced(old(tree), final, raced)
      ensures Publishing(mid, tree, final, purpose, Node(inode, payload))
      ensures o.Done? ==> && final in tree && tree[final].data == payload && OnlyName(tree, final)
                          && (tree == mid || (final !in mid && tree == mid[final := Node(inode, payload)]))
      ensures o.Done? && tree != mid ==>
                HardenedWith(old(hardened), hardened, final, Node(inode, payload))
      ensures o == Raised(BackupConflict) || o == Raised(CandidateWrite) || o == Raised(SourceChanged) ==> tree == mid
      ensures old(pending) == [] ==> pending == []
      ensures (&& old(pending) == [] && raced.None? && Unmoved(old(tree), expected) && final !in old(tree)
               && FreeName(old(tree), purpose, tokens)) ==>
                o.Done?
      ensures (&& old(pending) == [] && Unmoved(old(tree), expected) && final in old(tree)
               && OnlyName(old(tree), final)) ==>
                o == (if old(tree)[final].data == payload then Done(()) else Raised(BackupConflict))
                && tree == old(tree)
      ensures expected.Some? && !IsExpected(old(tree), expected.value) ==> !o.Done? && tree == old(tree)
    {
      mid := tree;
      var node := Node(inode, payload);
      if expected.Some? { var _ :- RequireExpectedAuthority(expected.value); }
      var existing :- Read(final, true);
      if existing.Some? {
        if existing.value.node.data != payload { return Raised(BackupConflict), mid; }
        return Done(()), mid;
      }
      var candidate :- CreateCandidate(purpose, payload, tokens, inode);
      if expected.Some? {
        var required := RequireExpectedAuthority(expected.value);
        if required.Crashed? { return Crashed, mid; }
        if required.Raised? {
          ApartFrom(mid, candidate, node, final, None);
          var _ :- RemoveCandidate(candidate);
          return Raised(required.error), mid;
        }
      }
      ApartFrom(mid, candidate, node, final, raced);
      Race(final, raced);
      mid := Raced(mid, final, raced);
      o := PublishCandidate(candidate, final, node, purpose, mid);
    }

    method PublishCandidate(candidate: Name, final: Name, node: Node, purpose: Purpose, ghost mid: Tree)
      returns (o: Outcome<()>)
      requires candidate.Temporary? && candidate.purpose == purpose && final.Final? && candidate !in mid
      requires tree == mid[candidate := node] && NewInode(mid, node.inode)
      requires !dead
      modifies this
      ensures old(hardened) <= hardened
      ensures dead <==> o.Crashed?
      ensures Publishing(mid, tree, final, purpose, node)
      ensures o.Done? ==> && final in tree && tree[final].data == node.data && OnlyName(tree, final)
                          && (tree == mid || (final !in mid && tree == mid[final := node]))
      ensures o.Done? && tree != mid ==>
                HardenedWith(old(hardened), hardened, final, node)
      ensures o != Raised(SourceChanged)
      ensures o == Raised(BackupConflict) || o == Raised(CandidateWrite) ==> tree == mid
      ensures old(pending) == [] ==> pending == []
      ensures old(pending) == [] && final !in mid ==> o.Done?
    {
      assert mid[candidate := node] - {candidate} == mid;
      assert mid[candidate := node][final := node] - {candidate} == mid[final := node];
      var published := PublishNoReplace(candidate, final);
      if published.Died? { return Crashed; }
      if published.Exists? {
        var _ :- RemoveCandidate(candidate);
        var raced :- Read(final, true);
        if raced.None? || raced.value.node.data != node.data { return Raised(BackupConflict); }
        return Done(());
      }
      if published.Failed? {
        assert final in mid || final !in tree || (candidate in tree && tree[candidate].inode == tree[final].inode);
        o := HandleFailedPublication(candidate, final, node.data);
        return;
      }
      o := VerifyPublished(candidate, final, node);
    }

    /** Complete one proven link-count-two interruption: the final keeps its bytes and
        is left with one link. */
    method CompleteInterruptedPublication(temporary: Name) returns (o: Outcome<()>)
      requires temporary in tree && Coherent(tree)
      requires !dead
      modifies this
      ensures dead <==> o.Crashed?
      ensures tree == old(tree) || (Completable(old(tree), temporary) && tree == old(tree) - {temporary})
      ensures o.Done? ==> tree == old(tree) - {temporary}
      ensures o.Done? <== old(pending) == [] && Completable(old(tree), temporary)
      ensures old(pending) == [] ==> pending == []
    {
      var native := ReadNative(temporary);
      if native.Died? { return Crashed; }
      if !native.Ok? { return Raised(ReadError); }
      var partner := FindLinkPartner(temporary);
      if partner.Some? { LinksTwo(tree, temporary, partner.value); }
      if native.value.None? || native.value.value.links != 2 || partner.None? { return Raised(UnsafeManagedFile); }
      var final := partner.value;
      if !ValidForRecovery(final, tree[final].data) { return Raised(BackupConflict); }
      var expected := tree[final];
      CompletedAlone(tree, temporary, final);
      var removed := RemoveValidated(temporary, native.value.value.node.inode);
      if removed.Died? { return Crashed; }
      if removed != Ok(true) { return Raised(DurabilityUncertain); }
      var proven := Read(final, false);
      if proven.Crashed? { return Crashed; }
      if proven.Raised? || proven.value.None? || proven.value.value.links != 1 || proven.value.value.node != expected {
        return Raised(DurabilityUncertain);
      }
      return Done(());
    }

    /** Complete a link-count-two publication or discard a single-link temporary.

        The tree stays or loses exactly this temporary; in a calm environment it goes
        exactly when it can be recovered, and otherwise nothing is touched. */
    method RecoverOrDiscardTemporary(temporary: Name) returns (o: Outcome<()>)
      requires temporary.Temporary? && Coherent(tree)
      requires !dead
      modifies this
      ensures dead <==> o.Crashed?
      ensures tree == old(tree) || tree == old(tree) - {temporary}
      ensures o.Done? ==> tree == old(tree) - {temporary}
      ensures !Recoverable(old(tree), temporary) ==> !o.Done? && tree == old(tree)
      ensures old(pending) == [] ==> pending == [] && (o.Done? <==> Recoverable(old(tree), temporary))
    {
      var snapshot :- Read(temporary, false);
      if snapshot.None? {
        assert tree - {temporary} == tree;
        return Done(());
      }
      if snapshot.value.links == 2 {
        o := CompleteInterruptedPublication(temporary);
        return;
      }
      var removed := RemoveValidated(temporary, snapshot.value.node.inode);
      if removed.Died? { return Crashed; }
      if removed != Ok(true) { return Raised(InterruptedArtifact); }
      var again := Read(temporary, false);
      if again.Crashed? { return Crashed; }
      if again.Raised? || again.value.Some? { return Raised(InterruptedArtifact); }
      return Done(());
    }

    /** Recover every temporary in the directory. */
    method RecoverTemporaries() returns (o: Outcome<()>)
      requires Coherent(tree)
      requires !dead
      modifies this
      ensures dead <==> o.Crashed?
      ensures OnlyTemporariesGone(old(tree), tree)
      ensures o.Done? ==> NoTemporaries(tree)
      ensures old(pending) == [] ==> pending == []
      ensures old(pending) == [] && (forall n :: n in old(tree) && n.Temporary? ==> Recoverable(old(tree), n)) ==>
                o.Done?
      ensures NoTemporaries(old(tree)) ==> tree == old(tree)
    {
      var left := set n | n in tree && n.Temporary?;
      while left != {}
        invariant !dead
        invariant Coherent(tree) && OnlyTemporariesGone(old(tree), tree)
        invariant forall n :: n in left ==> n in tree && n.Temporary?
        invariant forall n :: n in tree && n.Temporary? ==> n in left
        invariant old(pending) == [] ==> pending == []
        invariant ((forall n :: n in old(tree) && n.Temporary? ==> Recoverable(old(tree), n)) ==>
                     forall n :: n in left ==> Recoverable(tree, n))
        invariant NoTemporaries(old(tree)) ==> tree == old(tree)
        decreases |left|
      {
        var n :| n in left;
        left := left - {n};
        ghost var before := tree;
        forall m | m in left && Recoverable(before, m)
          ensures Recoverable(before - {n}, m)
        {
          StillRecoverable(before, n, m);
        }
        var _ :- RecoverOrDiscardTemporary(n);
      }
      return Done(());
    }
  }

  /** A linked pair whose final passes the strict validation. */
  predicate Completable(t: Tree, temporary: Name) {
    exists m :: m in t && IsPartner(t, temporary, m) && ValidForRecovery(m, t[m].data)
  }

  predicate Recoverable(t: Tree, temporary: Name) {
    temporary in t ==> OnlyName(t, temporary) || Completable(t, temporary)
  }

  predicate NoTemporaries(t: Tree) {
    forall n :: n in t ==> !n.Temporary?
  }

  /** Only temporaries are removed: every other name keeps its file. */
  predicate OnlyTemporariesGone(before: Tree, after: Tree) {
    && (forall n :: n in after ==> n in before && after[n] == before[n])
    && (forall n :: n in before && !n.Temporary? ==> n in after)
  }

  lemma CompletedAlone(t: Tree, temporary: Name, final: Name)
    requires OnlyNames(t, temporary, final) && Coherent(t)
    ensures final in t - {temporary} && (t - {temporary})[final] == t[final] == t[temporary]
    ensures OnlyName(t - {temporary}, final)
  {
  }

  lemma StillRecoverable(t: Tree, gone: Name, n: Name)
    requires Recoverable(t, n) && n != gone && n.Temporary? && gone.Temporary?
    ensures Recoverable(t - {gone}, n)
  {
    if n in t && !OnlyName(t, n) {
      var m :| m in t && IsPartner(t, n, m) && ValidForRecovery(m, t[m].data);
      assert m in t - {gone} && IsPartner(t - {gone}, n, m);
    }
  }

  // From every crash point of one publication.

  /** What the publication entry points publish, and under which purpose. */
  function PurposeOf(k: FinalKind): Purpose {
    match k
    case GenerationZeroBackup => ArtifactGrammar.ForBackup
    case VersionOneSnapshot => ArtifactGrammar.ForSnapshot
    case VersionTwoSnapshot => ArtifactGrammar.ForSnapshot
    case PrototypeReceipt => ArtifactGrammar.ForReceipt
  }

  predicate Publishable(final: Name, payload: Payload) {
    final.Final? && MatchesName(final, payload) &&
    match final.kind
    case GenerationZeroBackup => payload.shape.GenerationZeroDocument?
    case VersionOneSnapshot => payload.shape.VersionOneDocument?
    case VersionTwoSnapshot => payload.shape.VersionTwoDocument?
    case PrototypeReceipt => payload.shape.ReceiptFor?
  }

  /** The pairs that recovery maps, with bytes it can validate. */
  predicate Mapped(final: Name, payload: Payload) {
    final.Final? && final.kind != VersionTwoSnapshot
    && (final.kind == VersionOneSnapshot ==> payload.shape == VersionOneDocument(true))
  }

  /** An interruption between the link and the removal of the temporary can be
      recovered exactly for the mapped kinds with canonical bytes. */
  lemma LinkedIsRecoverableIff(before: Tree, token: nat, final: Name, node: Node)
    requires Publishable(final, node.data) && final !in before && NewInode(before, node.inode)
    requires Temporary(PurposeOf(final.kind), token) !in before
    ensures var temporary := Temporary(PurposeOf(final.kind), token);
            var now := before[temporary := node][final := node];
            Recoverable(now, temporary) <==> Mapped(final, node.data)
  {
    var temporary := Temporary(PurposeOf(final.kind), token);
    var now := before[temporary := node][final := node];
    assert OnlyNames(now, temporary, final);
    if Mapped(final, node.data) {
      assert IsPartner(now, temporary, final);
    }
  }

  /** A version-two snapshot interrupted at link count two blocks its own recovery. */
  lemma VersionTwoSnapshotStaysInterrupted(token: nat, text: seq<int>)
    ensures var data := Payload(text, VersionTwoDocument);
            var final := Final(VersionTwoSnapshot, Sha256(data));
            var temporary := Temporary(ArtifactGrammar.ForSnapshot, token);
            Publishable(final, data)
            && !Recoverable(map[temporary := Node(1, data), final := Node(1, data)], temporary)
  {
    var data := Payload(text, VersionTwoDocument);
    var final := Final(VersionTwoSnapshot, Sha256(data));
    var temporary := Temporary(ArtifactGrammar.ForSnapshot, token);
    var now := map[temporary := Node(1, data), final := Node(1, data)];
    LinkedIsRecoverableIff(map[], token, final, Node(1, data));
    assert now == map[][temporary := Node(1, data)][final := Node(1, data)];
  }

  /** A tree without its temporaries. */
  function Kept(t: Tree): Tree {
    map n | n in t && !n.Temporary? :: t[n]
  }

  predicate AllRecoverable(t: Tree) {
    forall n :: n in t && n.Temporary? ==> Recoverable(t, n)
  }

  /** Where one publication stands, whatever temporaries there are: apart from those the
      tree is the one it met, or that with the final alone. */
  predicate Interrupted(met: Tree, now: Tree, final: Name, node: Node) {
    && Coherent(now)
    && (Kept(now) == Kept(met) || (final !in met && Kept(now) == Kept(met)[final := node]))
    && (forall n :: n in now && now[n].inode == node.inode ==> n == final || n.Temporary?)
    && (AllRecoverable(met) ==> AllRecoverable(now))
  }

  /** Publication by any process, through crashes of it and of its recoveries, from any
      directory, under any expected source and whatever another process publishes under
      the same name meanwhile.

      No name but a temporary is ever removed or changed.  For the mapped kinds, if every
      temporary that was there can be recovered, one undisturbed recovery leaves no
      temporary and either the tree the publication met or that with the final alone,
      and running it again changes nothing. */
  method PublishThroughCrashes(d: Directory, final: Name, payload: Payload, expected: Option<Expected>,
                               tokens: seq<nat>, inode: nat, raced: Option<Node>, restarts: seq<seq<Fault>>)
    returns (ghost met: Tree)
    requires Coherent(d.tree) && NewInode(d.tree, inode) && !d.dead
    requires raced.Some? ==> NewInode(d.tree, raced.value.inode) && raced.value.inode != inode
    requires Publishable(final, payload) && Mapped(final, payload)
    modifies d
    ensures met == old(d.tree) || met == Raced(old(d.tree), final, raced)
    ensures var node := Node(inode, payload);
            || Kept(d.tree) == Kept(met)
            || (final !in met && Kept(d.tree) == Kept(met)[final := node])
    ensures AllRecoverable(old(d.tree)) ==>
              && NoTemporaries(d.tree)
              && (d.tree == Kept(met) || (final !in met && d.tree == Kept(met)[final := Node(inode, payload)]
                                          && OnlyName(d.tree, final) && MatchesName(final, d.tree[final].data)))
  {
    ghost var start := d.tree;
    var node := Node(inode, payload);
    var published;
    published, met := d.PublishContentAddressed(final, payload, PurposeOf(final.kind), expected, tokens, inode, raced);
    RacedKeeps(start, final, raced, node);
    PublishingIsInterrupted(met, d.tree, final, node);
    RecoverRepeatedly(d, restarts, met, final, node);
    if AllRecoverable(start) { SettledIs(met, d.tree, final, node); }
  }

  /** One undisturbed recovery; it changes nothing once there is no temporary. */
  method RecoverCalmly(d: Directory, ghost met: Tree, ghost final: Name, ghost node: Node)
    requires Interrupted(met, d.tree, final, node)
    modifies d
    ensures Interrupted(met, d.tree, final, node) && (AllRecoverable(met) ==> NoTemporaries(d.tree))
    ensures NoTemporaries(old(d.tree)) ==> d.tree == old(d.tree)
  {
    d.Restart([]);
    ghost var before := d.tree;
    var recovered := d.RecoverTemporaries();
    RecoveryKeepsInterrupted(met, before, d.tree, final, node);
  }

  /** Any number of recoveries under faults of their own, then two undisturbed ones. */
  method RecoverRepeatedly(d: Directory, restarts: seq<seq<Fault>>, ghost met: Tree, ghost final: Name,
                           ghost node: Node)
    requires Interrupted(met, d.tree, final, node)
    modifies d
    ensures Interrupted(met, d.tree, final, node) && (AllRecoverable(met) ==> NoTemporaries(d.tree))
  {
    for k := 0 to |restarts|
      invariant Interrupted(met, d.tree, final, node)
    {
      d.Restart(restarts[k]);
      ghost var before := d.tree;
      var recovered := d.RecoverTemporaries();
      RecoveryKeepsInterrupted(met, before, d.tree, final, node);
    }
    RecoverCalmly(d, met, final, node);
    RecoverCalmly(d, met, final, node);
  }

  lemma SettledIs(met: Tree, now: Tree, final: Name, node: Node)
    requires Interrupted(met, now, final, node) && NoTemporaries(now) && final.Final?
    ensures now == Kept(met) || (final !in met && now == Kept(met)[final := node] && OnlyName(now, final))
  {
    assert Kept(now) == now;
  }

  lemma RacedKeeps(t: Tree, final: Name, raced: Option<Node>, node: Node)
    requires Coherent(t) && NewInode(t, node.inode) && final.Final?
    requires raced.Some? ==> NewInode(t, raced.value.inode) && raced.value.inode != node.inode
    ensures Coherent(Raced(t, final, raced)) && NewInode(Raced(t, final, raced), node.inode)
    ensures AllRecoverable(t) ==> AllRecoverable(Raced(t, final, raced))
  {
    var now := Raced(t, final, raced);
    if AllRecoverable(t) {
      forall n | n in now && n.Temporary?
        ensures Recoverable(now, n)
      {
        if !OnlyName(t, n) {
          var m :| m in t && IsPartner(t, n, m) && ValidForRecovery(m, t[m].data);
          if raced.Some? && m == final {
            assert OnlyName(now, n);
          } else {
            assert IsPartner(now, n, m);
          }
        }
      }
    }
  }

  lemma PublishingIsInterrupted(met: Tree, now: Tree, final: Name, node: Node)
    requires Publishable(final, node.data) && Mapped(final, node.data)
    requires Coherent(met) && NewInode(met, node.inode)
    requires Publishing(met, now, final, PurposeOf(final.kind), node)
    ensures Interrupted(met, now, final, node)
  {
    if now == met {
    } else if final !in met && now == met[final := node] {
      assert Kept(now) == Kept(met)[final := node];
      if AllRecoverable(met) { OthersStayRecoverable(met, now, node); }
    } else {
      var token: nat :| && Temporary(PurposeOf(final.kind), token) !in met
                        && (|| now == met[Temporary(PurposeOf(final.kind), token) := node]
                            || (final !in met
                                && now == met[Temporary(PurposeOf(final.kind), token) := node][final := node]));
      OwnIsRecoverable(met, now, final, node, token);
      if AllRecoverable(met) { OthersStayRecoverable(met, now, node); }
    }
  }

  lemma OwnIsRecoverable(met: Tree, now: Tree, final: Name, node: Node, token: nat)
    requires Publishable(final, node.data) && Mapped(final, node.data)
    requires Coherent(met) && NewInode(met, node.inode)
    requires Temporary(PurposeOf(final.kind), token) !in met
    requires || now == met[Temporary(PurposeOf(final.kind), token) := node]
             || (final !in met && now == met[Temporary(PurposeOf(final.kind), token) := node][final := node])
    ensures Coherent(now) && Recoverable(now, Temporary(PurposeOf(final.kind), token))
    ensures Kept(now) == Kept(met) || (final !in met && Kept(now) == Kept(met)[final := node])
    ensures forall n :: n in now && now[n].inode == node.inode ==> n == final || n.Temporary?
    ensures forall n :: n in now && now[n].inode == node.inode && n.Temporary? ==>
                          n == Temporary(PurposeOf(final.kind), token)
  {
    var temporary := Temporary(PurposeOf(final.kind), token);
    if now == met[temporary := node] {
      assert Kept(now) == Kept(met);
      assert OnlyName(now, temporary);
    } else {
      assert Kept(now) == Kept(met)[final := node];
      LinkedIsRecoverableIff(met, token, final, node);
    }
  }

  /** Temporaries of other files are as recoverable as they were. */
  lemma OthersStayRecoverable(met: Tree, now: Tree, node: Node)
    requires AllRecoverable(met) && NewInode(met, node.inode)
    requires forall n :: n in met ==> n in now && now[n] == met[n]
    requires forall n :: n in now ==> n in met || now[n] == node
    ensures forall n :: n in met && n.Temporary? ==> Recoverable(now, n)
  {
    forall n | n in met && n.Temporary?
      ensures Recoverable(now, n)
    {
      if !OnlyName(met, n) {
        var m :| m in met && IsPartner(met, n, m) && ValidForRecovery(m, met[m].data);
        assert IsPartner(now, n, m);
      }
    }
  }

  /** Losing temporaries moves an interrupted publication to another of its states. */
  lemma RecoveryKeepsInterrupted(met: Tree, now: Tree, after: Tree, final: Name, node: Node)
    requires Interrupted(met, now, final, node) && OnlyTemporariesGone(now, after)
    ensures Interrupted(met, after, final, node)
  {
    assert Kept(after) == Kept(now);
    if AllRecoverable(now) {
      forall n | n in after && n.Temporary?
        ensures Recoverable(after, n)
      {
        if !OnlyName(now, n) {
          var m :| m in now && IsPartner(now, n, m) && ValidForRecovery(m, now[m].data);
          assert IsPartner(after, n, m);
        }
      }
    }
  }

  function Raced(t: Tree, final: Name, raced: Option<Node>): Tree {
    if raced.Some? then t[final := raced.value] else t
  }

  lemma ApartFrom(before: Tree, candidate: Name, node: Node, final: Name, raced: Option<Node>)
    requires candidate !in before && candidate != final
    ensures before[candidate := node] - {candidate} == before
    ensures Raced(before[candidate := node], final, raced) == Raced(before, final, raced)[candidate := node]
  {
    assert before[candidate := node] - {candidate} == before;
    assert Raced(before[candidate := node], final, raced) == Raced(before, final, raced)[candidate := node];
  }

  /** Where a publication can be found: not begun or undone, staged, linked under both
      names, or complete. */
  ghost predicate Publishing(before: Tree, now: Tree, final: Name, purpose: Purpose, node: Node) {
    || now == before
    || (final !in before && now == before[final := node])
    || exists token: nat ::
         && Temporary(purpose, token) !in before
         && (|| now == before[Temporary(purpose, token) := node]
             || (final !in before && now == before[Temporary(purpose, token) := node][final := node]))
  }

  /** The candidate is apart from whatever happens to the authority. */
  lemma WithoutCandidate(before: Tree, candidate: Name, node: Node, meddle: Option<Expected>)
    requires candidate !in before && candidate != Authority
    ensures var t := Meddled(before[candidate := node], meddle);
            && candidate in t && t[candidate] == node && t - {candidate} == Meddled(before, meddle)
            && Renamed(t, candidate) == Meddled(before, meddle)[Authority := node]
  {
    var t := Meddled(before[candidate := node], meddle);
    assert t - {candidate} == Meddled(before, meddle);
    assert Renamed(t, candidate) == Meddled(before, meddle)[Authority := node];
  }

  function Renamed(t: Tree, candidate: Name): Tree
    requires candidate in t
  {
    t[Authority := t[candidate]] - {candidate}
  }

  function Meddled(t: Tree, m: Option<Expected>): Tree {
    if m.None? then t else if m.value.Absent? then t - {Authority} else t[Authority := m.value.node]
  }

  predicate IsExpected(t: Tree, expected: Expected) {
    if expected.Absent? then Authority !in t else Lookup(t, Authority) == Some(expected.node)
  }

  /** Nothing changed, except that one temporary of our own may be left. */
  ghost predicate OwnTemporary(before: Tree, after: Tree, purpose: Purpose, node: Node) {
    || after == before
    || exists token: nat :: Temporary(purpose, token) !in before && after == before[Temporary(purpose, token) := node]
  }
}
