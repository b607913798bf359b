/** Passive assessment: reduce everything observed about the stored accounts to one
    ordered list of findings, a code, and a gate on writing. */
module Assessment {
  import opened Wrappers

  datatype AuthorityKind =
    | AuthorityAbsent
    | GenerationZero
    | VersionOne
    | VersionTwo
    | Future
    | DuplicateKeyAuthority
    | MalformedAuthority
    | InvalidAuthority
    | UnreadableAuthority
    | UnsafeAuthority
    | UnsupportedFilesystem

  datatype ArtifactKind = Lock | V0Backup | V1Snapshot | V2Snapshot | PrototypeReceipt | Temporary | Prototype

  datatype ArtifactState =
    | Valid
    | Unsafe
    | Unreadable
    | BoundExceeded
    | DuplicateKey
    | MalformedJson
    | FutureSchema
    | InvalidSchema
    | Conflict

  type Bytes = seq<int>

  /** What the strict decoders contribute: whether a version-two snapshot reverses to
      these authority bytes, and what a prototype converts to. */
  datatype Codec = Codec(reverses: (Bytes, Bytes) -> bool, converts: Bytes -> Option<Bytes>)

  datatype Artifact = Artifact(
    kind: ArtifactKind,
    basename: string,
    state: ArtifactState,
    content: Option<Bytes>,
    // A receipt carries the digest of its prototype, that is the prototype's bytes.
    receiptFor: Option<Bytes>)

  datatype Observation = Observation(
    authority: AuthorityKind,
    content: Option<Bytes>,
    artifacts: seq<Artifact>,
    orphaned: bool,
    interrupted: bool)

  datatype Code =
    | UnsupportedCode
    | UnsafePermissions
    | UnreadableCode
    | DuplicateKeyCode
    | MalformedJsonCode
    | FutureSchemaCode
    | InvalidSchemaCode
    | BackupConflictCode
    | InterruptedArtifacts
    | LegacyWriterDetected
    | RollbackPrepared
    | MigrationRequired
    | PrototypeImportRequired
    | PrototypeImported
    | Current
    | Empty

  function Priority(c: Code): nat {
    match c
    case UnsupportedCode => 10
    case UnsafePermissions => 20
    case UnreadableCode => 30
    case DuplicateKeyCode => 40
    case MalformedJsonCode => 50
    case FutureSchemaCode => 60
    case InvalidSchemaCode => 70
    case BackupConflictCode => 80
    case InterruptedArtifacts => 90
    case LegacyWriterDetected => 100
    case RollbackPrepared => 110
    case MigrationRequired => 120
    case PrototypeImportRequired => 130
    case PrototypeImported => 140
    case Current => 150
    case Empty => 160
  }

  function ArtifactRank(k: ArtifactKind): nat {
    match k
    case Lock => 1
    case V0Backup => 2
    case V1Snapshot => 3
    case V2Snapshot => 4
    case Temporary => 5
    case PrototypeReceipt => 6
    case Prototype => 7
  }

  datatype Issue = Issue(code: Code, basename: Option<string>, rank: nat)

  datatype Verdict = Verdict(code: Code, basename: Option<string>, writeBlocked: bool, issues: seq<Issue>)

  // Text order, and the orders built on it.

  predicate Less(a: string, b: string) {
    if b == "" then false
    else if a == "" then true
    else a[0] < b[0] || (a[0] == b[0] && Less(a[1..], b[1..]))
  }

  lemma {:induction false} LessIsTotal(a: string, b: string)
    ensures a != b ==> Less(a, b) || Less(b, a)
    ensures !(Less(a, b) && Less(b, a)) && !Less(a, a)
  {
    if a != "" && b != "" {
      LessIsTotal(a[1..], b[1..]);
      if a[0] == b[0] && a[1..] == b[1..] {
        assert a == [a[0]] + a[1..] && b == [b[0]] + b[1..];
      }
    }
    if a != "" { LessIsTotal(a[1..], a[1..]); }
  }

  lemma {:induction false} LessIsTransitive(a: string, b: string, c: string)
    requires Less(a, b) && Less(b, c)
    ensures Less(a, c)
  {
    if a != "" && a[0] == b[0] && b[0] == c[0] {
      LessIsTransitive(a[1..], b[1..], c[1..]);
    }
  }

  function NameOf(i: Issue): string {
    if i.basename.Some? then i.basename.value else ""
  }

  /** Findings are ordered by priority, then by kind of artifact, then by name. */
  predicate Before(a: Issue, b: Issue) {
    || Priority(a.code) < Priority(b.code)
    || (Priority(a.code) == Priority(b.code)
        && (a.rank < b.rank || (a.rank == b.rank && Less(NameOf(a), NameOf(b)))))
  }

  predicate Increasing(s: seq<Issue>) {
    forall i, k :: 0 <= i < k < |s| ==> Before(s[i], s[k])
  }

  lemma BeforeIsStrict(a: Issue, b: Issue)
    ensures !(Before(a, b) && Before(b, a))
  {
    LessIsTotal(NameOf(a), NameOf(b));
  }

  lemma BeforeIsTransitive(a: Issue, b: Issue, c: Issue)
    requires Before(a, b) && Before(b, c)
    ensures Before(a, c)
  {
    if Less(NameOf(a), NameOf(b)) && Less(NameOf(b), NameOf(c)) {
      LessIsTransitive(NameOf(a), NameOf(b), NameOf(c));
    }
  }

  /** Findings that could be confused in the order are the same finding. */
  predicate Comparable(a: Issue, b: Issue) {
    a == b || Before(a, b) || Before(b, a)
  }

  function Insert(s: seq<Issue>, x: Issue): seq<Issue> {
    if s == [] then [x]
    else if x == s[0] then s
    else if Before(x, s[0]) then [x] + s
    else [s[0]] + Insert(s[1..], x)
  }

  lemma InsertKeeps(s: seq<Issue>, x: Issue)
    requires Increasing(s) && forall y :: y in s ==> Comparable(x, y)
    ensures Increasing(Insert(s, x))
    ensures forall y :: y in Insert(s, x) <==> y in s || y == x
  {
    if s != [] {
      if Before(x, s[0]) {
        forall k | 0 <= k < |s|
          ensures Before(x, s[k])
        {
          if k > 0 { BeforeIsTransitive(x, s[0], s[k]); }
        }
      } else if x != s[0] {
        assert s[0] in s;
        InsertKeeps(s[1..], x);
        var t := Insert(s[1..], x);
        forall k | 0 <= k < |t|
          ensures Before(s[0], t[k])
        {
          assert t[k] in t;
        }
      }
    }
  }

  /** An increasing list is determined by its elements. */
  lemma {:induction false} IncreasingIsCanonical(s: seq<Issue>, t: seq<Issue>)
    requires Increasing(s) && Increasing(t) && forall x :: x in s <==> x in t
    ensures s == t
  {
    if t != [] { assert t[0] in t; }
    if s != [] {
      assert s[0] in s;
      var k :| 0 <= k < |t| && t[k] == s[0];
      var m :| 0 <= m < |s| && s[m] == t[0];
      BeforeIsStrict(s[0], t[0]);
      assert s[0] == t[0];
      forall x
        ensures x in s[1..] <==> x in t[1..]
      {
        SameTail(s, t, x);
        SameTail(t, s, x);
      }
      IncreasingIsCanonical(s[1..], t[1..]);
      assert s == [s[0]] + s[1..] && t == [t[0]] + t[1..];
    }
  }

  lemma SameTail(s: seq<Issue>, t: seq<Issue>, x: Issue)
    requires s != [] && t != [] && s[0] == t[0] && Increasing(s) && forall y :: y in s ==> y in t
    ensures x in s[1..] ==> x in t[1..]
  {
    if x in s[1..] {
      var i :| 0 <= i < |s| - 1 && s[1..][i] == x;
      assert s[i + 1] == x && Before(s[0], x);
      BeforeIsStrict(x, x);
      assert x in s;
      var k :| 0 <= k < |t| && t[k] == x;
      assert k > 0 && t[1..][k - 1] == x;
    }
  }

  // The findings.

  function FailureCode(a: Artifact): Code {
    if a.state == Unsafe then UnsafePermissions
    else if a.state == Unreadable then UnreadableCode
    else if a.kind == V0Backup || a.kind == V1Snapshot || a.kind == V2Snapshot then BackupConflictCode
    else if a.kind == Prototype && a.state == DuplicateKey then DuplicateKeyCode
    else if a.kind == Prototype && a.state == MalformedJson then MalformedJsonCode
    else InvalidSchemaCode
  }

  function At(code: Code, a: Artifact): Issue {
    Issue(code, Some(a.basename), ArtifactRank(a.kind))
  }

  function AuthorityFailure(k: AuthorityKind): Code {
    match k
    case UnsupportedFilesystem => UnsupportedCode
    case UnsafeAuthority => UnsafePermissions
    case UnreadableAuthority => UnreadableCode
    case DuplicateKeyAuthority => DuplicateKeyCode
    case MalformedAuthority => MalformedJsonCode
    case Future => FutureSchemaCode
    case _ => InvalidSchemaCode
  }

  predicate MatchingReceipt(artifacts: seq<Artifact>, prototype: Artifact) {
    prototype.content.Some? &&
    exists r :: r in artifacts && r.kind == PrototypeReceipt && r.state == Valid && r.receiptFor == prototype.content
  }

  predicate Imported(o: Observation, codec: Codec, prototype: Artifact) {
    && prototype.state == Valid && o.content.Some?
    && MatchingReceipt(o.artifacts, prototype)
    && codec.converts(prototype.content.value) == o.content
  }

  predicate NeedsAuthority(k: ArtifactKind) {
    k == V0Backup || k == V1Snapshot || k == V2Snapshot
  }

  /** The prototype, of which at most one is observed. */
  function PrototypeIn(artifacts: seq<Artifact>): (p: Option<Artifact>)
    ensures p.Some? ==> p.value in artifacts && p.value.kind == Prototype
    ensures p.None? ==> forall a :: a in artifacts ==> a.kind != Prototype
  {
    if artifacts == [] then None
    else if artifacts[0].kind == Prototype then Some(artifacts[0])
    else PrototypeIn(artifacts[1..])
  }

  predicate HasRecoveryArtifact(artifacts: seq<Artifact>) {
    exists a :: a in artifacts && (NeedsAuthority(a.kind) || a.kind == Temporary)
  }

  predicate FirstRecovery(artifacts: seq<Artifact>, a: Artifact) {
    && a in artifacts && (NeedsAuthority(a.kind) || a.kind == Temporary)
    && forall b :: b in artifacts && (NeedsAuthority(b.kind) || b.kind == Temporary) ==>
                     || ArtifactRank(a.kind) < ArtifactRank(b.kind)
                     || (ArtifactRank(a.kind) == ArtifactRank(b.kind)
                         && (a.basename == b.basename || Less(a.basename, b.basename)))
  }

  predicate Reverses(o: Observation, codec: Codec, a: Artifact) {
    a.content.Some? && o.content.Some? && codec.reverses(a.content.value, o.content.value)
  }

  function ValidSnapshots(o: Observation): set<Artifact> {
    set a | a in o.artifacts && a.kind == V2Snapshot && a.state == Valid
  }

  /** What the authority and, without one, the prototype say. */
  function PlainIssue(o: Observation, codec: Codec): Issue {
    var p := PrototypeIn(o.artifacts);
    match o.authority
    case GenerationZero =>
      Issue(if exists a :: a in ValidSnapshots(o) && Reverses(o, codec, a) then RollbackPrepared
            else if ValidSnapshots(o) != {} then LegacyWriterDetected else MigrationRequired, None, 0)
    case VersionOne => Issue(MigrationRequired, None, 0)
    case VersionTwo => Issue(if p.Some? && Imported(o, codec, p.value) then PrototypeImported else Current, None, 0)
    case AuthorityAbsent =>
      if o.orphaned then Issue(InterruptedArtifacts, None, 4)
      else if p.None? || MatchingReceipt(o.artifacts, p.value) then Issue(Empty, None, 0)
      else At(if p.value.state != Valid then FailureCode(p.value) else PrototypeImportRequired, p.value)
    case _ => Issue(AuthorityFailure(o.authority), None, 0)
  }

  /** An absent authority that left artifacts behind is reported at the first of them. */
  ghost predicate LogicalIssue(o: Observation, codec: Codec, i: Issue) {
    if o.authority == AuthorityAbsent && HasRecoveryArtifact(o.artifacts) then
      exists a :: FirstRecovery(o.artifacts, a) && i == At(InterruptedArtifacts, a)
    else i == PlainIssue(o, codec)
  }

  predicate ArtifactIssue(o: Observation, i: Issue) {
    exists a :: a in o.artifacts && a.kind != Prototype && a.state != Valid && i == At(FailureCode(a), a)
  }

  predicate Interrupts(o: Observation, a: Artifact) {
    a.kind == Temporary || (o.authority == AuthorityAbsent && NeedsAuthority(a.kind))
  }

  predicate InterruptionIssue(o: Observation, i: Issue) {
    || (exists a :: a in o.artifacts && Interrupts(o, a) && i == At(InterruptedArtifacts, a))
    || (o.interrupted && i == Issue(InterruptedArtifacts, None, 4))
  }

  /** Everything found, as a set: no order of observation is in it. */
  ghost predicate Found(o: Observation, codec: Codec, i: Issue) {
    if o.authority == UnsupportedFilesystem then i == Issue(UnsupportedCode, None, 0)
    else LogicalIssue(o, codec, i) || ArtifactIssue(o, i) || InterruptionIssue(o, i)
  }

  /** What an observation's constructor guarantees. */
  predicate WellFormed(o: Observation) {
    && (forall a, b :: a in o.artifacts && b in o.artifacts && a.basename == b.basename ==> a == b)
    && (forall a :: a in o.artifacts ==> a.basename != "")
    && (forall a, b :: a in o.artifacts && b in o.artifacts && a.kind == Prototype && b.kind == Prototype ==> a == b)
    && (forall a :: a in o.artifacts && a.kind == Prototype && a.state == Valid ==> a.content.Some?)
  }

  /** Any two findings about one observation compare. */
  lemma FoundAreComparable(o: Observation, codec: Codec, i: Issue, j: Issue)
    requires WellFormed(o) && Found(o, codec, i) && Found(o, codec, j)
    ensures Comparable(i, j)
  {
    FoundNames(o, codec, i);
    FoundNames(o, codec, j);
    LessIsTotal(NameOf(i), NameOf(j));
    if Priority(i.code) == Priority(j.code) { SamePriority(i.code, j.code); }
  }

  lemma SamePriority(a: Code, b: Code)
    requires Priority(a) == Priority(b)
    ensures a == b
  {
  }

  /** A finding that names an artifact has its rank; one that does not is told apart by
      its code. */
  lemma FoundNames(o: Observation, codec: Codec, i: Issue)
    requires WellFormed(o) && Found(o, codec, i)
    ensures i.basename.None? ==> i.rank == if i.code == InterruptedArtifacts then 4 else 0
    ensures i.basename.Some? ==>
              exists a :: a in o.artifacts && i.basename == Some(a.basename) && i.rank == ArtifactRank(a.kind)
                          && i.basename.value != ""
  {
  }

  // What each code means, stated on the evidence alone.

  ghost predicate Reported(o: Observation, codec: Codec, code: Code) {
    exists i :: Found(o, codec, i) && i.code == code
  }

  /** A valid version-two snapshot turns back into exactly these authority bytes. */
  predicate SnapshotReverses(o: Observation, codec: Codec) {
    exists a :: a in o.artifacts && a.kind == V2Snapshot && a.state == Valid && a.content.Some? && o.content.Some?
                && codec.reverses(a.content.value, o.content.value)
  }

  predicate HasReceipt(o: Observation, p: Artifact) {
    p.content.Some? && exists r :: r in o.artifacts && r.kind == PrototypeReceipt && r.state == Valid
                                   && r.receiptFor == p.content
  }

  /** Nothing is stored but this prototype, which was not imported yet. */
  predicate Lonely(o: Observation, p: Artifact) {
    && o.authority == AuthorityAbsent && !o.orphaned && p in o.artifacts && p.kind == Prototype && !HasReceipt(o, p)
    && (forall a :: a in o.artifacts ==> a.kind !in {V0Backup, V1Snapshot, V2Snapshot, Temporary})
  }

  /** Which generation is stored and what is to be done about it. */
  predicate GenerationMeans(o: Observation, codec: Codec, c: Code) {
    match c
    case RollbackPrepared => o.authority == GenerationZero && SnapshotReverses(o, codec)
    case LegacyWriterDetected =>
      && o.authority == GenerationZero && !SnapshotReverses(o, codec)
      && exists a :: a in o.artifacts && a.kind == V2Snapshot && a.state == Valid
    case MigrationRequired =>
      || o.authority == VersionOne
      || (o.authority == GenerationZero
          && forall a :: a in o.artifacts ==> !(a.kind == V2Snapshot && a.state == Valid))
    case PrototypeImported => o.authority == VersionTwo && IsImported(o, codec)
    case Current => o.authority == VersionTwo && !IsImported(o, codec)
    case _ => false
  }

  /** The authority is exactly what a valid prototype with a receipt converts to. */
  predicate IsImported(o: Observation, codec: Codec) {
    exists p :: p in o.artifacts && p.kind == Prototype && p.state == Valid && HasReceipt(o, p)
                && o.content.Some? && codec.converts(p.content.value) == o.content
  }

  /** What an absent authority means. */
  ghost predicate AbsentMeans(o: Observation, c: Code) {
    match c
    case PrototypeImportRequired => exists p :: Lonely(o, p) && p.state == Valid
    case Empty =>
      && o.authority == AuthorityAbsent && !o.orphaned
      && (forall a :: a in o.artifacts ==>
                        && a.kind !in {V0Backup, V1Snapshot, V2Snapshot, Temporary}
                        && (a.kind == Prototype ==> HasReceipt(o, a)))
    case InterruptedArtifacts =>
      || o.interrupted
      || (exists a :: a in o.artifacts && a.kind == Temporary)
      || (o.authority == AuthorityAbsent
          && (o.orphaned || exists a :: a in o.artifacts && a.kind in {V0Backup, V1Snapshot, V2Snapshot}))
    case _ => false
  }

  /** An artifact that counts: a prototype does only when nothing else is stored. */
  ghost predicate Counts(o: Observation, a: Artifact) {
    a in o.artifacts && (a.kind != Prototype || Lonely(o, a))
  }

  /** What is wrong with the authority or with an artifact that counts. */
  ghost predicate FailureMeans(o: Observation, c: Code) {
    match c
    case FutureSchemaCode => o.authority == Future
    case UnsafePermissions => o.authority == UnsafeAuthority || exists a :: Counts(o, a) && a.state == Unsafe
    case UnreadableCode => o.authority == UnreadableAuthority || exists a :: Counts(o, a) && a.state == Unreadable
    case DuplicateKeyCode =>
      o.authority == DuplicateKeyAuthority
      || exists a :: Counts(o, a) && a.kind == Prototype && a.state == DuplicateKey
    case MalformedJsonCode =>
      o.authority == MalformedAuthority
      || exists a :: Counts(o, a) && a.kind == Prototype && a.state == MalformedJson
    case BackupConflictCode =>
      exists a :: Counts(o, a) && a.kind in {V0Backup, V1Snapshot, V2Snapshot}
                  && a.state !in {Valid, Unsafe, Unreadable}
    case InvalidSchemaCode =>
      || o.authority == InvalidAuthority
      || exists a :: Counts(o, a) && a.kind !in {V0Backup, V1Snapshot, V2Snapshot}
                     && a.state !in {Valid, Unsafe, Unreadable}
                     && (a.kind == Prototype ==> a.state !in {DuplicateKey, MalformedJson})
    case _ => false
  }

  lemma {:induction false} PrototypeIs(o: Observation, p: Artifact)
    requires WellFormed(o) && p in o.artifacts && p.kind == Prototype
    ensures PrototypeIn(o.artifacts) == Some(p)
    ensures HasReceipt(o, p) <==> MatchingReceipt(o.artifacts, p)
  {
  }

  lemma {:induction false} FailureCodeIs(a: Artifact, c: Code)
    requires a.state != Valid
    ensures FailureCode(a) == c <==>
            match c
            case UnsafePermissions => a.state == Unsafe
            case UnreadableCode => a.state == Unreadable
            case DuplicateKeyCode => a.kind == Prototype && a.state == DuplicateKey
            case MalformedJsonCode => a.kind == Prototype && a.state == MalformedJson
            case BackupConflictCode => a.kind in {V0Backup, V1Snapshot, V2Snapshot} && a.state !in {Unsafe, Unreadable}
            case InvalidSchemaCode =>
              && a.kind !in {V0Backup, V1Snapshot, V2Snapshot} && a.state !in {Unsafe, Unreadable}
              && (a.kind == Prototype ==> a.state !in {DuplicateKey, MalformedJson})
            case _ => false
  {
  }

  /** The logical finding's code. */
  function LogicalCode(o: Observation, codec: Codec): Code {
    if o.authority == AuthorityAbsent && HasRecoveryArtifact(o.artifacts) then InterruptedArtifacts
    else PlainIssue(o, codec).code
  }

  lemma {:induction false} FirstRecoveryExists(artifacts: seq<Artifact>) returns (a: Artifact)
    requires HasRecoveryArtifact(artifacts)
    ensures FirstRecovery(artifacts, a)
  {
    var n := |artifacts| - 1;
    assert artifacts == artifacts[..n] + [artifacts[n]];
    if HasRecoveryArtifact(artifacts[..n]) {
      a := FirstRecoveryExists(artifacts[..n]);
      var last := artifacts[n];
      LessIsTotal(a.basename, last.basename);
      if (NeedsAuthority(last.kind) || last.kind == Temporary)
         && (ArtifactRank(last.kind) < ArtifactRank(a.kind)
             || (ArtifactRank(last.kind) == ArtifactRank(a.kind) && Less(last.basename, a.basename))) {
        EarlierIsFirst(artifacts[..n], a, last);
        a := last;
      }
    } else {
      a := artifacts[n];
    }
  }

  lemma {:induction false} LogicalIsReported(o: Observation, codec: Codec)
    requires o.authority != UnsupportedFilesystem
    ensures Reported(o, codec, LogicalCode(o, codec))
  {
    if o.authority == AuthorityAbsent && HasRecoveryArtifact(o.artifacts) {
      var a := FirstRecoveryExists(o.artifacts);
      assert Found(o, codec, At(InterruptedArtifacts, a));
    } else {
      assert Found(o, codec, PlainIssue(o, codec));
    }
  }

  predicate Fails(o: Observation, c: Code) {
    exists a :: a in o.artifacts && a.kind != Prototype && a.state != Valid && FailureCode(a) == c
  }

  predicate IsInterrupted(o: Observation) {
    o.interrupted || exists a :: a in o.artifacts && Interrupts(o, a)
  }

  /** A code is reported by the logical finding, a failed artifact or an interruption. */
  lemma {:induction false} ReportedIs(o: Observation, codec: Codec, c: Code)
    requires o.authority != UnsupportedFilesystem
    ensures Reported(o, codec, c) <==>
            c == LogicalCode(o, codec) || Fails(o, c) || (c == InterruptedArtifacts && IsInterrupted(o))
  {
    if c == LogicalCode(o, codec) { LogicalIsReported(o, codec); }
    if Fails(o, c) {
      var a :| a in o.artifacts && a.kind != Prototype && a.state != Valid && FailureCode(a) == c;
      assert Found(o, codec, At(c, a));
    }
    if c == InterruptedArtifacts && IsInterrupted(o) {
      if o.interrupted {
        assert Found(o, codec, Issue(InterruptedArtifacts, None, 4));
      } else {
        var a :| a in o.artifacts && Interrupts(o, a);
        assert Found(o, codec, At(InterruptedArtifacts, a));
      }
    }
  }

  lemma {:induction false} UnsupportedIsAlone(o: Observation, codec: Codec, c: Code)
    requires o.authority == UnsupportedFilesystem
    ensures Reported(o, codec, c) <==> c == UnsupportedCode
  {
    assert Found(o, codec, Issue(UnsupportedCode, None, 0));
  }

  lemma {:induction false} FailsMeans(o: Observation, c: Code)
    ensures Fails(o, c) ==> FailureMeans(o, c)
    ensures (FailureMeans(o, c) && !Fails(o, c)) ==>
              || AuthorityMeans(o, c)
              || exists p :: Lonely(o, p) && p.state != Valid && FailureCode(p) == c
  {
    if Fails(o, c) {
      var a :| a in o.artifacts && a.kind != Prototype && a.state != Valid && FailureCode(a) == c;
      FailureCodeIs(a, c);
      assert Counts(o, a);
    }
    if FailureMeans(o, c) && !AuthorityMeans(o, c) {
      var a :| Counts(o, a) && a.state != Valid && FailureCode(a) == c;
      FailureCodeIs(a, c);
    }
  }

  predicate AuthorityMeans(o: Observation, c: Code) {
    match o.authority
    case UnsafeAuthority => c == UnsafePermissions
    case UnreadableAuthority => c == UnreadableCode
    case DuplicateKeyAuthority => c == DuplicateKeyCode
    case MalformedAuthority => c == MalformedJsonCode
    case Future => c == FutureSchemaCode
    case InvalidAuthority => c == InvalidSchemaCode
    case _ => false
  }

  lemma {:induction false} GenerationZeroMeans(o: Observation, codec: Codec, c: Code)
    requires o.authority == GenerationZero
    ensures c == PlainIssue(o, codec).code <==> GenerationMeans(o, codec, c)
  {
    SnapshotsAre(o, codec);
  }

  lemma {:induction false} VersionTwoMeans(o: Observation, codec: Codec, c: Code)
    requires WellFormed(o) && o.authority == VersionTwo
    ensures c == PlainIssue(o, codec).code <==> GenerationMeans(o, codec, c)
  {
    if p :| p in o.artifacts && p.kind == Prototype { PrototypeIs(o, p); }
  }

  lemma {:induction false} PresentMeans(o: Observation, codec: Codec, c: Code)
    requires WellFormed(o) && o.authority != UnsupportedFilesystem && o.authority != AuthorityAbsent
    ensures c == LogicalCode(o, codec) <==> GenerationMeans(o, codec, c) || AuthorityMeans(o, c)
  {
    if o.authority == GenerationZero { GenerationZeroMeans(o, codec, c); }
    if o.authority == VersionTwo { VersionTwoMeans(o, codec, c); }
  }

  lemma {:induction false} SnapshotsAre(o: Observation, codec: Codec)
    ensures SnapshotReverses(o, codec) <==> exists a :: a in ValidSnapshots(o) && Reverses(o, codec, a)
    ensures ValidSnapshots(o) == {} <==>
            forall a :: a in o.artifacts ==> !(a.kind == V2Snapshot && a.state == Valid)
  {
    if a :| a in o.artifacts && a.kind == V2Snapshot && a.state == Valid {
      assert a in ValidSnapshots(o);
    }
    if SnapshotReverses(o, codec) {
      var a :| a in o.artifacts && a.kind == V2Snapshot && a.state == Valid && a.content.Some? && o.content.Some?
               && codec.reverses(a.content.value, o.content.value);
      assert a in ValidSnapshots(o) && Reverses(o, codec, a);
    }
  }

  lemma {:induction false} LonelyIs(o: Observation)
    requires WellFormed(o) && o.authority == AuthorityAbsent
    ensures forall q :: Lonely(o, q) <==>
                        && PrototypeIn(o.artifacts) == Some(q) && !o.orphaned && !HasRecoveryArtifact(o.artifacts)
                        && !MatchingReceipt(o.artifacts, q)
  {
    forall q
      ensures Lonely(o, q) <==>
              && PrototypeIn(o.artifacts) == Some(q) && !o.orphaned && !HasRecoveryArtifact(o.artifacts)
              && !MatchingReceipt(o.artifacts, q)
    {
      if q in o.artifacts && q.kind == Prototype { PrototypeIs(o, q); }
    }
  }

  lemma {:induction false} EmptyIs(o: Observation)
    requires WellFormed(o) && o.authority == AuthorityAbsent
    ensures AbsentMeans(o, Empty) <==>
            && !o.orphaned && !HasRecoveryArtifact(o.artifacts)
            && (PrototypeIn(o.artifacts).Some? ==> MatchingReceipt(o.artifacts, PrototypeIn(o.artifacts).value))
  {
    if p :| p in o.artifacts && p.kind == Prototype { PrototypeIs(o, p); }
  }

  lemma {:induction false} AbsentLogical(o: Observation, codec: Codec, c: Code)
    requires WellFormed(o) && o.authority == AuthorityAbsent
    ensures c == LogicalCode(o, codec) <==>
            || (c == InterruptedArtifacts && (HasRecoveryArtifact(o.artifacts) || o.orphaned))
            || (c == Empty && AbsentMeans(o, Empty))
            || (c == PrototypeImportRequired && AbsentMeans(o, PrototypeImportRequired))
            || exists p :: Lonely(o, p) && p.state != Valid && FailureCode(p) == c
  {
    LonelyIs(o);
    EmptyIs(o);
    var p := PrototypeIn(o.artifacts);
    if p.Some? { FailureNeverPlain(p.value, c); }
  }

  lemma {:induction false} FailureNeverPlain(p: Artifact, c: Code)
    ensures FailureCode(p) !in {InterruptedArtifacts, Empty, PrototypeImportRequired}
  {
  }

  /** What each code means, on the evidence alone. */
  lemma {:induction false} CodeMeans(o: Observation, codec: Codec, c: Code)
    requires WellFormed(o)
    ensures Reported(o, codec, c) <==>
            if o.authority == UnsupportedFilesystem then c == UnsupportedCode
            else GenerationMeans(o, codec, c) || AbsentMeans(o, c) || FailureMeans(o, c)
  {
    if o.authority == UnsupportedFilesystem {
      UnsupportedIsAlone(o, codec, c);
    } else {
      ReportedIs(o, codec, c);
      FailsMeans(o, c);
      InterruptedMeans(o);
      if o.authority == AuthorityAbsent {
        AbsentLogical(o, codec, c);
        if p :| Lonely(o, p) && p.state != Valid && FailureCode(p) == c {
          FailureCodeIs(p, c);
          assert Counts(o, p);
        }
      } else {
        PresentMeans(o, codec, c);
      }
    }
  }

  lemma {:induction false} InterruptedMeans(o: Observation)
    ensures AbsentMeans(o, InterruptedArtifacts) <==> IsInterrupted(o) || (o.authority == AuthorityAbsent && o.orphaned)
    ensures o.authority == AuthorityAbsent && HasRecoveryArtifact(o.artifacts) ==> IsInterrupted(o)
  {
  }

  /** The codes from the most urgent to the least, and the kinds in their order. */
  lemma UrgencyOrder()
    ensures Priority(UnsupportedCode) < Priority(UnsafePermissions) < Priority(UnreadableCode)
            < Priority(DuplicateKeyCode) < Priority(MalformedJsonCode) < Priority(FutureSchemaCode)
            < Priority(InvalidSchemaCode) < Priority(BackupConflictCode) < Priority(InterruptedArtifacts)
            < Priority(LegacyWriterDetected) < Priority(RollbackPrepared) < Priority(MigrationRequired)
            < Priority(PrototypeImportRequired) < Priority(PrototypeImported) < Priority(Current) < Priority(Empty)
    ensures ArtifactRank(Lock) < ArtifactRank(V0Backup) < ArtifactRank(V1Snapshot) < ArtifactRank(V2Snapshot)
            < ArtifactRank(Temporary) < ArtifactRank(PrototypeReceipt) < ArtifactRank(Prototype)
  {
  }

  // The reduction.

  /** Insert one artifact by name. */
  function InsertByName(s: seq<Artifact>, a: Artifact): seq<Artifact> {
    if s == [] then [a]
    else if Less(a.basename, s[0].basename) then [a] + s
    else [s[0]] + InsertByName(s[1..], a)
  }

  lemma InsertByNameKeeps(s: seq<Artifact>, a: Artifact)
    ensures multiset(InsertByName(s, a)) == multiset(s) + multiset{a}
  {
    if s != [] {
      assert s == [s[0]] + s[1..];
      if !Less(a.basename, s[0].basename) { InsertByNameKeeps(s[1..], a); }
    }
  }

  method SortedByName(artifacts: seq<Artifact>) returns (sorted: seq<Artifact>)
    ensures multiset(sorted) == multiset(artifacts)
    ensures forall a :: a in sorted <==> a in artifacts
  {
    sorted := [];
    for n := 0 to |artifacts|
      invariant multiset(sorted) == multiset(artifacts[..n])
    {
      assert artifacts[..n + 1] == artifacts[..n] + [artifacts[n]];
      InsertByNameKeeps(sorted, artifacts[n]);
      sorted := InsertByName(sorted, artifacts[n]);
    }
    assert artifacts[..|artifacts|] == artifacts;
    forall a
      ensures a in sorted <==> a in artifacts
    {
      assert a in sorted <==> a in multiset(sorted);
      assert a in artifacts <==> a in multiset(artifacts);
    }
  }

  /** The recovery artifact that comes first by kind and name. */
  method FirstRecoveryArtifact(artifacts: seq<Artifact>) returns (first: Option<Artifact>)
    ensures first.None? <==> !HasRecoveryArtifact(artifacts)
    ensures first.Some? ==> FirstRecovery(artifacts, first.value)
  {
    first := None;
    for n := 0 to |artifacts|
      invariant first.None? <==> !HasRecoveryArtifact(artifacts[..n])
      invariant first.Some? ==> FirstRecovery(artifacts[..n], first.value)
    {
      var a := artifacts[n];
      assert artifacts[..n + 1] == artifacts[..n] + [a];
      if NeedsAuthority(a.kind) || a.kind == Temporary {
        if first.None? {
          first := Some(a);
        } else {
          var f := first.value;
          LessIsTotal(a.basename, f.basename);
          if ArtifactRank(a.kind) < ArtifactRank(f.kind)
             || (ArtifactRank(a.kind) == ArtifactRank(f.kind) && Less(a.basename, f.basename)) {
            EarlierIsFirst(artifacts[..n], f, a);
            first := Some(a);
          }
        }
      }
    }
    assert artifacts[..|artifacts|] == artifacts;
  }

  lemma EarlierIsFirst(artifacts: seq<Artifact>, f: Artifact, a: Artifact)
    requires FirstRecovery(artifacts, f) && (NeedsAuthority(a.kind) || a.kind == Temporary)
    requires ArtifactRank(a.kind) < ArtifactRank(f.kind)
             || (ArtifactRank(a.kind) == ArtifactRank(f.kind) && Less(a.basename, f.basename))
    ensures FirstRecovery(artifacts + [a], a)
  {
    forall b | b in artifacts && (NeedsAuthority(b.kind) || b.kind == Temporary)
      ensures || ArtifactRank(a.kind) < ArtifactRank(b.kind)
              || (ArtifactRank(a.kind) == ArtifactRank(b.kind)
                  && (a.basename == b.basename || Less(a.basename, b.basename)))
    {
      if Less(a.basename, f.basename) && Less(f.basename, b.basename) {
        LessIsTransitive(a.basename, f.basename, b.basename);
      }
    }
  }

  method LogicalFinding(o: Observation, codec: Codec) returns (i: Issue)
    requires WellFormed(o) && o.authority != UnsupportedFilesystem
    ensures LogicalIssue(o, codec, i)
  {
    if o.authority == AuthorityAbsent {
      var first := FirstRecoveryArtifact(o.artifacts);
      if first.Some? { return At(InterruptedArtifacts, first.value); }
    }
    i := PlainIssue(o, codec);
  }

  method InterruptionIssues(o: Observation) returns (issues: seq<Issue>)
    ensures forall i :: i in issues <==> InterruptionIssue(o, i)
  {
    issues := [];
    for n := 0 to |o.artifacts|
      invariant forall i :: i in issues <==>
                            exists a :: a in o.artifacts[..n] && Interrupts(o, a) && i == At(InterruptedArtifacts, a)
    {
      var a := o.artifacts[n];
      assert o.artifacts[..n + 1] == o.artifacts[..n] + [a];
      if Interrupts(o, a) { issues := issues + [At(InterruptedArtifacts, a)]; }
    }
    assert o.artifacts[..|o.artifacts|] == o.artifacts;
    if o.interrupted { issues := issues + [Issue(InterruptedArtifacts, None, 4)]; }
  }

  method ArtifactFailures(artifacts: seq<Artifact>) returns (issues: seq<Issue>)
    ensures forall i :: i in issues <==>
                        exists a :: a in artifacts && a.kind != Prototype && a.state != Valid
                          && i == At(FailureCode(a), a)
  {
    issues := [];
    for n := 0 to |artifacts|
      invariant forall i :: i in issues <==>
                            exists a :: a in artifacts[..n] && a.kind != Prototype && a.state != Valid
                              && i == At(FailureCode(a), a)
    {
      var a := artifacts[n];
      assert artifacts[..n + 1] == artifacts[..n] + [a];
      if a.kind != Prototype && a.state != Valid { issues := issues + [At(FailureCode(a), a)]; }
    }
    assert artifacts[..|artifacts|] == artifacts;
  }

  /** Findings without duplicates, in order. */
  method OrderedIssues(ghost o: Observation, ghost codec: Codec, found: seq<Issue>) returns (issues: seq<Issue>)
    requires WellFormed(o) && forall i :: i in found ==> Found(o, codec, i)
    ensures Increasing(issues) && forall i :: i in issues <==> i in found
  {
    issues := [];
    for n := 0 to |found|
      invariant Increasing(issues) && forall i :: i in issues <==> i in found[..n]
    {
      assert found[..n + 1] == found[..n] + [found[n]];
      forall j | j in issues
        ensures Comparable(found[n], j)
      {
        assert j in found && found[n] in found;
        FoundAreComparable(o, codec, found[n], j);
      }
      InsertKeeps(issues, found[n]);
      issues := Insert(issues, found[n]);
    }
    assert found[..|found|] == found;
  }

  /** What a verdict must be, given only the evidence. */
  ghost predicate IsVerdict(o: Observation, codec: Codec, v: Verdict) {
    && Increasing(v.issues) && v.issues != []
    && (forall i :: i in v.issues <==> Found(o, codec, i))
    && v.code == v.issues[0].code && v.basename == v.issues[0].basename
    && (v.writeBlocked <==> v.code != Empty && v.code != Current && v.code != PrototypeImported)
  }

  /** The same evidence, in whatever order it was observed. */
  ghost predicate SameEvidence(o: Observation, p: Observation) {
    && o.authority == p.authority && o.content == p.content && o.orphaned == p.orphaned
      && o.interrupted == p.interrupted
    && forall a :: a in o.artifacts <==> a in p.artifacts
  }

  lemma SamePrototype(o: Observation, p: Observation)
    requires WellFormed(o) && WellFormed(p) && SameEvidence(o, p)
    ensures PrototypeIn(o.artifacts) == PrototypeIn(p.artifacts)
  {
  }

  lemma SameLogical(o: Observation, p: Observation, codec: Codec, i: Issue)
    requires WellFormed(o) && WellFormed(p) && SameEvidence(o, p)
    ensures LogicalIssue(o, codec, i) ==> LogicalIssue(p, codec, i)
  {
    SamePrototype(o, p);
    assert ValidSnapshots(o) == ValidSnapshots(p);
  }

  /** Nothing found depends on the order of observation. */
  lemma FoundIgnoresOrder(o: Observation, p: Observation, codec: Codec, i: Issue)
    requires WellFormed(o) && WellFormed(p) && SameEvidence(o, p)
    ensures Found(o, codec, i) <==> Found(p, codec, i)
  {
    SameLogical(o, p, codec, i);
    SameLogical(p, o, codec, i);
  }

  /** Reduce all evidence to one verdict. */
  method AssessPersistence(o: Observation, codec: Codec) returns (v: Verdict)
    requires WellFormed(o)
    ensures IsVerdict(o, codec, v)
  {
    var issues;
    if o.authority == UnsupportedFilesystem {
      issues := [Issue(UnsupportedCode, None, 0)];
    } else {
      var sorted := SortedByName(o.artifacts);
      var seen := o.(artifacts := sorted);
      forall i
        ensures Found(o, codec, i) <==> Found(seen, codec, i)
      {
        FoundIgnoresOrder(o, seen, codec, i);
      }
      var logical := LogicalFinding(seen, codec);
      var failures := ArtifactFailures(sorted);
      var interruptions := InterruptionIssues(seen);
      LogicalIsOne(seen, codec, logical);
      issues := OrderedIssues(seen, codec, [logical] + failures + interruptions);
      assert logical in issues;
    }
    var primary := issues[0];
    v := Verdict(primary.code, primary.basename,
                 primary.code !in {Empty, Current, PrototypeImported}, issues);
  }

  /** There is one logical finding. */
  lemma LogicalIsOne(o: Observation, codec: Codec, i: Issue)
    requires WellFormed(o) && LogicalIssue(o, codec, i)
    ensures forall j :: LogicalIssue(o, codec, j) ==> j == i
  {
    forall j | LogicalIssue(o, codec, j)
      ensures j == i
    {
      if o.authority == AuthorityAbsent && HasRecoveryArtifact(o.artifacts) {
        var a :| FirstRecovery(o.artifacts, a) && i == At(InterruptedArtifacts, a);
        var b :| FirstRecovery(o.artifacts, b) && j == At(InterruptedArtifacts, b);
        LessIsTotal(a.basename, b.basename);
      }
    }
  }

  /** The verdict does not depend on the order of observation. */
  lemma VerdictIgnoresOrder(o: Observation, p: Observation, codec: Codec, v: Verdict, w: Verdict)
    requires WellFormed(o) && WellFormed(p) && SameEvidence(o, p)
    requires IsVerdict(o, codec, v) && IsVerdict(p, codec, w)
    ensures v == w
  {
    forall i
      ensures i in v.issues <==> i in w.issues
    {
      FoundIgnoresOrder(o, p, codec, i);
    }
    IncreasingIsCanonical(v.issues, w.issues);
  }

  /** Its code is the most urgent of all findings. */
  lemma CodeIsMostUrgent(o: Observation, codec: Codec, v: Verdict, i: Issue)
    requires IsVerdict(o, codec, v) && Found(o, codec, i)
    ensures Priority(v.code) <= Priority(i.code)
    ensures exists j :: Found(o, codec, j) && j.code == v.code && j.basename == v.basename
  {
    var k :| 0 <= k < |v.issues| && v.issues[k] == i;
    assert v.issues[0] in v.issues;
  }

  /** Writing is safe: the authority is absent or current, every artifact of ours is
      valid, nothing is interrupted, and an absent authority left nothing behind and
      has no prototype still to import. */
  ghost predicate Writable(o: Observation) {
    && (o.authority == AuthorityAbsent || o.authority == VersionTwo)
    && (forall a :: a in o.artifacts && a.kind != Prototype ==> a.state == Valid)
    && (forall a :: a in o.artifacts ==> a.kind != Temporary)
    && !o.interrupted
    && (o.authority == AuthorityAbsent ==>
          && (forall a :: a in o.artifacts ==> !NeedsAuthority(a.kind))
          && !o.orphaned
          && (forall a :: a in o.artifacts && a.kind == Prototype ==> MatchingReceipt(o.artifacts, a)))
  }

  predicate Harmless(c: Code) {
    c == Empty || c == Current || c == PrototypeImported
  }

  lemma LeastUrgent(c: Code)
    ensures Harmless(c) <==> Priority(c) >= 140
  {
  }

  /** The gate is open exactly when writing is safe. */
  lemma GateIff(o: Observation, codec: Codec, v: Verdict)
    requires WellFormed(o) && IsVerdict(o, codec, v)
    ensures !v.writeBlocked <==> Writable(o)
  {
    LeastUrgent(v.code);
    if !v.writeBlocked {
      forall i | Found(o, codec, i)
        ensures Harmless(i.code)
      {
        CodeIsMostUrgent(o, codec, v, i);
        LeastUrgent(i.code);
      }
      HarmlessIsWritable(o, codec);
    }
    if Writable(o) {
      assert v.issues[0] in v.issues;
      WritableIsHarmless(o, codec, v.issues[0]);
    }
  }

  lemma WritableIsHarmless(o: Observation, codec: Codec, i: Issue)
    requires WellFormed(o) && Writable(o) && Found(o, codec, i)
    ensures Harmless(i.code)
  {
  }

  lemma HarmlessIsWritable(o: Observation, codec: Codec)
    requires WellFormed(o) && (forall i :: Found(o, codec, i) ==> Harmless(i.code))
    ensures Writable(o)
  {
    forall a | a in o.artifacts && a.kind != Prototype && o.authority != UnsupportedFilesystem
      ensures a.state == Valid && !Interrupts(o, a)
    {
      if a.state != Valid { assert Found(o, codec, At(FailureCode(a), a)); }
      if Interrupts(o, a) { assert Found(o, codec, At(InterruptedArtifacts, a)); }
    }
    assert o.interrupted && o.authority != UnsupportedFilesystem ==>
              Found(o, codec, Issue(InterruptedArtifacts, None, 4));
    AuthorityIsFound(o, codec);
  }

  /** Every authority has its own finding. */
  lemma AuthorityIsFound(o: Observation, codec: Codec)
    requires WellFormed(o) && (forall i :: Found(o, codec, i) ==> Harmless(i.code))
    ensures o.authority == AuthorityAbsent || o.authority == VersionTwo
    ensures o.authority == AuthorityAbsent && !HasRecoveryArtifact(o.artifacts) ==>
              && !o.orphaned
              && (PrototypeIn(o.artifacts).Some? ==> MatchingReceipt(o.artifacts, PrototypeIn(o.artifacts).value))
  {
    if o.authority == UnsupportedFilesystem {
      assert Found(o, codec, Issue(UnsupportedCode, None, 0));
    } else if !(o.authority == AuthorityAbsent && HasRecoveryArtifact(o.artifacts)) {
      assert Found(o, codec, PlainIssue(o, codec));
    }
  }
}
