/** Planning: turn prepared private bundles into a validated journal. */
module CredentialTransactionPlans {
  import opened Wrappers
  import opened Accounts
  import opened Storage
  import opened PrivateBundlePaths
  import opened Journals

  const MAX_ACCOUNTS := 512

  datatype PreparedWrite = PreparedWrite(
    path: Bundle,
    files: seq<(string, Content)>,
    expectedPresent: bool,
    expected: map<string, Option<Content>>)

  datatype Planned = Planned(record: Record, target: Content, base: Option<Content>)

  datatype Plan = Plan(journal: Journal, files: seq<Planned>)

  /** Every file the prepared bundles ask for, in order. */
  function WantedOf(w: PreparedWrite): seq<(Loc, Content)> {
    seq(|w.files|, i requires 0 <= i < |w.files| => (Loc(w.path, w.files[i].0), w.files[i].1))
  }

  function Wanted(bundles: seq<PreparedWrite>): seq<(Loc, Content)> {
    if bundles == [] then [] else Wanted(bundles[..|bundles| - 1]) + WantedOf(bundles[|bundles| - 1])
  }

  function PathsOf(bundles: seq<PreparedWrite>): seq<Bundle> {
    seq(|bundles|, i requires 0 <= i < |bundles| => bundles[i].path)
  }

  function PresentPaths(bundles: seq<PreparedWrite>): seq<Bundle> {
    if bundles == [] then []
    else PresentPaths(bundles[..|bundles| - 1])
         + (if bundles[|bundles| - 1].expectedPresent then [bundles[|bundles| - 1].path] else [])
  }

  function RecordsOf(files: seq<Planned>): seq<Record> {
    seq(|files|, i requires 0 <= i < |files| => files[i].record)
  }

  /** The bundle and each file it constrains are still what the caller prepared for. */
  predicate StillExpected(files: map<Loc, Content>, w: PreparedWrite) {
    && (BundlePresent(files, w.path) <==> w.expectedPresent)
    && (forall i :: 0 <= i < |w.files| && w.files[i].0 in w.expected ==>
                      Lookup(files, Loc(w.path, w.files[i].0)) == w.expected[w.files[i].0])
  }

  /** The journal record of one wanted file: an exact transition from the tree. */
  function RecordFor(files: map<Loc, Content>, want: (Loc, Content), index: nat): Record {
    Record(
      want.0,
      Stage(index),
      if want.0 in files then Some(Backup(index)) else None,
      DigestAt(files, want.0),
      Sha256(want.1))
  }

  function RecordsFor(files: map<Loc, Content>, wanted: seq<(Loc, Content)>): seq<Record> {
    seq(|wanted|, i requires 0 <= i < |wanted| => RecordFor(files, wanted[i], i))
  }

  /** The runtime journal that describes one requested change of one state. */
  function RuntimeJournal(d: Disk, payload: Content, bundles: seq<PreparedWrite>, displaced: seq<Bundle>,
                          g: Option<GuardRecord>): Journal {
    Runtime(ExpectedSource(d.authority), g, Sha256(payload), PathsOf(bundles), PresentPaths(bundles),
            RecordsFor(d.files, Wanted(bundles)), displaced)
  }

  function MigrationJournal(d: Disk, payload: Content, baseGeneration: Option<Generation>,
                            targetGeneration: Generation, bundles: seq<PreparedWrite>, displaced: seq<Bundle>,
                            g: GuardRecord): Journal {
    Migration(ExpectedSource(d.authority), baseGeneration, Some(g), targetGeneration, Sha256(payload),
              PathsOf(bundles), PresentPaths(bundles), RecordsFor(d.files, Wanted(bundles)), displaced)
  }

  predicate DirectChildren(paths: seq<Bundle>) {
    forall i :: 0 <= i < |paths| ==> |paths[i]| == 1
  }

  /** What a runtime request must satisfy before anything is written. */
  predicate RuntimeAccepted(d: Disk, payload: Content, bundles: seq<PreparedWrite>, displaced: seq<Bundle>,
                            g: Option<GuardRecord>, key: string -> string) {
    && |bundles| <= MAX_ACCOUNTS && |displaced| <= MAX_ACCOUNTS
    && DirectChildren(PathsOf(bundles)) && DirectChildren(displaced)
    && Distinct(KeysOf(displaced, key))
    && (forall i :: 0 <= i < |bundles| ==> StillExpected(d.files, bundles[i]))
    && Coherent(RuntimeJournal(d, payload, bundles, displaced, g), key)
  }

  predicate MigrationAccepted(d: Disk, payload: Content, baseGeneration: Option<Generation>,
                              targetGeneration: Generation, bundles: seq<PreparedWrite>, displaced: seq<Bundle>,
                              g: GuardRecord, key: string -> string) {
    && |bundles| <= MAX_ACCOUNTS && |displaced| <= MAX_ACCOUNTS
    && (forall i :: 0 <= i < |bundles| ==> StillExpected(d.files, bundles[i]))
    && Coherent(MigrationJournal(d, payload, baseGeneration, targetGeneration, bundles, displaced, g), key)
  }

  predicate PlansExactly(plan: seq<Planned>, files: map<Loc, Content>, wanted: seq<(Loc, Content)>) {
    && |plan| == |wanted|
    && forall i :: 0 <= i < |plan| ==>
         plan[i] == Planned(RecordFor(files, wanted[i], i), wanted[i].1, Lookup(files, wanted[i].0))
  }

  /** Plan the files of one bundle, continuing the artifact numbering. */
  method FilePlan(root: AccountRoot, w: PreparedWrite, planned: seq<Planned>, ghost wanted: seq<(Loc, Content)>)
    returns (o: Outcome<seq<Planned>>)
    requires PlansExactly(planned, root.files, wanted)
    ensures !o.Crashed? && (o.Raised? ==> o.error == Collision)
    ensures o.Done? <==> StillExpected(root.files, w)
    ensures o.Done? ==> PlansExactly(o.value, root.files, wanted + WantedOf(w))
  {
    var present := BundlePresent(root.files, w.path);
    if present != w.expectedPresent { return Raised(Collision); }
    var files := planned;
    var i := 0;
    while i < |w.files|
      invariant 0 <= i <= |w.files|
      invariant PlansExactly(files, root.files, wanted + WantedOf(w)[..i])
      invariant forall k :: 0 <= k < i && w.files[k].0 in w.expected ==>
                              Lookup(root.files, Loc(w.path, w.files[k].0)) == w.expected[w.files[k].0]
    {
      var (name, target) := w.files[i];
      var l := Loc(w.path, name);
      AbsentBundleHasNoFile(root.files, w.path, l);
      var base := if present then Lookup(root.files, l) else None;
      if name in w.expected && base != w.expected[name] { return Raised(Collision); }
      var index := |files|;
      var record := Record(
        l,
        Stage(index),
        if base.Some? then Some(Backup(index)) else None,
        if base.Some? then Some(Sha256(base.value)) else None,
        Sha256(target));
      assert WantedOf(w)[..i + 1] == WantedOf(w)[..i] + [(l, target)];
      files := files + [Planned(record, target, base)];
      i := i + 1;
    }
    assert WantedOf(w)[..i] == WantedOf(w);
    return Done(files);
  }

  lemma AbsentBundleHasNoFile(files: map<Loc, Content>, bundle: Bundle, l: Loc)
    requires l.bundle == bundle
    ensures !BundlePresent(files, bundle) ==> Lookup(files, l) == None
  {
  }

  /** The plans of all bundles, in order. */
  method FilePlans(root: AccountRoot, bundles: seq<PreparedWrite>) returns (o: Outcome<seq<Planned>>)
    ensures !o.Crashed? && (o.Raised? ==> o.error == Collision)
    ensures o.Done? <==> forall i :: 0 <= i < |bundles| ==> StillExpected(root.files, bundles[i])
    ensures o.Done? ==> PlansExactly(o.value, root.files, Wanted(bundles))
  {
    var files := [];
    var i := 0;
    while i < |bundles|
      invariant 0 <= i <= |bundles|
      invariant PlansExactly(files, root.files, Wanted(bundles[..i]))
      invariant forall k :: 0 <= k < i ==> StillExpected(root.files, bundles[k])
    {
      assert bundles[..i + 1][..i] == bundles[..i];
      files :- FilePlan(root, bundles[i], files, Wanted(bundles[..i]));
      i := i + 1;
    }
    assert bundles[..i] == bundles;
    return Done(files);
  }

  lemma PresentPathFrom(bundles: seq<PreparedWrite>, b: Bundle) returns (i: nat)
    requires b in PresentPaths(bundles)
    ensures i < |bundles| && bundles[i].expectedPresent && bundles[i].path == b
  {
    var n := |bundles| - 1;
    if b in PresentPaths(bundles[..n]) {
      i := PresentPathFrom(bundles[..n], b);
    } else {
      i := n;
    }
  }

  lemma {:induction false} PresentPathTo(bundles: seq<PreparedWrite>, i: nat)
    requires i < |bundles| && bundles[i].expectedPresent
    ensures bundles[i].path in PresentPaths(bundles)
  {
    var n := |bundles| - 1;
    if i < n {
      PresentPathTo(bundles[..n], i);
    }
  }

  lemma DistinctKeysDistinctPaths(s: seq<Bundle>, key: string -> string, i: nat, k: nat)
    requires Distinct(KeysOf(s, key)) && i < |s| && k < |s| && s[i] == s[k]
    ensures i == k
  {
    assert KeysOf(s, key)[i] == KeysOf(s, key)[k];
  }

  lemma WantedBundle(bundles: seq<PreparedWrite>, n: nat)
    requires n < |Wanted(bundles)|
    ensures Wanted(bundles)[n].0.bundle in PathsOf(bundles)
  {
    var m := |bundles| - 1;
    var before := Wanted(bundles[..m]);
    assert bundles[..m] + [bundles[m]] == bundles;
    if n < |before| {
      WantedBundle(bundles[..m], n);
      var k :| 0 <= k < m && PathsOf(bundles[..m])[k] == Wanted(bundles)[n].0.bundle;
      assert PathsOf(bundles)[k] == Wanted(bundles)[n].0.bundle;
    } else {
      assert PathsOf(bundles)[m] == Wanted(bundles)[n].0.bundle;
    }
  }

  lemma PresentPathIff(bundles: seq<PreparedWrite>, k: nat, key: string -> string)
    requires Distinct(KeysOf(PathsOf(bundles), key)) && k < |bundles|
    ensures bundles[k].path in PresentPaths(bundles) <==> bundles[k].expectedPresent
  {
    if bundles[k].path in PresentPaths(bundles) {
      var i := PresentPathFrom(bundles, bundles[k].path);
      DistinctKeysDistinctPaths(PathsOf(bundles), key, i, k);
    }
    if bundles[k].expectedPresent {
      PresentPathTo(bundles, k);
    }
  }

  lemma BasePresenceIs(files: map<Loc, Content>, bundles: seq<PreparedWrite>, key: string -> string, b: Bundle)
    requires Distinct(KeysOf(PathsOf(bundles), key)) && b in PathsOf(bundles)
    requires forall i :: 0 <= i < |bundles| ==> StillExpected(files, bundles[i])
    ensures b in PresentPaths(bundles) <==> BundlePresent(files, b)
  {
    var k :| 0 <= k < |bundles| && PathsOf(bundles)[k] == b;
    assert StillExpected(files, bundles[k]);
    PresentPathIff(bundles, k, key);
  }

  /** An accepted journal says exactly what recovery needs to know about its base. */
  lemma {:induction false} PlannedMatches(j: Journal, d: Disk, bundles: seq<PreparedWrite>, key: string -> string)
    requires Coherent(j, key) && d.txn.None? && j.baseAuthority == ExpectedSource(d.authority)
    requires j.files == RecordsFor(d.files, Wanted(bundles))
    requires j.targetBundles == PathsOf(bundles) && j.basePresent == PresentPaths(bundles)
    requires forall i :: 0 <= i < |bundles| ==> StillExpected(d.files, bundles[i])
    ensures WellFormed(j) && Matches(j, d)
  {
    CoherentIsWellFormed(j, key);
    forall i | 0 <= i < |j.files|
      ensures j.files[i].loc.bundle in j.targetBundles
    {
      WantedBundle(bundles, i);
    }
    forall b | b in j.targetBundles
      ensures b in j.basePresent <==> BundlePresent(d.files, b)
    {
      BasePresenceIs(d.files, bundles, key, b);
    }
  }

  /** Build and validate the runtime journal; a journal its schema refuses, or a
      tree that moved on, refuses the plan before anything is written. */
  method BuildRuntimePlan(root: AccountRoot, payload: Content, expected: Expected, bundles: seq<PreparedWrite>,
                          displaced: seq<Bundle>, g: Option<GuardRecord>, key: string -> string)
    returns (o: Outcome<Plan>)
    requires expected == ExpectedSource(root.authority)
    requires |displaced| <= MAX_ACCOUNTS && DirectChildren(displaced) && Distinct(KeysOf(displaced, key))
    ensures !o.Crashed? && (o.Raised? ==> o.error == Collision || o.error == InvalidPlan)
    ensures o.Done? <==> RuntimeAccepted(root.State(), payload, bundles, displaced, g, key)
    ensures o.Done? ==>
              && o.value.journal == RuntimeJournal(root.State(), payload, bundles, displaced, g)
              && PlansExactly(o.value.files, root.files, Wanted(bundles))
  {
    if |bundles| > MAX_ACCOUNTS || !DirectChildren(PathsOf(bundles)) { return Raised(InvalidPlan); }
    var files :- FilePlans(root, bundles);
    assert RecordsOf(files) == RecordsFor(root.files, Wanted(bundles));
    var journal := Runtime(expected, g, Sha256(payload), PathsOf(bundles), PresentPaths(bundles),
                           RecordsOf(files), displaced);
    if !Coherent(journal, key) { return Raised(InvalidPlan); }
    return Done(Plan(journal, files));
  }

  method BuildMigrationPlan(root: AccountRoot, payload: Content, expected: Expected, baseGeneration: Option<Generation>,
                            targetGeneration: Generation, bundles: seq<PreparedWrite>, displaced: seq<Bundle>,
                            g: GuardRecord, key: string -> string)
    returns (o: Outcome<Plan>)
    requires expected == ExpectedSource(root.authority)
    ensures !o.Crashed? && (o.Raised? ==> o.error == Collision || o.error == InvalidPlan)
    ensures o.Done? <==> MigrationAccepted(root.State(), payload, baseGeneration, targetGeneration, bundles,
                                           displaced, g, key)
    ensures o.Done? ==>
              && o.value.journal == MigrationJournal(root.State(), payload, baseGeneration, targetGeneration,
                                                     bundles, displaced, g)
              && PlansExactly(o.value.files, root.files, Wanted(bundles))
  {
    if |bundles| > MAX_ACCOUNTS || |displaced| > MAX_ACCOUNTS { return Raised(InvalidPlan); }
    var unique := RequirePortableUnique(PathsOf(bundles), key);
    if !unique { return Raised(InvalidPlan); }
    var files :- FilePlans(root, bundles);
    assert RecordsOf(files) == RecordsFor(root.files, Wanted(bundles));
    var journal := Migration(expected, baseGeneration, Some(g), targetGeneration, Sha256(payload),
                             PathsOf(bundles), PresentPaths(bundles), RecordsOf(files), displaced);
    if !Coherent(journal, key) { return Raised(InvalidPlan); }
    return Done(Plan(journal, files));
  }

  /** Runtime displaced bundles are direct children, unique in the portable
      namespace and bounded in number. */
  method ValidateRuntimeDisplaced(bundles: seq<Bundle>, key: string -> string) returns (o: Outcome<seq<Bundle>>)
    ensures !o.Crashed? && (o.Raised? ==> o.error == InvalidPlan)
    ensures o.Done? <==>
            && DirectChildren(bundles)
            && Distinct(KeysOf(bundles, key))
            && |bundles| <= MAX_ACCOUNTS
    ensures o.Done? ==> o.value == bundles
  {
    var unique: map<seq<string>, Bundle> := map[];
    ghost var keys := KeysOf(bundles, key);
    var i := 0;
    while i < |bundles|
      invariant 0 <= i <= |bundles| && DirectChildren(bundles[..i])
      invariant Distinct(keys[..i]) && unique.Keys == Elements(keys[..i])
    {
      if |bundles[i]| != 1 { return Raised(InvalidPlan); }
      var k := KeyOf(bundles[i], key);
      DistinctStep(keys, i);
      if k in unique { return Raised(InvalidPlan); }
      assert keys[..i + 1] == keys[..i] + [k];
      unique := unique[k := bundles[i]];
      i := i + 1;
    }
    assert keys[..i] == keys && bundles[..i] == bundles;
    SizeIffDistinct(keys);
    assert |unique| == |unique.Keys|;
    if |unique| > MAX_ACCOUNTS { return Raised(InvalidPlan); }
    return Done(bundles);
  }
}
