/** Whole runs of many account stores over one account root. */
module AccountStoreRuns {
  import opened Wrappers
  import opened Accounts
  import opened Storage
  import opened Journals
  import opened CredentialOwnership
  import opened CredentialTransactionRecovery
  import opened CredentialTransactionPlans
  import opened CredentialTransactions
  import opened AccountMaps
  import opened AccountStores

  datatype Operation =
    | LoadAll
    | ReadOne(name: string)
    | Alter(change: Change, bundle: Option<PreparedWrite>, guard: Option<Guard>)
    | Merge(name: string, expected: Credentials, update: Update)
    | Resolve

  /** One operation of one store, under its own faults; the guarded source may have
      changed before it. */
  datatype Step = Step(who: nat, op: Operation, inode: nat, faults: seq<Fault>, source: Option<File>)

  /** Only a persist takes a bundle or a guard. */
  function BundleOf(op: Operation): Option<PreparedWrite> {
    if op.Alter? && op.change.Persist? then op.bundle else None
  }

  function GuardOf(op: Operation): Option<Guard> {
    if op.Alter? && op.change.Persist? then op.guard else None
  }

  /** What one operation asks of the durable map; reading and resolving ask nothing. */
  function Next(s: seq<Account>, op: Operation): Option<seq<Account>> {
    match op
    case Alter(c, _, _) => if Applied(s, c).Done? then Some(Applied(s, c).value) else None
    case Merge(name, expected, u) => Some(MergedMap(s, name, expected, u))
    case _ => Some(s)
  }

  /** One step of the durable map: nothing, or the operation applied to it. */
  predicate Advances(before: seq<Account>, op: Operation, after: seq<Account>) {
    after == before || Next(before, op) == Some(after)
  }

  // Account and bundle agreement, on both sides of whatever is pending.

  predicate GoodSide(m: Option<seq<Account>>, files: map<Loc, Content>) {
    m.Some? && HomesApart(m.value) && Agrees(m.value, files)
  }

  ghost predicate BothSides(j: Journal, base: Disk) {
    && GoodSide(MapOf(base.authority), base.files)
    && (forall e: Disk :: FinalTarget(j, base, e) ==> GoodSide(MapOf(e.authority), e.files))
  }

  /** A refresh keeps the home it refreshes, drops it, or moves to a new direct child
      that was absent; a bundle is for the new home and carries its credentials. */
  predicate MergePrepared(expected: Credentials, u: Update) {
    match u
    case SuccessMerge(c, _, _, Some(w)) =>
      && c.CanonicalHome() == Some(w.path) && (AUTH, AuthFile(c)) in w.files
      && (c.CanonicalHome() == expected.CanonicalHome() || !w.expectedPresent)
    case SuccessMerge(c, _, _, None) => c.CanonicalHome().None? || c == expected
    case FailureMerge(_, _) => true
  }

  /** A bundle prepared for an account is for its home and carries its credentials,
      and one that is expected to be present is for a home that is already named. */
  predicate WellPrepared(before: seq<Account>, op: Operation) {
    match op
    case Alter(Persist(a, _), Some(w), _) =>
      && a.credentials.CanonicalHome() == Some(w.path) && (AUTH, AuthFile(a.credentials)) in w.files
      && (w.expectedPresent ==> Names(before, w.path))
    case Merge(_, expected, u) => MergePrepared(expected, u)
    case _ => true
  }

  lemma SettledIsGood(j: Journal, base: Disk, d: Disk)
    requires BothSides(j, base) && Settled(j, base, d)
    ensures GoodSide(MapOf(d.authority), d.files)
  {
  }

  lemma IdleIsGood(base: Disk)
    requires base.txn.None? && GoodSide(MapOf(base.authority), base.files)
    ensures BothSides(Idle(base), base)
  {
    forall e: Disk | FinalTarget(Idle(base), base, e)
      ensures GoodSide(MapOf(e.authority), e.files)
    {
      FinalTargetIsFilesAfter(base, e, if base.authority.Some? then base.authority.value.data else Document([]), [],
                              [], None);
      forall l: Loc
        ensures SameAt(e.files, base.files, l)
      {
        assert !IsWanted([], l) && !IsBelow([], l);
      }
      SameEverywhere(e.files, base.files);
    }
  }

  /** A displaced home was named and so was every home that survives unprepared, so
      homes that do not contain each other leave no survivor below a displaced one. */
  lemma ApartHasNoSurvivorBelow(before: seq<Account>, after: seq<Account>, bundles: seq<PreparedWrite>,
                                displaced: seq<Bundle>)
    requires HomesApart(before) && BundlesProven(before, after, bundles) && ExactlyDisplaced(before, after, displaced)
    ensures NoSurvivorBelow(after, bundles, displaced)
  {
    forall i, b | 0 <= i < |after| && b in displaced && after[i].credentials.CanonicalHome().Some?
                  && !Prepared(bundles, after[i].credentials.CanonicalHome().value)
      ensures !(b <= after[i].credentials.CanonicalHome().value)
    {
      var home := after[i].credentials.CanonicalHome().value;
      var k :| 0 <= k < |before| && before[k].credentials == after[i].credentials;
      var m :| 0 <= m < |before| && before[m].credentials.CanonicalHome() == Some(b);
      assert Names(after, home);
    }
  }

  /** A home prepared as absent contains no home that an account names. */
  lemma AbsentContainsNoHome(s: seq<Account>, files: map<Loc, Content>, w: PreparedWrite, i: nat)
    requires Agrees(s, files) && StillExpected(files, w) && !w.expectedPresent
    requires i < |s| && s[i].credentials.CanonicalHome().Some?
    ensures !(w.path <= s[i].credentials.CanonicalHome().value)
  {
    assert Holds(files, s[i]);
  }

  /** A home that is not prepared as absent was named before. */
  predicate Carried(before: seq<Account>, bundle: Option<PreparedWrite>, home: Bundle) {
    Names(before, home) || (bundle.Some? && bundle.value.path == home && !bundle.value.expectedPresent)
  }

  lemma HomeIsCarried(before: seq<Account>, after: seq<Account>, bundle: Option<PreparedWrite>, i: nat)
    requires BundlesProven(before, after, BundleList(bundle))
    requires bundle.Some? && bundle.value.expectedPresent ==> Names(before, bundle.value.path)
    requires i < |after| && after[i].credentials.CanonicalHome().Some?
    ensures Carried(before, bundle, after[i].credentials.CanonicalHome().value)
  {
    var home := after[i].credentials.CanonicalHome().value;
    if Prepared(BundleList(bundle), home) {
      assert PathsOf(BundleList(bundle))[0] == bundle.value.path;
    } else {
      var k :| 0 <= k < |before| && before[k].credentials == after[i].credentials;
      assert before[k].credentials.CanonicalHome() == Some(home);
    }
  }

  lemma CarriedApart(before: seq<Account>, files: map<Loc, Content>, bundle: Option<PreparedWrite>, g: Bundle,
                     h: Bundle)
    requires HomesApart(before) && Agrees(before, files) && Requested(files, BundleList(bundle))
    requires Carried(before, bundle, g) && Carried(before, bundle, h) && g != h
    ensures !(g <= h) && g != []
  {
    if bundle.Some? {
      assert PathsOf(BundleList(bundle))[0] == bundle.value.path;
      assert StillExpected(files, BundleList(bundle)[0]);
    }
    if Names(before, h) {
      var k :| 0 <= k < |before| && before[k].credentials.CanonicalHome() == Some(h);
      if Names(before, g) {
        var i :| 0 <= i < |before| && before[i].credentials.CanonicalHome() == Some(g);
      } else {
        AbsentContainsNoHome(before, files, bundle.value, k);
      }
    } else {
      assert |h| == 1;
    }
  }

  /** Homes stay apart: each was named before or is a direct child that was absent. */
  lemma PreparedKeepsApart(before: seq<Account>, after: seq<Account>, files: map<Loc, Content>,
                           bundle: Option<PreparedWrite>)
    requires HomesApart(before) && Agrees(before, files) && Requested(files, BundleList(bundle))
    requires HomesDistinct(after) && BundlesProven(before, after, BundleList(bundle))
    requires bundle.Some? && bundle.value.expectedPresent ==> Names(before, bundle.value.path)
    ensures HomesApart(after)
  {
    forall i | 0 <= i < |after|
      ensures after[i].credentials.CanonicalHome() != Some([])
    {
      if after[i].credentials.CanonicalHome().Some? {
        HomeIsCarried(before, after, bundle, i);
        assert bundle.Some? ==> PathsOf(BundleList(bundle))[0] == bundle.value.path;
      }
    }
    forall i, k | 0 <= i < |after| && 0 <= k < |after| && i != k && after[i].credentials.CanonicalHome().Some?
                  && after[k].credentials.CanonicalHome().Some?
      ensures !(after[i].credentials.CanonicalHome().value <= after[k].credentials.CanonicalHome().value)
    {
      HomeIsCarried(before, after, bundle, i);
      HomeIsCarried(before, after, bundle, k);
      CarriedApart(before, files, bundle, after[i].credentials.CanonicalHome().value,
                   after[k].credentials.CanonicalHome().value);
    }
  }

  /** A proven map change keeps agreement whichever side its transaction ends on. */
  lemma ProvenIsGood(base: Disk, before: seq<Account>, after: seq<Account>, bundles: seq<PreparedWrite>,
                     displaced: seq<Bundle>, g: Option<GuardRecord>)
    requires MapOf(base.authority) == Some(before) && GoodSide(Some(before), base.files)
    requires Decode(Document(after)) == Some(after) && HomesApart(after)
    requires BundlesProven(before, after, bundles) && Carries(bundles, after)
    requires NoSurvivorBelow(after, bundles, displaced)
    ensures BothSides(RuntimeJournal(base, Document(after), bundles, displaced, g), base)
  {
    var j := RuntimeJournal(base, Document(after), bundles, displaced, g);
    forall e: Disk | FinalTarget(j, base, e)
      ensures GoodSide(MapOf(e.authority), e.files)
    {
      FinalTargetIsFilesAfter(base, e, Document(after), bundles, displaced, g);
      AgreementIff(before, after, base.files, e.files, bundles, displaced);
    }
  }

  lemma {:induction false} UpsertMembers(s: seq<Account>, a: Account)
    ensures forall x :: x in Upsert(s, a) ==> x == a || x in s
    ensures a in Upsert(s, a)
  {
    if s != [] {
      UpsertMembers(s[1..], a);
    }
  }

  lemma ChangeCarries(s: seq<Account>, op: Operation)
    requires op.Alter? && WellPrepared(s, op) && Applied(s, op.change).Done?
    requires HomesDistinct(Applied(s, op.change).value)
    ensures Carries(BundleList(BundleOf(op)), Applied(s, op.change).value)
  {
    var c, bundle := op.change, BundleOf(op);
    if bundle.Some? {
      var a := c.account;
      var t := Applied(s, c).value;
      UpsertMembers(if c.previous.Some? && c.previous.value != a.name then Without(s, c.previous.value) else s, a);
      assert a in t;
      forall i | 0 <= i < |t| && t[i].credentials.CanonicalHome() == Some(bundle.value.path)
        ensures (AUTH, AuthFile(t[i].credentials)) in bundle.value.files
      {
        var k :| 0 <= k < |t| && t[k] == a;
        assert i == k;
      }
    }
  }

  lemma FollowsIsGood(j0: Journal, base0: Disk, j: Journal, base: Disk, op: Operation, before: seq<Account>,
                      displaced: seq<Bundle>)
    requires op.Alter? && BothSides(j0, base0) && WellPrepared(before, op)
    requires Follows(j0, base0, j, base, op.change, before, BundleList(BundleOf(op)), displaced,
                     GuardRecordOf(GuardOf(op)))
    ensures BothSides(j, base)
  {
    if !(j == j0 && base == base0) {
      SettledIsGood(j0, base0, base);
      IdleIsGood(base);
      var after := Applied(before, op.change).value;
      var bundle := BundleOf(op);
      if j != Idle(base) {
        ChangeCarries(before, op);
        PreparedKeepsApart(before, after, base.files, bundle);
        ApartHasNoSurvivorBelow(before, after, BundleList(bundle), displaced);
        ProvenIsGood(base, before, after, BundleList(bundle), displaced, GuardRecordOf(GuardOf(op)));
      }
    }
  }

  lemma UpsertAt(s: seq<Account>, a: Account, k: nat)
    requires UniqueLabels(s) && k < |s| && s[k].name == a.name
    ensures Upsert(s, a) == s[k := a]
  {
    if k > 0 {
      UpsertAt(s[1..], a, k - 1);
      assert s[k := a] == [s[0]] + s[1..][k - 1 := a];
    } else {
      assert s[0 := a] == [a] + s[1..];
    }
  }

  /** A refresh merge replaces one entry in place. */
  lemma MergeIsAt(s: seq<Account>, name: string, expected: Credentials, u: Update) returns (k: nat)
    requires UniqueLabels(s) && HoldsExpected(s, name, expected)
    ensures k < |s| && s[k].credentials == expected
    ensures MergedMap(s, name, expected, u) == s[k := Merged(s[k], u)]
  {
    FindIs(s, name);
    k :| 0 <= k < |s| && s[k].name == name;
    FindMember(s, k);
    UpsertAt(s, Merged(s[k], u), k);
  }

  /** Credentials decide ownership: a failure changes none and is always taken. */
  lemma {:induction false} FailureIsAdmitted(d: Disk, name: string, expected: Credentials, message: string, at: int,
                                             key: string -> string)
    requires MapOf(d.authority).Some?
    ensures MergeAdmitted(d, name, expected, FailureMerge(message, at), key)
  {
    var m := MapOf(d.authority).value;
    var u := FailureMerge(message, at);
    var t := MergedMap(m, name, expected, u);
    if HoldsExpected(m, name, expected) {
      var k := MergeIsAt(m, name, expected, u);
      assert forall i :: 0 <= i < |m| ==> t[i].credentials == m[i].credentials && t[i].name == m[i].name;
      SameOwners(m, t);
    }
  }

  lemma MergeKeepsDistinct(before: seq<Account>, files: map<Loc, Content>, k: nat, expected: Credentials, u: Update)
    requires k < |before| && before[k].credentials == expected && MergePrepared(expected, u)
    requires HomesApart(before) && Agrees(before, files) && Requested(files, MergeBundles(u))
    ensures HomesDistinct(before[k := Merged(before[k], u)])
  {
    var after := before[k := Merged(before[k], u)];
    var home := after[k].credentials.CanonicalHome();
    forall i | 0 <= i < |before| && i != k && before[i].credentials.CanonicalHome().Some?
      ensures before[i].credentials.CanonicalHome() != home
    {
      if home.Some? && home != expected.CanonicalHome() {
        assert StillExpected(files, MergeBundles(u)[0]);
        AbsentContainsNoHome(before, files, MergeBundles(u)[0], i);
      }
    }
  }

  /** A refresh keeps agreement on both sides, also when it moves the home. */
  lemma MergeIsGood(j0: Journal, base0: Disk, j: Journal, base: Disk, before: seq<Account>, name: string,
                    expected: Credentials, u: Update)
    requires BothSides(j0, base0) && MergePrepared(expected, u)
    requires base.txn.None? && Settled(j0, base0, base) && MapOf(base.authority) == Some(before)
    requires MergeJournal(j, base, before, name, expected, u)
    ensures BothSides(j, base)
  {
    SettledIsGood(j0, base0, base);
    IdleIsGood(base);
    if j != Idle(base) {
      var k := MergeIsAt(before, name, expected, u);
      var after := MergedMap(before, name, expected, u);
      var bundle := if u.SuccessMerge? then u.bundle else None;
      MergeKeepsDistinct(before, base.files, k, expected, u);
      MergeProven(before, after, k, expected, u);
      PreparedKeepsApart(before, after, base.files, bundle);
      ProvenIsGood(base, before, after, MergeBundles(u), [], None);
    }
  }

  lemma MergeProven(before: seq<Account>, after: seq<Account>, k: nat, expected: Credentials, u: Update)
    requires k < |before| && before[k].credentials == expected && after == before[k := Merged(before[k], u)]
    requires MergePrepared(expected, u) && HomesDistinct(after)
    ensures BundlesProven(before, after, MergeBundles(u)) && Carries(MergeBundles(u), after)
    ensures u.SuccessMerge? && u.bundle.Some? && u.bundle.value.expectedPresent ==> Names(before, u.bundle.value.path)
  {
    var bundles := MergeBundles(u);
    if bundles != [] {
      assert PathsOf(bundles)[0] == bundles[0].path;
    }
    forall b | b in PathsOf(bundles)
      ensures Names(after, b)
    {
      assert after[k].credentials.CanonicalHome() == Some(b);
    }
    forall i | 0 <= i < |after| && after[i].credentials.CanonicalHome().Some?
               && !Prepared(bundles, after[i].credentials.CanonicalHome().value)
      ensures exists m :: 0 <= m < |before| && before[m].credentials == after[i].credentials
    {
      assert before[i].credentials == after[i].credentials;
    }
    forall i, n | 0 <= i < |after| && 0 <= n < |bundles|
      && after[i].credentials.CanonicalHome() == Some(bundles[n].path)
      ensures (AUTH, AuthFile(after[i].credentials)) in bundles[n].files
    {
      assert after[k].credentials.CanonicalHome() == Some(bundles[n].path);
    }
  }

  // A merge displaces nothing, so a refresh that moves the home leaves the old one.

  /** A home that was named, is named no longer, and is still there. */
  predicate LeftBehind(before: seq<Account>, after: seq<Account>, files: map<Loc, Content>, home: Bundle) {
    Names(before, home) && !Names(after, home) && BundlePresent(files, home)
  }

  predicate MovesHome(expected: Credentials, u: Update) {
    u.SuccessMerge? && expected.CanonicalHome().Some? && u.credentials.CanonicalHome() != expected.CanonicalHome()
  }

  /** A committed merge leaves a home that no account names exactly when the expected
      home is canonical and differs from the new one; then it is that home, and it
      still holds the old credentials. */
  lemma MergeLeavesHomeIff(before: seq<Account>, was: map<Loc, Content>, now: map<Loc, Content>, name: string,
                           expected: Credentials, u: Update)
    requires UniqueLabels(before) && HoldsExpected(before, name, expected) && MergePrepared(expected, u)
    requires HomesApart(before) && Agrees(before, was) && Requested(was, MergeBundles(u))
    requires FilesAfter(was, now, MergeBundles(u), [])
    ensures var after := MergedMap(before, name, expected, u);
            && ((exists home :: LeftBehind(before, after, now, home)) <==> MovesHome(expected, u))
            && (MovesHome(expected, u) ==>
                  && LeftBehind(before, after, now, expected.CanonicalHome().value)
                  && Lookup(now, Loc(expected.CanonicalHome().value, AUTH)) == Some(AuthFile(expected)))
  {
    var k := MergeIsAt(before, name, expected, u);
    var after := MergedMap(before, name, expected, u);
    assert forall i :: 0 <= i < |before| && i != k ==> after[i] == before[i];
    forall home | LeftBehind(before, after, now, home)
      ensures MovesHome(expected, u)
    {
      assert after[k].credentials.CanonicalHome() != Some(home);
    }
    if MovesHome(expected, u) {
      OldHomeStays(before, was, now, k, expected, u);
      assert LeftBehind(before, after, now, expected.CanonicalHome().value);
    }
  }

  lemma OldHomeStays(before: seq<Account>, was: map<Loc, Content>, now: map<Loc, Content>, k: nat,
                     expected: Credentials, u: Update)
    requires k < |before| && before[k].credentials == expected && MovesHome(expected, u) && MergePrepared(expected, u)
    requires HomesApart(before) && Agrees(before, was) && FilesAfter(was, now, MergeBundles(u), [])
    ensures Names(before, expected.CanonicalHome().value)
    ensures !Names(before[k := Merged(before[k], u)], expected.CanonicalHome().value)
    ensures Lookup(now, Loc(expected.CanonicalHome().value, AUTH)) == Some(AuthFile(expected))
    ensures BundlePresent(now, expected.CanonicalHome().value)
  {
    var l := Loc(expected.CanonicalHome().value, AUTH);
    assert Holds(was, before[k]);
    if IsWanted(MergeBundles(u), l) {
      var n :| 0 <= n < |Wanted(MergeBundles(u))| && Wanted(MergeBundles(u))[n].0 == l;
      WantedBundle(MergeBundles(u), n);
    }
    assert !IsBelow([], l);
  }

  /** Rename an account, then refresh it: the bundle is prepared for the new label,
      and the credentials the refresh replaced stay in the home of the old one. */
  lemma RefreshAfterRenameLeavesHome(a: Account, c: Credentials, at: int)
    requires a.name == "work" && a.credentials == CodexLogin("a", Some("r"), Some(Canonical(["work"])))
    requires c == CodexLogin("b", Some("s"), Some(Canonical(["home"])))
    ensures var w := PreparedWrite(["home"], [(AUTH, AuthFile(c))], false, map[AUTH := None]);
            var u := SuccessMerge(c, None, at, Some(w));
            var before := [a.(name := "home")];
            var after := MergedMap(before, "home", a.credentials, u);
            var was := map[Loc(["work"], AUTH) := AuthFile(a.credentials)];
            var now := was[Loc(["home"], AUTH) := AuthFile(c)];
            && Applied([a], Rename("work", "home")) == Done(before)
            && HomesApart(before) && Agrees(before, was) && MergePrepared(a.credentials, u)
            && Requested(was, [w]) && FilesAfter(was, now, [w], [])
            && Agrees(after, now) && LeftBehind(before, after, now, ["work"])
  {
    var w := PreparedWrite(["home"], [(AUTH, AuthFile(c))], false, map[AUTH := None]);
    var u := SuccessMerge(c, None, at, Some(w));
    var before := [a.(name := "home")];
    assert Relabel([a], "work", "home") == before;
    var was := map[Loc(["work"], AUTH) := AuthFile(a.credentials)];
    var now := was[Loc(["home"], AUTH) := AuthFile(c)];
    assert Wanted([w]) == Wanted([]) + WantedOf(w) by { assert [w][..0] == []; }
    assert Wanted([w]) == [(Loc(["home"], AUTH), AuthFile(c))];
    assert PathsOf([w]) == [["home"]];
    forall l: Loc | !IsWanted([w], l)
      ensures Lookup(now, l) == Lookup(was, l)
    {
      assert Wanted([w])[0].0 == Loc(["home"], AUTH);
    }
    assert FilesAfter(was, now, [w], []);
    assert "home"[0] != "work"[0] && ["home"][0] != ["work"][0];
    assert !BundlePresent(was, ["home"]);
    assert StillExpected(was, w);
    MergeLeavesHomeIff(before, was, now, "home", a.credentials, u);
  }

  /** The disk is explained by a transaction, and whichever side that ends on its
      accounts and bundles agree. */
  ghost predicate Tracked(j: Journal, base: Disk, d: Disk) {
    Explains(j, base, d) && BothSides(j, base)
  }

  /** A pending guard is the one from before or the one this operation came with. */
  predicate GuardFrom(j0: Journal, j: Journal, op: Operation) {
    j.guard == j0.guard || j.guard.None? || j.guard == GuardRecordOf(GuardOf(op))
  }

  /** What one operation keeps of the story told about the disk. */
  ghost predicate StoryGoesOn(j0: Journal, base0: Disk, j: Journal, base: Disk, d: Disk, before: seq<Account>,
                              op: Operation) {
    && Explains(j, base, d)
    && GuardFrom(j0, j, op)
    && (BothSides(j0, base0) && WellPrepared(before, op) ==> BothSides(j, base))
  }

  /** One link of the history of durable maps. */
  predicate Linked(prior: Option<File>, op: Operation, made: bool, now: Option<File>) {
    && MapOf(prior).Some? && MapOf(now).Some?
    && Advances(MapOf(prior).value, op, MapOf(now).value)
    && (made ==> Next(MapOf(prior).value, op) == MapOf(now))
  }

  predicate CachesDurable(store: AccountStore)
    reads store, store.root
  {
    store.baseline == Some(ExpectedSource(store.root.authority)) && Some(store.accounts) == MapOf(store.root.authority)
  }

  ghost predicate Ready(root: AccountRoot, store: AccountStore, inode: nat)
    reads root, store
  {
    && store.root == root && store.hasPrivate && store.Valid() && store.baseline.Some?
    && MapOf(root.authority).Some?
    && (root.authority.Some? ==> inode != root.authority.value.inode)
  }

  method RunMerge(root: AccountRoot, store: AccountStore, op: Operation, inode: nat, ghost j0: Journal,
                  ghost base0: Disk)
    returns (made: bool, ghost j: Journal, ghost base: Disk)
    requires Ready(root, store, inode) && Explains(j0, base0, root.State()) && op.Merge?
    modifies store`accounts, store`baseline, root`pending, root`looks, root`files, root`txn, root`authority
    ensures store.Valid() && (made ==> CachesDurable(store))
    ensures Linked(old(root.authority), op, made, root.authority)
    ensures StoryGoesOn(j0, base0, j, base, root.State(), MapOf(old(root.authority)).value, op)
  {
    ghost var before := MapOf(root.authority).value;
    var o;
    o, j, base := store.MergeCredentialRefresh(op.name, op.expected, op.update, inode, j0, base0);
    made := o.Done?;
    if !(j == j0 && base == base0) && BothSides(j0, base0) && WellPrepared(before, op) {
      MergeIsGood(j0, base0, j, base, before, op.name, op.expected, op.update);
    }
  }

  lemma ChangeGoesOn(j0: Journal, base0: Disk, j: Journal, base: Disk, d: Disk, before: seq<Account>, op: Operation,
                     cached: seq<Account>, displaced: seq<Bundle>)
    requires op.Alter? && Explains(j, base, d)
    requires Follows(j0, base0, j, base, op.change, cached, BundleList(BundleOf(op)), displaced,
                     GuardRecordOf(GuardOf(op)))
    requires (j == j0 && base == base0) || MapOf(base.authority) == Some(before)
    ensures StoryGoesOn(j0, base0, j, base, d, before, op)
  {
    if BothSides(j0, base0) && WellPrepared(before, op) {
      if !(j == j0 && base == base0) { FollowsIsGood(j0, base0, j, base, op, before, displaced); }
    }
  }

  method RunPersist(root: AccountRoot, store: AccountStore, op: Operation, inode: nat, ghost j0: Journal,
                 ghost base0: Disk)
    returns (made: bool, ghost j: Journal, ghost base: Disk)
    requires Ready(root, store, inode) && Explains(j0, base0, root.State()) && op.Alter? && op.change.Persist?
    modifies store`accounts, store`baseline, root`pending, root`looks, root`files, root`txn, root`authority
    ensures store.Valid() && (made ==> CachesDurable(store))
    ensures Linked(old(root.authority), op, made, root.authority)
    ensures StoryGoesOn(j0, base0, j, base, root.State(), MapOf(old(root.authority)).value, op)
  {
    ghost var before, cached, displaced := MapOf(root.authority).value, store.accounts, [];
    var o;
    o, j, base, displaced := store.PersistCredentials(op.change.account, op.change.previous, op.bundle, op.guard, inode,
                                                         j0, base0);
    ChangeGoesOn(j0, base0, j, base, root.State(), before, op, cached, displaced);
    made := o.Done?;
  }

  method RunRemove(root: AccountRoot, store: AccountStore, op: Operation, inode: nat, ghost j0: Journal,
                 ghost base0: Disk)
    returns (made: bool, ghost j: Journal, ghost base: Disk)
    requires Ready(root, store, inode) && Explains(j0, base0, root.State()) && op.Alter? && op.change.Remove?
    modifies store`accounts, store`baseline, root`pending, root`looks, root`files, root`txn, root`authority
    ensures store.Valid() && (made ==> CachesDurable(store))
    ensures Linked(old(root.authority), op, made, root.authority)
    ensures StoryGoesOn(j0, base0, j, base, root.State(), MapOf(old(root.authority)).value, op)
  {
    ghost var before, cached, displaced := MapOf(root.authority).value, store.accounts, [];
    var o;
    o, j, base, displaced := store.RemoveCredentials(op.change.target, inode, j0, base0);
    ChangeGoesOn(j0, base0, j, base, root.State(), before, op, cached, displaced);
    made := o == Done(true);
  }

  method RunRename(root: AccountRoot, store: AccountStore, op: Operation, inode: nat, ghost j0: Journal,
                 ghost base0: Disk)
    returns (made: bool, ghost j: Journal, ghost base: Disk)
    requires Ready(root, store, inode) && Explains(j0, base0, root.State()) && op.Alter? && op.change.Rename?
    modifies store`accounts, store`baseline, root`pending, root`looks, root`files, root`txn, root`authority
    ensures store.Valid() && (made ==> CachesDurable(store))
    ensures Linked(old(root.authority), op, made, root.authority)
    ensures StoryGoesOn(j0, base0, j, base, root.State(), MapOf(old(root.authority)).value, op)
  {
    ghost var before, cached, displaced := MapOf(root.authority).value, store.accounts, [];
    var o;
    o, j, base, displaced := store.Rename(op.change.before, op.change.after, inode, j0, base0);
    ChangeGoesOn(j0, base0, j, base, root.State(), before, op, cached, displaced);
    made := o == Done(true) && op.change.before != op.change.after;
  }

  method RunReset(root: AccountRoot, store: AccountStore, op: Operation, inode: nat, ghost j0: Journal,
                 ghost base0: Disk)
    returns (made: bool, ghost j: Journal, ghost base: Disk)
    requires Ready(root, store, inode) && Explains(j0, base0, root.State()) && op.Alter? && op.change.Reset?
    modifies store`accounts, store`baseline, root`pending, root`looks, root`files, root`txn, root`authority
    ensures store.Valid() && (made ==> CachesDurable(store))
    ensures Linked(old(root.authority), op, made, root.authority)
    ensures StoryGoesOn(j0, base0, j, base, root.State(), MapOf(old(root.authority)).value, op)
  {
    ghost var before, cached, displaced := MapOf(root.authority).value, store.accounts, [];
    var o;
    o, j, base, displaced := store.ResetProviderCredentials(op.change.provider, inode, j0, base0);
    ChangeGoesOn(j0, base0, j, base, root.State(), before, op, cached, displaced);
    made := o.Done? && o.value > 0;
  }

  /** One operation of one store, under any faults. */
  method RunStep(root: AccountRoot, store: AccountStore, step: Step, ghost j0: Journal, ghost base0: Disk)
    returns (made: bool, ghost j: Journal, ghost base: Disk)
    requires store.root == root && store.hasPrivate && store.Valid()
    requires MapOf(root.authority).Some? && Explains(j0, base0, root.State())
    modifies store`accounts, store`baseline, root`pending, root`looks, root`source, root`files, root`txn, root`authority
    ensures store.Valid() && (made ==> CachesDurable(store))
    ensures Linked(old(root.authority), step.op, made, root.authority)
    ensures StoryGoesOn(j0, base0, j, base, root.State(), MapOf(old(root.authority)).value, step.op)
  {
    j, base := j0, base0;
    root.RestartWithSource(step.faults, step.source);
    if step.op.LoadAll? {
      var o := store.Load(j0, base0);
      return o.Done? && CachesDurable(store), j, base;
    }
    if store.baseline.None? { return false, j, base; }
    var taken := root.authority.Some? && step.inode == root.authority.value.inode;
    var inode := if taken then step.inode + 1 else step.inode;
    match step.op
    case ReadOne(name) =>
      var o := store.ReadFresh(name);
      made := o.Done?;
    case Resolve =>
      var o := store.RecoverCredentials(j0, base0);
      made := o == Done(true);
    case Merge(_, _, _) =>
      made, j, base := RunMerge(root, store, step.op, inode, j0, base0);
    case Alter(c, _, _) =>
      match c {
        case Persist(_, _) => made, j, base := RunPersist(root, store, step.op, inode, j0, base0);
        case Remove(_) => made, j, base := RunRemove(root, store, step.op, inode, j0, base0);
        case Rename(_, _) => made, j, base := RunRename(root, store, step.op, inode, j0, base0);
        case Reset(_) => made, j, base := RunReset(root, store, step.op, inode, j0, base0);
      }
  }

  /** The guard of one of the operations. */
  predicate GuardIn(g: Option<GuardRecord>, script: seq<Step>) {
    g.None? || exists k :: 0 <= k < |script| && GuardRecordOf(GuardOf(script[k].op)) == g
  }

  /** One link of a run: nothing or the operation, and the operation if it was made. */
  predicate Chained(before: seq<Account>, op: Operation, made: bool, after: seq<Account>) {
    Advances(before, op, after) && (made ==> Next(before, op) == Some(after))
  }

  /** Any script, from whatever disk its journal and base explain. */
  method RunScript(root: AccountRoot, stores: seq<AccountStore>, script: seq<Step>, ghost j0: Journal,
                   ghost base0: Disk)
    returns (made: seq<bool>, ghost history: seq<seq<Account>>, ghost j: Journal, ghost base: Disk)
    requires forall i :: 0 <= i < |stores| ==> stores[i].root == root && stores[i].hasPrivate && stores[i].Valid()
    requires forall k :: 0 <= k < |script| ==> script[k].who < |stores|
    requires MapOf(root.authority).Some? && Explains(j0, base0, root.State())
    modifies stores, root
    ensures |made| == |script| && |history| == |script| + 1
    ensures MapOf(old(root.authority)) == Some(history[0]) && MapOf(root.authority) == Some(history[|script|])
    ensures forall k :: 0 <= k < |script| ==> Chained(history[k], script[k].op, made[k], history[k + 1])
    ensures forall i :: 0 <= i < |stores| ==> stores[i].Valid()
    ensures Explains(j, base, root.State()) && (j.guard == j0.guard || GuardIn(j.guard, script))
    ensures BothSides(j0, base0) && (forall k :: 0 <= k < |script| ==> WellPrepared(history[k], script[k].op)) ==>
              BothSides(j, base)
  {
    made, history := [], [MapOf(root.authority).value];
    j, base := j0, base0;
    ghost var good := BothSides(j0, base0);
    for n := 0 to |script|
      invariant |made| == n && |history| == n + 1
      invariant forall i :: 0 <= i < |stores| ==> stores[i].Valid()
      invariant MapOf(old(root.authority)) == Some(history[0]) && MapOf(root.authority) == Some(history[n])
      invariant forall k :: 0 <= k < n ==> Chained(history[k], script[k].op, made[k], history[k + 1])
      invariant Explains(j, base, root.State()) && (j.guard == j0.guard || GuardIn(j.guard, script))
      invariant good && (forall k :: 0 <= k < n ==> WellPrepared(history[k], script[k].op)) ==> BothSides(j, base)
    {
      var done;
      done, j, base := RunStep(root, stores[script[n].who], script[n], j, base);
      made := made + [done];
      history := history + [MapOf(root.authority).value];
    }
  }

  /** No lost updates, and agreement, over whole runs.

      Any number of stores, started in any state, interleave any operations under any
      faults, with and without source guards, while guarded sources change; one last
      undisturbed recovery follows.  The durable maps form a chain in which every link
      is nothing or one operation applied to the map before it, every operation
      reported as made is a link, and every loaded cache is the decoding of its
      baseline.  What is pending at the end has a guard that some operation came with,
      and the last recovery resolves it if it presents that guard and the source is as
      recorded.  Then, if every bundle was well prepared for the map it met, every home
      named by an account holds that account's credentials. */
  method Interleave(root: AccountRoot, stores: seq<AccountStore>, script: seq<Step>, last: Option<Guard>,
                    source: Option<File>, ghost j0: Journal, ghost base0: Disk)
    returns (made: seq<bool>, ghost history: seq<seq<Account>>, ghost recorded: Option<GuardRecord>)
    requires forall i :: 0 <= i < |stores| ==> stores[i].root == root && stores[i].hasPrivate && stores[i].Valid()
    requires forall k :: 0 <= k < |script| ==> script[k].who < |stores|
    requires MapOf(root.authority).Some? && Explains(j0, base0, root.State())
    modifies stores, root
    ensures |made| == |script| && |history| == |script| + 1
    ensures MapOf(old(root.authority)) == Some(history[0]) && MapOf(root.authority) == Some(history[|script|])
    ensures forall k :: 0 <= k < |script| ==> Chained(history[k], script[k].op, made[k], history[k + 1])
    ensures forall i :: 0 <= i < |stores| ==> stores[i].Valid()
    ensures recorded == j0.guard || GuardIn(recorded, script)
    ensures GuardMatches(recorded, last, source) ==> root.txn.None?
    ensures (&& GuardMatches(recorded, last, source) && BothSides(j0, base0)
             && (forall k :: 0 <= k < |script| ==> WellPrepared(history[k], script[k].op))) ==>
              GoodSide(MapOf(root.authority), root.files)
  {
    ghost var j, base;
    made, history, j, base := RunScript(root, stores, script, j0, base0);
    root.RestartWithSource([], source);
    recorded := PendingGuard(root.State());
    var recovered := Recover(root, last, j, base);
    if GuardMatches(recorded, last, source) && BothSides(j, base) { SettledIsGood(j, base, root.State()); }
  }
}
