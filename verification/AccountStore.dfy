/** The transactional account store: a cache of the durable accounts that commits
    whole maps under optimistic concurrency. */
module AccountStores {
  import opened Wrappers
  import opened Accounts
  import opened Storage
  import opened PrivateBundlePaths
  import opened Journals
  import opened CredentialOwnership
  import opened CredentialTransactionRecovery
  import opened CredentialTransactionPlans
  import opened CredentialTransactions
  import opened AccountMaps
  import opened Decimals

  /** Strict decoding: labels are unique and so is every credential's owner. */
  function Decode(c: Content): Option<seq<Account>> {
    if c.Document? && UniqueLabels(c.accounts) && UniqueOwners(c.accounts) then Some(c.accounts) else None
  }

  /** The durable account map; an authority that does not decode has none. */
  function MapOf(authority: Option<File>): Option<seq<Account>> {
    if authority.None? then Some([]) else Decode(authority.value.data)
  }

  /** The cache is the decoding of the baseline fingerprint. */
  predicate CacheIs(accounts: seq<Account>, baseline: Expected) {
    match baseline
    case Absent => accounts == []
    case Exactly(f) => Decode(f.digest.preimage) == Some(accounts)
  }

  /** A matching baseline means the cache is the durable map. */
  lemma MatchingCacheIsDurable(accounts: seq<Account>, baseline: Expected, authority: Option<File>)
    requires CacheIs(accounts, baseline) && baseline == ExpectedSource(authority)
    ensures MapOf(authority) == Some(accounts)
  {
  }

  /** A state the store will read: orphaned credentials without an authority, and
      an authority that does not decode, are refused. */
  predicate Readable(d: Disk) {
    if d.authority.None? then d.txn.None? && d.files == map[] else MapOf(d.authority).Some?
  }

  /** A journal and base that explain how the disk got into its present state. */
  ghost predicate Explains(j: Journal, base: Disk, d: Disk) {
    j.Runtime? && NoDisplacedAncestor(j) && Inv(j, base, d)
  }

  /** The journal of a transaction that has nothing to do. */
  function Idle(d: Disk): Journal {
    RuntimeJournal(d, if d.authority.Some? then d.authority.value.data else Document([]), [], [], None)
  }

  lemma DirectIsExplained(d: Disk, payload: Content, e: Disk, inode: nat)
    requires d.txn.None?
    requires d.authority.Some? ==> inode != d.authority.value.inode
    requires e == d || e == Replaced(d, File(inode, payload))
    ensures Explains(RuntimeJournal(d, payload, [], [], None), d, e)
    ensures FinalTarget(RuntimeJournal(d, payload, [], [], None), d, Replaced(d, File(inode, payload)))
  {
  }

  lemma IdleExplains(d: Disk)
    requires d.txn.None?
    ensures Explains(Idle(d), d, d)
  {
  }

  /** A guarded persist that stops right after its journal is a reachable state that
      nobody without the guard can resolve. */
  lemma GuardedCrashIsReachable(d: Disk, payload: Content, g: GuardRecord, key: string -> string)
    requires d.txn.None?
    ensures var j := RuntimeJournal(d, payload, [], [], Some(g));
            var e := DirectorySet(d, Some(Evidence(Some(j), map[])));
            && RuntimeAccepted(d, payload, [], [], Some(g), key)
            && Explains(j, d, e) && Guarded(e, None) && PendingGuard(e) == Some(g)
  {
    var j := RuntimeJournal(d, payload, [], [], Some(g));
    assert forall l: Loc :: SameAt(d.files, d.files, l);
    assert Wanted([]) == [] && j.files == [] && KeysOf([], key) == [];
  }

  // The set algebra over which account names which private bundle.

  ghost predicate Indexes(m: map<Bundle, Account>, accounts: seq<Account>) {
    && (forall h :: h in m <==> Names(accounts, h))
    && (forall i :: 0 <= i < |accounts| && accounts[i].credentials.CanonicalHome().Some? ==>
                      var h := accounts[i].credentials.CanonicalHome().value; h in m && m[h] == accounts[i])
  }

  lemma NamesStep(accounts: seq<Account>, i: nat, h: Bundle)
    requires i < |accounts|
    ensures Names(accounts[..i + 1], h) <==>
            Names(accounts[..i], h) || accounts[i].credentials.CanonicalHome() == Some(h)
  {
    if Names(accounts[..i + 1], h) {
      var k :| 0 <= k < i + 1 && accounts[..i + 1][k].credentials.CanonicalHome() == Some(h);
      assert k < i ==> accounts[..i][k].credentials.CanonicalHome() == Some(h);
    }
    if Names(accounts[..i], h) {
      var k :| 0 <= k < i && accounts[..i][k].credentials.CanonicalHome() == Some(h);
      assert accounts[..i + 1][k].credentials.CanonicalHome() == Some(h);
    }
    if accounts[i].credentials.CanonicalHome() == Some(h) {
      assert accounts[..i + 1][i].credentials.CanonicalHome() == Some(h);
    }
  }

  lemma IndexStep(accounts: seq<Account>, i: nat, m: map<Bundle, Account>)
    requires i < |accounts| && Indexes(m, accounts[..i])
    ensures var home := accounts[i].credentials.CanonicalHome();
            && (home.None? ==> Indexes(m, accounts[..i + 1]))
            && (home.Some? && home.value !in m ==> Indexes(m[home.value := accounts[i]], accounts[..i + 1]))
  {
    forall h
      ensures Names(accounts[..i + 1], h) <==>
              Names(accounts[..i], h) || accounts[i].credentials.CanonicalHome() == Some(h)
    {
      NamesStep(accounts, i, h);
    }
    assert forall k :: 0 <= k < i ==> accounts[..i + 1][k] == accounts[..i][k];
  }

  lemma HomesDistinctStep(accounts: seq<Account>, i: nat)
    requires i < |accounts| && HomesDistinct(accounts[..i])
    ensures var home := accounts[i].credentials.CanonicalHome();
            && (home.Some? && Names(accounts[..i], home.value) ==> !HomesDistinct(accounts))
            && (home.None? || !Names(accounts[..i], home.value) ==> HomesDistinct(accounts[..i + 1]))
  {
    var home := accounts[i].credentials.CanonicalHome();
    if home.Some? && Names(accounts[..i], home.value) {
      var k :| 0 <= k < i && accounts[..i][k].credentials.CanonicalHome() == home;
      assert accounts[k].credentials.CanonicalHome() == home;
    } else {
      forall k | 0 <= k < i && accounts[k].credentials.CanonicalHome().Some?
        ensures accounts[k].credentials.CanonicalHome() != home
      {
        assert accounts[..i][k].credentials.CanonicalHome() == accounts[k].credentials.CanonicalHome();
      }
      assert forall k :: 0 <= k < i ==> accounts[..i + 1][k] == accounts[..i][k];
    }
  }

  /** Index accounts by canonical home; two accounts with one home collide. */
  method CanonicalPrivateAccounts(accounts: seq<Account>) returns (o: Outcome<map<Bundle, Account>>)
    ensures !o.Crashed? && (o.Raised? ==> o.error == Collision)
    ensures o.Done? <==> HomesDistinct(accounts)
    ensures o.Done? ==> Indexes(o.value, accounts)
  {
    var references: map<Bundle, Account> := map[];
    for i := 0 to |accounts|
      invariant HomesDistinct(accounts[..i])
      invariant Indexes(references, accounts[..i])
    {
      IndexStep(accounts, i, references);
      HomesDistinctStep(accounts, i);
      var home := accounts[i].credentials.CanonicalHome();
      if home.Some? {
        if home.value in references { return Raised(Collision); }
        references := references[home.value := accounts[i]];
      }
    }
    assert accounts[..|accounts|] == accounts;
    return Done(references);
  }

  method Listed(s: set<Bundle>) returns (r: seq<Bundle>)
    ensures forall b :: b in r <==> b in s
    ensures Distinct(r)
  {
    r := [];
    var left := s;
    while left != {}
      invariant left <= s
      invariant forall b :: b in r <==> b in s && b !in left
      invariant Distinct(r)
      decreases |left|
    {
      var b :| b in left;
      left := left - {b};
      r := r + [b];
    }
  }

  lemma ProvenIff(before: seq<Account>, after: seq<Account>, bundles: seq<PreparedWrite>,
                  was: map<Bundle, Account>, now: map<Bundle, Account>)
    requires Indexes(was, before) && Indexes(now, after)
    ensures BundlesProven(before, after, bundles) <==>
            && (forall b :: b in PathsOf(bundles) ==> b in now)
            && (forall b :: b in now && !Prepared(bundles, b) ==>
                              b in was && was[b].credentials == now[b].credentials)
  {
    if BundlesProven(before, after, bundles) {
      forall b | b in now && !Prepared(bundles, b)
        ensures b in was && was[b].credentials == now[b].credentials
      {
        var i :| 0 <= i < |after| && after[i].credentials.CanonicalHome() == Some(b);
        var k :| 0 <= k < |before| && before[k].credentials == after[i].credentials;
      }
    }
    if && (forall b :: b in PathsOf(bundles) ==> b in now)
       && (forall b :: b in now && !Prepared(bundles, b) ==> b in was && was[b].credentials == now[b].credentials) {
      forall i | 0 <= i < |after| && after[i].credentials.CanonicalHome().Some?
                 && !Prepared(bundles, after[i].credentials.CanonicalHome().value)
        ensures exists k :: 0 <= k < |before| && before[k].credentials == after[i].credentials
      {
        var b := after[i].credentials.CanonicalHome().value;
        assert b in now && now[b] == after[i];
        var k :| 0 <= k < |before| && before[k].credentials.CanonicalHome() == Some(b);
        assert was[b] == before[k];
      }
    }
  }

  /** What a new map does to the private tree, or why it is refused: every prepared
      bundle is named, every new or changed home is prepared, and the homes no longer
      named are displaced. */
  method PrivateChange(before: seq<Account>, after: seq<Account>, bundles: seq<PreparedWrite>)
    returns (o: Outcome<seq<Bundle>>)
    ensures !o.Crashed? && (o.Raised? ==> o.error == Collision || o.error == InvalidPlan)
    ensures o.Done? <==> HomesDistinct(before) && HomesDistinct(after) && BundlesProven(before, after, bundles)
    ensures o.Done? ==> ExactlyDisplaced(before, after, o.value) && Distinct(o.value)
  {
    var was :- CanonicalPrivateAccounts(before);
    var now :- CanonicalPrivateAccounts(after);
    ProvenIff(before, after, bundles, was, now);
    var prepared := set b | b in PathsOf(bundles);
    assert forall b :: b in prepared <==> Prepared(bundles, b);
    if !(prepared <= now.Keys) { return Raised(InvalidPlan); }
    var introduced := now.Keys - was.Keys;
    if !(introduced <= prepared) { return Raised(Collision); }
    var changed := set b | b in was.Keys * now.Keys && was[b].credentials != now[b].credentials;
    if !(changed <= prepared) { return Raised(Collision); }
    var displaced := Listed(was.Keys - now.Keys);
    return Done(displaced);
  }

  /** What an accepted request says about the tree it was planned against. */
  predicate Requested(files: map<Loc, Content>, bundles: seq<PreparedWrite>) {
    && DirectChildren(PathsOf(bundles))
    && forall i :: 0 <= i < |bundles| ==> StillExpected(files, bundles[i])
  }

  /** How the explanation of the disk moves on when a store commits: it stays, or the
      earlier transaction settled and this one, or none, took its place. */
  ghost predicate Moves(j0: Journal, base0: Disk, j: Journal, base: Disk, before: seq<Account>,
                        after: seq<Account>, bundles: seq<PreparedWrite>, displaced: seq<Bundle>,
                        g: Option<GuardRecord>) {
    || (j == j0 && base == base0)
    || (&& base.txn.None? && Settled(j0, base0, base) && MapOf(base.authority) == Some(before)
        && (|| j == Idle(base)
            || (&& j == RuntimeJournal(base, Document(after), bundles, displaced, g)
                && Requested(base.files, bundles))))
  }

  /** The set algebra that a committed map passed. */
  predicate Proven(before: seq<Account>, after: seq<Account>, bundles: seq<PreparedWrite>, displaced: seq<Bundle>) {
    HomesDistinct(after) && BundlesProven(before, after, bundles) && ExactlyDisplaced(before, after, displaced)
  }

  /** A change moves the explanation only to a proven transaction. */
  ghost predicate Follows(j0: Journal, base0: Disk, j: Journal, base: Disk, c: Change, before: seq<Account>,
                          bundles: seq<PreparedWrite>, displaced: seq<Bundle>, g: Option<GuardRecord>) {
    || (j == j0 && base == base0)
    || (&& Applied(before, c).Done? && Decode(Document(Applied(before, c).value)).Some?
        && Moves(j0, base0, j, base, before, Applied(before, c).value, bundles, displaced, g)
        && Proven(before, Applied(before, c).value, bundles, displaced))
  }

  /** The private tree after a change that ran undisturbed: it removes exactly the
      homes no longer named, and keeps agreement exactly when none of those contains
      a home that survives. */
  ghost predicate TreeFollows(before: seq<Account>, after: seq<Account>, was: map<Loc, Content>, now: map<Loc, Content>,
                              bundles: seq<PreparedWrite>, displaced: seq<Bundle>) {
    && Proven(before, after, bundles, displaced)
    && FilesAfter(was, now, bundles, displaced)
    && (Agrees(before, was) && Carries(bundles, after) ==>
          (Agrees(after, now) <==> NoSurvivorBelow(after, bundles, displaced)))
  }

  /** The durable map moved from the cached one to the change applied to it. */
  predicate Committed(c: Change, cached: seq<Account>, prior: Option<File>, now: Option<File>) {
    && MapOf(prior) == Some(cached)
    && Applied(cached, c).Done?
    && MapOf(now) == Some(Applied(cached, c).value)
  }

  /** Either the authority is untouched or the change was committed; a change
      reported as made was committed and is what the store now caches. */
  predicate Stepped(c: Change, made: bool, cached: seq<Account>, prior: Option<File>, caches: seq<Account>,
                    now: Option<File>) {
    && (now == prior || Committed(c, cached, prior, now))
    && (made ==> Committed(c, cached, prior, now) && MapOf(now) == Some(caches))
  }

  lemma TreeIs(before: seq<Account>, after: seq<Account>, was: map<Loc, Content>, now: map<Loc, Content>,
               bundles: seq<PreparedWrite>, displaced: seq<Bundle>)
    requires Proven(before, after, bundles, displaced) && FilesAfter(was, now, bundles, displaced)
    ensures TreeFollows(before, after, was, now, bundles, displaced)
  {
    if Agrees(before, was) && Carries(bundles, after) {
      AgreementIff(before, after, was, now, bundles, displaced);
    }
  }

  /** A rename is accepted: the label exists, and the new one is free or the same. */
  predicate Renames(s: seq<Account>, before: string, after: string) {
    HasLabel(s, before) && (before == after || !HasLabel(s, after))
  }

  /** The transaction layer takes the request: it is direct, or its plan is valid. */
  predicate Admits(d: Disk, payload: Content, bundles: seq<PreparedWrite>, displaced: seq<Bundle>, g: Option<Guard>,
                   key: string -> string) {
    Direct(bundles, displaced, g) || WritesJournal(d, payload, bundles, displaced, g, key)
  }

  /** A merge onto this disk decodes, and the transaction layer takes it. */
  predicate MergeAdmitted(d: Disk, name: string, expected: Credentials, u: Update, key: string -> string) {
    && MapOf(d.authority).Some?
    && Decode(Document(MergedMap(MapOf(d.authority).value, name, expected, u))).Some?
    && Admits(d, Document(MergedMap(MapOf(d.authority).value, name, expected, u)), MergeBundles(u), [], None, key)
  }

  function BundleList(b: Option<PreparedWrite>): seq<PreparedWrite> {
    if b.Some? then [b.value] else []
  }

  function MergeBundles(u: Update): seq<PreparedWrite> {
    if u.SuccessMerge? then BundleList(u.bundle) else []
  }

  predicate HoldsExpected(s: seq<Account>, name: string, expected: Credentials) {
    Find(s, name).Some? && Find(s, name).value.credentials == expected
  }

  ghost predicate MergeJournal(j: Journal, base: Disk, before: seq<Account>, name: string, expected: Credentials,
                               u: Update) {
    && HoldsExpected(before, name, expected)
    && Decode(Document(MergedMap(before, name, expected, u))).Some?
    && (|| j == Idle(base)
        || (&& j == RuntimeJournal(base, Document(MergedMap(before, name, expected, u)), MergeBundles(u), [], None)
            && Requested(base.files, MergeBundles(u))))
  }

  lemma {:induction false} UpsertAppends(s: seq<Account>, a: Account)
    requires forall i :: 0 <= i < |s| ==> s[i].name != a.name
    ensures Upsert(s, a) == s + [a]
  {
    if s != [] {
      UpsertAppends(s[1..], a);
    }
  }

  lemma RelabelAppends(s: seq<Account>, before: string, after: string, i: nat)
    requires UniqueLabels(s) && !HasLabel(s, after) && i < |s|
    ensures Upsert(Relabel(s, before, after)[..i], Relabel(s, before, after)[i]) == Relabel(s, before, after)[..i + 1]
  {
    var t := Relabel(s, before, after);
    RelabelAt(s, before, after, i);
    UpsertAppends(t[..i], t[i]);
  }

  lemma {:induction false} ExceptProviderKeeps(s: seq<Account>, p: ProviderId)
    ensures |ExceptProvider(s, p)| <= |s|
    ensures forall a :: a in ExceptProvider(s, p) <==> a in s && a.credentials.Provider() != p
    ensures |ExceptProvider(s, p)| == |s| ==> ExceptProvider(s, p) == s
  {
    if s != [] {
      ExceptProviderKeeps(s[1..], p);
    }
  }

  function Renamed(a: Option<Account>, after: string): Option<Account> {
    if a.Some? then Some(a.value.(name := after)) else None
  }

  class AccountStore {
    const root: AccountRoot
    const hasPrivate: bool
    const key: string -> string
    var accounts: seq<Account>
    var baseline: Option<Expected>

    /** A loaded store caches exactly what its baseline fingerprint decodes to. */
    ghost predicate Valid()
      reads this
    {
      baseline.Some? ==> CacheIs(accounts, baseline.value)
    }

    constructor (root: AccountRoot, hasPrivate: bool, key: string -> string)
      ensures Valid() && baseline.None?
      ensures this.root == root && this.hasPrivate == hasPrivate && this.key == key
    {
      this.root := root;
      this.hasPrivate := hasPrivate;
      this.key := key;
      this.accounts := [];
      this.baseline := None;
    }

    /** Nothing stands in the way of committing a candidate map: the cache is current,
        the map decodes, the set algebra holds and the transaction layer takes it. */
    predicate CanCommit(d: Disk, cached: seq<Account>, expected: Option<Expected>, candidate: seq<Account>,
                        bundles: seq<PreparedWrite>, g: Option<Guard>, displaced: seq<Bundle>, source: Option<File>) {
      && Readable(d) && d.txn.None? && expected == Some(ExpectedSource(d.authority))
      && Decode(Document(candidate)).Some?
      && if hasPrivate then
           && HomesDistinct(cached) && HomesDistinct(candidate) && BundlesProven(cached, candidate, bundles)
           && Admits(d, Document(candidate), bundles, displaced, g, key)
           && (Direct(bundles, displaced, g) || GuardMatches(GuardRecordOf(g), g, source))
         else bundles == [] && g.None?
    }

    /** ... and the same for the map one change asks for. */
    predicate CanChange(d: Disk, cached: seq<Account>, expected: Option<Expected>, c: Change,
                        bundles: seq<PreparedWrite>, g: Option<Guard>, displaced: seq<Bundle>, source: Option<File>) {
      Applied(cached, c).Done? && CanCommit(d, cached, expected, Applied(cached, c).value, bundles, g, displaced,
                                            source)
    }

    /** Read the strict durable map and its fingerprint. */
    method FreshAccounts() returns (o: Outcome<(Expected, seq<Account>)>)
      modifies root`pending
      ensures o.Done? ==>
                && Readable(root.State())
                && o.value.0 == ExpectedSource(root.authority)
                && CacheIs(o.value.1, o.value.0)
                && MapOf(root.authority) == Some(o.value.1)
      ensures NoDoubt(old(root.pending)) ==> NoDoubt(root.pending) && o != Raised(DurabilityUncertain)
      ensures old(root.pending) == [] ==> root.pending == []
      ensures old(root.pending) == [] && Readable(root.State()) ==> o.Done?
    {
      var current :- root.ReadAuthority();
      if current.None? {
        if root.txn.Some? { return Raised(SourceChanged); }
        if root.files != map[] { return Raised(RecoveryBlocked); }
        return Done((Absent, []));
      }
      var decoded := Decode(current.value.data);
      if decoded.None? { return Raised(InvalidSchema); }
      return Done((Exactly(FingerprintOf(current.value)), decoded.value));
    }

    method Adopt(latest: (Expected, seq<Account>))
      requires CacheIs(latest.1, latest.0)
      modifies this`accounts, this`baseline
      ensures Valid() && accounts == latest.1 && baseline == Some(latest.0)
    {
      accounts := latest.1;
      baseline := Some(latest.0);
    }

    /** Resolve pending private evidence, then cache the durable map. */
    method Load(ghost j: Journal, ghost base: Disk) returns (o: Outcome<()>)
      requires Valid()
      modifies this`accounts, this`baseline, root`pending, root`looks, root`files, root`txn
      ensures Valid() && root.authority == old(root.authority) && root.published == old(root.published)
      ensures old(baseline).Some? ==> o == Done(()) && accounts == old(accounts) && baseline == old(baseline)
                                      && root.State() == old(root.State())
      ensures o.Done? && old(baseline).None? ==>
                && baseline == Some(ExpectedSource(root.authority)) && MapOf(root.authority) == Some(accounts)
                && root.txn.None?
      ensures !o.Done? ==> baseline == old(baseline) && accounts == old(accounts)
      ensures Explains(j, base, old(root.State())) ==> Explains(j, base, root.State())
      ensures old(baseline).None? && old(root.txn).Some? && MapOf(root.authority).None? ==>
                o == Raised(InvalidSchema) && root.State() == old(root.State())
      ensures old(baseline).None? && old(root.txn).Some? && MapOf(root.authority).Some? && !hasPrivate ==>
                o == Raised(NotConfigured) && root.State() == old(root.State())
      ensures (old(root.pending) == [] && old(baseline).None? && Readable(old(root.State()))
               && old(root.txn).None?) ==> o.Done?
      ensures (old(baseline).None? && hasPrivate && MapOf(root.authority).Some?
               && Guarded(old(root.State()), None)) ==>
                o == Raised(SourceChanged) && root.State() == old(root.State())
      ensures (&& old(root.pending) == [] && old(baseline).None? && hasPrivate && MapOf(root.authority).Some?
               && old(root.txn).Some? && Explains(j, base, old(root.State()))) ==>
                && (root.txn.None? <==> PendingGuard(old(root.State())).None?)
                && (root.txn.None? ==> Settled(j, base, root.State()) && (o.Done? <==> Readable(root.State())))
      ensures NoDoubt(old(root.pending)) ==> NoDoubt(root.pending) && o != Raised(DurabilityUncertain)
    {
      if baseline.Some? { return Done(()); }
      if root.txn.Some? {
        if MapOf(root.authority).None? { return Raised(InvalidSchema); }
        if !hasPrivate { return Raised(NotConfigured); }
        var _ :- Recover(root, None, j, base);
        if root.txn.Some? { return Raised(InterruptedArtifact); }
      }
      var latest :- FreshAccounts();
      Adopt(latest);
      return Done(());
    }

    /** Reopen the durable authority; it decides what the account is. */
    method ReadFresh(name: string) returns (o: Outcome<Option<Account>>)
      requires Valid() && baseline.Some?
      modifies this`accounts, this`baseline, root`pending
      ensures Valid() && baseline.Some?
      ensures o.Done? ==> && Readable(root.State())
                          && MapOf(root.authority) == Some(accounts) && o.value == Find(accounts, name)
                          && baseline == Some(ExpectedSource(root.authority))
      ensures !o.Done? ==> accounts == old(accounts) && baseline == old(baseline)
      ensures NoDoubt(old(root.pending)) ==> NoDoubt(root.pending) && o != Raised(DurabilityUncertain)
      ensures old(root.pending) == [] ==> root.pending == []
      ensures old(root.pending) == [] && Readable(root.State()) ==> o.Done?
    {
      var latest :- FreshAccounts();
      Adopt(latest);
      return Done(Find(accounts, name));
    }

    /** Commit one whole map. */
    method CommitCredentials(candidate: seq<Account>, bundles: seq<PreparedWrite>, g: Option<Guard>, inode: nat,
                             ghost j0: Journal, ghost base0: Disk)
      returns (o: Outcome<()>, ghost j: Journal, ghost base: Disk, ghost displaced: seq<Bundle>)
      requires Valid() && baseline.Some?
      requires root.authority.Some? ==> inode != root.authority.value.inode
      modifies this`accounts, this`baseline, root`pending, root`looks, root`files, root`txn, root`authority
      ensures Valid() && baseline.Some? && root.published == old(root.published)
      ensures o.Done? ==>
                && accounts == candidate && baseline == Some(ExpectedSource(root.authority))
                && root.authority == Some(File(inode, Document(candidate)))
                && (hasPrivate ==> root.txn.None?)
                && MapOf(old(root.authority)) == Some(old(accounts)) && MapOf(root.authority) == Some(candidate)
      ensures !o.Done? ==> accounts == old(accounts) && baseline == old(baseline)
      ensures root.authority == old(root.authority)
              || (&& root.authority == Some(File(inode, Document(candidate)))
                  && MapOf(old(root.authority)) == Some(old(accounts)) && MapOf(root.authority) == Some(candidate))
      ensures hasPrivate && Explains(j0, base0, old(root.State())) ==>
                && Explains(j, base, root.State())
                && Moves(j0, base0, j, base, old(accounts), candidate, bundles, displaced, GuardRecordOf(g))
      ensures (j == j0 && base == base0) || base.authority == old(root.authority)
      ensures hasPrivate && !(j == j0 && base == base0) ==>
                Proven(old(accounts), candidate, bundles, displaced) && Decode(Document(candidate)).Some?
      ensures hasPrivate && o.Done? && old(root.txn).None? ==>
                TreeFollows(old(accounts), candidate, old(root.files), root.files, bundles, displaced)
      ensures g.Some? && o.Done? ==>
                CommittedUnder(old(root.looks), root.looks, g.value, old(root.authority), root.authority)
      ensures g.Some? && root.authority != old(root.authority) ==>
                ReplacedUnder(old(root.looks), root.looks, g.value, old(root.authority))
      ensures NoDoubt(old(root.pending)) ==> NoDoubt(root.pending) && o != Raised(DurabilityUncertain)
      ensures old(root.pending) == [] && g.Some? && g.value.expected != ExpectedSource(root.source) ==>
                !o.Done? && root.authority == old(root.authority) && root.files == old(root.files)
      ensures !hasPrivate ==> root.files == old(root.files) && root.txn == old(root.txn)
      ensures old(root.pending) == []
              && CanCommit(old(root.State()), old(accounts), old(baseline), candidate, bundles, g, displaced,
                           root.source) ==>
                o.Done?
    {
      j, base, displaced := j0, base0, [];
      if Decode(Document(candidate)).None? { return Raised(InvalidSchema), j, base, displaced; }
      if hasPrivate {
        var removed :- PrivateChange(accounts, candidate, bundles);
        displaced := removed;
        o, j, base := CommitPrivate(candidate, bundles, removed, g, inode, j0, base0);
      } else {
        if bundles != [] || g.Some? { return Raised(NotConfigured), j, base, displaced; }
        o := CommitPlain(candidate, inode);
      }
      if o.Done? && hasPrivate && old(root.txn).None? {
        TreeIs(accounts, candidate, old(root.files), root.files, bundles, displaced);
      }
      if o.Done? {
        accounts := candidate;
        baseline := Some(ExpectedSource(root.authority));
      }
    }

    /** Without a private tree only the authority is replaced. */
    method CommitPlain(candidate: seq<Account>, inode: nat) returns (o: Outcome<()>)
      requires Valid() && baseline.Some? && Decode(Document(candidate)).Some?
      modifies root`pending, root`authority
      ensures o.Done? ==> root.authority == Some(File(inode, Document(candidate)))
                          && MapOf(old(root.authority)) == Some(accounts)
      ensures root.authority == old(root.authority)
              || (root.authority == Some(File(inode, Document(candidate)))
                  && MapOf(old(root.authority)) == Some(accounts))
      ensures NoDoubt(old(root.pending)) ==> NoDoubt(root.pending) && o != Raised(DurabilityUncertain)
      ensures old(root.pending) == [] ==> root.pending == []
      ensures (old(root.pending) == [] && Readable(old(root.State()))
               && baseline == Some(ExpectedSource(old(root.authority)))) ==> o.Done?
    {
      var latest :- FreshAccounts();
      if latest.0 != baseline.value { return Raised(SourceChanged); }
      MatchingCacheIsDurable(accounts, baseline.value, root.authority);
      var _ :- root.CommitAuthority(Document(candidate), baseline.value, inode);
      return Done(());
    }

    /** Resolve what is pending, then read the map it left. */
    method Reopen(g: Option<Guard>, ghost j: Journal, ghost base: Disk)
      returns (o: Outcome<(Expected, seq<Account>)>)
      modifies root`pending, root`looks, root`files, root`txn
      ensures root.authority == old(root.authority) && root.published == old(root.published)
      ensures !hasPrivate || old(root.txn).None? ==> root.State() == old(root.State())
      ensures hasPrivate && Explains(j, base, old(root.State())) ==>
                && Explains(j, base, root.State())
                && (o.Done? ==> root.txn.None? && Settled(j, base, root.State()))
      ensures o.Done? ==> && o.value.0 == ExpectedSource(root.authority) && CacheIs(o.value.1, o.value.0)
                          && MapOf(root.authority) == Some(o.value.1)
      ensures old(root.looks) <= root.looks
      ensures NoDoubt(old(root.pending)) ==> NoDoubt(root.pending) && o != Raised(DurabilityUncertain)
      ensures old(root.pending) == [] && g.Some? && !Observed(g.value, root.source) ==> root.files == old(root.files)
      ensures old(root.pending) == [] ==> root.pending == []
      ensures old(root.pending) == [] && Readable(old(root.State())) && old(root.txn).None? ==> o.Done?
      ensures hasPrivate && Guarded(old(root.State()), g) ==>
                o == Raised(SourceChanged) && root.State() == old(root.State())
    {
      if hasPrivate { var _ :- Recover(root, g, j, base); }
      o := FreshAccounts();
    }

    /** Under the store lock: resolve what is pending, insist on the baseline, commit. */
    method CommitPrivate(candidate: seq<Account>, bundles: seq<PreparedWrite>, removed: seq<Bundle>,
                         g: Option<Guard>, inode: nat, ghost j0: Journal, ghost base0: Disk)
      returns (o: Outcome<()>, ghost j: Journal, ghost base: Disk)
      requires Valid() && baseline.Some? && hasPrivate && Decode(Document(candidate)).Some?
      requires root.authority.Some? ==> inode != root.authority.value.inode
      modifies root`pending, root`looks, root`files, root`txn, root`authority
      ensures root.published == old(root.published)
      ensures o.Done? ==>
                && root.authority == Some(File(inode, Document(candidate))) && root.txn.None?
                && MapOf(old(root.authority)) == Some(accounts)
      ensures root.authority == old(root.authority)
              || (root.authority == Some(File(inode, Document(candidate)))
                  && MapOf(old(root.authority)) == Some(accounts))
      ensures Explains(j0, base0, old(root.State())) ==>
                Explains(j, base, root.State())
                && Moves(j0, base0, j, base, accounts, candidate, bundles, removed, GuardRecordOf(g))
      ensures (j == j0 && base == base0) || base.authority == old(root.authority)
      ensures o.Done? && old(root.txn).None? ==> FilesAfter(old(root.files), root.files, bundles, removed)
      ensures g.Some? && o.Done? ==>
                CommittedUnder(old(root.looks), root.looks, g.value, old(root.authority), root.authority)
      ensures g.Some? && root.authority != old(root.authority) ==>
                ReplacedUnder(old(root.looks), root.looks, g.value, old(root.authority))
      ensures NoDoubt(old(root.pending)) ==> NoDoubt(root.pending) && o != Raised(DurabilityUncertain)
      ensures old(root.pending) == [] && g.Some? && !Observed(g.value, root.source) ==>
                !o.Done? && root.authority == old(root.authority) && root.files == old(root.files)
      ensures old(root.pending) == [] ==> root.pending == []
      ensures (old(root.pending) == [] && old(root.txn).None? && Readable(old(root.State()))
               && baseline == Some(ExpectedSource(old(root.authority)))
               && Admits(old(root.State()), Document(candidate), bundles, removed, g, key)
               && (Direct(bundles, removed, g) || GuardMatches(GuardRecordOf(g), g, root.source))) ==> o.Done?
    {
      j, base := j0, base0;
      var latest :- Reopen(g, j0, base0);
      if latest.0 != baseline.value { return Raised(SourceChanged), j, base; }
      MatchingCacheIsDurable(accounts, baseline.value, root.authority);
      o, j, base := CommitSettled(baseline.value, candidate, bundles, removed, g, inode, j, base);
    }

    /** Run one transaction over a disk with nothing pending. */
    method CommitSettled(expected: Expected, candidate: seq<Account>, bundles: seq<PreparedWrite>,
                         removed: seq<Bundle>, g: Option<Guard>, inode: nat, ghost j0: Journal, ghost base0: Disk)
      returns (o: Outcome<()>, ghost j: Journal, ghost base: Disk)
      requires root.authority.Some? ==> inode != root.authority.value.inode
      modifies root`pending, root`looks, root`files, root`txn, root`authority
      ensures root.published == old(root.published)
      ensures o.Done? ==> root.authority == Some(File(inode, Document(candidate))) && root.txn.None?
      ensures root.authority == old(root.authority) || root.authority == Some(File(inode, Document(candidate)))
      ensures old(root.txn).Some? ==> j == j0 && base == base0 && root.State() == old(root.State())
      ensures old(root.txn).None? ==>
                && Explains(j, base, root.State()) && base == old(root.State())
                && (|| j == Idle(base)
                    || (&& j == RuntimeJournal(base, Document(candidate), bundles, removed, GuardRecordOf(g))
                        && Requested(base.files, bundles)))
                && (o.Done? ==> FilesAfter(base.files, root.files, bundles, removed) && Requested(base.files, bundles))
      ensures o.Done? || root.authority != old(root.authority) ==>
                Admits(old(root.State()), Document(candidate), bundles, removed, g, key)
      ensures g.Some? && o.Done? ==>
                CommittedUnder(old(root.looks), root.looks, g.value, old(root.authority), root.authority)
      ensures g.Some? && root.authority != old(root.authority) ==>
                ReplacedUnder(old(root.looks), root.looks, g.value, old(root.authority))
      ensures NoDoubt(old(root.pending)) ==> NoDoubt(root.pending) && o != Raised(DurabilityUncertain)
      ensures old(root.pending) == [] && g.Some? && !Observed(g.value, root.source) ==>
                !o.Done? && root.authority == old(root.authority) && root.files == old(root.files)
      ensures old(root.looks) <= root.looks
      ensures !Admits(old(root.State()), Document(candidate), bundles, removed, g, key) ==>
                root.State() == old(root.State())
      ensures old(root.pending) == [] ==> root.pending == []
      ensures (&& old(root.pending) == [] && old(root.txn).None? && expected == ExpectedSource(old(root.authority))
               && Admits(old(root.State()), Document(candidate), bundles, removed, g, key)
               && (Direct(bundles, removed, g) || GuardMatches(GuardRecordOf(g), g, root.source))) ==> o.Done?
      ensures (&& old(root.pending) == [] && old(root.txn).None? && expected == ExpectedSource(old(root.authority))
               && g.None?) ==> root.txn.None?
    {
      j, base := j0, base0;
      ghost var settled := root.State();
      ghost var seen := root.looks;
      var final := Commit(root, Document(candidate), expected, bundles, removed, g, inode, key);
      if settled.txn.None? {
        j := CommitExplained(settled, root.State(), Document(candidate), bundles, removed, g, inode, key, final);
        base := settled;
      }
      if g.Some? { GuardedIsUnder(seen, seen, root.looks, g.value, settled, File(inode, Document(candidate))); }
      if !final.Done? { return final.PropagateFailure(), j, base; }
      return Done(()), j, base;
    }

    /** Insert or replace one account, optionally under a new label and with its
        private bundle. */
    method PersistCredentials(account: Account, previous: Option<string>, bundle: Option<PreparedWrite>,
                              g: Option<Guard>, inode: nat, ghost j0: Journal, ghost base0: Disk)
      returns (o: Outcome<()>, ghost j: Journal, ghost base: Disk, ghost displaced: seq<Bundle>)
      requires Valid() && baseline.Some?
      requires root.authority.Some? ==> inode != root.authority.value.inode
      modifies this`accounts, this`baseline, root`pending, root`looks, root`files, root`txn, root`authority
      ensures Valid() && baseline.Some? && root.published == old(root.published)
      ensures Stepped(Persist(account, previous), o.Done?, old(accounts), old(root.authority), accounts, root.authority)
      ensures o.Done? ==> baseline == Some(ExpectedSource(root.authority))
      ensures !o.Done? ==> accounts == old(accounts) && baseline == old(baseline)
      ensures o.Done? ==>
                forall name :: Find(accounts, name) ==
                               if name == account.name then Some(account)
                               else if previous == Some(name) then None else Find(old(accounts), name)
      ensures previous.Some? && previous.value != account.name && !HasLabel(old(accounts), previous.value) ==>
                o == Raised(SourceChanged) && root.State() == old(root.State())
      ensures (previous.Some? && previous.value != account.name && HasLabel(old(accounts), previous.value)
               && HasLabel(old(accounts), account.name)) ==>
                o == Raised(DuplicateLabel) && root.State() == old(root.State())
      ensures (j == j0 && base == base0) || base.authority == old(root.authority)
      ensures g.Some? && o.Done? ==>
                CommittedUnder(old(root.looks), root.looks, g.value, old(root.authority), root.authority)
      ensures g.Some? && root.authority != old(root.authority) ==>
                ReplacedUnder(old(root.looks), root.looks, g.value, old(root.authority))
      ensures NoDoubt(old(root.pending)) ==> NoDoubt(root.pending) && o != Raised(DurabilityUncertain)
      ensures old(root.pending) == [] && g.Some? && g.value.expected != ExpectedSource(root.source) ==>
                !o.Done? && root.authority == old(root.authority) && root.files == old(root.files)
      ensures hasPrivate && Explains(j0, base0, old(root.State())) ==>
                && Explains(j, base, root.State())
                && Follows(j0, base0, j, base, Persist(account, previous), old(accounts), BundleList(bundle), displaced,
                           GuardRecordOf(g))
      ensures hasPrivate && o.Done? && old(root.txn).None? ==>
                TreeFollows(old(accounts), accounts, old(root.files), root.files, BundleList(bundle), displaced)
      ensures old(root.pending) == []
              && CanChange(old(root.State()), old(accounts), old(baseline), Persist(account, previous),
                           BundleList(bundle), g, displaced, root.source) ==>
                o.Done?
    {
      j, base, displaced := j0, base0, [];
      var candidate := accounts;
      if previous.Some? && previous.value != account.name {
        if !HasLabel(candidate, previous.value) { return Raised(SourceChanged), j, base, displaced; }
        if HasLabel(candidate, account.name) { return Raised(DuplicateLabel), j, base, displaced; }
        candidate := Without(candidate, previous.value);
      }
      candidate := Upsert(candidate, account);
      PersistFinds(accounts, account, previous);
      o, j, base, displaced := CommitCredentials(candidate, BundleList(bundle), g, inode, j0, base0);
    }

    /** Remove one account and exactly the home only it named. */
    method RemoveCredentials(name: string, inode: nat, ghost j0: Journal, ghost base0: Disk)
      returns (o: Outcome<bool>, ghost j: Journal, ghost base: Disk, ghost displaced: seq<Bundle>)
      requires Valid() && baseline.Some?
      requires root.authority.Some? ==> inode != root.authority.value.inode
      modifies this`accounts, this`baseline, root`pending, root`looks, root`files, root`txn, root`authority
      ensures Valid() && baseline.Some? && root.published == old(root.published)
      ensures Stepped(Remove(name), o == Done(true), old(accounts), old(root.authority), accounts, root.authority)
      ensures o == Done(true) ==> baseline == Some(ExpectedSource(root.authority))
      ensures o == Done(true) ==>
                forall other :: Find(accounts, other) == if other == name then None else Find(old(accounts), other)
      ensures o != Done(true) ==> accounts == old(accounts) && baseline == old(baseline)
      ensures o.Done? ==> (o.value <==> HasLabel(old(accounts), name))
      ensures (j == j0 && base == base0) || base.authority == old(root.authority)
      ensures hasPrivate && Explains(j0, base0, old(root.State())) ==>
                && Explains(j, base, root.State())
                && Follows(j0, base0, j, base, Remove(name), old(accounts), [], displaced, None)
      ensures hasPrivate && o == Done(true) && old(root.txn).None? ==>
                TreeFollows(old(accounts), accounts, old(root.files), root.files, [], displaced)
      ensures NoDoubt(old(root.pending)) ==> NoDoubt(root.pending) && o != Raised(DurabilityUncertain)
      ensures old(root.pending) == []
              && CanChange(old(root.State()), old(accounts), old(baseline), Remove(name), [], None, displaced,
                           root.source) ==>
                o.Done?
    {
      j, base, displaced := j0, base0, [];
      if !HasLabel(accounts, name) { return Done(false), j, base, displaced; }
      var candidate := Without(accounts, name);
      forall other
        ensures Find(candidate, other) == if other == name then None else Find(accounts, other)
      {
        AppliedFinds(accounts, Remove(name), other);
      }
      var c;
      c, j, base, displaced := CommitCredentials(candidate, [], None, inode, j0, base0);
      if !c.Done? { return c.PropagateFailure(), j, base, displaced; }
      return Done(true), j, base, displaced;
    }

    /** Rename one account in place; a taken label refuses the rename. */
    method Rename(before: string, after: string, inode: nat, ghost j0: Journal, ghost base0: Disk)
      returns (o: Outcome<bool>, ghost j: Journal, ghost base: Disk, ghost displaced: seq<Bundle>)
      requires Valid() && baseline.Some?
      requires root.authority.Some? ==> inode != root.authority.value.inode
      modifies this`accounts, this`baseline, root`pending, root`looks, root`files, root`txn, root`authority
      ensures Valid() && baseline.Some? && root.published == old(root.published)
      ensures root.authority == old(root.authority)
              || Committed(AccountMaps.Rename(before, after), old(accounts), old(root.authority), root.authority)
      ensures o == Done(true) && before != after ==>
                && Committed(AccountMaps.Rename(before, after), old(accounts), old(root.authority), root.authority)
                && baseline == Some(ExpectedSource(root.authority)) && accounts == Relabel(old(accounts), before, after)
      ensures o != Done(true) || before == after ==> accounts == old(accounts) && baseline == old(baseline)
      ensures o == Done(true) && before != after ==>
                forall other :: Find(accounts, other) ==
                                if other == before then None
                                else if other == after then Renamed(Find(old(accounts), before), after)
                                else Find(old(accounts), other)
      ensures o.Done? ==> (o.value <==> Renames(old(accounts), before, after))
      ensures (j == j0 && base == base0) || base.authority == old(root.authority)
      ensures hasPrivate && Explains(j0, base0, old(root.State())) ==>
                && Explains(j, base, root.State())
                && Follows(j0, base0, j, base, AccountMaps.Rename(before, after), old(accounts), [], displaced, None)
      ensures hasPrivate && o == Done(true) && old(root.txn).None? && before != after ==>
                TreeFollows(old(accounts), accounts, old(root.files), root.files, [], displaced)
      ensures NoDoubt(old(root.pending)) ==> NoDoubt(root.pending) && o != Raised(DurabilityUncertain)
      ensures old(root.pending) == []
              && CanChange(old(root.State()), old(accounts), old(baseline), AccountMaps.Rename(before, after), [],
                           None, displaced, root.source) ==>
                o.Done?
    {
      j, base, displaced := j0, base0, [];
      if !HasLabel(accounts, before) { return Done(false), j, base, displaced; }
      if HasLabel(accounts, after) && after != before { return Done(false), j, base, displaced; }
      if after == before { return Done(true), j, base, displaced; }
      var candidate: seq<Account> := [];
      var current := accounts;
      for i := 0 to |current|
        invariant candidate == Relabel(current, before, after)[..i]
        modifies {}
      {
        RelabelAppends(current, before, after, i);
        candidate := Upsert(candidate, if current[i].name == before then current[i].(name := after) else current[i]);
      }
      assert candidate == Relabel(current, before, after);
      FindIs(accounts, before);
      forall other
        ensures Find(candidate, other) == if other == before then None
                                          else if other == after then Renamed(Find(accounts, before), after)
                                          else Find(accounts, other)
      {
        AppliedFinds(accounts, AccountMaps.Rename(before, after), other);
      }
      var c;
      c, j, base, displaced := CommitCredentials(candidate, [], None, inode, j0, base0);
      if !c.Done? { return c.PropagateFailure(), j, base, displaced; }
      return Done(true), j, base, displaced;
    }

    /** Remove every account of one provider and exactly the homes they named. */
    method ResetProviderCredentials(provider: ProviderId, inode: nat, ghost j0: Journal, ghost base0: Disk)
      returns (o: Outcome<nat>, ghost j: Journal, ghost base: Disk, ghost displaced: seq<Bundle>)
      requires Valid() && baseline.Some?
      requires root.authority.Some? ==> inode != root.authority.value.inode
      modifies this`accounts, this`baseline, root`pending, root`looks, root`files, root`txn, root`authority
      ensures Valid() && baseline.Some? && root.published == old(root.published)
      ensures Stepped(Reset(provider), o.Done? && o.value > 0, old(accounts), old(root.authority), accounts,
                      root.authority)
      ensures o.Done? ==> && |accounts| + o.value == |old(accounts)|
                          && (forall a :: a in accounts <==> a in old(accounts) && a.credentials.Provider() != provider)
      ensures o.Done? && o.value > 0 ==> baseline == Some(ExpectedSource(root.authority))
      ensures !o.Done? || o.value == 0 ==> accounts == old(accounts) && baseline == old(baseline)
      ensures (j == j0 && base == base0) || base.authority == old(root.authority)
      ensures hasPrivate && Explains(j0, base0, old(root.State())) ==>
                && Explains(j, base, root.State())
                && Follows(j0, base0, j, base, Reset(provider), old(accounts), [], displaced, None)
      ensures hasPrivate && o.Done? && o.value > 0 && old(root.txn).None? ==>
                TreeFollows(old(accounts), accounts, old(root.files), root.files, [], displaced)
      ensures NoDoubt(old(root.pending)) ==> NoDoubt(root.pending) && o != Raised(DurabilityUncertain)
      ensures old(root.pending) == []
              && CanChange(old(root.State()), old(accounts), old(baseline), Reset(provider), [], None, displaced,
                           root.source) ==>
                o.Done?
    {
      j, base, displaced := j0, base0, [];
      var candidate := ExceptProvider(accounts, provider);
      ExceptProviderKeeps(accounts, provider);
      var removed := |accounts| - |candidate|;
      if removed == 0 { return Done(0), j, base, displaced; }
      var c;
      c, j, base, displaced := CommitCredentials(candidate, [], None, inode, j0, base0);
      if !c.Done? { return c.PropagateFailure(), j, base, displaced; }
      return Done(removed), j, base, displaced;
    }

    /** Rebase and commit one refresh onto the freshly reopened map. */
    method MergeCredentialRefresh(name: string, expected: Credentials, u: Update, inode: nat,
                                  ghost j0: Journal, ghost base0: Disk)
      returns (o: Outcome<Option<Account>>, ghost j: Journal, ghost base: Disk)
      requires Valid() && baseline.Some?
      requires root.authority.Some? ==> inode != root.authority.value.inode
      modifies this`accounts, this`baseline, root`pending, root`looks, root`files, root`txn, root`authority
      ensures Valid() && baseline.Some? && root.published == old(root.published)
      ensures root.authority == old(root.authority)
              || (&& MapOf(old(root.authority)).Some?
                  && MapOf(root.authority) == Some(MergedMap(MapOf(old(root.authority)).value, name, expected, u)))
      ensures o.Done? ==>
                && MapOf(old(root.authority)).Some?
                && accounts == MergedMap(MapOf(old(root.authority)).value, name, expected, u)
                && MapOf(root.authority) == Some(accounts) && baseline == Some(ExpectedSource(root.authority))
                && o.value == Find(accounts, name)
      ensures !o.Done? ==> accounts == old(accounts) && baseline == old(baseline)
      ensures hasPrivate && Explains(j0, base0, old(root.State())) ==>
                && Explains(j, base, root.State())
                && (|| (j == j0 && base == base0)
                    || (&& base.txn.None? && Settled(j0, base0, base) && MapOf(old(root.authority)).Some?
                        && base.authority == old(root.authority)
                        && MergeJournal(j, base, MapOf(old(root.authority)).value, name, expected, u)))
                && (root.authority != old(root.authority) ==> MergeAdmitted(base, name, expected, u, key))
      ensures hasPrivate && Explains(j0, base0, old(root.State())) && o.Done?
              && MapOf(old(root.authority)).Some? && HoldsExpected(MapOf(old(root.authority)).value, name, expected) ==>
                MergeAdmitted(base, name, expected, u, key)
      ensures NoDoubt(old(root.pending)) ==> NoDoubt(root.pending) && o != Raised(DurabilityUncertain)
      ensures old(root.pending) == [] && hasPrivate && old(root.txn).None? && !o.Done? ==>
                root.State() == old(root.State())
      ensures old(root.pending) == [] ==> root.pending == []
      ensures (&& old(root.pending) == [] && hasPrivate && old(root.txn).None? && Readable(old(root.State()))
               && (HoldsExpected(MapOf(old(root.authority)).value, name, expected) ==>
                     MergeAdmitted(old(root.State()), name, expected, u, key))) ==> o.Done?
      ensures old(root.pending) == [] && hasPrivate && old(root.txn).None? ==> root.txn.None?
      ensures (hasPrivate && o.Done? && old(root.txn).None?
               && HoldsExpected(MapOf(old(root.authority)).value, name, expected)) ==>
                MergeAdmitted(old(root.State()), name, expected, u, key)
      ensures hasPrivate && o.Done? && old(root.txn).None? ==>
                if HoldsExpected(MapOf(old(root.authority)).value, name, expected)
                then Requested(old(root.files), MergeBundles(u))
                     && FilesAfter(old(root.files), root.files, MergeBundles(u), [])
                else root.State() == old(root.State())
      ensures hasPrivate && Guarded(old(root.State()), None) ==>
                o == Raised(SourceChanged) && root.State() == old(root.State())
    {
      j, base := j0, base0;
      var latest :- Reopen(None, j0, base0);
      o, j, base := MergeLatest(latest, name, expected, u, inode, j, base);
    }

    /** Merge into the accounts just read: a target that moved on is adopted as it is. */
    method MergeLatest(latest: (Expected, seq<Account>), name: string, expected: Credentials, u: Update, inode: nat,
                       ghost j0: Journal, ghost base0: Disk)
      returns (o: Outcome<Option<Account>>, ghost j: Journal, ghost base: Disk)
      requires Valid() && baseline.Some? && CacheIs(latest.1, latest.0)
      requires MapOf(root.authority) == Some(latest.1) && latest.0 == ExpectedSource(root.authority)
      requires root.authority.Some? ==> inode != root.authority.value.inode
      modifies this`accounts, this`baseline, root`pending, root`looks, root`files, root`txn, root`authority
      ensures Valid() && baseline.Some? && root.published == old(root.published)
      ensures root.authority == old(root.authority)
              || MapOf(root.authority) == Some(MergedMap(latest.1, name, expected, u))
      ensures o.Done? ==>
                && accounts == MergedMap(latest.1, name, expected, u)
                && MapOf(root.authority) == Some(accounts) && baseline == Some(ExpectedSource(root.authority))
                && o.value == Find(accounts, name)
      ensures !o.Done? ==> accounts == old(accounts) && baseline == old(baseline)
      ensures !HoldsExpected(latest.1, name, expected) ==>
                o.Done? && j == j0 && base == base0 && root.State() == old(root.State()) &&
                root.pending == old(root.pending)
      ensures hasPrivate && old(root.txn).Some? ==> j == j0 && base == base0 && root.State() == old(root.State())
      ensures hasPrivate && old(root.txn).None? && HoldsExpected(latest.1, name, expected) ==>
                || (j == j0 && base == base0 && root.State() == old(root.State()) && !o.Done?)
                || (&& Explains(j, base, root.State()) && base == old(root.State())
                    && MergeJournal(j, base, latest.1, name, expected, u)
                    && (o.Done? ==> FilesAfter(base.files, root.files, MergeBundles(u), [])
                                    && Requested(base.files, MergeBundles(u)))
                    && (o.Done? || root.authority != old(root.authority) ==>
                          MergeAdmitted(base, name, expected, u, key)))
      ensures NoDoubt(old(root.pending)) ==> NoDoubt(root.pending) && o != Raised(DurabilityUncertain)
      ensures old(root.pending) == [] && hasPrivate && old(root.txn).None? && !o.Done? ==>
                root.State() == old(root.State())
      ensures old(root.pending) == [] ==> root.pending == []
      ensures (&& old(root.pending) == [] && hasPrivate && old(root.txn).None?
               && (HoldsExpected(latest.1, name, expected) ==>
                     MergeAdmitted(old(root.State()), name, expected, u, key))) ==> o.Done?
      ensures old(root.pending) == [] && hasPrivate && old(root.txn).None? ==> root.txn.None?
    {
      j, base := j0, base0;
      var current := Find(latest.1, name);
      if current.None? || current.value.credentials != expected {
        Adopt(latest);
        return Done(current), j, base;
      }
      var candidate := Upsert(latest.1, Merged(current.value, u));
      if Decode(Document(candidate)).None? { return Raised(InvalidSchema), j, base; }
      var c;
      c, j, base := CommitMerge(latest.0, candidate, MergeBundles(u), inode, j, base);
      if !c.Done? { return c.PropagateFailure(), j, base; }
      Adopt((ExpectedSource(root.authority), candidate));
      return Done(Find(candidate, name)), j, base;
    }

    /** A store without a private tree drops the bundle of a merge. */
    method CommitMerge(expected: Expected, candidate: seq<Account>, bundles: seq<PreparedWrite>, inode: nat,
                       ghost j0: Journal, ghost base0: Disk)
      returns (o: Outcome<()>, ghost j: Journal, ghost base: Disk)
      requires root.authority.Some? ==> inode != root.authority.value.inode
      modifies root`pending, root`looks, root`files, root`txn, root`authority
      ensures root.published == old(root.published)
      ensures o.Done? ==> root.authority == Some(File(inode, Document(candidate)))
      ensures root.authority == old(root.authority) || root.authority == Some(File(inode, Document(candidate)))
      ensures hasPrivate && old(root.txn).Some? ==> j == j0 && base == base0 && root.State() == old(root.State())
      ensures hasPrivate && old(root.txn).None? ==>
                && Explains(j, base, root.State()) && base == old(root.State())
                && (|| j == Idle(base)
                    || (&& j == RuntimeJournal(base, Document(candidate), bundles, [], None)
                        && Requested(base.files, bundles)))
                && (o.Done? ==> FilesAfter(base.files, root.files, bundles, []) && Requested(base.files, bundles))
                && (o.Done? || root.authority != old(root.authority) ==>
                      Admits(old(root.State()), Document(candidate), bundles, [], None, key))
      ensures NoDoubt(old(root.pending)) ==> NoDoubt(root.pending) && o != Raised(DurabilityUncertain)
      ensures (hasPrivate && old(root.txn).None?
               && !Admits(old(root.State()), Document(candidate), bundles, [], None, key)) ==>
                root.State() == old(root.State())
      ensures old(root.pending) == [] ==> root.pending == []
      ensures (&& old(root.pending) == [] && hasPrivate && old(root.txn).None?
               && expected == ExpectedSource(old(root.authority))
               && Admits(old(root.State()), Document(candidate), bundles, [], None, key)) ==> o.Done?
      ensures (&& old(root.pending) == [] && hasPrivate && old(root.txn).None?
               && expected == ExpectedSource(old(root.authority))) ==> root.txn.None?
    {
      j, base := j0, base0;
      if hasPrivate {
        o, j, base := CommitSettled(expected, candidate, bundles, [], None, inode, j0, base0);
      } else {
        var _ :- root.CommitAuthority(Document(candidate), expected, inode);
        return Done(()), j, base;
      }
    }

    /** Resolve one interrupted transaction and adopt whatever it left. */
    method RecoverCredentials(ghost j: Journal, ghost base: Disk) returns (o: Outcome<bool>)
      requires Valid() && baseline.Some?
      modifies this`accounts, this`baseline, root`pending, root`looks, root`files, root`txn
      ensures Valid() && baseline.Some?
      ensures root.authority == old(root.authority) && root.published == old(root.published)
      ensures !hasPrivate ==> o == Raised(NotConfigured) && root.State() == old(root.State())
      ensures o.Done? ==> (o.value <==> old(root.txn).Some?)
      ensures o == Done(true) ==> && MapOf(root.authority) == Some(accounts)
                                  && baseline == Some(ExpectedSource(root.authority))
      ensures o != Done(true) ==> accounts == old(accounts) && baseline == old(baseline)
      ensures hasPrivate && Explains(j, base, old(root.State())) ==> Explains(j, base, root.State())
      ensures (&& hasPrivate && old(root.pending) == [] && Explains(j, base, old(root.State()))) ==>
                && (root.txn.None? <==> PendingGuard(old(root.State())).None?)
                && (root.txn.None? ==> Settled(j, base, root.State()))
      ensures hasPrivate && Guarded(old(root.State()), None) ==>
                o == Raised(SourceChanged) && root.State() == old(root.State())
      ensures NoDoubt(old(root.pending)) ==> NoDoubt(root.pending) && o != Raised(DurabilityUncertain)
    {
      if !hasPrivate { return Raised(NotConfigured); }
      var recovered :- Recover(root, None, j, base);
      if !recovered { return Done(false); }
      var latest :- FreshAccounts();
      Adopt(latest);
      return Done(true);
    }

    /** The smallest unused numbered label of one stem. */
    method GenerateLabel(stem: string) returns (name: string, suffix: nat)
      requires Valid() && baseline.Some?
      ensures suffix >= 1 && name == Numbered(stem, suffix) && !HasLabel(accounts, name)
      ensures forall k :: 1 <= k < suffix ==> HasLabel(accounts, Numbered(stem, k))
    {
      suffix := 1;
      ghost var left := set i | 0 <= i < |accounts| :: accounts[i].name;
      while HasLabel(accounts, Numbered(stem, suffix))
        invariant suffix >= 1
        invariant forall k :: 1 <= k < suffix ==> HasLabel(accounts, Numbered(stem, k))
        invariant forall i :: 0 <= i < |accounts| ==>
                                || accounts[i].name in left
                                || exists k :: 1 <= k < suffix && accounts[i].name == Numbered(stem, k)
        decreases |left|
      {
        NumberedApart(stem, suffix);
        left := left - {Numbered(stem, suffix)};
        suffix := suffix + 1;
      }
      name := Numbered(stem, suffix);
    }
  }

  function Numbered(stem: string, n: nat): string {
    stem + "-" + Text(n)
  }

  lemma NumberedApart(stem: string, n: nat)
    ensures forall k: nat :: k != n ==> Numbered(stem, k) != Numbered(stem, n)
  {
    forall k: nat | k != n
      ensures Numbered(stem, k) != Numbered(stem, n)
    {
      ValueOfText(k);
      ValueOfText(n);
      assert Numbered(stem, k)[|stem| + 1..] == Text(k);
      assert Numbered(stem, n)[|stem| + 1..] == Text(n);
    }
  }

  /** Whatever a commit did, one journal explains it. */
  lemma CommitExplained(d: Disk, e: Disk, payload: Content, bundles: seq<PreparedWrite>, displaced: seq<Bundle>,
                        g: Option<Guard>, inode: nat, key: string -> string, o: Outcome<File>)
    returns (j: Journal)
    requires d.txn.None?
    requires d.authority.Some? ==> inode != d.authority.value.inode
    requires Direct(bundles, displaced, g) ==> StepOutcome(o, d, e, Replaced(d, File(inode, payload)))
    requires !Direct(bundles, displaced, g) && !WritesJournal(d, payload, bundles, displaced, g, key) ==>
               !o.Done? && e == d
    requires WritesJournal(d, payload, bundles, displaced, g, key) ==>
               var j := RuntimeJournal(d, payload, bundles, displaced, GuardRecordOf(g));
               Inv(j, d, e) && (o.Done? ==> FinalTarget(j, d, e))
    ensures Explains(j, d, e)
    ensures || j == Idle(d)
            || (j == RuntimeJournal(d, payload, bundles, displaced, GuardRecordOf(g)) && Requested(d.files, bundles))
    ensures o.Done? ==> FilesAfter(d.files, e.files, bundles, displaced) && Requested(d.files, bundles)
  {
    j := RuntimeJournal(d, payload, bundles, displaced, GuardRecordOf(g));
    if Direct(bundles, displaced, g) {
      DirectIsExplained(d, payload, e, inode);
      if o.Done? { FinalTargetIsFilesAfter(d, e, payload, bundles, displaced, GuardRecordOf(g)); }
    } else if WritesJournal(d, payload, bundles, displaced, g, key) {
      AcceptedIsSound(d, payload, bundles, displaced, GuardRecordOf(g), key);
      if o.Done? { FinalTargetIsFilesAfter(d, e, payload, bundles, displaced, GuardRecordOf(g)); }
    } else {
      IdleExplains(d);
      j := Idle(d);
    }
  }
}
