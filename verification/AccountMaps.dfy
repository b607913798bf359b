/** The saved accounts as an ordered map from label to account, the operations on
    it, and how it relates to the private bundles its accounts name. */
module AccountMaps {
  import opened Wrappers
  import opened Accounts
  import opened Storage
  import opened PrivateBundlePaths
  import opened Journals
  import opened CredentialOwnership
  import opened CredentialTransactionPlans

  predicate HasLabel(s: seq<Account>, name: string) {
    exists i :: 0 <= i < |s| && s[i].name == name
  }

  predicate UniqueLabels(s: seq<Account>) {
    forall i, k :: 0 <= i < k < |s| ==> s[i].name != s[k].name
  }

  function Find(s: seq<Account>, name: string): Option<Account> {
    if s == [] then None
    else if s[0].name == name then Some(s[0])
    else Find(s[1..], name)
  }

  /** Assign one entry: an existing label keeps its place, a new one goes last. */
  function Upsert(s: seq<Account>, a: Account): seq<Account> {
    if s == [] then [a]
    else if s[0].name == a.name then [a] + s[1..]
    else [s[0]] + Upsert(s[1..], a)
  }

  function Without(s: seq<Account>, name: string): seq<Account> {
    if s == [] then []
    else if s[0].name == name then Without(s[1..], name)
    else [s[0]] + Without(s[1..], name)
  }

  function ExceptProvider(s: seq<Account>, p: ProviderId): seq<Account> {
    if s == [] then []
    else if s[0].credentials.Provider() == p then ExceptProvider(s[1..], p)
    else [s[0]] + ExceptProvider(s[1..], p)
  }

  function Relabel(s: seq<Account>, before: string, after: string): seq<Account> {
    seq(|s|, i requires 0 <= i < |s| => if s[i].name == before then s[i].(name := after) else s[i])
  }

  /** What a refresh may write into the account it targets. */
  datatype Update =
    | SuccessMerge(credentials: Credentials, plan: Option<string>, completedAt: int, bundle: Option<PreparedWrite>)
    | FailureMerge(message: string, completedAt: int)

  function Merged(a: Account, u: Update): Account {
    match u
    case SuccessMerge(c, p, at, _) =>
      a.(credentials := c, plan := if p.Some? then p.value else a.plan,
         lastRefreshAt := Some(at), lastRefreshStatus := Some(Succeeded), lastRefreshError := None)
    case FailureMerge(m, at) =>
      a.(lastRefreshAt := Some(at), lastRefreshStatus := Some(Failed), lastRefreshError := Some(m))
  }

  /** The map after a merge: untouched unless the target still holds the expected
      credentials. */
  function MergedMap(s: seq<Account>, name: string, expected: Credentials, u: Update): seq<Account> {
    var current := Find(s, name);
    if current.Some? && current.value.credentials == expected then Upsert(s, Merged(current.value, u)) else s
  }

  datatype Change =
    | Persist(account: Account, previous: Option<string>)
    | Remove(target: string)
    | Rename(before: string, after: string)
    | Reset(provider: ProviderId)

  /** The map a change asks for, or the reason the change is refused. */
  function Applied(s: seq<Account>, c: Change): Outcome<seq<Account>> {
    match c
    case Persist(a, previous) =>
      if previous.Some? && previous.value != a.name then
        if !HasLabel(s, previous.value) then Raised(SourceChanged)
        else if HasLabel(s, a.name) then Raised(DuplicateLabel)
        else Done(Upsert(Without(s, previous.value), a))
      else Done(Upsert(s, a))
    case Remove(target) => Done(Without(s, target))
    case Rename(before, after) => if HasLabel(s, after) then Done(s) else Done(Relabel(s, before, after))
    case Reset(p) => Done(ExceptProvider(s, p))
  }

  // The ordered map is a map.

  lemma {:induction false} FindIs(s: seq<Account>, name: string)
    ensures Find(s, name).Some? <==> HasLabel(s, name)
    ensures Find(s, name).Some? ==> Find(s, name).value.name == name && Find(s, name).value in s
  {
    if s != [] {
      FindIs(s[1..], name);
      if HasLabel(s, name) && s[0].name != name {
        var i :| 0 <= i < |s| && s[i].name == name;
        assert s[1..][i - 1].name == name;
      }
      if HasLabel(s[1..], name) {
        var i :| 0 <= i < |s| - 1 && s[1..][i].name == name;
        assert s[i + 1].name == name;
      }
    }
  }

  lemma FindMember(s: seq<Account>, i: nat)
    requires UniqueLabels(s) && i < |s|
    ensures Find(s, s[i].name) == Some(s[i])
  {
    if i > 0 {
      FindMember(s[1..], i - 1);
    }
  }

  /** Assigning one entry changes that entry and no other. */
  lemma {:induction false} UpsertFinds(s: seq<Account>, a: Account, name: string)
    ensures Find(Upsert(s, a), name) == if name == a.name then Some(a) else Find(s, name)
  {
    if s != [] {
      UpsertFinds(s[1..], a, name);
      if s[0].name == a.name {
        assert ([a] + s[1..])[1..] == s[1..];
      } else {
        assert ([s[0]] + Upsert(s[1..], a))[1..] == Upsert(s[1..], a);
      }
    }
  }

  /** ... and leaves the order of all other entries alone. */
  lemma {:induction false} UpsertKeepsOrder(s: seq<Account>, a: Account)
    ensures Without(Upsert(s, a), a.name) == Without(s, a.name)
  {
    if s != [] {
      UpsertKeepsOrder(s[1..], a);
      if s[0].name == a.name {
        assert ([a] + s[1..])[1..] == s[1..];
      } else {
        assert ([s[0]] + Upsert(s[1..], a))[1..] == Upsert(s[1..], a);
      }
    }
  }

  lemma UpsertUnique(s: seq<Account>, a: Account)
    requires UniqueLabels(s)
    ensures UniqueLabels(Upsert(s, a))
    ensures forall x :: x in Upsert(s, a) ==> x == a || x in s
  {
    if s != [] {
      UpsertUnique(s[1..], a);
      if s[0].name != a.name {
        var rest := Upsert(s[1..], a);
        forall k | 0 <= k < |rest|
          ensures rest[k].name != s[0].name
        {
          assert rest[k] in rest;
          if rest[k] in s[1..] {
            var m :| 0 <= m < |s| - 1 && s[1..][m] == rest[k];
            assert s[m + 1].name != s[0].name;
          }
        }
      }
    }
  }

  lemma {:induction false} WithoutFinds(s: seq<Account>, gone: string, name: string)
    ensures Find(Without(s, gone), name) == if name == gone then None else Find(s, name)
  {
    if s != [] {
      WithoutFinds(s[1..], gone, name);
      if s[0].name != gone {
        assert ([s[0]] + Without(s[1..], gone))[1..] == Without(s[1..], gone);
      }
    }
  }

  lemma RelabelAt(s: seq<Account>, before: string, after: string, i: nat)
    requires UniqueLabels(s) && !HasLabel(s, after) && i < |s|
    ensures UniqueLabels(Relabel(s, before, after))
    ensures Find(Relabel(s, before, after), Relabel(s, before, after)[i].name) == Some(Relabel(s, before, after)[i])
  {
    var t := Relabel(s, before, after);
    assert forall k :: 0 <= k < |s| ==> s[k].name != after;
    FindMember(t, i);
  }

  /** Renaming moves one entry to the new label, in place, and no other. */
  lemma RelabelFinds(s: seq<Account>, before: string, after: string, i: nat, name: string)
    requires UniqueLabels(s) && !HasLabel(s, after)
    requires i < |s| && s[i].name == before
    ensures UniqueLabels(Relabel(s, before, after))
    ensures Find(Relabel(s, before, after), name)
            == if name == before then None
               else if name == after then Some(s[i].(name := after))
               else Find(s, name)
  {
    var t := Relabel(s, before, after);
    RelabelAt(s, before, after, i);
    FindIs(t, name);
    FindIs(s, name);
    assert s[i].name != after;
    if name != after && HasLabel(t, name) {
      var k :| 0 <= k < |t| && t[k].name == name;
      FindMember(t, k);
      FindMember(s, k);
    } else if name != before && HasLabel(s, name) {
      var k :| 0 <= k < |s| && s[k].name == name;
      RelabelAt(s, before, after, k);
      FindMember(s, k);
    }
  }

  lemma {:induction false} ExceptProviderFinds(s: seq<Account>, p: ProviderId, name: string)
    requires UniqueLabels(s)
    ensures Find(ExceptProvider(s, p), name)
            == if Find(s, name).Some? && Find(s, name).value.credentials.Provider() == p then None else Find(s, name)
  {
    if s != [] {
      ExceptProviderFinds(s[1..], p, name);
      FindIs(s[1..], name);
      if s[0].credentials.Provider() != p {
        assert ([s[0]] + ExceptProvider(s[1..], p))[1..] == ExceptProvider(s[1..], p);
      }
      assert forall i :: 0 <= i < |s| - 1 ==> s[1..][i] == s[i + 1];
    }
  }

  /** What each change leaves under each label, and when it is refused. */
  lemma {:induction false} AppliedFinds(s: seq<Account>, c: Change, name: string)
    requires UniqueLabels(s)
    ensures Applied(s, c).Raised? <==>
            c.Persist? && c.previous.Some? && c.previous.value != c.account.name
            && (!HasLabel(s, c.previous.value) || HasLabel(s, c.account.name))
    ensures Applied(s, c).Raised? ==>
              Applied(s, c).error == if HasLabel(s, c.previous.value) then DuplicateLabel else SourceChanged
    ensures !Applied(s, c).Crashed?
    ensures Applied(s, c).Done? ==>
              Find(Applied(s, c).value, name)
              == match c
                 case Persist(a, previous) =>
                   if name == a.name then Some(a) else if previous == Some(name) then None else Find(s, name)
                 case Remove(target) => if name == target then None else Find(s, name)
                 case Rename(before, after) =>
                   if HasLabel(s, after) || Find(s, before).None? then Find(s, name)
                   else if name == after then Some(Find(s, before).value.(name := after))
                   else if name == before then None else Find(s, name)
                 case Reset(p) =>
                   if Find(s, name).Some? && Find(s, name).value.credentials.Provider() == p then None
                   else Find(s, name)
  {
    match c {
      case Persist(a, previous) =>
        UpsertFinds(s, a, name);
        if previous.Some? {
          UpsertFinds(Without(s, previous.value), a, name);
          WithoutFinds(s, previous.value, name);
        }
      case Remove(target) => WithoutFinds(s, target, name);
      case Rename(before, after) =>
        FindIs(s, before);
        if !HasLabel(s, after) { RenamedFinds(s, before, after, name); }
      case Reset(p) => ExceptProviderFinds(s, p, name);
    }
  }

  lemma {:induction false} PersistFinds(s: seq<Account>, a: Account, previous: Option<string>)
    requires UniqueLabels(s) && Applied(s, Persist(a, previous)).Done?
    ensures forall name :: Find(Applied(s, Persist(a, previous)).value, name) ==
                           if name == a.name then Some(a) else if previous == Some(name) then None else Find(s, name)
  {
    forall name
      ensures Find(Applied(s, Persist(a, previous)).value, name) ==
              if name == a.name then Some(a) else if previous == Some(name) then None else Find(s, name)
    {
      AppliedFinds(s, Persist(a, previous), name);
    }
  }

  lemma {:induction false} RenamedFinds(s: seq<Account>, before: string, after: string, name: string)
    requires UniqueLabels(s) && !HasLabel(s, after)
    ensures Find(s, before).None? ==> Relabel(s, before, after) == s
    ensures Find(s, before).Some? ==>
              Find(Relabel(s, before, after), name)
              == if name == before then None
                 else if name == after then Some(Find(s, before).value.(name := after)) else Find(s, name)
  {
    FindIs(s, before);
    if HasLabel(s, before) {
      var i :| 0 <= i < |s| && s[i].name == before;
      FindMember(s, i);
      RelabelFinds(s, before, after, i, name);
    } else {
      assert forall i :: 0 <= i < |s| ==> s[i].name != before;
      assert Relabel(s, before, after) == s;
    }
  }

  /** The entries of t are entries of s, in the order of s. */
  predicate InOrder(t: seq<Account>, s: seq<Account>) {
    && (forall i :: 0 <= i < |t| ==> t[i] in s)
    && (forall i, k :: 0 <= i < k < |t| ==> Precedes(s, t[i], t[k]))
  }

  predicate Precedes(s: seq<Account>, a: Account, b: Account) {
    exists m, n :: 0 <= m < n < |s| && s[m] == a && s[n] == b
  }

  lemma {:induction false} PrecedesCons(s: seq<Account>, a: Account, b: Account)
    requires s != [] && Precedes(s[1..], a, b)
    ensures Precedes(s, a, b)
  {
    var m, n :| 0 <= m < n < |s| - 1 && s[1..][m] == a && s[1..][n] == b;
    assert s[m + 1] == a && s[n + 1] == b;
  }

  lemma {:induction false} PrecedesHead(s: seq<Account>, b: Account)
    requires s != [] && b in s[1..]
    ensures Precedes(s, s[0], b)
  {
    var n :| 0 <= n < |s| - 1 && s[1..][n] == b;
    assert s[n + 1] == b;
  }

  lemma {:induction false} InOrderCons(t: seq<Account>, s: seq<Account>)
    requires s != [] && InOrder(t, s[1..])
    ensures InOrder(t, s) && InOrder([s[0]] + t, s)
  {
    var u := [s[0]] + t;
    forall i, k | 0 <= i < k < |t|
      ensures Precedes(s, t[i], t[k])
    {
      PrecedesCons(s, t[i], t[k]);
    }
    forall i, k | 0 <= i < k < |u|
      ensures Precedes(s, u[i], u[k])
    {
      assert t[k - 1] in s[1..];
      if i == 0 {
        PrecedesHead(s, u[k]);
      } else {
        assert u[i] == t[i - 1] && u[k] == t[k - 1];
      }
    }
  }

  lemma {:induction false} WithoutInOrder(s: seq<Account>, name: string)
    ensures InOrder(Without(s, name), s)
  {
    if s != [] {
      WithoutInOrder(s[1..], name);
      InOrderCons(Without(s[1..], name), s);
    }
  }

  lemma {:induction false} ExceptProviderInOrder(s: seq<Account>, p: ProviderId)
    ensures InOrder(ExceptProvider(s, p), s)
  {
    if s != [] {
      ExceptProviderInOrder(s[1..], p);
      InOrderCons(ExceptProvider(s[1..], p), s);
    }
  }

  /** A new label goes last; an assigned one keeps its place. */
  lemma {:induction false} UpsertPlace(s: seq<Account>, a: Account)
    ensures if HasLabel(s, a.name) then
              && |Upsert(s, a)| == |s|
              && (forall i :: 0 <= i < |s| ==> Upsert(s, a)[i] == s[i] || (s[i].name == a.name && Upsert(s, a)[i] == a))
            else Upsert(s, a) == s + [a]
  {
    if s != [] {
      UpsertPlace(s[1..], a);
      assert HasLabel(s, a.name) <==> s[0].name == a.name || HasLabel(s[1..], a.name) by {
        FindIs(s, a.name);
        FindIs(s[1..], a.name);
      }
    }
  }

  /** Where each change leaves the entries: what stays keeps its order. */
  lemma {:induction false} AppliedOrder(s: seq<Account>, c: Change)
    requires Applied(s, c).Done?
    ensures var t := Applied(s, c).value;
            match c
            case Persist(a, previous) =>
              var rest := if previous.Some? && previous.value != a.name then Without(s, previous.value) else s;
              && InOrder(rest, s)
              && (if HasLabel(rest, a.name) then
                    && |t| == |rest|
                    && (forall i :: 0 <= i < |t| ==> t[i] == rest[i] || (rest[i].name == a.name && t[i] == a))
                  else t == rest + [a])
            case Remove(_) => InOrder(t, s)
            case Reset(_) => InOrder(t, s)
            case Rename(before, after) =>
              && |t| == |s|
              && (forall i :: 0 <= i < |t| ==> t[i] == s[i] || (s[i].name == before && t[i] == s[i].(name := after)))
  {
    match c {
      case Persist(a, previous) =>
        if previous.Some? && previous.value != a.name {
          WithoutInOrder(s, previous.value);
          UpsertPlace(Without(s, previous.value), a);
        } else {
          UpsertPlace(s, a);
          SelfInOrder(s);
        }
      case Remove(target) => WithoutInOrder(s, target);
      case Reset(p) => ExceptProviderInOrder(s, p);
      case Rename(before, after) =>
    }
  }

  lemma SelfInOrder(s: seq<Account>)
    ensures InOrder(s, s)
  {
    forall i, k | 0 <= i < k < |s|
      ensures Precedes(s, s[i], s[k])
    {
    }
  }

  /** A merge touches one account, keeps its place, and in it only the fields a
      refresh owns; a target that moved on is left exactly as it is. */
  lemma MergeChangesOneAccount(s: seq<Account>, target: string, expected: Credentials, u: Update, name: string)
    ensures var t := MergedMap(s, target, expected, u);
            && (name != target ==> Find(t, name) == Find(s, name))
            && (Find(s, target).Some? && Find(s, target).value.credentials == expected ==>
                  Find(t, target) == Some(Merged(Find(s, target).value, u)))
            && (Find(s, target).None? || Find(s, target).value.credentials != expected ==> t == s)
            && Without(t, target) == Without(s, target)
    ensures forall a :: && Merged(a, u).name == a.name
                        && Merged(a, u).heartbeat == a.heartbeat
                        && Merged(a, u).lastRefreshAt == Some(u.completedAt)
                        && (u.FailureMerge? ==>
                              && Merged(a, u).credentials == a.credentials && Merged(a, u).plan == a.plan
                              && Merged(a, u).lastRefreshStatus == Some(Failed)
                              && Merged(a, u).lastRefreshError == Some(u.message))
                        && (u.SuccessMerge? ==>
                              && Merged(a, u).credentials == u.credentials
                              && (Merged(a, u).plan == if u.plan.Some? then u.plan.value else a.plan)
                              && Merged(a, u).lastRefreshStatus == Some(Succeeded)
                              && Merged(a, u).lastRefreshError.None?)
  {
    FindIs(s, target);
    if Find(s, target).Some? {
      UpsertFinds(s, Merged(Find(s, target).value, u), name);
      UpsertFinds(s, Merged(Find(s, target).value, u), target);
      UpsertKeepsOrder(s, Merged(Find(s, target).value, u));
    }
  }

  // Accounts and the private bundles they name.

  const AUTH := "auth.json"

  predicate HomesDistinct(s: seq<Account>) {
    forall i, k :: 0 <= i < k < |s| && s[i].credentials.CanonicalHome().Some? ==>
                     s[i].credentials.CanonicalHome() != s[k].credentials.CanonicalHome()
  }

  /** No home is the private root, and none contains another. */
  predicate HomesApart(s: seq<Account>) {
    && (forall i :: 0 <= i < |s| ==> s[i].credentials.CanonicalHome() != Some([]))
    && (forall i, k :: 0 <= i < |s| && 0 <= k < |s| && i != k && s[i].credentials.CanonicalHome().Some?
                       && s[k].credentials.CanonicalHome().Some? ==>
                         !(s[i].credentials.CanonicalHome().value <= s[k].credentials.CanonicalHome().value))
  }

  predicate Names(s: seq<Account>, home: Bundle) {
    exists i :: 0 <= i < |s| && s[i].credentials.CanonicalHome() == Some(home)
  }

  predicate Holds(files: map<Loc, Content>, a: Account) {
    a.credentials.CanonicalHome().Some? ==>
      Lookup(files, Loc(a.credentials.CanonicalHome().value, AUTH)) == Some(AuthFile(a.credentials))
  }

  /** Every canonical home named by an account holds that account's credentials. */
  predicate Agrees(s: seq<Account>, files: map<Loc, Content>) {
    forall i :: 0 <= i < |s| ==> Holds(files, s[i])
  }

  /** Each prepared bundle carries the credentials of the account naming its path. */
  predicate Carries(bundles: seq<PreparedWrite>, s: seq<Account>) {
    forall i, k :: 0 <= i < |s| && 0 <= k < |bundles| && s[i].credentials.CanonicalHome() == Some(bundles[k].path) ==>
                     (AUTH, AuthFile(s[i].credentials)) in bundles[k].files
  }

  predicate Prepared(bundles: seq<PreparedWrite>, home: Bundle) {
    home in PathsOf(bundles)
  }

  /** What the store demands of the bundles that come with a new map. */
  predicate BundlesProven(before: seq<Account>, after: seq<Account>, bundles: seq<PreparedWrite>) {
    && (forall b :: b in PathsOf(bundles) ==> Names(after, b))
    && (forall i :: 0 <= i < |after| && after[i].credentials.CanonicalHome().Some?
                    && !Prepared(bundles, after[i].credentials.CanonicalHome().value) ==>
                      exists k :: 0 <= k < |before| && before[k].credentials == after[i].credentials)
  }

  /** The homes the old map named and the new one does not. */
  predicate ExactlyDisplaced(before: seq<Account>, after: seq<Account>, displaced: seq<Bundle>) {
    && (forall b :: b in displaced ==> Names(before, b) && !Names(after, b))
    && (forall i :: 0 <= i < |before| && before[i].credentials.CanonicalHome().Some? ==>
                      var home := before[i].credentials.CanonicalHome().value;
                      !Names(after, home) ==> home in displaced)
  }

  predicate IsWanted(bundles: seq<PreparedWrite>, l: Loc) {
    exists n :: 0 <= n < |Wanted(bundles)| && Wanted(bundles)[n].0 == l
  }

  predicate IsBelow(displaced: seq<Bundle>, l: Loc) {
    exists b :: b in displaced && b <= l.bundle
  }

  /** The private tree after a commit: prepared files written, displaced homes gone
      with everything below them, everything else as it was. */
  ghost predicate FilesAfter(before: map<Loc, Content>, after: map<Loc, Content>, bundles: seq<PreparedWrite>,
                             displaced: seq<Bundle>) {
    && (forall n :: 0 <= n < |Wanted(bundles)| ==>
                      Lookup(after, Wanted(bundles)[n].0) == Some(Wanted(bundles)[n].1))
    && (forall l :: !IsWanted(bundles, l) ==>
                      Lookup(after, l) == if IsBelow(displaced, l) then None else Lookup(before, l))
  }

  /** The target state of a runtime journal is the requested tree. */
  lemma FinalTargetIsFilesAfter(base: Disk, d: Disk, payload: Content, bundles: seq<PreparedWrite>,
                                displaced: seq<Bundle>, g: Option<GuardRecord>)
    requires FinalTarget(RuntimeJournal(base, payload, bundles, displaced, g), base, d)
    ensures FilesAfter(base.files, d.files, bundles, displaced)
  {
    var j := RuntimeJournal(base, payload, bundles, displaced, g);
    forall n | 0 <= n < |Wanted(bundles)|
      ensures Lookup(d.files, Wanted(bundles)[n].0) == Some(Wanted(bundles)[n].1)
    {
      assert AtTarget(j.files[n], d.files);
    }
    forall l | !IsWanted(bundles, l)
      ensures Lookup(d.files, l) == if IsBelow(displaced, l) then None else Lookup(base.files, l)
    {
      assert !IsJournalled(j, l);
      if IsBelow(displaced, l) {
        var b :| b in displaced && b <= l.bundle;
        assert !BundlePresent(d.files, b);
      } else {
        assert !IsDisplaced(j, l);
        assert SameAt(d.files, base.files, l);
      }
    }
  }

  /** No displaced home contains a home that survives without being rewritten. */
  predicate NoSurvivorBelow(after: seq<Account>, bundles: seq<PreparedWrite>, displaced: seq<Bundle>) {
    forall i, b :: 0 <= i < |after| && b in displaced && after[i].credentials.CanonicalHome().Some?
                   && !Prepared(bundles, after[i].credentials.CanonicalHome().value) ==>
                     !(b <= after[i].credentials.CanonicalHome().value)
  }

  lemma WantedAt(bundles: seq<PreparedWrite>, k: nat, i: nat) returns (n: nat)
    requires k < |bundles| && i < |bundles[k].files|
    ensures n < |Wanted(bundles)|
    ensures Wanted(bundles)[n] == (Loc(bundles[k].path, bundles[k].files[i].0), bundles[k].files[i].1)
  {
    var m := |bundles| - 1;
    if k < m {
      n := WantedAt(bundles[..m], k, i);
    } else {
      n := |Wanted(bundles[..m])| + i;
      assert WantedOf(bundles[m])[i] == (Loc(bundles[k].path, bundles[k].files[i].0), bundles[k].files[i].1);
    }
  }

  lemma PreparedHolds(s: seq<Account>, i: nat, before: map<Loc, Content>, after: map<Loc, Content>,
                      bundles: seq<PreparedWrite>, displaced: seq<Bundle>)
    requires i < |s| && Carries(bundles, s) && FilesAfter(before, after, bundles, displaced)
    requires s[i].credentials.CanonicalHome().Some?
    requires Prepared(bundles, s[i].credentials.CanonicalHome().value)
    ensures Holds(after, s[i])
  {
    var home := s[i].credentials.CanonicalHome().value;
    var k :| 0 <= k < |bundles| && PathsOf(bundles)[k] == home;
    assert bundles[k].path == home;
    var f :| 0 <= f < |bundles[k].files| && bundles[k].files[f] == (AUTH, AuthFile(s[i].credentials));
    var n := WantedAt(bundles, k, f);
    assert Lookup(after, Wanted(bundles)[n].0) == Some(Wanted(bundles)[n].1);
  }

  lemma SurvivorHolds(s: seq<Account>, i: nat, prior: seq<Account>, before: map<Loc, Content>,
                      after: map<Loc, Content>, bundles: seq<PreparedWrite>, displaced: seq<Bundle>)
    requires i < |s| && Agrees(prior, before) && FilesAfter(before, after, bundles, displaced)
    requires BundlesProven(prior, s, bundles)
    requires s[i].credentials.CanonicalHome().Some?
    requires !Prepared(bundles, s[i].credentials.CanonicalHome().value)
    ensures Holds(after, s[i]) <==>
            forall b :: b in displaced ==> !(b <= s[i].credentials.CanonicalHome().value)
  {
    var home := s[i].credentials.CanonicalHome().value;
    var l := Loc(home, AUTH);
    if IsWanted(bundles, l) {
      var n :| 0 <= n < |Wanted(bundles)| && Wanted(bundles)[n].0 == l;
      WantedBundle(bundles, n);
    }
    var k :| 0 <= k < |prior| && prior[k].credentials == s[i].credentials;
    assert Holds(before, prior[k]);
    assert IsBelow(displaced, l) <==> !(forall b :: b in displaced ==> !(b <= home));
  }

  /** Agreement is kept exactly when no displaced home contains a surviving one. */
  lemma AgreementIff(prior: seq<Account>, s: seq<Account>, before: map<Loc, Content>, after: map<Loc, Content>,
                     bundles: seq<PreparedWrite>, displaced: seq<Bundle>)
    requires Agrees(prior, before) && BundlesProven(prior, s, bundles) && Carries(bundles, s)
    requires FilesAfter(before, after, bundles, displaced)
    ensures Agrees(s, after) <==> NoSurvivorBelow(s, bundles, displaced)
  {
    forall i | 0 <= i < |s| && s[i].credentials.CanonicalHome().Some?
      ensures var home := s[i].credentials.CanonicalHome().value;
              Holds(after, s[i]) <==> Prepared(bundles, home) || forall b :: b in displaced ==> !(b <= home)
    {
      if Prepared(bundles, s[i].credentials.CanonicalHome().value) {
        PreparedHolds(s, i, before, after, bundles, displaced);
      } else {
        SurvivorHolds(s, i, prior, before, after, bundles, displaced);
      }
    }
  }

  /** Removing the account of an outer home takes the inner home of another one. */
  lemma NestedHomesBreakAgreement(outer: Account, inner: Account)
    requires outer.credentials == CodexLogin("a", None, Some(Canonical(["team"])))
    requires inner.credentials == CodexLogin("b", None, Some(Canonical(["team", "ci"])))
    ensures var before := map[Loc(["team"], AUTH) := AuthFile(outer.credentials),
                              Loc(["team", "ci"], AUTH) := AuthFile(inner.credentials)];
            && Agrees([outer, inner], before)
            && BundlesProven([outer, inner], [inner], []) && ExactlyDisplaced([outer, inner], [inner], [["team"]])
            && FilesAfter(before, map[], [], [["team"]])
            && !Agrees([inner], map[])
  {
    var before := map[Loc(["team"], AUTH) := AuthFile(outer.credentials),
                      Loc(["team", "ci"], AUTH) := AuthFile(inner.credentials)];
    var s := [outer, inner];
    assert Holds(before, s[0]) && Holds(before, s[1]);
    assert s[1].credentials == [inner][0].credentials;
    assert s[0].credentials.CanonicalHome() == Some(["team"]);
    forall l: Loc
      ensures Lookup(map[], l) == if IsBelow([["team"]], l) then None else Lookup(before, l)
    {
      if l in before {
        assert ["team"] in [["team"]] && ["team"] <= l.bundle;
      }
    }
    assert !Holds(map[], [inner][0]);
  }
}
