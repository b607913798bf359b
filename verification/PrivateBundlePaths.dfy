/** The portable namespace of private bundle paths, for any portable key function. */
module PrivateBundlePaths {
  import opened Wrappers
  import opened Storage

  predicate Distinct<T(==)>(s: seq<T>) {
    forall i, k :: 0 <= i < k < |s| ==> s[i] != s[k]
  }

  function KeyOf(b: Bundle, key: string -> string): seq<string> {
    seq(|b|, i requires 0 <= i < |b| => key(b[i]))
  }

  function KeysOf(s: seq<Bundle>, key: string -> string): seq<seq<string>> {
    seq(|s|, i requires 0 <= i < |s| => KeyOf(s[i], key))
  }

  /** Neither key sequence contains the other. */
  predicate Apart(a: seq<string>, b: seq<string>) {
    !(a <= b) && !(b <= a)
  }

  predicate PrefixFree(keys: seq<seq<string>>) {
    forall i, k :: 0 <= i < k < |keys| ==> Apart(keys[i], keys[k])
  }

  /** Paths that share a key prefix spell that prefix identically. */
  predicate SpelledAlike(p: Bundle, q: Bundle, key: string -> string) {
    forall n :: 0 <= n <= |p| && n <= |q| && KeyOf(p, key)[..n] == KeyOf(q, key)[..n] ==> p[..n] == q[..n]
  }

  predicate ConsistentlySpelled(paths: seq<Bundle>, key: string -> string) {
    forall i, k :: 0 <= i < |paths| && 0 <= k < |paths| ==> SpelledAlike(paths[i], paths[k], key)
  }

  /** What the path-set check is for. */
  predicate PortableUnique(paths: seq<Bundle>, key: string -> string) {
    PrefixFree(KeysOf(paths, key)) && ConsistentlySpelled(paths, key)
  }

  /** Comparing the common length is comparing for containment. */
  lemma CommonPrefixIff(a: seq<string>, b: seq<string>)
    ensures var common := if |a| < |b| then |a| else |b|;
            a[..common] == b[..common] <==> !Apart(a, b)
  {
    if |a| < |b| {
      assert a[..|a|] == a;
    } else {
      assert b[..|b|] == b;
    }
  }

  lemma DistinctStep<T>(s: seq<T>, n: nat)
    requires n < |s| && Distinct(s[..n])
    ensures Distinct(s[..n + 1]) <==> s[n] !in s[..n]
    ensures s[n] in s[..n] ==> !Distinct(s)
  {
    if s[n] in s[..n] {
      var i :| 0 <= i < n && s[..n][i] == s[n];
      assert s[i] == s[n] && s[..n + 1][i] == s[..n + 1][n];
    }
  }

  lemma {:induction false} SizeIffDistinct(s: seq<seq<string>>)
    ensures |Elements(s)| <= |s|
    ensures |Elements(s)| == |s| <==> Distinct(s)
  {
    if s != [] {
      var n := |s| - 1;
      SizeIffDistinct(s[..n]);
      assert s == s[..n + 1] == s[..n] + [s[n]];
      assert Elements(s) == Elements(s[..n]) + {s[n]};
      if Distinct(s[..n]) {
        DistinctStep(s, n);
      }
    }
  }

  /** No path key contains another. */
  method NestedLoops(keys: seq<seq<string>>) returns (free: bool)
    ensures free <==> PrefixFree(keys)
  {
    for index := 0 to |keys|
      invariant forall i, k :: 0 <= i < index && i < k < |keys| ==> Apart(keys[i], keys[k])
    {
      for other := index + 1 to |keys|
        invariant forall k :: index < k < other ==> Apart(keys[index], keys[k])
      {
        var a, b := keys[index], keys[other];
        var common := if |a| < |b| then |a| else |b|;
        CommonPrefixIff(a, b);
        if a[..common] == b[..common] { return false; }
      }
    }
    return true;
  }

  // A spelling is recorded for a component key below the keys of its parents.
  type Identity = (seq<string>, string)

  function IdentityAt(p: Bundle, n: nat, key: string -> string): Identity
    requires n < |p|
  {
    (KeyOf(p, key)[..n], key(p[n]))
  }

  /** The map records exactly the components of the first m paths and of the first n
      components of path m. */
  ghost predicate Records(spellings: map<Identity, string>, paths: seq<Bundle>, key: string -> string, m: nat, n: nat) {
    && (forall i, c :: 0 <= i < |paths| && 0 <= c < |paths[i]| && (i < m || (i == m && c < n)) ==>
                         Lookup(spellings, IdentityAt(paths[i], c, key)) == Some(paths[i][c]))
    && (forall id :: id in spellings ==>
                       exists i, c :: 0 <= i < |paths| && 0 <= c < |paths[i]| && (i < m || (i == m && c < n))
                                      && IdentityAt(paths[i], c, key) == id)
  }

  lemma RecordsNext(spellings: map<Identity, string>, paths: seq<Bundle>, key: string -> string, m: nat)
    requires m < |paths| && Records(spellings, paths, key, m, |paths[m]|)
    ensures Records(spellings, paths, key, m + 1, 0)
  {
  }

  lemma RecordsOne(spellings: map<Identity, string>, paths: seq<Bundle>, key: string -> string, m: nat, n: nat)
    requires m < |paths| && n < |paths[m]| && Records(spellings, paths, key, m, n)
    requires Lookup(spellings, IdentityAt(paths[m], n, key)) == None
             || Lookup(spellings, IdentityAt(paths[m], n, key)) == Some(paths[m][n])
    ensures Records(spellings[IdentityAt(paths[m], n, key) := paths[m][n]], paths, key, m, n + 1)
  {
    var id := IdentityAt(paths[m], n, key);
    var after := spellings[id := paths[m][n]];
    forall x | x in after
      ensures exists i, c :: 0 <= i < |paths| && 0 <= c < |paths[i]| && (i < m || (i == m && c < n + 1))
                             && IdentityAt(paths[i], c, key) == x
    {
      if x in spellings {
        var i, c :| 0 <= i < |paths| && 0 <= c < |paths[i]| && (i < m || (i == m && c < n))
                    && IdentityAt(paths[i], c, key) == x;
      } else {
        assert IdentityAt(paths[m], n, key) == x;
      }
    }
    forall i, c | 0 <= i < |paths| && 0 <= c < |paths[i]| && (i < m || (i == m && c < n + 1))
      ensures Lookup(after, IdentityAt(paths[i], c, key)) == Some(paths[i][c])
    {
      if i < m || c < n {
        assert Lookup(spellings, IdentityAt(paths[i], c, key)) == Some(paths[i][c]);
      }
    }
  }

  /** Equal identities say that the key prefixes agree one component further. */
  lemma IdentityIffPrefix(p: Bundle, q: Bundle, n: nat, key: string -> string)
    requires n < |p| && n < |q|
    ensures IdentityAt(p, n, key) == IdentityAt(q, n, key) <==> KeyOf(p, key)[..n + 1] == KeyOf(q, key)[..n + 1]
  {
    assert KeyOf(p, key)[..n + 1] == KeyOf(p, key)[..n] + [key(p[n])];
    assert KeyOf(q, key)[..n + 1] == KeyOf(q, key)[..n] + [key(q[n])];
    var a, b := KeyOf(p, key)[..n + 1], KeyOf(q, key)[..n + 1];
    assert a[..n] == KeyOf(p, key)[..n] && b[..n] == KeyOf(q, key)[..n] && a[n] == key(p[n]) && b[n] == key(q[n]);
  }

  lemma OneMoreAlike(spellings: map<Identity, string>, paths: seq<Bundle>, key: string -> string, i: nat, k: nat,
                     n: nat)
    requires Records(spellings, paths, key, |paths|, 0)
    requires i < |paths| && k < |paths| && n < |paths[i]| && n < |paths[k]|
    requires IdentityAt(paths[i], n, key) == IdentityAt(paths[k], n, key)
    ensures paths[i][n] == paths[k][n]
  {
    assert Lookup(spellings, IdentityAt(paths[i], n, key)) == Some(paths[i][n]);
    assert Lookup(spellings, IdentityAt(paths[k], n, key)) == Some(paths[k][n]);
  }

  lemma {:induction false} AllRecordedIsAlike(spellings: map<Identity, string>, paths: seq<Bundle>,
                                              key: string -> string,
                                              i: nat, k: nat, n: nat)
    requires Records(spellings, paths, key, |paths|, 0)
    requires i < |paths| && k < |paths| && n <= |paths[i]| && n <= |paths[k]|
    requires KeyOf(paths[i], key)[..n] == KeyOf(paths[k], key)[..n]
    ensures paths[i][..n] == paths[k][..n]
  {
    if n > 0 {
      IdentityIffPrefix(paths[i], paths[k], n - 1, key);
      assert KeyOf(paths[i], key)[..n][..n - 1] == KeyOf(paths[i], key)[..n - 1];
      assert KeyOf(paths[k], key)[..n][..n - 1] == KeyOf(paths[k], key)[..n - 1];
      AllRecordedIsAlike(spellings, paths, key, i, k, n - 1);
      OneMoreAlike(spellings, paths, key, i, k, n - 1);
      assert paths[i][..n] == paths[i][..n - 1] + [paths[i][n - 1]];
      assert paths[k][..n] == paths[k][..n - 1] + [paths[k][n - 1]];
    }
  }

  /** A recorded spelling that differs is an inconsistent alias. */
  lemma DifferentIsInconsistent(spellings: map<Identity, string>, paths: seq<Bundle>, key: string -> string, m: nat,
                                n: nat)
    requires m < |paths| && n < |paths[m]| && Records(spellings, paths, key, m, n)
    requires IdentityAt(paths[m], n, key) in spellings
    requires spellings[IdentityAt(paths[m], n, key)] != paths[m][n]
    ensures !ConsistentlySpelled(paths, key)
  {
    var id := IdentityAt(paths[m], n, key);
    var i, c :| 0 <= i < |paths| && 0 <= c < |paths[i]| && (i < m || (i == m && c < n))
        && IdentityAt(paths[i], c, key) == id;
    assert |KeyOf(paths[i], key)[..c]| == |KeyOf(paths[m], key)[..n]|;
    IdentityIffPrefix(paths[i], paths[m], n, key);
    assert Lookup(spellings, id) == Some(paths[i][c]);
    assert paths[i][..n + 1][n] != paths[m][..n + 1][n];
    assert !SpelledAlike(paths[i], paths[m], key);
  }

  lemma IdentityStep(p: Bundle, n: nat, key: string -> string)
    requires n < |p|
    ensures IdentityAt(p, n, key) == (KeyOf(p, key)[..n], key(p[n]))
    ensures KeyOf(p, key)[..n + 1] == KeyOf(p, key)[..n] + [key(p[n])]
  {
  }

  /** Record the components of one path, unless one is spelled differently. */
  method SpellPath(paths: seq<Bundle>, key: string -> string, m: nat, before: map<Identity, string>)
    returns (spellings: Option<map<Identity, string>>)
    requires m < |paths| && Records(before, paths, key, m, 0)
    ensures spellings.Some? ==> Records(spellings.value, paths, key, m, |paths[m]|)
    ensures spellings.None? ==> !ConsistentlySpelled(paths, key)
  {
    var recorded := before;
    var parent: seq<string> := [];
    for n := 0 to |paths[m]|
      invariant parent == KeyOf(paths[m], key)[..n]
      invariant Records(recorded, paths, key, m, n)
    {
      var component := paths[m][n];
      var k := key(component);
      var identity := (parent, k);
      IdentityStep(paths[m], n, key);
      if identity in recorded && recorded[identity] != component {
        DifferentIsInconsistent(recorded, paths, key, m, n);
        return None;
      }
      RecordsOne(recorded, paths, key, m, n);
      recorded := recorded[identity := component];
      parent := parent + [k];
    }
    return Some(recorded);
  }

  lemma AllRecordedIsConsistent(spellings: map<Identity, string>, paths: seq<Bundle>, key: string -> string)
    requires Records(spellings, paths, key, |paths|, 0)
    ensures ConsistentlySpelled(paths, key)
  {
    forall i, k | 0 <= i < |paths| && 0 <= k < |paths|
      ensures SpelledAlike(paths[i], paths[k], key)
    {
      forall n | 0 <= n <= |paths[i]| && n <= |paths[k]| && KeyOf(paths[i], key)[..n] == KeyOf(paths[k], key)[..n]
        ensures paths[i][..n] == paths[k][..n]
      {
        AllRecordedIsAlike(spellings, paths, key, i, k, n);
      }
    }
  }

  /** The spelling map accepts exactly the consistently spelled paths. */
  method SpellingLoops(paths: seq<Bundle>, key: string -> string) returns (consistent: bool)
    ensures consistent <==> ConsistentlySpelled(paths, key)
  {
    var spellings: map<Identity, string> := map[];
    for m := 0 to |paths|
      invariant Records(spellings, paths, key, m, 0)
    {
      var longer := SpellPath(paths, key, m, spellings);
      if longer.None? { return false; }
      spellings := longer.value;
      RecordsNext(spellings, paths, key, m);
    }
    AllRecordedIsConsistent(spellings, paths, key);
    return true;
  }

  /** The whole check is exact: it accepts a sequence of paths if and only if no key
      sequence is a prefix of another's and shared prefixes are spelled identically. */
  method RequirePortableUnique(paths: seq<Bundle>, key: string -> string) returns (accepted: bool)
    ensures accepted <==> PortableUnique(paths, key)
  {
    var keys := KeysOf(paths, key);
    SizeIffDistinct(keys);
    if |Elements(keys)| != |keys| {
      var i, k :| 0 <= i < k < |keys| && keys[i] == keys[k];
      assert !Apart(keys[i], keys[k]);
      return false;
    }
    var free := NestedLoops(keys);
    if !free { return false; }
    accepted := SpellingLoops(paths, key);
  }
}
