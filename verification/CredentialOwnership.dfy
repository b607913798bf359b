/** Which saved accounts claim the same provider credential. */
module CredentialOwnership {
  import opened Wrappers
  import opened Accounts

  datatype Field = AccessToken | RefreshToken

  datatype Conflict = Conflict(labels: seq<string>, provider: ProviderId, field: Field)

  function FieldOf(a: Account, f: Field): Option<string> {
    match f
    case AccessToken => Some(a.credentials.access)
    case RefreshToken => a.credentials.RefreshToken()
  }

  /** Two records hold the same non-null value of one provider field. */
  predicate SameOwner(a: Account, b: Account, f: Field) {
    a.credentials.Provider() == b.credentials.Provider() && FieldOf(a, f) == FieldOf(b, f) && FieldOf(a, f).Some?
  }

  /** The ownership class of record i, as the increasing positions in [from, to). */
  function ClassFrom(records: seq<Account>, f: Field, i: nat, from: nat, end: nat): (positions: seq<nat>)
    requires i < |records| && from <= end <= |records|
    ensures forall k :: k in positions ==> from <= k < end && SameOwner(records[i], records[k], f)
    ensures forall k :: from <= k < end && SameOwner(records[i], records[k], f) ==> k in positions
    ensures forall x :: 0 <= x < |positions| ==> from <= positions[x] < end
    ensures forall x, y :: 0 <= x < y < |positions| ==> positions[x] < positions[y]
    decreases end - from
  {
    if from == end then []
    else
      var rest := ClassFrom(records, f, i, from, end - 1);
      if SameOwner(records[i], records[end - 1], f) then
        assert forall x :: 0 <= x < |rest| ==> rest[x] in rest;
        rest + [end - 1]
      else rest
  }

  /** The reference definition: record i opens a class when no earlier record is in
      it and some later one is. */
  predicate Opens(records: seq<Account>, f: Field, i: nat) {
    && i < |records|
    && (forall k :: 0 <= k < i ==> !SameOwner(records[k], records[i], f))
    && (exists k :: i < k < |records| && SameOwner(records[i], records[k], f))
  }

  function LabelsOf(records: seq<Account>, positions: seq<nat>): seq<string>
    requires forall x :: 0 <= x < |positions| ==> positions[x] < |records|
  {
    if positions == [] then [] else [records[positions[0]].name] + LabelsOf(records, positions[1..])
  }

  /** The conflict of the class that record i belongs to. */
  function ConflictOf(records: seq<Account>, f: Field, i: nat): Conflict
    requires i < |records|
  {
    Conflict(LabelsOf(records, ClassFrom(records, f, i, 0, |records|)), records[i].credentials.Provider(), f)
  }

  /** All classes with two or more members, each once, in first-occurrence order. */
  function ConflictsUpTo(records: seq<Account>, f: Field, n: nat): seq<Conflict>
    requires n <= |records|
  {
    if n == 0 then []
    else ConflictsUpTo(records, f, n - 1) + (if Opens(records, f, n - 1) then [ConflictOf(records, f, n - 1)] else [])
  }

  /** The class of an opening record is the record followed by its later matches. */
  lemma OpeningClass(records: seq<Account>, f: Field, i: nat, end: nat)
    requires i < end <= |records| && FieldOf(records[i], f).Some?
    requires forall k :: 0 <= k < i ==> !SameOwner(records[k], records[i], f)
    ensures ClassFrom(records, f, i, 0, end) == [i] + ClassFrom(records, f, i, i + 1, end)
    decreases end
  {
    if end > i + 1 {
      OpeningClass(records, f, i, end - 1);
    } else {
      assert SameOwner(records[i], records[i], f);
      EmptyClass(records, f, i, i);
    }
  }

  lemma {:induction false} EmptyClass(records: seq<Account>, f: Field, i: nat, end: nat)
    requires i < |records| && end <= |records|
    requires forall k :: 0 <= k < end ==> !SameOwner(records[k], records[i], f)
    ensures ClassFrom(records, f, i, 0, end) == []
  {
    if end > 0 {
      EmptyClass(records, f, i, end - 1);
      assert SameOwner(records[end - 1], records[i], f) == SameOwner(records[i], records[end - 1], f);
    }
  }

  /** The matching positions after one record, as the source collects them. */
  method Matching(records: seq<Account>, f: Field, i: nat) returns (positions: seq<nat>)
    requires i < |records| && FieldOf(records[i], f).Some?
    ensures positions == ClassFrom(records, f, i, i + 1, |records|)
  {
    positions := [];
    for k := i + 1 to |records|
      invariant positions == ClassFrom(records, f, i, i + 1, k)
    {
      if records[k].credentials.Provider() == records[i].credentials.Provider()
         && FieldOf(records[k], f) == FieldOf(records[i], f) {
        positions := positions + [k];
      }
    }
  }

  /** Some record before n, and before k, already owns what k holds. */
  predicate OwnedBefore(records: seq<Account>, f: Field, n: nat, k: nat)
    requires n <= |records|
  {
    k < |records| && exists e :: 0 <= e < n && e < k && SameOwner(records[e], records[k], f)
  }

  /** A handled or null record adds nothing that is not already owned, and opens no
      class. */
  lemma HandledAddsNothing(records: seq<Account>, f: Field, i: nat)
    requires i < |records|
    requires OwnedBefore(records, f, i, i) || FieldOf(records[i], f).None?
    ensures !Opens(records, f, i)
    ensures forall k: nat :: OwnedBefore(records, f, i + 1, k) <==> OwnedBefore(records, f, i, k)
  {
    forall k: nat | OwnedBefore(records, f, i + 1, k)
      ensures OwnedBefore(records, f, i, k)
    {
      var e :| 0 <= e < i + 1 && e < k && SameOwner(records[e], records[k], f);
      if e == i {
        var d :| 0 <= d < i && SameOwner(records[d], records[i], f);
        assert SameOwner(records[d], records[k], f);
      }
    }
  }

  /** An unhandled record opens a class exactly when it has later matches, and owns
      exactly those. */
  lemma UnhandledOwnsItsMatches(records: seq<Account>, f: Field, i: nat)
    requires i < |records| && !OwnedBefore(records, f, i, i) && FieldOf(records[i], f).Some?
    ensures Opens(records, f, i) <==> ClassFrom(records, f, i, i + 1, |records|) != []
    ensures forall k: nat :: OwnedBefore(records, f, i + 1, k) <==>
                             OwnedBefore(records, f, i, k) || k in ClassFrom(records, f, i, i + 1, |records|)
  {
    var matching := ClassFrom(records, f, i, i + 1, |records|);
    assert forall k :: 0 <= k < i ==> !SameOwner(records[k], records[i], f);
    if matching != [] {
      assert matching[0] in matching;
    }
    forall k: nat
      ensures OwnedBefore(records, f, i + 1, k) <==> OwnedBefore(records, f, i, k) || k in matching
    {
      OwnedStep(records, f, i, k);
    }
  }

  lemma OwnedStep(records: seq<Account>, f: Field, i: nat, k: nat)
    requires i < |records|
    ensures OwnedBefore(records, f, i + 1, k) <==>
            OwnedBefore(records, f, i, k) || (i < k < |records| && SameOwner(records[i], records[k], f))
  {
  }

  lemma UnhandledConflict(records: seq<Account>, f: Field, i: nat)
    requires i < |records| && !OwnedBefore(records, f, i, i) && FieldOf(records[i], f).Some?
    ensures ConflictOf(records, f, i)
            == Conflict([records[i].name] + LabelsOf(records, ClassFrom(records, f, i, i + 1, |records|)),
                        records[i].credentials.Provider(), f)
  {
    var matching := ClassFrom(records, f, i, i + 1, |records|);
    assert forall k :: 0 <= k < i ==> !SameOwner(records[k], records[i], f);
    OpeningClass(records, f, i, |records|);
    assert ([i] + matching)[1..] == matching;
  }

  /** The handled set holds exactly the records that an earlier one owns. */
  ghost predicate HandledIs(handled: set<nat>, records: seq<Account>, f: Field, i: nat)
    requires i <= |records|
  {
    forall k: nat :: k in handled <==> OwnedBefore(records, f, i, k)
  }

  lemma HandledStep(handled: set<nat>, records: seq<Account>, f: Field, i: nat)
    requires i < |records| && HandledIs(handled, records, f, i)
    requires i !in handled && FieldOf(records[i], f).Some?
    ensures HandledIs(handled + Elements(ClassFrom(records, f, i, i + 1, |records|)), records, f, i + 1)
    ensures Opens(records, f, i) <==> ClassFrom(records, f, i, i + 1, |records|) != []
  {
    UnhandledOwnsItsMatches(records, f, i);
  }

  /** The quadratic scan with its handled set reports exactly the classes. */
  method FieldConflicts(records: seq<Account>, f: Field) returns (conflicts: seq<Conflict>)
    ensures conflicts == ConflictsUpTo(records, f, |records|)
  {
    var handled: set<nat> := {};
    conflicts := [];
    for i := 0 to |records|
      invariant conflicts == ConflictsUpTo(records, f, i)
      invariant HandledIs(handled, records, f, i)
    {
      if i in handled || FieldOf(records[i], f).None? {
        HandledAddsNothing(records, f, i);
      } else {
        HandledStep(handled, records, f, i);
        UnhandledConflict(records, f, i);
        var matching := Matching(records, f, i);
        handled := handled + Elements(matching);
        if matching != [] {
          conflicts := conflicts + [Conflict([records[i].name] + LabelsOf(records, matching),
                                             records[i].credentials.Provider(), f)];
        }
      }
    }
  }

  predicate HasDuplicateOwner(records: seq<Account>, f: Field) {
    exists i, k :: 0 <= i < k < |records| && SameOwner(records[i], records[k], f)
  }

  /** Some record before n opens exactly this class. */
  predicate OpenedBefore(records: seq<Account>, f: Field, n: nat, c: Conflict)
    requires n <= |records|
  {
    exists i :: 0 <= i < n && Opens(records, f, i) && c == ConflictOf(records, f, i)
  }

  lemma OpenedStep(records: seq<Account>, f: Field, n: nat, c: Conflict)
    requires n < |records|
    ensures OpenedBefore(records, f, n + 1, c) <==>
            OpenedBefore(records, f, n, c) || (Opens(records, f, n) && c == ConflictOf(records, f, n))
  {
  }

  /** Every opening record is reported, and every report comes from one. */
  lemma {:induction false} ReportedIffOpens(records: seq<Account>, f: Field, n: nat, c: Conflict)
    requires n <= |records|
    ensures c in ConflictsUpTo(records, f, n) <==> OpenedBefore(records, f, n, c)
  {
    if n > 0 {
      ReportedIffOpens(records, f, n - 1, c);
      OpenedStep(records, f, n - 1, c);
    }
  }

  /** The first member of a class with two members opens it. */
  lemma {:induction false} DuplicateHasOpening(records: seq<Account>, f: Field, i: nat, k: nat) returns (o: nat)
    requires i < k < |records| && SameOwner(records[i], records[k], f)
    ensures o <= i && Opens(records, f, o) && SameOwner(records[o], records[i], f)
    decreases i
  {
    if e :| 0 <= e < i && SameOwner(records[e], records[i], f) {
      o := DuplicateHasOpening(records, f, e, i);
    } else {
      o := i;
    }
  }

  /** There is a conflict exactly when two records share an owner. */
  lemma ConflictIffDuplicate(records: seq<Account>, f: Field)
    ensures ConflictsUpTo(records, f, |records|) != [] <==> HasDuplicateOwner(records, f)
  {
    var all := ConflictsUpTo(records, f, |records|);
    if all != [] {
      ReportedIffOpens(records, f, |records|, all[0]);
    }
    if HasDuplicateOwner(records, f) {
      var i, k :| 0 <= i < k < |records| && SameOwner(records[i], records[k], f);
      var o := DuplicateHasOpening(records, f, i, k);
      assert OpenedBefore(records, f, |records|, ConflictOf(records, f, o));
      ReportedIffOpens(records, f, |records|, ConflictOf(records, f, o));
    }
  }

  /** Every duplicated record is in exactly one reported class: the classes of two
      opening records never overlap. */
  lemma OpeningsAreDisjoint(records: seq<Account>, f: Field, i: nat, k: nat, m: nat)
    requires Opens(records, f, i) && Opens(records, f, k) && m < |records|
    requires SameOwner(records[i], records[m], f) && SameOwner(records[k], records[m], f)
    ensures i == k
  {
    assert SameOwner(records[i], records[k], f) && SameOwner(records[k], records[i], f);
  }

  predicate UniqueOwners(records: seq<Account>) {
    !HasDuplicateOwner(records, AccessToken) && !HasDuplicateOwner(records, RefreshToken)
  }

  /** Only credentials decide ownership. */
  lemma {:induction false} SameOwners(s: seq<Account>, t: seq<Account>)
    requires |s| == |t| && forall i :: 0 <= i < |s| ==> t[i].credentials == s[i].credentials
    requires UniqueOwners(s)
    ensures UniqueOwners(t)
  {
    forall f: Field, i, k | 0 <= i < |t| && 0 <= k < |t|
      ensures SameOwner(t[i], t[k], f) <==> SameOwner(s[i], s[k], f)
    {
    }
  }

  /** Access-token conflicts are reported before refresh-token conflicts. */
  function ReferenceConflicts(records: seq<Account>): seq<Conflict> {
    ConflictsUpTo(records, AccessToken, |records|) + ConflictsUpTo(records, RefreshToken, |records|)
  }

  method CredentialOwnershipConflicts(records: seq<Account>) returns (conflicts: seq<Conflict>)
    ensures conflicts == ReferenceConflicts(records)
    ensures conflicts == [] <==> UniqueOwners(records)
  {
    var access := FieldConflicts(records, AccessToken);
    var refresh := FieldConflicts(records, RefreshToken);
    ConflictIffDuplicate(records, AccessToken);
    ConflictIffDuplicate(records, RefreshToken);
    conflicts := access + refresh;
  }

  /** Rejection carries the first conflict, and happens exactly on a duplicate. */
  method RejectDuplicateCredentialOwnership(records: seq<Account>) returns (rejected: Option<Conflict>)
    ensures rejected.None? <==> UniqueOwners(records)
    ensures rejected.Some? ==> [rejected.value] <= ReferenceConflicts(records)
  {
    var conflicts := CredentialOwnershipConflicts(records);
    if conflicts == [] { return None; }
    return Some(conflicts[0]);
  }
}
