// Identities of operations and changes, and the sorted iteration order that a
// BTreeMap keyed by them gives.
module Ids {
  const U32_MAX: nat := 0xFFFF_FFFF
  const U64_MAX: nat := 0xFFFF_FFFF_FFFF_FFFF

  // The widest integer a SQLite column holds.
  const I64_MAX: nat := 0x7FFF_FFFF_FFFF_FFFF

  type U32 = x: nat | x <= U32_MAX
  type U64 = x: nat | x <= U64_MAX

  // A 128-bit random identifier. Only its equality and order are used.
  type ReplicaId = nat

  // Both a merge-aware operation (OpId) and a replicated change (ChangeId) are
  // named by their author and an author-local counter, ordered by author first.
  datatype Id = Id(replica: ReplicaId, counter: U64)

  predicate Before(a: Id, b: Id) {
    a.replica < b.replica || (a.replica == b.replica && a.counter < b.counter)
  }

  predicate Sorted(s: seq<Id>) {
    forall i, j :: 0 <= i < j < |s| ==> Before(s[i], s[j])
  }

  lemma FewerInSubset<T>(a: set<T>, b: set<T>)
    requires a <= b
    ensures |a| <= |b|
  {
    assert b == a + (b - a);
  }

  ghost predicate IsLeast(x: Id, s: set<Id>) {
    x in s && forall y :: y in s && y != x ==> Before(x, y)
  }

  lemma {:induction false} LeastExists(s: set<Id>) returns (x: Id)
    requires s != {}
    ensures IsLeast(x, s)
  {
    var a :| a in s;
    if s == {a} {
      x := a;
    } else {
      var b := LeastExists(s - {a});
      x := if Before(a, b) then a else b;
      forall y | y in s && y != x ensures Before(x, y) {
        assert y == a || y in s - {a};
      }
    }
  }

  function Least(s: set<Id>): (x: Id)
    requires s != {}
    ensures x in s
    ensures forall y :: y in s && y != x ==> Before(x, y)
  {
    assert exists x :: IsLeast(x, s) by { var x := LeastExists(s); }
    var x :| x in s && forall y :: y in s && y != x ==> Before(x, y);
    x
  }

  // The keys of a BTreeMap in iteration order.
  function Ascending(s: set<Id>): (r: seq<Id>)
    ensures Sorted(r)
    ensures forall x :: x in r <==> x in s
    ensures |r| == |s|
  {
    if s == {} then []
    else
      var x := Least(s);
      var rest := Ascending(s - {x});
      assert forall i :: 0 <= i < |rest| ==> rest[i] in rest;
      [x] + rest
  }

  // A set has only one sorted enumeration, so any sorted sequence with the
  // right members is the iteration order.
  lemma {:induction false} AscendingUnique(r: seq<Id>, s: seq<Id>)
    requires Sorted(r) && Sorted(s)
    requires forall x :: x in r <==> x in s
    ensures r == s
  {
    assert s != [] ==> s[0] in r;
    assert r != [] ==> r[0] in s;
    if r != [] && s != [] {
      assert r[0] in s && s[0] in r;
      assert r[0] == s[0];
      forall x ensures x in r[1..] <==> x in s[1..] {
        if x in r[1..] {
          assert x in r && x != r[0];
          assert x in s;
        }
        if x in s[1..] {
          assert x in s && x != s[0];
          assert x in r;
        }
      }
      AscendingUnique(r[1..], s[1..]);
    }
  }

  // ---- plain identifiers in order ----

  ghost predicate IsMinimum(x: nat, s: set<nat>) {
    x in s && forall y :: y in s ==> x <= y
  }

  lemma {:induction false} MinimumExists(s: set<nat>) returns (x: nat)
    requires s != {}
    ensures IsMinimum(x, s)
  {
    var a :| a in s;
    if s == {a} {
      x := a;
    } else {
      var b := MinimumExists(s - {a});
      x := if a <= b then a else b;
      forall y | y in s ensures x <= y {
        assert y == a || y in s - {a};
      }
    }
  }

  function Minimum(s: set<nat>): (x: nat)
    requires s != {}
    ensures x in s
    ensures forall y :: y in s ==> x <= y
  {
    assert exists x :: IsMinimum(x, s) by { var x := MinimumExists(s); }
    var x :| x in s && forall y :: y in s ==> x <= y;
    x
  }

  // Identifiers in ascending order.
  function Rising(s: set<nat>): (r: seq<nat>)
    ensures forall x :: x in r <==> x in s
    ensures forall i, j :: 0 <= i < j < |r| ==> r[i] < r[j]
  {
    if s == {} then []
    else
      var x := Minimum(s);
      var rest := Rising(s - {x});
      assert forall i :: 0 <= i < |rest| ==> rest[i] in rest;
      [x] + rest
  }
}
