// The order of document keys: collection name bytewise, then document.
module Keys {
  import opened Changes

  predicate NameLess(a: Name, b: Name)
    decreases |a|
  {
    if b == [] then false
    else if a == [] then true
    else a[0] < b[0] || (a[0] == b[0] && NameLess(a[1..], b[1..]))
  }

  lemma {:induction false} NameTotal(a: Name, b: Name)
    ensures a == b || NameLess(a, b) || NameLess(b, a)
    decreases |a|
  {
    if a != [] && b != [] && a[0] == b[0] {
      NameTotal(a[1..], b[1..]);
      assert a == [a[0]] + a[1..] && b == [b[0]] + b[1..];
    }
  }

  lemma {:induction false} NameTransitive(a: Name, b: Name, c: Name)
    requires NameLess(a, b) && NameLess(b, c)
    ensures NameLess(a, c)
    decreases |a|
  {
    if a != [] && a[0] == b[0] && b[0] == c[0] {
      NameTransitive(a[1..], b[1..], c[1..]);
    }
  }

  predicate KeyBefore(a: DocumentKey, b: DocumentKey) {
    NameLess(a.collection, b.collection) || (a.collection == b.collection && a.document < b.document)
  }

  ghost predicate IsFirst(x: DocumentKey, s: set<DocumentKey>) {
    x in s && forall y :: y in s && y != x ==> KeyBefore(x, y)
  }

  lemma KeyTotal(a: DocumentKey, b: DocumentKey)
    ensures a == b || KeyBefore(a, b) || KeyBefore(b, a)
  {
    NameTotal(a.collection, b.collection);
  }

  lemma KeyTransitive(a: DocumentKey, b: DocumentKey, c: DocumentKey)
    requires KeyBefore(a, b) && KeyBefore(b, c)
    ensures KeyBefore(a, c)
  {
    if NameLess(a.collection, b.collection) && NameLess(b.collection, c.collection) {
      NameTransitive(a.collection, b.collection, c.collection);
    }
  }

  lemma {:induction false} NameIrreflexive(a: Name)
    ensures !NameLess(a, a)
    decreases |a|
  {
    if a != [] {
      NameIrreflexive(a[1..]);
    }
  }

  lemma KeyAsymmetric(a: DocumentKey, b: DocumentKey)
    requires KeyBefore(a, b)
    ensures !KeyBefore(b, a)
  {
    if KeyBefore(b, a) {
      KeyTransitive(a, b, a);
      NameIrreflexive(a.collection);
    }
  }

  lemma {:induction false} FirstExists(s: set<DocumentKey>) returns (x: DocumentKey)
    requires s != {}
    ensures IsFirst(x, s)
  {
    var a :| a in s;
    if s == {a} {
      x := a;
    } else {
      var b := FirstExists(s - {a});
      KeyTotal(a, b);
      x := if KeyBefore(a, b) then a else b;
      forall y | y in s && y != x ensures KeyBefore(x, y) {
        if x == a && y != b {
          KeyTransitive(a, b, y);
        }
      }
    }
  }

  function First(s: set<DocumentKey>): (x: DocumentKey)
    requires s != {}
    ensures x in s
  {
    assert exists x :: IsFirst(x, s) by { var x := FirstExists(s); }
    assert forall x, y :: KeyBefore(x, y) ==> !KeyBefore(y, x) by {
      forall x, y | KeyBefore(x, y) ensures !KeyBefore(y, x) {
        KeyAsymmetric(x, y);
      }
    }
    var x :| x in s && forall y :: y in s && y != x ==> KeyBefore(x, y);
    x
  }

  // The members of a BTreeSet of keys in iteration order.
  function InOrder(s: set<DocumentKey>): (r: seq<DocumentKey>)
    ensures forall x :: x in r <==> x in s
    ensures forall i, j :: 0 <= i < j < |r| ==> r[i] != r[j]
  {
    if s == {} then []
    else
      var x := First(s);
      var rest := InOrder(s - {x});
      assert forall i :: 0 <= i < |rest| ==> rest[i] in rest;
      [x] + rest
  }
}
