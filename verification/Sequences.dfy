// Placing a run into a sequence and cutting one out of it.
module Sequences {
  // The sequence with a run placed before the given index.
  function Placed<T>(c: seq<T>, index: nat, run: seq<T>): seq<T>
    requires index <= |c|
  {
    c[..index] + run + c[index..]
  }

  // The sequence without the `n` elements from the index on.
  function Cut<T>(c: seq<T>, index: nat, n: nat): seq<T>
    requires index + n <= |c|
  {
    c[..index] + c[index + n..]
  }

  lemma PlacedOne<T>(c: seq<T>, k: nat, x: T)
    requires k <= |c|
    ensures |Placed(c, k, [x])| == |c| + 1
    ensures forall i :: 0 <= i <= |c| ==>
              Placed(c, k, [x])[i] == if i < k then c[i] else if i == k then x else c[i - 1]
  {}

  lemma PlacedAt<T>(c: seq<T>, k: nat, x: T, i: nat)
    requires k <= |c| && i <= |c|
    ensures |Placed(c, k, [x])| == |c| + 1
    ensures Placed(c, k, [x])[i] == if i < k then c[i] else if i == k then x else c[i - 1]
  {}

  lemma PlacedMembers<T>(c: seq<T>, k: nat, x: T)
    requires k <= |c|
    ensures forall y :: y in Placed(c, k, [x]) <==> y == x || y in c
  {
    assert c == c[..k] + c[k..];
  }

  lemma PlacedNothing<T>(c: seq<T>, index: nat)
    requires index <= |c|
    ensures Placed(c, index, []) == c
  {
    assert c == c[..index] + [] + c[index..];
  }

  lemma PlacedLast<T>(c: seq<T>, run: seq<T>)
    ensures Placed(c, |c|, run) == c + run
  {}

  // Placing the head of a run and then its tail behind it places the run.
  lemma PlacedRun<T>(c: seq<T>, index: nat, values: seq<T>, fit: nat)
    requires index <= |c| && 0 < fit <= |values|
    ensures |Placed(c, index, [values[0]])| == |c| + 1
    ensures Placed(Placed(c, index, [values[0]]), index + 1, values[1..][..fit - 1]) == Placed(c, index, values[..fit])
  {
    var d := Placed(c, index, [values[0]]);
    assert d[..index + 1] == c[..index] + [values[0]];
    assert d[index + 1..] == c[index..];
    assert values[..fit] == [values[0]] + values[1..][..fit - 1];
  }

  lemma CutOne<T>(c: seq<T>, k: nat)
    requires k < |c|
    ensures |Cut(c, k, 1)| == |c| - 1
    ensures forall i :: 0 <= i < |c| - 1 ==> Cut(c, k, 1)[i] == c[if i < k then i else i + 1]
  {}

  lemma CutMembers<T>(c: seq<T>, k: nat, x: T)
    requires k < |c|
    requires forall i, j :: 0 <= i < j < |c| ==> c[i] != c[j]
    ensures x in Cut(c, k, 1) <==> x in c && x != c[k]
  {
    CutOne(c, k);
    var r := Cut(c, k, 1);
    hide Cut;
    if x in c && x != c[k] {
      var i :| 0 <= i < |c| && c[i] == x;
      assert r[if i < k then i else i - 1] == x;
    }
    if x in r {
      var i :| 0 <= i < |r| && r[i] == x;
      assert r[i] == c[if i < k then i else i + 1];
    }
  }

  lemma CutNothing<T>(c: seq<T>, index: nat)
    requires index <= |c|
    ensures Cut(c, index, 0) == c
  {}

  lemma CutRun<T>(c: seq<T>, index: nat, n: nat)
    requires 0 < n && index + n <= |c|
    ensures |Cut(c, index, 1)| == |c| - 1
    ensures Cut(Cut(c, index, 1), index, n - 1) == Cut(c, index, n)
  {
    var d := Cut(c, index, 1);
    assert d[..index] == c[..index] && d[index + (n - 1)..] == c[index + n..];
  }
}
