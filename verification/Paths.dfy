// Root paths: the chain of anchors from the list root down to an insertion.
module Paths {
  import opened Wrappers
  import opened Ids
  import opened ListState

  type Path = seq<OpId>

  // The derived lexicographic order on vectors of identities.
  predicate PathLess(a: Path, b: Path) {
    if a == [] then b != []
    else if b == [] then false
    else Before(a[0], b[0]) || (a[0] == b[0] && PathLess(a[1..], b[1..]))
  }

  lemma {:induction false} PathLessTransitive(a: Path, b: Path, c: Path)
    requires PathLess(a, b) && PathLess(b, c)
    ensures PathLess(a, c)
  {
    if a != [] && a[0] == b[0] && b[0] == c[0] {
      PathLessTransitive(a[1..], b[1..], c[1..]);
    }
  }

  lemma {:induction false} PathLessAsymmetric(a: Path, b: Path)
    requires PathLess(a, b)
    ensures !PathLess(b, a) && a != b
  {
    if a != [] && a[0] == b[0] {
      PathLessAsymmetric(a[1..], b[1..]);
    }
  }

  lemma {:induction false} PathLessTotal(a: Path, b: Path)
    ensures a == b || PathLess(a, b) || PathLess(b, a)
  {
    if a != [] && b != [] && a[0] == b[0] {
      PathLessTotal(a[1..], b[1..]);
      if a[1..] == b[1..] {
        assert a == [a[0]] + a[1..] && b == [b[0]] + b[1..];
      }
    }
  }

  // A common prefix does not affect the order.
  lemma {:induction false} PathLessBelow(p: Path, x: Path, y: Path)
    ensures PathLess(p + x, p + y) <==> PathLess(x, y)
  {
    if p == [] {
      assert p + x == x && p + y == y;
    } else {
      assert (p + x)[1..] == p[1..] + x && (p + y)[1..] == p[1..] + y;
      PathLessBelow(p[1..], x, y);
    }
  }

  // An extension comes after what it extends.
  lemma ExtensionIsLater(p: Path, x: Path)
    requires x != []
    ensures PathLess(p, p + x)
  {
    PathLessBelow(p, [], x);
    assert p + [] == p;
  }

  // Where a path falls against a new branch `p + [n]`: below `p` it follows
  // its next component, elsewhere it falls where it falls against `p` itself.
  lemma {:induction false} BranchOrder(p: Path, n: OpId, q: Path)
    requires !(p + [n] <= q)
    ensures p < q ==> (PathLess(q, p + [n]) <==> Before(q[|p|], n))
    ensures p < q ==> PathLess(p, q)
    ensures !(p < q) ==> (PathLess(q, p + [n]) <==> q == p || PathLess(q, p))
  {
    if p < q {
      var rest := q[|p|..];
      assert q == p + rest && rest[0] == q[|p|];
      assert rest[0] == n ==> p + [n] <= q;
      PathLessBelow(p, rest, [n]);
      ExtensionIsLater(p, rest);
    } else if q == p {
      ExtensionIsLater(p, [n]);
    } else if p != [] && q != [] && q[0] == p[0] {
      assert p == [p[0]] + p[1..] && q == [q[0]] + q[1..];
      assert (p + [n])[1..] == p[1..] + [n];
      assert p + [n] == [p[0]] + (p[1..] + [n]);
      assert p[1..] + [n] <= q[1..] ==> p + [n] <= q;
      assert !(p[1..] < q[1..]) && q[1..] != p[1..];
      BranchOrder(p[1..], n, q[1..]);
    }
  }

  // ---- paths of a retained insertion set ----

  function Tip(p: Path): Option<OpId> {
    if p == [] then None else Some(p[|p| - 1])
  }

  predicate IsPath<T>(ins: map<OpId, Entry<T>>, p: Path) {
    forall i :: 0 <= i < |p| ==> p[i] in ins && ins[p[i]].after == Tip(p[..i])
  }

  lemma PathPrefix<T>(ins: map<OpId, Entry<T>>, p: Path, k: nat)
    requires IsPath(ins, p) && k <= |p|
    ensures IsPath(ins, p[..k])
  {
    forall i | 0 <= i < k ensures ins[p[..k][i]].after == Tip(p[..k][..i]) {
      assert p[..k][..i] == p[..i];
    }
  }

  lemma PathExtends<T>(ins: map<OpId, Entry<T>>, p: Path, id: OpId)
    requires IsPath(ins, p) && id in ins && ins[id].after == Tip(p)
    ensures IsPath(ins, p + [id])
    ensures Tip(p + [id]) == Some(id)
  {
    var q := p + [id];
    forall i | 0 <= i < |q| ensures q[i] in ins && ins[q[i]].after == Tip(q[..i]) {
      if i < |p| {
        assert q[..i] == p[..i];
      } else {
        assert q[..i] == p;
      }
    }
  }

  // Walking anchors up from an insertion leaves no choice.
  lemma {:induction false} PathUnique<T>(ins: map<OpId, Entry<T>>, p: Path, q: Path)
    requires IsPath(ins, p) && IsPath(ins, q) && Tip(p) == Tip(q)
    ensures p == q
    decreases |p|
  {
    if p != [] {
      var m, n := |p| - 1, |q| - 1;
      PathPrefix(ins, p, m);
      PathPrefix(ins, q, n);
      assert ins[p[m]].after == Tip(p[..m]) && ins[q[n]].after == Tip(q[..n]);
      PathUnique(ins, p[..m], q[..n]);
      assert p == p[..m] + [p[m]] && q == q[..n] + [q[n]];
    }
  }

  lemma PathRepeatsNothing<T>(ins: map<OpId, Entry<T>>, p: Path, i: nat, j: nat)
    requires IsPath(ins, p) && i < j < |p|
    ensures p[i] != p[j]
  {
    hide IsPath;
    if p[i] == p[j] {
      PathPrefix(ins, p, i + 1);
      PathPrefix(ins, p, j + 1);
      PathUnique(ins, p[..i + 1], p[..j + 1]);
    }
  }

  ghost function Members(p: Path): set<OpId> {
    set id | id in p
  }

  lemma {:induction false} DistinctSize(p: Path)
    requires forall i, j :: 0 <= i < j < |p| ==> p[i] != p[j]
    ensures |Members(p)| == |p|
  {
    if p != [] {
      DistinctSize(p[1..]);
      assert Members(p) == {p[0]} + Members(p[1..]);
      assert p[0] !in p[1..];
    }
  }

  lemma PathBounded<T>(ins: map<OpId, Entry<T>>, p: Path)
    requires IsPath(ins, p)
    ensures |p| <= |ins|
  {
    forall i, j | 0 <= i < j < |p| ensures p[i] != p[j] {
      PathRepeatsNothing(ins, p, i, j);
    }
    DistinctSize(p);
    FewerInSubset(Members(p), ins.Keys);
  }

  // A child of a path's tip is not on the path, even if other insertions
  // anchor in a cycle.
  lemma ChildIsFresh<T>(ins: map<OpId, Entry<T>>, p: Path, id: OpId)
    requires IsPath(ins, p) && id in ins && ins[id].after == Tip(p)
    ensures id !in p
  {
    PathExtends(ins, p, id);
    if id in p {
      var i :| 0 <= i < |p| && p[i] == id;
      PathRepeatsNothing(ins, p + [id], i, |p|);
    }
  }

  // The anchor chain of an insertion reaches the root.
  ghost predicate Rooted<T>(ins: map<OpId, Entry<T>>, id: OpId) {
    exists p :: IsPath(ins, p) && Tip(p) == Some(id)
  }

  ghost function PathOf<T>(ins: map<OpId, Entry<T>>, id: OpId): (p: Path)
    requires Rooted(ins, id)
    ensures IsPath(ins, p) && Tip(p) == Some(id)
  {
    var p :| IsPath(ins, p) && Tip(p) == Some(id);
    p
  }

  // Anchors are immutable, so a larger state keeps every path.
  lemma PathKept<T>(ins: map<OpId, Entry<T>>, later: map<OpId, Entry<T>>, id: OpId)
    requires Rooted(ins, id)
    requires forall x :: x in ins ==> x in later && later[x] == ins[x]
    ensures Rooted(later, id) && PathOf(later, id) == PathOf(ins, id)
  {
    var p := PathOf(ins, id);
    assert IsPath(later, p);
    PathUnique(later, p, PathOf(later, id));
  }
}
