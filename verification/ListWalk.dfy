// The depth-first walk that flattens the tree of insertions, and what it
// computes: the unhidden insertions whose anchors reach the root, in the
// lexicographic order of their root paths.
module ListWalk {
  import opened Wrappers
  import opened Ids
  import opened ListState
  import opened Paths

  function Children<T>(ins: map<OpId, Entry<T>>, parent: Option<OpId>): (r: seq<OpId>)
    ensures Sorted(r)
    ensures forall id :: id in r <==> id in ins && ins[id].after == parent
  {
    Ascending(set id | id in ins && ins[id].after == parent)
  }

  // ---- the walk as the source performs it, with its re-entry guard ----

  function Walk<T>(ins: map<OpId, Entry<T>>, hidden: set<OpId>, parent: Option<OpId>, visiting: set<OpId>): seq<OpId>
    decreases |ins.Keys - visiting|, 1, 0
  {
    WalkAmong(ins, hidden, Children(ins, parent), visiting)
  }

  function WalkAmong<T>(ins: map<OpId, Entry<T>>, hidden: set<OpId>, kids: seq<OpId>, visiting: set<OpId>): seq<OpId>
    requires forall id :: id in kids ==> id in ins
    decreases |ins.Keys - visiting|, 0, |kids|
  {
    if kids == [] then []
    else WalkInto(ins, hidden, kids[0], visiting) + WalkAmong(ins, hidden, kids[1..], visiting)
  }

  function WalkInto<T>(ins: map<OpId, Entry<T>>, hidden: set<OpId>, kid: OpId, visiting: set<OpId>): seq<OpId>
    requires kid in ins
    decreases |ins.Keys - visiting|, 0, 0
  {
    if kid in visiting then []
    else
      EnteringShrinks(ins.Keys, visiting, kid);
      (if kid in hidden then [] else [kid]) + Walk(ins, hidden, Some(kid), visiting + {kid})
  }

  lemma EnteringShrinks(all: set<OpId>, visiting: set<OpId>, kid: OpId)
    requires kid in all && kid !in visiting
    ensures |all - (visiting + {kid})| < |all - visiting|
  {
    assert all - (visiting + {kid}) == (all - visiting) - {kid};
  }

  function Hidden<T>(st: State<T>): set<OpId> {
    st.deletes.Values
  }

  function VisibleIds<T>(st: State<T>): seq<OpId> {
    Walk(st.inserts, Hidden(st), None, {})
  }

  // ---- the reference: every root path, enumerated without a guard ----

  ghost function PathsUnder<T>(ins: map<OpId, Entry<T>>, hidden: set<OpId>, p: Path): seq<Path>
    requires IsPath(ins, p)
    decreases |ins| - |p|, 1, 0
  {
    PathBounded(ins, p);
    PathsAmong(ins, hidden, p, Children(ins, Tip(p)))
  }

  ghost function PathsAmong<T>(ins: map<OpId, Entry<T>>, hidden: set<OpId>, p: Path, kids: seq<OpId>): seq<Path>
    requires IsPath(ins, p)
    requires forall id :: id in kids ==> id in ins && ins[id].after == Tip(p)
    decreases |ins| - |p|, 0, |kids|
  {
    if kids == [] then []
    else PathsInto(ins, hidden, p, kids[0]) + PathsAmong(ins, hidden, p, kids[1..])
  }

  ghost function PathsInto<T>(ins: map<OpId, Entry<T>>, hidden: set<OpId>, p: Path, kid: OpId): seq<Path>
    requires IsPath(ins, p)
    requires kid in ins && ins[kid].after == Tip(p)
    decreases |ins| - |p|, 0, 0
  {
    PathExtends(ins, p, kid);
    PathBounded(ins, p + [kid]);
    (if kid in hidden then [] else [p + [kid]]) + PathsUnder(ins, hidden, p + [kid])
  }

  // A sequence of identities that names the tips of a sequence of paths.
  ghost predicate EndsOf(ids: seq<OpId>, paths: seq<Path>) {
    && |ids| == |paths|
    && forall i :: 0 <= i < |ids| ==> Tip(paths[i]) == Some(ids[i])
  }

  // An enumerated path below `p`: it is a root path, extends `p`, and ends at
  // something unhidden.
  ghost predicate Listed<T>(ins: map<OpId, Entry<T>>, hidden: set<OpId>, p: Path, q: Path) {
    IsPath(ins, q) && p < q && q[|q| - 1] !in hidden
  }

  ghost predicate SortedPaths(paths: seq<Path>) {
    forall i, j :: 0 <= i < j < |paths| ==> PathLess(paths[i], paths[j])
  }

  // Soundness and completeness of the reference enumeration.

  lemma {:induction false} PathsUnderExact<T>(ins: map<OpId, Entry<T>>, hidden: set<OpId>, p: Path, q: Path)
    requires IsPath(ins, p)
    ensures q in PathsUnder(ins, hidden, p) <==> Listed(ins, hidden, p, q)
    decreases |ins| - |p|, 1, 0
  {
    PathBounded(ins, p);
    PathsAmongExact(ins, hidden, p, Children(ins, Tip(p)), q);
    if p < q && IsPath(ins, q) {
      assert q[..|p|] == p;
      assert q[|p|] in Children(ins, Tip(p));
    }
  }

  lemma {:induction false} PathsAmongExact<T>(ins: map<OpId, Entry<T>>, hidden: set<OpId>, p: Path, kids: seq<OpId>, q: Path)
    requires IsPath(ins, p)
    requires forall id :: id in kids ==> id in ins && ins[id].after == Tip(p)
    ensures Listed(ins, hidden, p, q) ==> |p| < |q|
    ensures q in PathsAmong(ins, hidden, p, kids) <==> Listed(ins, hidden, p, q) && q[|p|] in kids
    decreases |ins| - |p|, 0, |kids|
  {
    if kids != [] {
      hide PathsInto, IsPath, Listed;
      PathsIntoExact(ins, hidden, p, kids[0], q);
      PathsAmongExact(ins, hidden, p, kids[1..], q);
      assert forall kid :: kid in kids <==> kid == kids[0] || kid in kids[1..];
      assert q in PathsAmong(ins, hidden, p, kids)
             <==> q in PathsInto(ins, hidden, p, kids[0]) || q in PathsAmong(ins, hidden, p, kids[1..]);
    }
  }

  lemma {:induction false} PathsIntoExact<T>(ins: map<OpId, Entry<T>>, hidden: set<OpId>, p: Path, kid: OpId, q: Path)
    requires IsPath(ins, p)
    requires kid in ins && ins[kid].after == Tip(p)
    ensures Listed(ins, hidden, p, q) ==> |p| < |q|
    ensures q in PathsInto(ins, hidden, p, kid) <==> Listed(ins, hidden, p, q) && q[|p|] == kid
    decreases |ins| - |p|, 0, 0
  {
    hide PathsUnder, IsPath;
    PathExtends(ins, p, kid);
    PathBounded(ins, p + [kid]);
    PathsUnderExact(ins, hidden, p + [kid], q);
    if Listed(ins, hidden, p, q) && q[|p|] == kid && q != p + [kid] {
      assert q[..|p| + 1] == p + [kid];
    }
  }

  // Blocks of a sorted concatenation.
  lemma SortedConcat(xs: seq<Path>, ys: seq<Path>)
    requires SortedPaths(xs) && SortedPaths(ys)
    requires forall x, y :: x in xs && y in ys ==> PathLess(x, y)
    ensures SortedPaths(xs + ys)
  {
    var all := xs + ys;
    forall i, j | 0 <= i < j < |all| ensures PathLess(all[i], all[j]) {
      if i < |xs| <= j {
        assert all[i] in xs && all[j] in ys;
      }
    }
  }

  lemma {:induction false} PathsUnderSorted<T>(ins: map<OpId, Entry<T>>, hidden: set<OpId>, p: Path)
    requires IsPath(ins, p)
    ensures SortedPaths(PathsUnder(ins, hidden, p))
    decreases |ins| - |p|, 1, 0
  {
    PathBounded(ins, p);
    PathsAmongSorted(ins, hidden, p, Children(ins, Tip(p)));
  }

  lemma {:induction false} PathsAmongSorted<T>(ins: map<OpId, Entry<T>>, hidden: set<OpId>, p: Path, kids: seq<OpId>)
    requires IsPath(ins, p)
    requires Sorted(kids)
    requires forall id :: id in kids ==> id in ins && ins[id].after == Tip(p)
    ensures SortedPaths(PathsAmong(ins, hidden, p, kids))
    decreases |ins| - |p|, 0, |kids|
  {
    if kids != [] {
      hide IsPath, PathLess, PathsInto, SortedPaths;
      var kid, rest := kids[0], kids[1..];
      PathsIntoSorted(ins, hidden, p, kid);
      PathsAmongSorted(ins, hidden, p, rest);
      forall x, y | x in PathsInto(ins, hidden, p, kid) && y in PathsAmong(ins, hidden, p, rest)
        ensures PathLess(x, y)
      {
        hide PathsAmong;
        SiblingBlocks(ins, hidden, p, kid, rest, x, y);
      }
      SortedConcat(PathsInto(ins, hidden, p, kid), PathsAmong(ins, hidden, p, rest));
    }
  }

  // What lies below a sibling precedes what lies below its younger siblings.
  lemma SiblingBlocks<T>(ins: map<OpId, Entry<T>>, hidden: set<OpId>, p: Path, kid: OpId, rest: seq<OpId>, x: Path, y: Path)
    requires IsPath(ins, p)
    requires kid in ins && ins[kid].after == Tip(p)
    requires forall id :: id in rest ==> id in ins && ins[id].after == Tip(p) && Before(kid, id)
    requires x in PathsInto(ins, hidden, p, kid) && y in PathsAmong(ins, hidden, p, rest)
    ensures PathLess(x, y)
  {
    hide PathsInto, PathsAmong, IsPath;
    PathsIntoExact(ins, hidden, p, kid, x);
    PathsAmongExact(ins, hidden, p, rest, y);
    assert x == p + x[|p|..] && y == p + y[|p|..];
    PathLessBelow(p, x[|p|..], y[|p|..]);
    assert y[|p|] in rest;
  }

  lemma {:induction false} PathsIntoSorted<T>(ins: map<OpId, Entry<T>>, hidden: set<OpId>, p: Path, kid: OpId)
    requires IsPath(ins, p)
    requires kid in ins && ins[kid].after == Tip(p)
    ensures SortedPaths(PathsInto(ins, hidden, p, kid))
    decreases |ins| - |p|, 0, 0
  {
    hide PathsUnder, PathsAmong, PathLess, IsPath;
    PathExtends(ins, p, kid);
    PathBounded(ins, p + [kid]);
    var deeper := PathsUnder(ins, hidden, p + [kid]);
    PathsUnderSorted(ins, hidden, p + [kid]);
    forall y | y in deeper ensures PathLess(p + [kid], y) {
      PathsUnderExact(ins, hidden, p + [kid], y);
      assert y == (p + [kid]) + y[|p| + 1..];
      ExtensionIsLater(p + [kid], y[|p| + 1..]);
    }
    SortedConcat(if kid in hidden then [] else [p + [kid]], deeper);
  }

  // ---- the guarded walk is the unguarded enumeration ----

  lemma EndsConcat(a: seq<OpId>, xs: seq<Path>, b: seq<OpId>, ys: seq<Path>)
    requires EndsOf(a, xs) && EndsOf(b, ys)
    ensures EndsOf(a + b, xs + ys)
  {
    forall i | 0 <= i < |a + b| ensures Tip((xs + ys)[i]) == Some((a + b)[i]) {
      assert (xs + ys)[i] == if i < |a| then xs[i] else ys[i - |a|];
    }
  }

  // From the root the re-entry guard never fires: along every descent the set
  // being visited is exactly the current root path, and no child is on it.
  lemma {:induction false} WalkIsUnguarded<T>(ins: map<OpId, Entry<T>>, hidden: set<OpId>, p: Path)
    requires IsPath(ins, p)
    ensures EndsOf(Walk(ins, hidden, Tip(p), Members(p)), PathsUnder(ins, hidden, p))
    decreases |ins| - |p|, 1, 0
  {
    hide IsPath, EndsOf, WalkAmong, PathsAmong;
    PathBounded(ins, p);
    WalkAmongIsUnguarded(ins, hidden, p, Children(ins, Tip(p)));
  }

  lemma {:induction false} WalkAmongIsUnguarded<T>(ins: map<OpId, Entry<T>>, hidden: set<OpId>, p: Path, kids: seq<OpId>)
    requires IsPath(ins, p)
    requires forall id :: id in kids ==> id in ins && ins[id].after == Tip(p)
    ensures EndsOf(WalkAmong(ins, hidden, kids, Members(p)), PathsAmong(ins, hidden, p, kids))
    decreases |ins| - |p|, 0, |kids|
  {
    if kids != [] {
      hide IsPath, EndsOf, WalkInto, PathsInto;
      WalkIntoIsUnguarded(ins, hidden, p, kids[0]);
      WalkAmongIsUnguarded(ins, hidden, p, kids[1..]);
      EndsConcat(WalkInto(ins, hidden, kids[0], Members(p)), PathsInto(ins, hidden, p, kids[0]),
                 WalkAmong(ins, hidden, kids[1..], Members(p)), PathsAmong(ins, hidden, p, kids[1..]));
    }
  }

  lemma {:induction false} WalkIntoIsUnguarded<T>(ins: map<OpId, Entry<T>>, hidden: set<OpId>, p: Path, kid: OpId)
    requires IsPath(ins, p)
    requires kid in ins && ins[kid].after == Tip(p)
    ensures EndsOf(WalkInto(ins, hidden, kid, Members(p)), PathsInto(ins, hidden, p, kid))
    decreases |ins| - |p|, 0, 0
  {
    hide Walk, PathsUnder, IsPath, EndsOf;
    ChildIsFresh(ins, p, kid);
    PathExtends(ins, p, kid);
    PathBounded(ins, p + [kid]);
    MembersGrow(p, kid);
    WalkIsUnguarded(ins, hidden, p + [kid]);
    var head, above := if kid in hidden then [] else [kid], if kid in hidden then [] else [p + [kid]];
    HeadEnds(p, kid, kid in hidden);
    EndsConcat(head, above, Walk(ins, hidden, Some(kid), Members(p) + {kid}), PathsUnder(ins, hidden, p + [kid]));
  }

  lemma MembersGrow(p: Path, kid: OpId)
    ensures Members(p + [kid]) == Members(p) + {kid}
    ensures kid in Members(p) <==> kid in p
  {}

  lemma HeadEnds(p: Path, kid: OpId, skipped: bool)
    ensures EndsOf(if skipped then [] else [kid], if skipped then [] else [p + [kid]])
  {}
}
