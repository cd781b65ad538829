// What the visible sequence of a list is, and how it changes: order stability
// under any further delivery, and the exact effect of one insertion or removal.
module ListOrder {
  import opened Wrappers
  import opened Ids
  import opened Sequences
  import opened ListState
  import opened Paths
  import opened ListWalk

  ghost predicate Visible<T>(st: State<T>, id: OpId) {
    Rooted(st.inserts, id) && id !in Hidden(st)
  }

  ghost predicate InPathOrder<T>(ins: map<OpId, Entry<T>>, ids: seq<OpId>) {
    && (forall i :: 0 <= i < |ids| ==> Rooted(ins, ids[i]))
    && (forall i, j :: 0 <= i < j < |ids| ==> PathLess(PathOf(ins, ids[i]), PathOf(ins, ids[j])))
  }

  // The walk lists exactly the unhidden insertions whose anchor chain reaches
  // the root, strictly ordered by root path; cyclic and orphaned insertions
  // never appear.
  lemma VisibleIdsExact<T>(st: State<T>)
    ensures InPathOrder(st.inserts, VisibleIds(st))
    ensures forall id :: id in VisibleIds(st) <==> Visible(st, id)
  {
    hide Walk, PathsUnder, PathLess, IsPath, Rooted;
    var ins, hidden := st.inserts, Hidden(st);
    RootIsPath(ins);
    var paths := PathsUnder(ins, hidden, []);
    var v := VisibleIds(st);
    assert Members([]) == {};
    WalkIsUnguarded(ins, hidden, []);
    PathsUnderSorted(ins, hidden, []);
    forall i | 0 <= i < |v| ensures Visible(st, v[i]) && PathOf(ins, v[i]) == paths[i] {
      ListedPath(ins, hidden, paths, i, v[i]);
    }
    forall id | Visible(st, id) ensures id in v {
      var i := PathListed(ins, hidden, id);
      assert v[i] == id;
    }
  }

  lemma RootIsPath<T>(ins: map<OpId, Entry<T>>)
    ensures IsPath(ins, [])
  {}

  lemma ListedPath<T>(ins: map<OpId, Entry<T>>, hidden: set<OpId>, paths: seq<Path>, i: nat, id: OpId)
    requires IsPath(ins, []) && paths == PathsUnder(ins, hidden, [])
    requires i < |paths| && Tip(paths[i]) == Some(id)
    ensures Rooted(ins, id) && id !in hidden && PathOf(ins, id) == paths[i]
  {
    hide PathsUnder, IsPath;
    assert paths[i] in paths;
    PathsUnderExact(ins, hidden, [], paths[i]);
    PathUnique(ins, PathOf(ins, id), paths[i]);
  }

  lemma PathListed<T>(ins: map<OpId, Entry<T>>, hidden: set<OpId>, id: OpId) returns (i: nat)
    requires IsPath(ins, [])
    requires Rooted(ins, id) && id !in hidden
    ensures var paths := PathsUnder(ins, hidden, []); i < |paths| && Tip(paths[i]) == Some(id)
  {
    hide PathsUnder, IsPath;
    var q := PathOf(ins, id);
    PathsUnderExact(ins, hidden, [], q);
    i :| 0 <= i < |PathsUnder(ins, hidden, [])| && PathsUnder(ins, hidden, [])[i] == q;
  }

  lemma PathOrderDistinct<T>(ins: map<OpId, Entry<T>>, ids: seq<OpId>)
    requires InPathOrder(ins, ids)
    ensures forall i, j :: 0 <= i < j < |ids| ==> ids[i] != ids[j]
  {
    forall i, j | 0 <= i < j < |ids| ensures ids[i] != ids[j] {
      PathLessAsymmetric(PathOf(ins, ids[i]), PathOf(ins, ids[j]));
    }
  }

  lemma RankIsPathOrder<T>(ins: map<OpId, Entry<T>>, ids: seq<OpId>, i: nat, j: nat)
    requires InPathOrder(ins, ids) && i < |ids| && j < |ids|
    ensures i < j <==> PathLess(PathOf(ins, ids[i]), PathOf(ins, ids[j]))
  {
    if PathLess(PathOf(ins, ids[i]), PathOf(ins, ids[j])) {
      PathLessAsymmetric(PathOf(ins, ids[i]), PathOf(ins, ids[j]));
    }
  }

  // A set of insertions has one sequence in path order.
  lemma {:induction false} PathOrderUnique<T>(ins: map<OpId, Entry<T>>, a: seq<OpId>, b: seq<OpId>)
    requires InPathOrder(ins, a) && InPathOrder(ins, b)
    requires forall id :: id in a <==> id in b
    ensures a == b
  {
    assert a != [] ==> a[0] in b;
    assert b != [] ==> b[0] in a;
    if a != [] && b != [] {
      var i :| 0 <= i < |b| && b[i] == a[0];
      var j :| 0 <= j < |a| && a[j] == b[0];
      RankIsPathOrder(ins, b, 0, i);
      RankIsPathOrder(ins, a, 0, j);
      RankIsPathOrder(ins, a, j, 0);
      assert a[0] == b[0];
      PathOrderDistinct(ins, a);
      PathOrderDistinct(ins, b);
      forall id ensures id in a[1..] <==> id in b[1..] {
        assert id in a[1..] <==> id in a && id != a[0];
        assert id in b[1..] <==> id in b && id != b[0];
      }
      PathOrderUnique(ins, a[1..], b[1..]);
    }
  }

  // The visible sequence is pinned down by the two halves of VisibleIdsExact.
  lemma VisibleIdsUnique<T>(st: State<T>, ids: seq<OpId>)
    requires InPathOrder(st.inserts, ids)
    requires forall id :: id in ids <==> Visible(st, id)
    ensures VisibleIds(st) == ids
  {
    VisibleIdsExact(st);
    PathOrderUnique(st.inserts, VisibleIds(st), ids);
  }

  ghost predicate Retains<T>(later: State<T>, st: State<T>) {
    && (forall x :: x in st.inserts ==> x in later.inserts && later.inserts[x] == st.inserts[x])
    && (forall d :: d in st.deletes ==> d in later.deletes && later.deletes[d] == st.deletes[d])
  }

  // Any further delivery keeps the relative order of what stays visible.
  lemma OrderIsStable<T>(st: State<T>, later: State<T>, i: nat, j: nat, k: nat, l: nat)
    requires Retains(later, st)
    requires i < |VisibleIds(st)| && j < |VisibleIds(st)|
    requires k < |VisibleIds(later)| && l < |VisibleIds(later)|
    requires VisibleIds(later)[k] == VisibleIds(st)[i] && VisibleIds(later)[l] == VisibleIds(st)[j]
    ensures i < j <==> k < l
  {
    VisibleIdsExact(st);
    VisibleIdsExact(later);
    var v, w := VisibleIds(st), VisibleIds(later);
    PathKept(st.inserts, later.inserts, v[i]);
    PathKept(st.inserts, later.inserts, v[j]);
    RankIsPathOrder(st.inserts, v, i, j);
    RankIsPathOrder(later.inserts, w, k, l);
  }

  // Retention is what growth by operations gives.
  lemma RetainsOps<T(!new)>(st: State<T>, later: State<T>)
    requires WellFormed(st) && WellFormed(later)
    requires Ops(st) <= Ops(later)
    ensures Retains(later, st)
  {
    forall x | x in st.inserts ensures x in later.inserts && later.inserts[x] == st.inserts[x] {
      assert Lookup(st, x).value in Ops(later);
    }
    forall d | d in st.deletes ensures d in later.deletes && later.deletes[d] == st.deletes[d] {
      assert Lookup(st, d).value in Ops(later);
    }
  }

  // So any delivery that succeeds keeps the order of what stays visible.
  lemma DeliveryKeepsOrder<T(!new)>(st: State<T>, ops: seq<ListOp<T>>, i: nat, j: nat, k: nat, l: nat)
    requires WellFormed(st) && Fold(st, ops).Ok?
    requires i < |VisibleIds(st)| && j < |VisibleIds(st)|
    requires var later := Fold(st, ops).value;
             && k < |VisibleIds(later)| && l < |VisibleIds(later)|
             && VisibleIds(later)[k] == VisibleIds(st)[i] && VisibleIds(later)[l] == VisibleIds(st)[j]
    ensures i < j <==> k < l
  {
    hide VisibleIds, WellFormed;
    FoldIsUnion(st, ops);
    RetainsOps(st, Fold(st, ops).value);
    OrderIsStable(st, Fold(st, ops).value, i, j, k, l);
  }

  // ---- one insertion ----

  ghost predicate Mentioned<T>(st: State<T>, id: OpId) {
    || id in st.inserts
    || id in st.deletes
    || id in Hidden(st)
    || exists x :: x in st.inserts && st.inserts[x].after == Some(id)
  }

  function WithInsert<T>(st: State<T>, n: OpId, after: Option<OpId>, value: T): State<T> {
    st.(inserts := st.inserts[n := Entry(after, value)])
  }

  ghost predicate AnchorRooted<T>(st: State<T>, after: Option<OpId>) {
    after.Some? ==> Rooted(st.inserts, after.value)
  }

  ghost function AnchorPath<T>(st: State<T>, after: Option<OpId>): (p: Path)
    requires AnchorRooted(st, after)
    ensures IsPath(st.inserts, p) && Tip(p) == after
  {
    if after.None? then [] else PathOf(st.inserts, after.value)
  }

  lemma OnlyTheLeafIsNew<T>(st: State<T>, n: OpId, after: Option<OpId>, value: T, q: Path)
    requires !Mentioned(st, n) && after != Some(n)
    requires IsPath(WithInsert(st, n, after, value).inserts, q) && Tip(q) != Some(n)
    ensures IsPath(st.inserts, q)
  {
    var next := WithInsert(st, n, after, value);
    forall i | 0 <= i < |q| ensures q[i] != n {
      if i + 1 < |q| {
        PathRepeatsNothing(next.inserts, q, i, i + 1);
        assert next.inserts[q[i + 1]].after == Tip(q[..i + 1]) == Some(q[i]);
      }
    }
  }

  // A new insertion with a fresh identity adds one leaf and moves nothing.
  lemma LeafAdded<T>(st: State<T>, n: OpId, after: Option<OpId>, value: T)
    requires !Mentioned(st, n) && AnchorRooted(st, after)
    ensures var next := WithInsert(st, n, after, value);
            && Rooted(next.inserts, n)
            && PathOf(next.inserts, n) == AnchorPath(st, after) + [n]
            && (forall id :: Rooted(st.inserts, id) ==>
                  Rooted(next.inserts, id) && PathOf(next.inserts, id) == PathOf(st.inserts, id))
            && (forall id :: Rooted(next.inserts, id) ==> id == n || Rooted(st.inserts, id))
  {
    hide IsPath, PathOf, AnchorPath, Rooted;
    var next := WithInsert(st, n, after, value);
    LeafPath(st, n, after, value);
    forall id | Rooted(st.inserts, id)
      ensures Rooted(next.inserts, id) && PathOf(next.inserts, id) == PathOf(st.inserts, id)
    {
      PathKept(st.inserts, next.inserts, id);
    }
    forall id | Rooted(next.inserts, id) && id != n ensures Rooted(st.inserts, id) {
      OldStillRooted(st, n, after, value, id);
    }
  }

  lemma LeafPath<T>(st: State<T>, n: OpId, after: Option<OpId>, value: T)
    requires n !in st.inserts && AnchorRooted(st, after)
    ensures var next := WithInsert(st, n, after, value);
            Rooted(next.inserts, n) && PathOf(next.inserts, n) == AnchorPath(st, after) + [n]
  {
    var next := WithInsert(st, n, after, value);
    var p := AnchorPath(st, after);
    assert IsPath(next.inserts, p);
    hide IsPath;
    PathExtends(next.inserts, p, n);
    PathUnique(next.inserts, p + [n], PathOf(next.inserts, n));
  }

  lemma OldStillRooted<T>(st: State<T>, n: OpId, after: Option<OpId>, value: T, id: OpId)
    requires !Mentioned(st, n) && AnchorRooted(st, after)
    requires Rooted(WithInsert(st, n, after, value).inserts, id) && id != n
    ensures Rooted(st.inserts, id)
  {
    assert after != Some(n) by {
      if after.Some? {
        RootedRetained(st.inserts, after.value);
      }
    }
    hide IsPath, WithInsert;
    OnlyTheLeafIsNew(st, n, after, value, PathOf(WithInsert(st, n, after, value).inserts, id));
  }

  lemma RootedRetained<T>(ins: map<OpId, Entry<T>>, id: OpId)
    requires Rooted(ins, id)
    ensures id in ins && Tip(PathOf(ins, id)) == Some(id)
  {}

  // Where a sorted sequence splits around a path not in it.
  lemma {:induction false} SplitPoint<T>(ins: map<OpId, Entry<T>>, v: seq<OpId>, branch: Path) returns (k: nat)
    requires InPathOrder(ins, v)
    requires forall i :: 0 <= i < |v| ==> PathOf(ins, v[i]) != branch
    ensures k <= |v|
    ensures forall i :: 0 <= i < k ==> PathLess(PathOf(ins, v[i]), branch)
    ensures forall i :: k <= i < |v| ==> PathLess(branch, PathOf(ins, v[i]))
  {
    k := |v|;
    while k > 0 && !PathLess(PathOf(ins, v[k - 1]), branch)
      invariant k <= |v|
      invariant forall i :: k <= i < |v| ==> PathLess(branch, PathOf(ins, v[i]))
    {
      PathLessTotal(PathOf(ins, v[k - 1]), branch);
      k := k - 1;
    }
    if k > 0 {
      forall i | 0 <= i < k ensures PathLess(PathOf(ins, v[i]), branch) {
        if i < k - 1 {
          PathLessTransitive(PathOf(ins, v[i]), PathOf(ins, v[k - 1]), branch);
        }
      }
    }
  }

  lemma SplicePathOrder<T>(ins: map<OpId, Entry<T>>, v: seq<OpId>, k: nat, n: OpId)
    requires InPathOrder(ins, v) && k <= |v| && Rooted(ins, n)
    requires forall i :: 0 <= i < k ==> PathLess(PathOf(ins, v[i]), PathOf(ins, n))
    requires forall i :: k <= i < |v| ==> PathLess(PathOf(ins, n), PathOf(ins, v[i]))
    ensures InPathOrder(ins, Placed(v, k, [n]))
  {
    hide PathLess, PathOf, Rooted, Placed;
    var r := Placed(v, k, [n]);
    PlacedOne(v, k, n);
    forall i | 0 <= i < |r| ensures Rooted(ins, r[i]) {
      PlacedAt(v, k, n, i);
    }
    forall i, j | 0 <= i < j < |r| ensures PathLess(PathOf(ins, r[i]), PathOf(ins, r[j])) {
      PlacedAt(v, k, n, i);
      PlacedAt(v, k, n, j);
    }
  }

  // The visible sequence after an insertion: the new element somewhere, the
  // rest untouched.
  lemma InsertionSplits<T>(st: State<T>, n: OpId, after: Option<OpId>, value: T) returns (k: nat)
    requires !Mentioned(st, n) && AnchorRooted(st, after)
    ensures var v := VisibleIds(st); var branch := AnchorPath(st, after) + [n];
            && k <= |v|
            && VisibleIds(WithInsert(st, n, after, value)) == Placed(v, k, [n])
            && (forall i :: 0 <= i < |v| ==> Rooted(st.inserts, v[i]))
            && (forall i :: 0 <= i < k ==> PathLess(PathOf(st.inserts, v[i]), branch))
            && (forall i :: k <= i < |v| ==> PathLess(branch, PathOf(st.inserts, v[i])))
  {
    hide PathLess, PathOf, VisibleIds, Rooted, Placed;
    var next := WithInsert(st, n, after, value);
    var v := VisibleIds(st);
    var branch := AnchorPath(st, after) + [n];
    VisibleIdsExact(st);
    LeafAdded(st, n, after, value);
    forall i | 0 <= i < |v| ensures PathOf(st.inserts, v[i]) != branch {
      assert v[i] in v;
      RootedRetained(st.inserts, v[i]);
    }
    k := SplitPoint(st.inserts, v, branch);
    SplicedInOrder(st, n, after, value, v, k);
    PlacedMembers(v, k, n);
    assert Hidden(next) == Hidden(st);
    VisibleIdsUnique(next, Placed(v, k, [n]));
  }

  lemma SplicedInOrder<T>(st: State<T>, n: OpId, after: Option<OpId>, value: T, v: seq<OpId>, k: nat)
    requires !Mentioned(st, n) && AnchorRooted(st, after)
    requires InPathOrder(st.inserts, v) && k <= |v|
    requires forall i :: 0 <= i < k ==> PathLess(PathOf(st.inserts, v[i]), AnchorPath(st, after) + [n])
    requires forall i :: k <= i < |v| ==> PathLess(AnchorPath(st, after) + [n], PathOf(st.inserts, v[i]))
    ensures InPathOrder(WithInsert(st, n, after, value).inserts, Placed(v, k, [n]))
  {
    hide PathLess, PathOf, Rooted, WithInsert, AnchorPath;
    LeafAdded(st, n, after, value);
    SplicePathOrder(WithInsert(st, n, after, value).inserts, v, k, n);
  }

  function AnchorAt<T>(st: State<T>, index: nat): Option<OpId>
    requires index <= |VisibleIds(st)|
  {
    if index == 0 then None else Some(VisibleIds(st)[index - 1])
  }

  // The visible element at `j` hangs off the anchor that an insertion at
  // `index` would use, through a sibling older than the new identity `n`: a
  // look at the retained anchors decides it.
  ghost predicate Overtaken<T>(st: State<T>, index: nat, j: nat, n: OpId)
    requires index <= |VisibleIds(st)|
    requires AnchorRooted(st, AnchorAt(st, index))
  {
    && j < |VisibleIds(st)|
    && Rooted(st.inserts, VisibleIds(st)[j])
    && var p, q := AnchorPath(st, AnchorAt(st, index)), PathOf(st.inserts, VisibleIds(st)[j]);
       p < q && Before(q[|p|], n)
  }

  lemma AnchorAtRooted<T>(st: State<T>, index: nat)
    requires index <= |VisibleIds(st)|
    ensures AnchorRooted(st, AnchorAt(st, index))
  {
    VisibleIdsExact(st);
    if index > 0 {
      assert VisibleIds(st)[index - 1] in VisibleIds(st);
    }
  }

  lemma OvertakenFallsBefore<T>(st: State<T>, index: nat, j: nat, n: OpId)
    requires index <= j < |VisibleIds(st)| && !Mentioned(st, n)
    requires AnchorRooted(st, AnchorAt(st, index)) && Rooted(st.inserts, VisibleIds(st)[j])
    ensures var branch := AnchorPath(st, AnchorAt(st, index)) + [n];
            PathLess(PathOf(st.inserts, VisibleIds(st)[j]), branch) <==> Overtaken(st, index, j, n)
  {
    VisibleIdsExact(st);
    var v, p := VisibleIds(st), AnchorPath(st, AnchorAt(st, index));
    var q := PathOf(st.inserts, v[j]);
    NotBelowFresh(st, n, p, q);
    BranchOrder(p, n, q);
    if index > 0 {
      PathLessAsymmetric(PathOf(st.inserts, v[index - 1]), q);
    }
  }

  // An insertion at `index` passes exactly those later elements that hang off
  // the same anchor through older siblings. Hence it lands at the index itself
  // if and only if the element there is not one of them.
  lemma InsertionAtIndex<T>(st: State<T>, index: nat, n: OpId, value: T) returns (k: nat)
    requires index <= |VisibleIds(st)| && !Mentioned(st, n)
    ensures AnchorRooted(st, AnchorAt(st, index))
    ensures var v := VisibleIds(st); var w := VisibleIds(WithInsert(st, n, AnchorAt(st, index), value));
            && index <= k <= |v|
            && w == Placed(v, k, [n])
            && (forall j :: index <= j < |v| ==> (j < k <==> Overtaken(st, index, j, n)))
            && (k == index <==> !Overtaken(st, index, index, n))
            && (w == Placed(v, index, [n]) <==> !Overtaken(st, index, index, n))
  {
    AnchorAtRooted(st, index);
    VisibleIdsExact(st);
    var after := AnchorAt(st, index);
    var v, p := VisibleIds(st), AnchorPath(st, after);
    k := InsertionSplits(st, n, after, value);
    if index > 0 {
      ExtensionIsLater(p, [n]);
      PathLessAsymmetric(p, p + [n]);
    }
    forall j | index <= j < |v| ensures j < k <==> Overtaken(st, index, j, n) {
      OvertakenFallsBefore(st, index, j, n);
      if k <= j {
        PathLessAsymmetric(p + [n], PathOf(st.inserts, v[j]));
      }
    }
    if k > index {
      PlacedOne(v, k, n);
      PlacedOne(v, index, n);
      assert Placed(v, k, [n])[index] == v[index] && v[index] in v;
    }
  }

  lemma NotBelowFresh<T>(st: State<T>, n: OpId, p: Path, q: Path)
    requires n !in st.inserts && IsPath(st.inserts, q)
    ensures !(p + [n] <= q)
  {
    assert |p| < |q| ==> q[|p|] != (p + [n])[|p|];
  }

  // A freshly inserted element has no descendants, so the next insertion after
  // it is never overtaken.
  lemma AfterLeafNotOvertaken<T>(st: State<T>, index: nat, leaf: OpId, n: OpId)
    requires 0 < index <= |VisibleIds(st)| && VisibleIds(st)[index - 1] == leaf
    requires forall x :: x in st.inserts ==> st.inserts[x].after != Some(leaf)
    ensures AnchorRooted(st, AnchorAt(st, index)) && !Overtaken(st, index, index, n)
  {
    AnchorAtRooted(st, index);
    if index < |VisibleIds(st)| && Rooted(st.inserts, VisibleIds(st)[index]) {
      var p, q := AnchorPath(st, AnchorAt(st, index)), PathOf(st.inserts, VisibleIds(st)[index]);
      assert |p| < |q| ==> Tip(q[..|p|]) == st.inserts[q[|p|]].after != Some(leaf);
    }
  }

  // ---- one removal ----

  function WithDelete<T>(st: State<T>, d: OpId, target: OpId): State<T> {
    st.(deletes := st.deletes[d := target])
  }

  lemma HiddenWithDelete<T>(st: State<T>, d: OpId, target: OpId)
    requires d !in st.deletes
    ensures Hidden(WithDelete(st, d, target)) == Hidden(st) + {target}
  {
    var next := WithDelete(st, d, target);
    forall id ensures id in Hidden(next) <==> id in Hidden(st) || id == target {
      if id in Hidden(st) {
        var k :| k in st.deletes && st.deletes[k] == id;
        assert next.deletes[k] == id;
      }
      assert next.deletes[d] == target;
    }
  }

  // A removal takes out exactly the element at the index.
  lemma RemovalHides<T>(st: State<T>, index: nat, d: OpId)
    requires index < |VisibleIds(st)| && d !in st.deletes
    ensures var v := VisibleIds(st); VisibleIds(WithDelete(st, d, v[index])) == Cut(v, index, 1)
  {
    hide PathLess, PathOf, VisibleIds, Rooted, Cut;
    var v := VisibleIds(st);
    var next := WithDelete(st, d, v[index]);
    VisibleIdsExact(st);
    PathOrderDistinct(st.inserts, v);
    HiddenWithDelete(st, d, v[index]);
    CutOne(v, index);
    forall id ensures id in Cut(v, index, 1) <==> Visible(next, id) {
      CutMembers(v, index, id);
    }
    VisibleIdsUnique(next, Cut(v, index, 1));
  }
}
