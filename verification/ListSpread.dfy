// Where each character of a typed run ends up, also when the characters that
// stand at the index are older siblings and overtake the run.
module ListSpread {
  import opened Wrappers
  import opened Ids
  import opened Sequences
  import opened ListState
  import opened Paths
  import opened ListWalk
  import opened ListOrder
  import opened ListEdits

  // How many characters of a run of `n` are overtaken before one lands: the
  // elements from the index on hang, each through an older sibling, off the
  // element just before it.
  ghost function Drift<T>(st: State<T>, actor: ActorState, index: nat, n: nat): nat
    requires index <= |VisibleIds(st)|
    decreases n
  {
    if n == 0 || actor.counter >= actor.limit || LandsAt(st, actor, index) then 0
    else
      AnchorAtRooted(st, index);
      1 + Drift(st, Advanced(actor, 1), index + 1, n - 1)
  }

  // The visible element at `j`, at the index or later, is not below the anchor
  // that an insertion at the index uses.
  ghost predicate Outside<T>(st: State<T>, index: nat, j: nat) {
    && index <= j < |VisibleIds(st)|
    && AnchorRooted(st, AnchorAt(st, index))
    && Rooted(st.inserts, VisibleIds(st)[j])
    && !(AnchorPath(st, AnchorAt(st, index)) < PathOf(st.inserts, VisibleIds(st)[j]))
  }

  lemma VisibleRooted<T>(st: State<T>, j: nat)
    requires j < |VisibleIds(st)|
    ensures Rooted(st.inserts, VisibleIds(st)[j])
  {
    VisibleIdsExact(st);
  }

  lemma PrefixChain(p: Path, q: Path, r: Path)
    requires p < q && q < r
    ensures p < r && r[|p|] == q[|p|]
  {}

  // ---- one character beside what it does not pass ----

  lemma PlacedSuffix(v: seq<OpId>, k: nat, n: OpId, index: nat, j: nat)
    requires index <= k <= j < |v|
    ensures |Placed(v, k, [n])| == |v| + 1 && Placed(v, k, [n])[j + 1..] == v[j..] && Placed(v, k, [n])[j + 1] == v[j]
    ensures Placed(v, k, [n])[index] == if k == index then n else v[index]
  {
    PlacedOne(v, k, n);
  }

  // A new element passes nothing outside, and what is outside stays outside.
  lemma OutsideStays<T>(st: State<T>, actor: ActorState, index: nat, value: T, j: nat, k: nat)
    requires Ready(st, actor) && actor.counter < actor.limit && index <= k <= j
    requires Outside(st, index, j)
    requires VisibleIds(WithInsert(st, NextId(actor), AnchorAt(st, index), value)) == Placed(VisibleIds(st), k, [NextId(actor)])
    requires k == index || Overtaken(st, index, index, NextId(actor))
    ensures var w := InsertAt(st, actor, index, value).state;
            Outside(w, index + 1, j + 1) && VisibleIds(w)[j + 1..] == VisibleIds(st)[j..]
  {
    hide VisibleIds, InsertAt, Ready, Overtaken, Unspent, Mentioned, Placed, Outside, AnchorAt, AnchorRooted;
    OutsideInRange(st, index, j);
    InsertAtMakes(st, actor, index, value);
    PlacedSuffix(VisibleIds(st), k, NextId(actor), index, j);
    AnchorAtRooted(InsertAt(st, actor, index, value).state, index + 1);
    OutsideNext(st, actor, index, value, j, k);
  }

  lemma OutsideNext<T>(st: State<T>, actor: ActorState, index: nat, value: T, j: nat, k: nat)
    requires actor.counter < actor.limit && !Mentioned(st, NextId(actor))
    requires index <= k <= j && Outside(st, index, j)
    requires k == index || Overtaken(st, index, index, NextId(actor))
    requires var w := WithInsert(st, NextId(actor), AnchorAt(st, index), value);
             && index < |VisibleIds(w)| && AnchorRooted(w, AnchorAt(w, index + 1))
             && VisibleIds(w)[index] == (if k == index then NextId(actor) else VisibleIds(st)[index])
             && j + 1 < |VisibleIds(w)| && VisibleIds(w)[j + 1] == VisibleIds(st)[j]
    ensures Outside(WithInsert(st, NextId(actor), AnchorAt(st, index), value), index + 1, j + 1)
  {
    hide VisibleIds, Mentioned, PathOf, Rooted, IsPath;
    var n, after := NextId(actor), AnchorAt(st, index);
    LeafAdded(st, n, after, value);
    var w := WithInsert(st, n, after, value);
    var p, q := AnchorPath(st, after), PathOf(st.inserts, VisibleIds(st)[j]);
    var next := AnchorPath(w, AnchorAt(w, index + 1));
    assert p < next;
    if next < q {
      PrefixChain(p, next, q);
    }
  }

  // A run stays before whatever is outside: from there on nothing changes.
  lemma {:induction false} RunStaysBefore<T>(st: State<T>, actor: ActorState, index: nat, values: seq<T>, j: nat)
    requires Ready(st, actor) && Outside(st, index, j)
    ensures var w := VisibleIds(InsertAll(st, actor, index, values).state);
            var fit := Min(|values|, Remaining(actor));
            |w| == |VisibleIds(st)| + fit && w[j + fit..] == VisibleIds(st)[j..]
    decreases |values|
  {
    hide VisibleIds, Contents, Ready, InsertAt, Placed, AnchorAt, Overtaken, Outside, AnchorRooted;
    OutsideInRange(st, index, j);
    if values == [] || actor.counter >= actor.limit {
      NothingFits(st, actor, index, values);
      PlacedNothing(VisibleIds(st), index);
    } else {
      var k := InsertAtEffect(st, actor, index, values[0]);
      OutsideIsNotPassed(st, index, j, NextId(actor));
      var e := InsertAt(st, actor, index, values[0]);
      OutsideStays(st, actor, index, values[0], j, k);
      PlacedOne(VisibleIds(st), k, NextId(actor));
      RunStaysBefore(e.state, e.actor, index + 1, values[1..], j + 1);
    }
  }

  lemma OutsideInRange<T>(st: State<T>, index: nat, j: nat)
    requires Outside(st, index, j)
    ensures index <= j < |VisibleIds(st)| && AnchorRooted(st, AnchorAt(st, index))
  {}

  lemma OutsideIsNotPassed<T>(st: State<T>, index: nat, j: nat, n: OpId)
    requires Outside(st, index, j)
    ensures !Overtaken(st, index, j, n)
  {}

  // ---- the drift is decided by the list before the run ----

  // What stood at a place and still does keeps its path and its anchor path.
  lemma PathsStay<T>(st: State<T>, n: OpId, after: Option<OpId>, value: T, i: nat)
    requires !Mentioned(st, n) && AnchorRooted(st, after)
    requires var w := WithInsert(st, n, after, value);
             i < |VisibleIds(st)| && i < |VisibleIds(w)| && VisibleIds(w)[i] == VisibleIds(st)[i]
    ensures var w := WithInsert(st, n, after, value);
            && Rooted(st.inserts, VisibleIds(st)[i]) && Rooted(w.inserts, VisibleIds(w)[i])
            && PathOf(w.inserts, VisibleIds(w)[i]) == PathOf(st.inserts, VisibleIds(st)[i])
            && AnchorAt(w, i + 1) == AnchorAt(st, i + 1) == Some(VisibleIds(st)[i])
            && AnchorPath(w, AnchorAt(w, i + 1)) == AnchorPath(st, AnchorAt(st, i + 1)) == PathOf(st.inserts, VisibleIds(st)[i])
  {
    hide VisibleIds, Mentioned, PathOf, Rooted, IsPath;
    LeafAdded(st, n, after, value);
    VisibleRooted(st, i);
  }

  // After an overtaken character, which stands at `k`, an element before `k` is
  // overtaken by what it was overtaken by.
  lemma SameLanding<T>(st: State<T>, n: OpId, index: nat, value: T, k: nat, a: ActorState, i: nat)
    requires index <= |VisibleIds(st)| && AnchorRooted(st, AnchorAt(st, index)) && !Mentioned(st, n)
    requires index < i < k <= |VisibleIds(st)|
    requires VisibleIds(WithInsert(st, n, AnchorAt(st, index), value)) == Placed(VisibleIds(st), k, [n])
    ensures i <= |VisibleIds(WithInsert(st, n, AnchorAt(st, index), value))|
    ensures LandsAt(WithInsert(st, n, AnchorAt(st, index), value), a, i) <==> LandsAt(st, a, i)
  {
    hide VisibleIds, Mentioned, PathOf, Rooted, IsPath, Placed;
    var w := WithInsert(st, n, AnchorAt(st, index), value);
    PlacedAt(VisibleIds(st), k, n, i);
    PlacedAt(VisibleIds(st), k, n, i - 1);
    PathsStay(st, n, AnchorAt(st, index), value, i);
    PathsStay(st, n, AnchorAt(st, index), value, i - 1);
  }

  // And one inserted right before `k` lands there, with or without it.
  lemma BothLand<T>(st: State<T>, n: OpId, index: nat, value: T, k: nat, a: ActorState)
    requires index <= |VisibleIds(st)| && AnchorRooted(st, AnchorAt(st, index)) && !Mentioned(st, n)
    requires index < k <= |VisibleIds(st)|
    requires forall j :: index <= j < |VisibleIds(st)| ==> (j < k <==> Overtaken(st, index, j, n))
    requires VisibleIds(WithInsert(st, n, AnchorAt(st, index), value)) == Placed(VisibleIds(st), k, [n])
    ensures k <= |VisibleIds(WithInsert(st, n, AnchorAt(st, index), value))|
    ensures LandsAt(WithInsert(st, n, AnchorAt(st, index), value), a, k) && LandsAt(st, a, k)
  {
    hide VisibleIds, Mentioned, PathOf, Rooted, IsPath, Placed;
    var w, v := WithInsert(st, n, AnchorAt(st, index), value), VisibleIds(st);
    LeafAdded(st, n, AnchorAt(st, index), value);
    PlacedAt(v, k, n, k);
    PlacedAt(v, k, n, k - 1);
    PathsStay(st, n, AnchorAt(st, index), value, k - 1);
    var p, r := AnchorPath(st, AnchorAt(st, index)), PathOf(st.inserts, v[k - 1]);
    assert Overtaken(st, index, k - 1, n);
    assert p < r && Before(r[|p|], n);
    if k < |v| {
      VisibleRooted(st, k);
      var q := PathOf(st.inserts, v[k]);
      assert !Overtaken(st, index, k, n);
      if r < q { PrefixChain(p, r, q); }
    }
  }

  lemma {:induction false} DriftFixed<T>(st: State<T>, n: OpId, index: nat, value: T, k: nat, a: ActorState, i: nat, left: nat)
    requires index <= |VisibleIds(st)| && AnchorRooted(st, AnchorAt(st, index)) && !Mentioned(st, n)
    requires index < i <= k <= |VisibleIds(st)|
    requires forall j :: index <= j < |VisibleIds(st)| ==> (j < k <==> Overtaken(st, index, j, n))
    requires VisibleIds(WithInsert(st, n, AnchorAt(st, index), value)) == Placed(VisibleIds(st), k, [n])
    ensures i <= |VisibleIds(WithInsert(st, n, AnchorAt(st, index), value))|
    ensures Drift(WithInsert(st, n, AnchorAt(st, index), value), a, i, left) == Drift(st, a, i, left)
    ensures i + Drift(st, a, i, left) <= k
    decreases left
  {
    hide VisibleIds, Mentioned, LandsAt, Overtaken, Placed, WithInsert;
    PlacedOne(VisibleIds(st), k, n);
    if i == k {
      BothLand(st, n, index, value, k, a);
    } else {
      SameLanding(st, n, index, value, k, a, i);
      if left > 0 && a.counter < a.limit && !LandsAt(st, a, i) {
        DriftFixed(st, n, index, value, k, Advanced(a, 1), i + 1, left - 1);
      }
    }
  }

  // ---- where a run ends up ----

  // The characters from the `m`-th on stand as one block right behind the first
  // `index + m` elements; the first `m` stand behind the block, the later ones
  // first.
  ghost predicate Spread(v: seq<OpId>, w: seq<OpId>, ids: seq<OpId>, index: nat, m: nat, at: seq<nat>) {
    && m <= |ids| && |at| == m
    && |w| == |v| + |ids| && index + m <= |v|
    && w[..index + m] == v[..index + m]
    && w[index + m..index + |ids|] == ids[m..]
    && (forall i :: 0 <= i < m ==> index + |ids| <= at[i] < |w| && w[at[i]] == ids[i])
    && (forall i, j :: 0 <= i < j < m ==> at[j] < at[i])
  }

  lemma BlockIsSpread(v: seq<OpId>, ids: seq<OpId>, index: nat)
    requires index <= |v|
    ensures Spread(v, Placed(v, index, ids), ids, index, 0, [])
  {}

  // Nothing the actor has still to issue is visible.
  lemma IssuedLater<T>(st: State<T>, actor: ActorState, fit: nat)
    requires Ready(st, actor) && actor.counter + fit <= actor.limit
    ensures forall x :: x in NewIds(actor, fit) ==> x !in VisibleIds(st)
  {
    hide VisibleIds;
    VisibleRetained(st);
    assert forall x :: x in VisibleIds(st) ==> Mentioned(st, x);
  }

  lemma DriftedIsOutside<T>(st: State<T>, n: OpId, index: nat, value: T, k: nat)
    requires index < k <= |VisibleIds(st)| && !Mentioned(st, n)
    requires AnchorRooted(st, AnchorAt(st, index)) && Overtaken(st, index, index, n)
    requires VisibleIds(WithInsert(st, n, AnchorAt(st, index), value)) == Placed(VisibleIds(st), k, [n])
    ensures Outside(WithInsert(st, n, AnchorAt(st, index), value), index + 1, k)
  {
    hide VisibleIds, Mentioned, PathOf, Rooted, IsPath, Placed;
    PlacedAt(VisibleIds(st), k, n, k);
    PlacedAt(VisibleIds(st), k, n, index);
    PathsStay(st, n, AnchorAt(st, index), value, index);
    LeafAdded(st, n, AnchorAt(st, index), value);
  }

  lemma SuffixMembers(w: seq<OpId>, x: nat, v: seq<OpId>, y: nat)
    requires x <= |w| && y <= |v| && w[x..] == v[y..]
    ensures forall i :: x <= i < |w| ==> w[i] in v
  {
    forall i | x <= i < |w| ensures w[i] in v {
      assert w[i] == w[x..][i - x] == v[y..][i - x];
    }
  }

  // One drifted character more.
  lemma SpreadGrows(v: seq<OpId>, w: seq<OpId>, n: OpId, ids: seq<OpId>, index: nat, k: nat, m: nat, at: seq<nat>)
    requires index < k <= |v| && index + 1 + m <= k
    requires Spread(Placed(v, k, [n]), w, ids, index + 1, m, at)
    requires w[k + |ids|..] == Placed(v, k, [n])[k..]
    requires forall x :: x in ids ==> x !in Placed(v, k, [n])
    ensures Spread(v, w, [n] + ids, index, m + 1, [k + |ids|] + at)
  {
    var v', all, places := Placed(v, k, [n]), [n] + ids, [k + |ids|] + at;
    PlacedOne(v, k, n);
    assert v'[..index + 1 + m] == v[..index + 1 + m];
    assert all[m + 1..] == ids[m..];
    assert w[k + |ids|] == w[k + |ids|..][0] == v'[k..][0] == n;
    SuffixMembers(w, k + |ids|, v', k);
    assert forall i :: 0 <= i < m ==> w[at[i]] !in v';
    forall i, j | 0 <= i < j < m + 1 ensures places[j] < places[i] {
      assert places[j] == at[j - 1];
    }
  }

  lemma DriftStep<T>(st: State<T>, actor: ActorState, index: nat, n: nat)
    requires index <= |VisibleIds(st)| && n > 0 && actor.counter < actor.limit && !LandsAt(st, actor, index)
    ensures index < |VisibleIds(st)| && AnchorRooted(st, AnchorAt(st, index)) && Overtaken(st, index, index, NextId(actor))
    ensures Drift(st, actor, index, n) == 1 + Drift(st, Advanced(actor, 1), index + 1, n - 1)
  {
    hide VisibleIds;
    AnchorAtRooted(st, index);
  }

  lemma AllButFirst<T>(st: State<T>, actor: ActorState, index: nat, values: seq<T>)
    requires values != [] && InsertAt(st, actor, index, values[0]).made.Ok?
    ensures var e := InsertAt(st, actor, index, values[0]);
            InsertAll(st, actor, index, values).state == InsertAll(e.state, e.actor, index + 1, values[1..]).state
  {
    hide InsertAt;
  }

  // The first character of a run is overtaken, and stands behind the rest.
  lemma FirstDrifts<T>(st: State<T>, actor: ActorState, index: nat, value: T, fit: nat) returns (k: nat)
    requires Ready(st, actor) && actor.counter < actor.limit && fit > 0
    requires index <= |VisibleIds(st)| && !LandsAt(st, actor, index)
    ensures index < k <= |VisibleIds(st)|
    ensures var e := InsertAt(st, actor, index, value);
            && e.made.Ok? && e.actor == Advanced(actor, 1) && Ready(e.state, e.actor)
            && VisibleIds(e.state) == Placed(VisibleIds(st), k, [NextId(actor)])
            && Outside(e.state, index + 1, k)
            && index + 1 <= |VisibleIds(e.state)|
            && Drift(st, actor, index, fit) == 1 + Drift(e.state, e.actor, index + 1, fit - 1)
            && index + Drift(st, actor, index, fit) <= k
  {
    hide VisibleIds, Contents, Ready, Placed, Overtaken, Outside, InsertAt, LandsAt, Drift, AnchorAt, AnchorRooted;
    DriftStep(st, actor, index, fit);
    k := InsertAtEffect(st, actor, index, value);
    InsertAtMakes(st, actor, index, value);
    DriftFixed(st, NextId(actor), index, value, k, Advanced(actor, 1), index + 1, fit - 1);
    DriftedIsOutside(st, NextId(actor), index, value, k);
  }

  // Where a typed run stands: with `m` its drift, which the list before it
  // decides, the first `m` characters end up behind the others in reverse order,
  // and the others stand as one block right behind the `m` elements they drifted
  // past.
  ghost predicate RunStands<T>(st: State<T>, actor: ActorState, index: nat, values: seq<T>, at: seq<nat>)
    requires actor.counter <= actor.limit && index <= |VisibleIds(st)|
  {
    var fit := Min(|values|, Remaining(actor));
    Spread(VisibleIds(st), VisibleIds(InsertAll(st, actor, index, values).state), NewIds(actor, fit),
           index, Drift(st, actor, index, fit), at)
  }

  lemma {:induction false} RunSpreads<T>(st: State<T>, actor: ActorState, index: nat, values: seq<T>) returns (at: seq<nat>)
    requires Ready(st, actor) && index <= |VisibleIds(st)|
    ensures RunStands(st, actor, index, values, at)
    decreases |values|
  {
    CounterFits(st, actor);
    hide VisibleIds, Ready, Placed, Outside, InsertAt, LandsAt, Drift, RunStands;
    if values == [] || actor.counter >= actor.limit || LandsAt(st, actor, index) {
      at := [];
      BlockLands(st, actor, index, values);
    } else {
      var fit := Min(|values|, Remaining(actor));
      var k := FirstDrifts(st, actor, index, values[0], fit);
      var e := InsertAt(st, actor, index, values[0]);
      var rest := RunSpreads(e.state, e.actor, index + 1, values[1..]);
      at := RunDrifts(st, actor, index, values, e, fit, k, rest);
    }
  }

  lemma RunDrifts<T>(st: State<T>, actor: ActorState, index: nat, values: seq<T>, e: Edit<T>, fit: nat, k: nat, rest: seq<nat>)
    returns (at: seq<nat>)
    requires values != [] && actor.counter < actor.limit && fit == Min(|values|, Remaining(actor))
    requires index < k <= |VisibleIds(st)| && index + 1 <= |VisibleIds(e.state)|
    requires e == InsertAt(st, actor, index, values[0])
    requires e.made.Ok? && e.actor == Advanced(actor, 1) && Ready(e.state, e.actor)
    requires VisibleIds(e.state) == Placed(VisibleIds(st), k, [NextId(actor)])
    requires Outside(e.state, index + 1, k)
    requires Drift(st, actor, index, fit) == 1 + Drift(e.state, e.actor, index + 1, fit - 1)
    requires index + Drift(st, actor, index, fit) <= k
    requires RunStands(e.state, e.actor, index + 1, values[1..], rest)
    ensures RunStands(st, actor, index, values, at)
  {
    hide VisibleIds, Ready, Placed, Spread, Drift, NextId, NewIds, InsertAt, InsertAll, Outside;
    RunStaysBefore(e.state, e.actor, index + 1, values[1..], k);
    AllButFirst(st, actor, index, values);
    IssuedLater(e.state, e.actor, fit - 1);
    SpreadGrows(VisibleIds(st), VisibleIds(InsertAll(st, actor, index, values).state), NextId(actor), NewIds(e.actor, fit - 1),
                index, k, Drift(e.state, e.actor, index + 1, fit - 1), rest);
    FirstOfNew(actor, fit);
    at := [k + (fit - 1)] + rest;
  }

  lemma CounterFits<T>(st: State<T>, actor: ActorState)
    requires Ready(st, actor)
    ensures actor.counter <= actor.limit
  {}

  lemma FirstOfNew(actor: ActorState, fit: nat)
    requires 0 < fit && actor.counter + fit <= actor.limit
    ensures [NextId(actor)] + NewIds(Advanced(actor, 1), fit - 1) == NewIds(actor, fit)
  {}

  lemma BlockLands<T>(st: State<T>, actor: ActorState, index: nat, values: seq<T>)
    requires Ready(st, actor) && index <= |VisibleIds(st)|
    requires values == [] || actor.counter >= actor.limit || LandsAt(st, actor, index)
    ensures RunStands(st, actor, index, values, [])
  {
    CounterFits(st, actor);
    hide VisibleIds, Contents, Ready, Placed, Spread, InsertAll, LandsAt;
    if LandsAt(st, actor, index) {
      InsertAllExact(st, actor, index, values);
    } else {
      NothingFits(st, actor, index, values);
    }
    BlockIsSpread(VisibleIds(st), NewIds(actor, Min(|values|, Remaining(actor))), index);
  }

  // ---- in which order the characters of a run come out ----

  lemma FirstTwo(v: seq<OpId>, w: seq<OpId>, ids: seq<OpId>, index: nat, m: nat, at: seq<nat>, x: nat, y: nat)
    requires Spread(v, w, ids, index, m, at) && |ids| >= 2
    requires forall i, j :: 0 <= i < j < |w| ==> w[i] != w[j]
    requires x < |w| && y < |w| && w[x] == ids[0] && w[y] == ids[1]
    ensures x < y <==> m == 0
  {
    var block := w[index + m..index + |ids|];
    assert m == 0 ==> w[index] == block[0] == ids[0] && w[index + 1] == block[1] == ids[1];
    assert m == 1 ==> w[index + 1] == block[0] == ids[1] && w[at[0]] == ids[0];
    assert m >= 2 ==> w[at[0]] == ids[0] && w[at[1]] == ids[1];
  }

  // The first two characters of a run come out in the order they were typed if
  // and only if the first of them lands at the index.
  lemma TypedOrderExactly<T>(st: State<T>, actor: ActorState, index: nat, values: seq<T>, x: nat, y: nat)
    requires Ready(st, actor) && index <= |VisibleIds(st)|
    requires |values| >= 2 && actor.counter + 2 <= actor.limit
    requires var w := VisibleIds(InsertAll(st, actor, index, values).state);
             && x < |w| && y < |w|
             && w[x] == NextId(actor) && w[y] == NextId(Advanced(actor, 1))
    ensures x < y <==> LandsAt(st, actor, index)
  {
    hide VisibleIds, InsertAll, Spread, LandsAt, Ready;
    var at := RunSpreads(st, actor, index, values);
    var fit := Min(|values|, Remaining(actor));
    var w := InsertAll(st, actor, index, values).state;
    VisibleIdsExact(w);
    PathOrderDistinct(w.inserts, VisibleIds(w));
    FirstTwo(VisibleIds(st), VisibleIds(w), NewIds(actor, fit), index, Drift(st, actor, index, fit), at, x, y);
  }

  // One author typing "ac" and then "bd" between them gets "acdb".
  lemma MidRunCanBeReversed()
    ensures exists st: State<char>, actor: ActorState ::
              && Ready(st, actor) && actor.counter < actor.limit
              && Contents(st) == ['a', 'c']
              && Contents(InsertAll(st, actor, 1, ['b', 'd']).state) == ['a', 'c', 'd', 'b']
  {
    hide VisibleIds, Contents, InsertAt, Overtaken, Rooted, Ready, AnchorAt, Placed;
    var st, actor := TypedAC();
    var k := InsertAtEffect(st, actor, 1, 'b');
    var e := InsertAt(st, actor, 1, 'b');
    PlacedOne(VisibleIds(st), k, NextId(actor));
    assert k == 2;
    InsertAtMakes(st, actor, 1, 'b');
    DriftedIsOutside(st, NextId(actor), 1, 'b', 2);
    var l := InsertAtEffect(e.state, e.actor, 2, 'd');
    OutsideIsNotPassed(e.state, 2, 2, NextId(e.actor));
    assert Placed(Placed(['a', 'c'], 2, ['b']), 2, ['d']) == ['a', 'c', 'd', 'b'] by { PlacedBD(); }
    TwoAtATime(st, actor, 1, 'b', 'd');
  }

  lemma PlacedBD()
    ensures |Placed(['a', 'c'], 2, ['b'])| == 3
    ensures Placed(Placed(['a', 'c'], 2, ['b']), 2, ['d']) == ['a', 'c', 'd', 'b']
  {
    assert Placed(['a', 'c'], 2, ['b']) == ['a', 'c', 'b'];
  }

  lemma TwoAtATime<T>(st: State<T>, actor: ActorState, index: nat, x: T, y: T)
    requires InsertAt(st, actor, index, x).made.Ok?
    ensures var e := InsertAt(st, actor, index, x);
            InsertAll(st, actor, index, [x, y]).state == InsertAt(e.state, e.actor, index + 1, y).state
  {
    hide InsertAt;
    assert [x, y][1..] == [y] && [y][1..] == [];
    AllButFirst(st, actor, index, [x, y]);
    var e := InsertAt(st, actor, index, x);
    var f := InsertAt(e.state, e.actor, index + 1, y);
    if f.made.Ok? {
      AllButFirst(e.state, e.actor, index + 1, [y]);
    }
  }
}
