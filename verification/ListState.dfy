// The retained state of a replicated list, the operations it accepts, and the
// algebra of folding and merging them. A list is its set of operations: how
// they arrived, how often, and in which order leaves no trace.
module ListState {
  import opened Wrappers
  import opened Ids

  type OpId = Id

  datatype ListOp<T> =
    | Insert(id: OpId, after: Option<OpId>, value: T)
    | Delete(id: OpId, target: OpId)

  datatype Entry<T> = Entry(after: Option<OpId>, value: T)

  datatype State<T> = State(inserts: map<OpId, Entry<T>>, deletes: map<OpId, OpId>)

  datatype Error = ZeroCounter | SelfAnchor | Collision(id: OpId) | OutOfRange | Exhausted

  datatype Apply = Applied | Duplicate

  datatype Outcome<T> = Outcome(state: State<T>, apply: Apply)

  function Empty<T>(): State<T> {
    State(map[], map[])
  }

  // What an operation must satisfy on its own, whatever is retained.
  predicate ValidOp<T>(op: ListOp<T>) {
    && op.id.counter != 0
    && match op
       case Insert(id, None, _) => true
       case Insert(id, Some(anchor), _) => anchor.counter != 0 && anchor != id
       case Delete(_, target) => target.counter != 0
  }

  // Retained operations are valid, and no identity names both an insertion and
  // a deletion.
  ghost predicate WellFormed<T(!new)>(st: State<T>) {
    && st.inserts.Keys !! st.deletes.Keys
    && forall op :: op in Ops(st) ==> ValidOp(op)
  }

  function Lookup<T>(st: State<T>, id: OpId): Option<ListOp<T>> {
    if id in st.inserts then Some(Insert(id, st.inserts[id].after, st.inserts[id].value))
    else if id in st.deletes then Some(Delete(id, st.deletes[id]))
    else None
  }

  ghost function Ops<T(!new)>(st: State<T>): (s: iset<ListOp<T>>) {
    iset op: ListOp<T> | Lookup(st, op.id) == Some(op)
  }

  // The transition of one application, in the order the checks are made.
  function ApplyOp<T(==)>(st: State<T>, op: ListOp<T>): Result<Outcome<T>, Error> {
    if op.id.counter == 0 then Err(ZeroCounter)
    else if Lookup(st, op.id).Some? then
      if Lookup(st, op.id).value == op then Ok(Outcome(st, Duplicate)) else Err(Collision(op.id))
    else
      match op
      case Insert(id, after, value) =>
        if after.Some? && after.value.counter == 0 then Err(ZeroCounter)
        else if after == Some(id) then Err(SelfAnchor)
        else Ok(Outcome(st.(inserts := st.inserts[id := Entry(after, value)]), Applied))
      case Delete(id, target) =>
        if target.counter == 0 then Err(ZeroCounter)
        else Ok(Outcome(st.(deletes := st.deletes[id := target]), Applied))
  }

  // Two operations under one identity collide unless they are the same.
  ghost predicate Fits<T(!new)>(st: State<T>, op: ListOp<T>) {
    forall held :: held in Ops(st) && held.id == op.id ==> held == op
  }

  // An application succeeds exactly for a valid operation that fits, and then
  // adds that operation and nothing else.
  lemma ApplyAddsOperation<T(!new)>(st: State<T>, op: ListOp<T>)
    requires WellFormed(st)
    ensures ApplyOp(st, op).Ok? <==> ValidOp(op) && Fits(st, op)
    ensures ApplyOp(st, op) == Err(Collision(op.id)) <==> op.id.counter != 0 && !Fits(st, op)
    ensures ApplyOp(st, op) == Err(SelfAnchor) <==> op.id.counter != 0 && Fits(st, op) && op.Insert? && op.after == Some(op.id)
    ensures ApplyOp(st, op) == Err(ZeroCounter) ==> !ValidOp(op)
    ensures ApplyOp(st, op).Ok? ==>
              var Outcome(next, outcome) := ApplyOp(st, op).value;
              && WellFormed(next)
              && Ops(next) == Ops(st) + iset{op}
              && (outcome == Duplicate <==> op in Ops(st))
  {
    var held := Lookup(st, op.id);
    if held.Some? {
      assert held.value in Ops(st);
      if held.value == op {
        assert Ops(st) == Ops(st) + iset{op};
      }
    } else if ApplyOp(st, op).Ok? {
      var next := ApplyOp(st, op).value.state;
      forall other: ListOp<T>
        ensures Lookup(next, other.id) == if other.id == op.id then Some(op) else Lookup(st, other.id)
      {}
      assert Ops(next) == Ops(st) + iset{op};
    }
  }

  // A well-formed state is determined by its operations.
  lemma OpsDetermineState<T(!new)>(a: State<T>, b: State<T>)
    requires WellFormed(a) && WellFormed(b)
    requires Ops(a) == Ops(b)
    ensures a == b
  {
    forall id ensures Lookup(a, id) == Lookup(b, id) {
      if Lookup(a, id).Some? {
        assert Lookup(a, id).value in Ops(b);
      }
      if Lookup(b, id).Some? {
        assert Lookup(b, id).value in Ops(a);
      }
    }
    forall id ensures id in a.inserts <==> id in b.inserts {
      assert Lookup(a, id) == Lookup(b, id);
    }
    forall id ensures id in a.deletes <==> id in b.deletes {
      assert Lookup(a, id) == Lookup(b, id);
    }
    forall id | id in a.inserts ensures a.inserts[id] == b.inserts[id] {
      assert Lookup(a, id) == Lookup(b, id);
    }
    forall id | id in a.deletes ensures a.deletes[id] == b.deletes[id] {
      assert Lookup(a, id) == Lookup(b, id);
    }
    assert a.inserts == b.inserts && a.deletes == b.deletes;
  }

  // Folding a delivery sequence; the first failure stops it.
  function Fold<T(==)>(st: State<T>, ops: seq<ListOp<T>>): Result<State<T>, Error>
    decreases |ops|
  {
    if ops == [] then Ok(st)
    else
      match ApplyOp(st, ops[0])
      case Ok(outcome) => Fold(outcome.state, ops[1..])
      case Err(e) => Err(e)
  }

  // A delivery is collision-free against a state when every operation in it is
  // valid and no two operations, delivered or held, share an identity.
  ghost predicate Deliverable<T(!new)>(held: iset<ListOp<T>>, ops: seq<ListOp<T>>) {
    && (forall op :: op in ops ==> ValidOp(op))
    && (forall a, b :: (a in ops || a in held) && b in ops && a.id == b.id ==> a == b)
  }

  // Delivery is exactly set union: it succeeds for every collision-free
  // delivery and for no other, whatever its order and repetitions.
  lemma {:induction false} FoldIsUnion<T(!new)>(st: State<T>, ops: seq<ListOp<T>>)
    requires WellFormed(st)
    ensures Fold(st, ops).Ok? <==> Deliverable(Ops(st), ops)
    ensures Fold(st, ops).Ok? ==>
              && WellFormed(Fold(st, ops).value)
              && Ops(Fold(st, ops).value) == Ops(st) + (iset op | op in ops)
    decreases |ops|
  {
    if ops == [] {
      assert Ops(st) == Ops(st) + (iset op: ListOp<T> | op in ops);
    } else {
      var head, tail := ops[0], ops[1..];
      assert forall op :: op in ops <==> op == head || op in tail;
      ApplyAddsOperation(st, head);
      if ApplyOp(st, head).Ok? {
        var next := ApplyOp(st, head).value.state;
        FoldIsUnion(next, tail);
        assert Ops(next) == Ops(st) + iset{head};
        assert Fold(st, ops) == Fold(next, tail);
        assert Deliverable(Ops(next), tail) <==> Deliverable(Ops(st), ops);
      } else {
        assert head in ops;
      }
    }
  }

  lemma {:induction false} FoldNext<T>(st: State<T>, ops: seq<ListOp<T>>, n: nat)
    requires n < |ops| && Fold(st, ops[..n]).Ok?
    ensures Fold(st, ops[..n + 1])
            == match ApplyOp(Fold(st, ops[..n]).value, ops[n])
               case Ok(outcome) => Ok(outcome.state)
               case Err(e) => Err(e)
    decreases n
  {
    hide ApplyOp;
    if n > 0 {
      var next := ApplyOp(st, ops[0]).value.state;
      assert ops[..n][1..] == ops[1..][..n - 1] && ops[..n + 1][1..] == ops[1..][..n];
      FoldNext(next, ops[1..], n - 1);
    } else {
      assert ops[..1][1..] == [];
    }
  }

  // Reordering and duplicating a delivery changes neither whether it succeeds
  // nor the state it reaches.
  lemma DeliveryOrderIsIrrelevant<T(!new)>(st: State<T>, first: seq<ListOp<T>>, second: seq<ListOp<T>>)
    requires WellFormed(st)
    requires forall op :: op in first <==> op in second
    ensures Fold(st, first).Ok? <==> Fold(st, second).Ok?
    ensures Fold(st, first).Ok? ==> Fold(st, first) == Fold(st, second)
  {
    FoldIsUnion(st, first);
    FoldIsUnion(st, second);
    assert Deliverable(Ops(st), first) <==> Deliverable(Ops(st), second);
    if Fold(st, first).Ok? {
      assert (iset op | op in first) == (iset op | op in second);
      OpsDetermineState(Fold(st, first).value, Fold(st, second).value);
    }
  }

  // ---- retained operations in stable order ----

  predicate SortedOps<T>(ops: seq<ListOp<T>>) {
    forall i, j :: 0 <= i < j < |ops| ==> Before(ops[i].id, ops[j].id)
  }

  function InsertionsOf<T>(inserts: map<OpId, Entry<T>>, ids: seq<OpId>): (r: seq<ListOp<T>>)
    requires forall id :: id in ids ==> id in inserts
    ensures |r| == |ids|
    ensures forall i :: 0 <= i < |r| ==> r[i] == Insert(ids[i], inserts[ids[i]].after, inserts[ids[i]].value)
  {
    seq(|ids|, i requires 0 <= i < |ids| => Insert(ids[i], inserts[ids[i]].after, inserts[ids[i]].value))
  }

  function DeletionsOf<T>(deletes: map<OpId, OpId>, ids: seq<OpId>): (r: seq<ListOp<T>>)
    requires forall id :: id in ids ==> id in deletes
    ensures |r| == |ids|
    ensures forall i :: 0 <= i < |r| ==> r[i] == Delete(ids[i], deletes[ids[i]])
  {
    seq(|ids|, i requires 0 <= i < |ids| => Delete(ids[i], deletes[ids[i]]))
  }

  // Insertion into a sequence already sorted by identity.
  function PlaceById<T(!new)>(op: ListOp<T>, sorted: seq<ListOp<T>>): (r: seq<ListOp<T>>)
    requires SortedOps(sorted)
    requires forall other :: other in sorted ==> other.id != op.id
    ensures SortedOps(r)
    ensures forall x :: x in r <==> x == op || x in sorted
  {
    if sorted == [] || Before(op.id, sorted[0].id) then [op] + sorted
    else
      var rest := PlaceById(op, sorted[1..]);
      assert sorted == [sorted[0]] + sorted[1..];
      assert forall i :: 0 <= i < |rest| ==> rest[i] in rest;
      [sorted[0]] + rest
  }

  predicate DistinctIds<T>(ops: seq<ListOp<T>>) {
    forall i, j :: 0 <= i < j < |ops| ==> ops[i].id != ops[j].id
  }

  function SortById<T(!new)>(ops: seq<ListOp<T>>): (r: seq<ListOp<T>>)
    requires DistinctIds(ops)
    ensures SortedOps(r)
    ensures forall x :: x in r <==> x in ops
  {
    if ops == [] then []
    else
      assert ops == [ops[0]] + ops[1..];
      PlaceById(ops[0], SortById(ops[1..]))
  }

  ghost predicate ListsExactly<T(!new)>(ops: seq<ListOp<T>>, st: State<T>) {
    && SortedOps(ops)
    && forall op :: op in ops <==> op in Ops(st)
  }

  function RetainedInMapOrder<T>(st: State<T>): seq<ListOp<T>> {
    InsertionsOf(st.inserts, Ascending(st.inserts.Keys)) + DeletionsOf(st.deletes, Ascending(st.deletes.Keys))
  }

  lemma InsertionsListed<T(!new)>(st: State<T>, op: ListOp<T>)
    ensures op in InsertionsOf(st.inserts, Ascending(st.inserts.Keys))
            <==> op.Insert? && Lookup(st, op.id) == Some(op)
  {
    var ids := Ascending(st.inserts.Keys);
    var listed := InsertionsOf(st.inserts, ids);
    if op.Insert? && Lookup(st, op.id) == Some(op) {
      assert op.id in ids;
      var i :| 0 <= i < |ids| && ids[i] == op.id;
      assert listed[i] == op;
    }
    if op in listed {
      var i :| 0 <= i < |listed| && listed[i] == op;
      assert ids[i] in ids;
    }
  }

  lemma DeletionsListed<T(!new)>(st: State<T>, op: ListOp<T>)
    requires st.inserts.Keys !! st.deletes.Keys
    ensures op in DeletionsOf<T>(st.deletes, Ascending(st.deletes.Keys))
            <==> op.Delete? && Lookup(st, op.id) == Some(op)
  {
    var ids := Ascending(st.deletes.Keys);
    var listed: seq<ListOp<T>> := DeletionsOf(st.deletes, ids);
    if op.Delete? && Lookup(st, op.id) == Some(op) {
      assert op.id in ids;
      var i :| 0 <= i < |ids| && ids[i] == op.id;
      assert listed[i] == op;
    }
    if op in listed {
      var i :| 0 <= i < |listed| && listed[i] == op;
      assert ids[i] in ids;
    }
  }

  lemma RetainedDistinct<T(!new)>(st: State<T>)
    requires st.inserts.Keys !! st.deletes.Keys
    ensures DistinctIds(RetainedInMapOrder(st))
  {
    var inserted, deleted := Ascending(st.inserts.Keys), Ascending(st.deletes.Keys);
    var first, second: seq<ListOp<T>> := InsertionsOf(st.inserts, inserted), DeletionsOf(st.deletes, deleted);
    forall i, j | 0 <= i < |first| && 0 <= j < |second| ensures first[i].id != second[j].id {
      assert inserted[i] in inserted && deleted[j] in deleted;
    }
    DistinctConcat(first, second);
  }

  lemma DistinctConcat<T>(first: seq<ListOp<T>>, second: seq<ListOp<T>>)
    requires DistinctIds(first) && DistinctIds(second)
    requires forall i, j :: 0 <= i < |first| && 0 <= j < |second| ==> first[i].id != second[j].id
    ensures DistinctIds(first + second)
  {}

  // Sorting the retained operations by identity lists each exactly once.
  lemma SortedRetainedIsExact<T(!new)>(st: State<T>)
    requires WellFormed(st)
    ensures DistinctIds(RetainedInMapOrder(st))
    ensures ListsExactly(SortById(RetainedInMapOrder(st)), st)
  {
    RetainedDistinct(st);
    forall op: ListOp<T> ensures op in RetainedInMapOrder(st) <==> op in Ops(st) {
      InsertionsListed(st, op);
      DeletionsListed(st, op);
    }
  }

  // ---- merging ----

  ghost predicate Compatible<T(!new)>(a: State<T>, b: State<T>) {
    forall x, y :: x in Ops(a) && y in Ops(b) && x.id == y.id ==> x == y
  }

  // The result a merge must produce: union when compatible, nothing otherwise.
  ghost predicate MergesTo<T(!new)>(a: State<T>, b: State<T>, r: Result<State<T>, Error>) {
    && (r.Ok? <==> Compatible(a, b))
    && (r.Ok? ==> WellFormed(r.value) && Ops(r.value) == Ops(a) + Ops(b))
  }

  // Applying the operations of one state to another merges them.
  lemma FoldMerges<T(!new)>(a: State<T>, b: State<T>, ops: seq<ListOp<T>>)
    requires WellFormed(a) && WellFormed(b)
    requires ListsExactly(ops, b)
    ensures MergesTo(a, b, Fold(a, ops))
  {
    FoldIsUnion(a, ops);
    forall x, y | x in ops && y in ops && x.id == y.id ensures x == y {
      assert Lookup(b, x.id) == Some(x) && Lookup(b, y.id) == Some(y);
    }
    assert Deliverable(Ops(a), ops) <==> Compatible(a, b);
    assert (iset op | op in ops) == Ops(b);
  }

  // The least identity under which two states hold different operations.
  ghost predicate FirstConflict<T(!new)>(a: State<T>, b: State<T>, id: OpId) {
    && Conflict(a, b, id)
    && forall other :: Conflict(a, b, other) ==> !Before(other, id)
  }

  ghost predicate Conflict<T(!new)>(a: State<T>, b: State<T>, id: OpId) {
    Lookup(a, id).Some? && Lookup(b, id).Some? && Lookup(a, id) != Lookup(b, id)
  }

  // A merge that fails reports that identity.
  lemma MergeReportsFirst<T(!new)>(a: State<T>, b: State<T>, ops: seq<ListOp<T>>)
    requires WellFormed(a) && WellFormed(b) && ListsExactly(ops, b) && Fold(a, ops).Err?
    ensures Fold(a, ops).error.Collision? && FirstConflict(a, b, Fold(a, ops).error.id)
  {
    hide ApplyOp;
    forall op | op in ops ensures ValidOp(op) && Lookup(b, op.id) == Some(op) {}
    var n := RefusedAt(a, ops);
    assert ops[n] in ops;
    forall other | Conflict(a, b, other) ensures !Before(other, ops[n].id) {
      var op := Lookup(b, other).value;
      assert op.id == other && op in Ops(b) && op in ops;
      var i :| 0 <= i < |ops| && ops[i] == op;
      assert i >= n;
    }
  }

  lemma {:induction false} RefusedAt<T(!new)>(st: State<T>, ops: seq<ListOp<T>>) returns (n: nat)
    requires WellFormed(st) && SortedOps(ops) && (forall op :: op in ops ==> ValidOp(op)) && Fold(st, ops).Err?
    ensures n < |ops| && Fold(st, ops).error == Collision(ops[n].id)
    ensures Lookup(st, ops[n].id).Some? && Lookup(st, ops[n].id) != Some(ops[n])
    ensures forall i :: 0 <= i < n ==> Lookup(st, ops[i].id) in {None, Some(ops[i])}
    decreases |ops|
  {
    assert ops[0] in ops;
    ApplyAddsOperation(st, ops[0]);
    if ApplyOp(st, ops[0]).Err? {
      n := 0;
    } else {
      var next := ApplyOp(st, ops[0]).value.state;
      forall i | 0 < i < |ops| ensures Lookup(next, ops[i].id) == Lookup(st, ops[i].id) {
        assert ops[i].id != ops[0].id;
      }
      forall op | op in ops[1..] ensures op in ops {}
      var m := RefusedAt(next, ops[1..]);
      n := m + 1;
      forall i | 0 <= i < n ensures Lookup(st, ops[i].id) in {None, Some(ops[i])} {
        if i > 0 { assert ops[1..][i - 1] == ops[i]; }
      }
    }
  }

  lemma MergeIsCommutative<T(!new)>(a: State<T>, b: State<T>,
                                    ab: Result<State<T>, Error>, ba: Result<State<T>, Error>)
    requires MergesTo(a, b, ab) && MergesTo(b, a, ba)
    ensures ab.Ok? <==> ba.Ok?
    ensures ab.Ok? ==> ab == ba
  {
    assert Compatible(a, b) <==> Compatible(b, a);
    if ab.Ok? {
      assert Ops(ab.value) == Ops(ba.value);
      OpsDetermineState(ab.value, ba.value);
    }
  }

  lemma MergeIsIdempotent<T(!new)>(a: State<T>, b: State<T>, ab: Result<State<T>, Error>, abb: Result<State<T>, Error>)
    requires WellFormed(a) && WellFormed(b)
    requires MergesTo(a, b, ab) && ab.Ok? && MergesTo(ab.value, b, abb)
    ensures abb == ab
    ensures MergesTo(a, a, Ok(a))
  {
    forall x, y | x in Ops(ab.value) && y in Ops(b) && x.id == y.id ensures x == y {
      assert Lookup(ab.value, x.id) == Some(x);
      assert y in Ops(ab.value);
    }
    assert Ops(abb.value) == Ops(ab.value);
    OpsDetermineState(abb.value, ab.value);
    assert Ops(a) + Ops(a) == Ops(a);
  }

  // Both groupings of three merges fail or succeed together, and agree.
  lemma MergeIsAssociative<T(!new)>(a: State<T>, b: State<T>, c: State<T>,
                                    ab: Result<State<T>, Error>, bc: Result<State<T>, Error>,
                                    left: Result<State<T>, Error>, right: Result<State<T>, Error>)
    requires MergesTo(a, b, ab) && MergesTo(b, c, bc)
    requires ab.Ok? ==> MergesTo(ab.value, c, left)
    requires bc.Ok? ==> MergesTo(a, bc.value, right)
    ensures ab.Ok? && left.Ok? <==> bc.Ok? && right.Ok?
    ensures ab.Ok? && left.Ok? ==> left == right
  {
    if ab.Ok? && left.Ok? {
      assert Compatible(b, c);
      assert Compatible(a, bc.value);
      assert Ops(left.value) == Ops(right.value);
      OpsDetermineState(left.value, right.value);
    }
    if bc.Ok? && right.Ok? {
      assert Compatible(a, b);
      assert Compatible(ab.value, c);
    }
  }
}
