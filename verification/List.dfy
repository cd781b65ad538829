// The replicated list, its actor, its wire form, and text: the mutable objects
// of the crate, each method tied to the transition it performs.
module List {
  import opened Wrappers
  import opened Ids
  import opened Sequences
  import opened ListState
  import opened ListWalk
  import opened ListOrder
  import opened ListEdits
  import opened ListSpread

  class Actor {
    const replica: ReplicaId
    var counter: U64
    const limit: U64

    constructor (replica: ReplicaId, counter: U64, limit: U64)
      ensures View() == ActorState(replica, counter, limit)
    {
      this.replica, this.counter, this.limit := replica, counter, limit;
    }

    function View(): ActorState
      reads this
    {
      ActorState(replica, counter, limit)
    }

    static method Reserved(replica: ReplicaId, counter: U64, limit: U64) returns (r: Result<Actor, Error>)
      ensures r.Ok? <==> counter <= limit
      ensures r.Ok? ==> fresh(r.value) && r.value.View() == ActorState(replica, counter, limit)
    {
      if counter > limit {
        return Err(OutOfRange);
      }
      var actor := new Actor(replica, counter, limit);
      return Ok(actor);
    }

    method Next() returns (r: Result<OpId, Error>)
      modifies this
      ensures Issue(old(View())) == Issued(View(), r)
    {
      if counter == limit || counter == U64_MAX {
        return Err(Exhausted);
      }
      counter := counter + 1;
      return Ok(Id(replica, counter));
    }
  }

  datatype Wire<T> = Wire(inserts: seq<(OpId, Option<OpId>, T)>, deletes: seq<(OpId, OpId)>)

  function WireInsertions<T>(rows: seq<(OpId, Option<OpId>, T)>): (r: seq<ListOp<T>>)
    ensures |r| == |rows|
    ensures forall i :: 0 <= i < |r| ==> r[i] == Insert(rows[i].0, rows[i].1, rows[i].2)
  {
    seq(|rows|, i requires 0 <= i < |rows| => Insert(rows[i].0, rows[i].1, rows[i].2))
  }

  function WireDeletions<T>(rows: seq<(OpId, OpId)>): (r: seq<ListOp<T>>)
    ensures |r| == |rows|
    ensures forall i :: 0 <= i < |r| ==> r[i] == Delete(rows[i].0, rows[i].1)
  {
    seq(|rows|, i requires 0 <= i < |rows| => Delete(rows[i].0, rows[i].1))
  }

  function WireOps<T>(wire: Wire<T>): seq<ListOp<T>> {
    WireInsertions(wire.inserts) + WireDeletions(wire.deletes)
  }

  function InsertRows<T>(inserts: map<OpId, Entry<T>>, ids: seq<OpId>): (r: seq<(OpId, Option<OpId>, T)>)
    requires forall id :: id in ids ==> id in inserts
    ensures |r| == |ids|
    ensures forall i :: 0 <= i < |r| ==> r[i] == (ids[i], inserts[ids[i]].after, inserts[ids[i]].value)
  {
    seq(|ids|, i requires 0 <= i < |ids| => (ids[i], inserts[ids[i]].after, inserts[ids[i]].value))
  }

  function DeleteRows(deletes: map<OpId, OpId>, ids: seq<OpId>): (r: seq<(OpId, OpId)>)
    requires forall id :: id in ids ==> id in deletes
    ensures |r| == |ids|
    ensures forall i :: 0 <= i < |r| ==> r[i] == (ids[i], deletes[ids[i]])
  {
    seq(|ids|, i requires 0 <= i < |ids| => (ids[i], deletes[ids[i]]))
  }

  // The sorted rows of both maps.
  function ToWire<T>(st: State<T>): Wire<T> {
    Wire(InsertRows(st.inserts, Ascending(st.inserts.Keys)), DeleteRows(st.deletes, Ascending(st.deletes.Keys)))
  }

  lemma WireListsRetained<T(!new)>(st: State<T>)
    ensures WireOps(ToWire(st)) == RetainedInMapOrder(st)
  {
    hide Ascending;
    var ids, gone := Ascending(st.inserts.Keys), Ascending(st.deletes.Keys);
    assert WireInsertions(InsertRows(st.inserts, ids)) == InsertionsOf(st.inserts, ids);
    assert WireDeletions<T>(DeleteRows(st.deletes, gone)) == DeletionsOf<T>(st.deletes, gone);
  }

  // Serialising a list and reading it back restores it.
  lemma WireRoundTrip<T(!new)>(st: State<T>)
    requires WellFormed(st)
    ensures Fold(Empty(), WireOps(ToWire(st))) == Ok(st)
  {
    hide WireOps, ToWire, Fold;
    var ops := RetainedInMapOrder(st);
    WireListsRetained(st);
    assert forall op: ListOp<T> :: op !in Ops(Empty());
    forall op: ListOp<T> ensures op in ops <==> op in Ops(st) {
      InsertionsListed(st, op);
      DeletionsListed(st, op);
    }
    hide RetainedInMapOrder;
    FoldIsUnion(Empty(), ops);
    assert Deliverable(Ops(Empty<T>()), ops) by {
      forall a, b | a in ops && b in ops && a.id == b.id ensures a == b {
        assert Lookup(st, a.id) == Some(a) && Lookup(st, b.id) == Some(b);
      }
    }
    assert Ops(Fold(Empty(), ops).value) == Ops(st);
    OpsDetermineState(Fold(Empty(), ops).value, st);
  }

  type Index = map<Option<OpId>, seq<OpId>>

  function Siblings(children: Index, parent: Option<OpId>): seq<OpId> {
    if parent in children then children[parent] else []
  }

  ghost predicate Indexes<T>(children: Index, ins: map<OpId, Entry<T>>) {
    forall parent {:trigger Siblings(children, parent)} :: Siblings(children, parent) == Children(ins, parent)
  }

  ghost predicate IndexedSoFar<T>(children: Index, ins: map<OpId, Entry<T>>, ids: seq<OpId>) {
    forall parent {:trigger Siblings(children, parent)} ::
      && Sorted(Siblings(children, parent))
      && forall id :: id in Siblings(children, parent) <==> id in ids && id in ins && ins[id].after == parent
  }

  lemma IndexStep<T>(children: Index, ins: map<OpId, Entry<T>>, ids: seq<OpId>, id: OpId)
    requires IndexedSoFar(children, ins, ids) && Sorted(ids + [id]) && id in ins
    ensures var parent := ins[id].after;
            IndexedSoFar(children[parent := Siblings(children, parent) + [id]], ins, ids + [id])
  {
    var parent := ins[id].after;
    var siblings := Siblings(children, parent);
    var next := children[parent := siblings + [id]];
    forall x | x in siblings ensures Before(x, id) {
      assert x in ids;
      var j :| 0 <= j < |ids| && ids[j] == x;
      assert (ids + [id])[j] == x && (ids + [id])[|ids|] == id;
    }
    forall p
      ensures Sorted(Siblings(next, p))
      ensures forall x :: x in Siblings(next, p) <==> x in ids + [id] && x in ins && ins[x].after == p
    {
      assert p != parent ==> Siblings(next, p) == Siblings(children, p);
    }
  }

  lemma IndexComplete<T>(children: Index, ins: map<OpId, Entry<T>>)
    requires IndexedSoFar(children, ins, Ascending(ins.Keys))
    ensures Indexes(children, ins)
  {
    forall parent ensures Siblings(children, parent) == Children(ins, parent) {
      AscendingUnique(Siblings(children, parent), Children(ins, parent));
    }
  }

  // The children index, filled in one pass over the insertions in id order.
  method ChildrenIndex<T>(ins: map<OpId, Entry<T>>) returns (children: Index)
    ensures Indexes(children, ins)
  {
    children := map[];
    var ids := Ascending(ins.Keys);
    var i := 0;
    while i < |ids|
      invariant 0 <= i <= |ids|
      invariant IndexedSoFar(children, ins, ids[..i])
    {
      var id := ids[i];
      assert id in ids;
      assert ids[..i + 1] == ids[..i] + [id];
      IndexStep(children, ins, ids[..i], id);
      children := children[ins[id].after := Siblings(children, ins[id].after) + [id]];
      i := i + 1;
    }
    assert ids[..i] == ids;
    IndexComplete(children, ins);
  }

  // The recursive walk over shared `visiting` and `visible` collections. It
  // terminates on every index, cyclic or not: a descent only enters
  // insertions that are not being visited.
  method Visit<T>(parent: Option<OpId>, children: Index, hidden: set<OpId>,
                  visiting: set<OpId>, visible: seq<OpId>, ghost ins: map<OpId, Entry<T>>)
    returns (visiting': set<OpId>, visible': seq<OpId>)
    requires Indexes(children, ins)
    ensures visiting' == visiting
    ensures visible' == visible + Walk(ins, hidden, parent, visiting)
    decreases |ins.Keys - visiting|, 1
  {
    visiting', visible' := visiting, visible;
    assert Siblings(children, parent) == Children(ins, parent);
    if parent !in children {
      return;
    }
    var kids := children[parent];
    var i := 0;
    while i < |kids|
      invariant 0 <= i <= |kids|
      invariant visiting' == visiting
      invariant visible + WalkAmong(ins, hidden, kids, visiting)
             == visible' + WalkAmong(ins, hidden, kids[i..], visiting)
    {
      assert kids[i] in kids && kids[i..][0] == kids[i] && kids[i..][1..] == kids[i + 1..];
      ghost var before := visible';
      visiting', visible' := Enter(kids[i], children, hidden, visiting', visible', ins);
      Regroup(before, WalkInto(ins, hidden, kids[i], visiting), WalkAmong(ins, hidden, kids[i + 1..], visiting));
      i := i + 1;
    }
  }

  lemma Regroup<T>(a: seq<T>, b: seq<T>, c: seq<T>)
    ensures a + (b + c) == a + b + c
  {}

  // One turn of the walk's loop.
  method Enter<T>(kid: OpId, children: Index, hidden: set<OpId>,
                  visiting: set<OpId>, visible: seq<OpId>, ghost ins: map<OpId, Entry<T>>)
    returns (visiting': set<OpId>, visible': seq<OpId>)
    requires Indexes(children, ins) && kid in ins
    ensures visiting' == visiting
    ensures visible' == visible + WalkInto(ins, hidden, kid, visiting)
    decreases |ins.Keys - visiting|, 0
  {
    hide Walk, Indexes;
    visiting', visible' := visiting, visible;
    if kid in visiting {
      return;
    }
    EnteringShrinks(ins.Keys, visiting, kid);
    visiting' := visiting + {kid};
    if kid !in hidden {
      visible' := visible' + [kid];
    }
    visiting', visible' := Visit(Some(kid), children, hidden, visiting', visible', ins);
    Regroup(visible, if kid in hidden then [] else [kid], Walk(ins, hidden, Some(kid), visiting + {kid}));
    visiting' := visiting' - {kid};
  }

  class List<T(==,!new)> {
    var inserts: map<OpId, Entry<T>>
    var deletes: map<OpId, OpId>

    function View(): State<T>
      reads this
    {
      State(inserts, deletes)
    }

    ghost predicate Valid()
      reads this
    {
      WellFormed(View())
    }

    constructor ()
      ensures View() == Empty() && Valid()
    {
      inserts, deletes := map[], map[];
      new;
      assert forall op :: op !in Ops(View());
    }

    method Apply(op: ListOp<T>) returns (r: Result<Apply, Error>)
      requires Valid()
      modifies this
      ensures Valid()
      ensures r.Ok? <==> ValidOp(op) && old(Fits(View(), op))
      ensures r.Ok? ==> Ops(View()) == old(Ops(View())) + iset{op}
      ensures r == Ok(Duplicate) <==> r.Ok? && old(op in Ops(View()))
      ensures r.Err? ==> View() == old(View())
      ensures match ApplyOp(old(View()), op)
              case Ok(outcome) => r == Ok(outcome.apply) && View() == outcome.state
              case Err(e) => r == Err(e)
    {
      ApplyAddsOperation(View(), op);
      if op.id.counter == 0 {
        return Err(ZeroCounter);
      }
      var existing := Lookup(View(), op.id);
      if existing.Some? {
        return if existing.value == op then Ok(Duplicate) else Err(Collision(op.id));
      }
      match op {
        case Insert(id, after, value) =>
          if after.Some? && after.value.counter == 0 {
            return Err(ZeroCounter);
          }
          if after == Some(id) {
            return Err(SelfAnchor);
          }
          inserts := inserts[id := Entry(after, value)];
        case Delete(id, target) =>
          if target.counter == 0 {
            return Err(ZeroCounter);
          }
          deletes := deletes[id := target];
      }
      r := Ok(Applied);
    }

    // Applies in order; on failure the operations before it stay applied.
    method ApplyEach(ops: seq<ListOp<T>>) returns (r: Result<(), Error>)
      requires Valid()
      modifies this
      ensures Valid()
      ensures match Fold(old(View()), ops)
              case Ok(state) => r == Ok(()) && View() == state
              case Err(e) => r == Err(e)
      ensures r.Err? ==>
                exists n :: 0 <= n < |ops| && Fold(old(View()), ops[..n]) == Ok(View()) && ApplyOp(View(), ops[n]) == Err(r.error)
    {
      var i := 0;
      assert ops[..0] == [];
      while i < |ops|
        invariant 0 <= i <= |ops|
        invariant Valid()
        invariant Fold(old(View()), ops[..i]) == Ok(View())
        invariant Fold(old(View()), ops) == Fold(View(), ops[i..])
      {
        assert ops[i..][1..] == ops[i + 1..];
        FoldNext(old(View()), ops, i);
        var applied := Apply(ops[i]);
        if applied.Err? {
          return Err(applied.error);
        }
        i := i + 1;
      }
      r := Ok(());
    }

    method Operations() returns (ops: seq<ListOp<T>>)
      requires Valid()
      ensures ListsExactly(ops, View())
    {
      SortedRetainedIsExact(View());
      ops := SortById(RetainedInMapOrder(View()));
    }

    // Merging stages a copy, so a collision leaves this list unchanged.
    method Merge(other: List<T>) returns (r: Result<(), Error>)
      requires Valid() && other.Valid()
      modifies this
      ensures Valid()
      ensures r.Ok? <==> Compatible(old(View()), old(other.View()))
      ensures r.Ok? ==> Ops(View()) == old(Ops(View())) + old(Ops(other.View()))
      ensures r.Err? ==> View() == old(View())
      ensures r.Err? ==> r.error.Collision? && FirstConflict(old(View()), old(other.View()), r.error.id)
    {
      var staged := new List<T>();
      staged.inserts, staged.deletes := inserts, deletes;
      var ops := other.Operations();
      FoldMerges(View(), other.View(), ops);
      if Fold(View(), ops).Err? {
        MergeReportsFirst(View(), other.View(), ops);
      }
      r := staged.ApplyEach(ops);
      if r.Ok? {
        inserts, deletes := staged.inserts, staged.deletes;
      }
    }

    method ToWireForm() returns (wire: Wire<T>)
      ensures wire == ToWire(View())
    {
      wire := ToWire(View());
    }

    // Reading a wire form succeeds exactly when its rows are valid and no two
    // of them share an identity without being equal.
    static method FromWireForm(wire: Wire<T>) returns (r: Result<List<T>, Error>)
      ensures r.Ok? <==> Deliverable(iset{}, WireOps(wire))
      ensures r.Ok? ==> fresh(r.value) && r.value.Valid()
      ensures r.Ok? ==> Ops(r.value.View()) == iset op | op in WireOps(wire)
      ensures r.Ok? ==> Fold(Empty(), WireOps(wire)) == Ok(r.value.View())
    {
      var list := new List<T>();
      FoldIsUnion(Empty<T>(), WireOps(wire));
      assert Ops(Empty<T>()) == iset{};
      var applied := list.ApplyEach(WireOps(wire));
      match applied {
        case Ok(_) => r := Ok(list);
        case Err(e) => r := Err(e);
      }
    }

    // The visible identities: exactly the unhidden insertions rooted in the
    // list, in root-path order, each once.
    method Visible() returns (ids: seq<OpId>)
      ensures ids == VisibleIds(View())
      ensures InPathOrder(inserts, ids)
      ensures forall id :: id in ids <==> ListOrder.Visible(View(), id)
    {
      var children := ChildrenIndex(inserts);
      var visiting;
      visiting, ids := Visit(None, children, deletes.Values, {}, [], inserts);
      VisibleIdsExact(View());
    }

    method Len() returns (n: nat)
      ensures n == |Contents(View())|
    {
      var ids := Visible();
      n := |ids|;
    }

    method InsertValue(actor: Actor, index: nat, value: T) returns (r: Result<ListOp<T>, Error>)
      requires Valid()
      modifies this, actor
      ensures Valid()
      ensures InsertAt(old(View()), old(actor.View()), index, value) == Edit(View(), actor.View(), r)
      ensures index > old(|VisibleIds(View())|) <==> r == Err(OutOfRange)
      ensures r.Err? ==> View() == old(View())
      ensures r.Ok? <==> old(index <= |VisibleIds(View())| && CanIssue(actor.View())
                             && Fits(View(), Insert(Id(actor.replica, actor.counter + 1), AnchorAt(View(), index), value)))
      ensures r.Ok? ==> Ops(View()) == old(Ops(View())) + iset{r.value}
    {
      InsertsExactly(View(), actor.View(), index, value);
      var visible := Visible();
      if index > |visible| {
        return Err(OutOfRange);
      }
      var after := if index == 0 then None else Some(visible[index - 1]);
      var id := actor.Next();
      if id.Err? {
        return Err(id.error);
      }
      var op := Insert(id.value, after, value);
      var applied := Apply(op);
      r := if applied.Ok? then Ok(op) else Err(applied.error);
    }

    method Remove(actor: Actor, index: nat) returns (r: Result<ListOp<T>, Error>)
      requires Valid()
      modifies this, actor
      ensures Valid()
      ensures RemoveAt(old(View()), old(actor.View()), index) == Edit(View(), actor.View(), r)
      ensures index >= old(|VisibleIds(View())|) <==> r == Err(OutOfRange)
      ensures r.Err? ==> View() == old(View())
      ensures r.Ok? <==> old(index < |VisibleIds(View())| && CanIssue(actor.View())
                             && Fits(View(), Delete(Id(actor.replica, actor.counter + 1), VisibleIds(View())[index])))
      ensures r.Ok? ==> Ops(View()) == old(Ops(View())) + iset{r.value}
    {
      RemovesExactly(View(), actor.View(), index);
      var visible := Visible();
      if index >= |visible| {
        return Err(OutOfRange);
      }
      var id := actor.Next();
      if id.Err? {
        return Err(id.error);
      }
      var op := Delete(id.value, visible[index]);
      var applied := Apply(op);
      r := if applied.Ok? then Ok(op) else Err(applied.error);
    }
  }

  class Text {
    const characters: List<char>

    ghost predicate Valid()
      reads this, characters
    {
      characters.Valid()
    }

    ghost function View(): State<char>
      reads this, characters
    {
      characters.View()
    }

    constructor ()
      ensures Valid() && fresh(characters) && View() == Empty()
    {
      characters := new List<char>();
    }

    // One list insertion per character, each one further right; a failure
    // leaves the earlier characters in place.
    method InsertEach(actor: Actor, index: nat, value: string) returns (r: Result<seq<ListOp<char>>, Error>)
      requires Valid()
      modifies characters, actor
      ensures Valid()
      ensures InsertAll(old(View()), old(actor.View()), index, value) == Edits(View(), actor.View(), r)
    {
      var ops, at, i := [], index, 0;
      ghost var all := InsertAll(View(), actor.View(), index, value);
      assert value[0..] == value;
      AfterNothing(all);
      while i < |value|
        invariant 0 <= i <= |value|
        invariant Valid()
        invariant at == index + i
        invariant all == After(ops, InsertAll(View(), actor.View(), at, value[i..]))
      {
        assert value[i..][1..] == value[i + 1..];
        var made := characters.InsertValue(actor, at, value[i]);
        if made.Err? {
          return Err(made.error);
        }
        AfterTwice(ops, [made.value], InsertAll(View(), actor.View(), at + 1, value[i + 1..]));
        ops := ops + [made.value];
        at := at + 1;
        i := i + 1;
      }
      assert ops + [] == ops;
      r := Ok(ops);
    }

    // With identities the text does not mention, the string stands exactly
    // before the character at the index if and only if that character does not
    // hang off the same anchor through an older sibling.
    method Insert(actor: Actor, index: nat, value: string) returns (r: Result<seq<ListOp<char>>, Error>)
      requires Valid()
      modifies characters, actor
      ensures Valid()
      ensures InsertAll(old(View()), old(actor.View()), index, value) == Edits(View(), actor.View(), r)
      ensures old(Unspent(actor.View(), View()) && actor.counter < actor.limit && index <= |VisibleIds(View())|) && value != [] ==>
                (VisibleIds(View())
                   == Placed(old(VisibleIds(View())), index, NewIds(old(actor.View()), Min(|value|, old(Remaining(actor.View())))))
                 <==> old(LandsAt(View(), actor.View(), index)))
      ensures value == [] ==> r == Ok([]) && View() == old(View()) && actor.View() == old(actor.View())
      ensures value != [] && index > old(|VisibleIds(View())|) ==>
                r == Err(OutOfRange) && View() == old(View()) && actor.View() == old(actor.View())
      ensures old(Unspent(actor.View(), View()) && actor.counter <= actor.limit && index <= |VisibleIds(View())|) ==>
                Typed(old(View()), old(actor.View()), value, Edits(View(), actor.View(), r))
      ensures old(Unspent(actor.View(), View()) && actor.counter <= actor.limit && index <= |VisibleIds(View())|
                  && LandsAt(View(), actor.View(), index) && |value| <= Remaining(actor.View()))
              ==> r.Ok? && Contents(View()) == Placed(old(Contents(View())), index, value)
      ensures old(Unspent(actor.View(), View()) && actor.counter <= actor.limit && index <= |VisibleIds(View())|) ==>
                exists at: seq<nat> ::
                  Spread(old(VisibleIds(View())), VisibleIds(View()), NewIds(old(actor.View()), Min(|value|, old(Remaining(actor.View())))),
                         index, old(Drift(View(), actor.View(), index, Min(|value|, Remaining(actor.View())))), at)
    {
      hide VisibleIds, Contents, LandsAt, InsertAll, Placed, Spread, Drift;
      ghost var st, author := View(), actor.View();
      WellFormedIds(st);
      hide WellFormed;
      r := InsertEach(actor, index, value);
      BeyondEnd(st, author, index, value);
      if Unspent(author, st) && author.counter <= author.limit && index <= |VisibleIds(st)| {
        TypesExactly(st, author, index, value);
      }
      if Unspent(author, st) && author.counter < author.limit && index <= |VisibleIds(st)| && value != [] {
        RunLandsExactly(st, author, index, value);
      }
      if Unspent(author, st) && author.counter <= author.limit && index <= |VisibleIds(st)| {
        ghost var at := RunSpreads(st, author, index, value);
        assert RunStands(st, author, index, value, at);
      }
      if Unspent(author, st) && author.counter <= author.limit && index <= |VisibleIds(st)|
         && LandsAt(st, author, index) && |value| <= Remaining(author)
      {
        InsertAllExact(st, author, index, value);
        assert value[..|value|] == value;
      }
    }

    method RemoveEach(actor: Actor, index: nat, count: nat) returns (r: Result<seq<ListOp<char>>, Error>)
      requires Valid()
      modifies characters, actor
      ensures Valid()
      ensures RemoveAll(old(View()), old(actor.View()), index, count) == Edits(View(), actor.View(), r)
    {
      hide RemoveAt, WellFormed, VisibleIds, After;
      var ops, left := [], count;
      ghost var all := RemoveAll(View(), actor.View(), index, count);
      AfterNothing(all);
      while left > 0
        invariant Valid()
        invariant all == After(ops, RemoveAll(View(), actor.View(), index, left))
      {
        ghost var st, author := View(), actor.View();
        var made := characters.Remove(actor, index);
        RemovalStep(ops, st, author, index, left);
        if made.Err? {
          return Err(made.error);
        }
        left := left - 1;
        ops := ops + [made.value];
      }
      AfterAll(ops, View(), actor.View());
      r := Ok(ops);
    }

    // The whole range is checked first; then exactly that slice disappears.
    method Delete(actor: Actor, index: nat, count: nat) returns (r: Result<seq<ListOp<char>>, Error>)
      requires Valid()
      modifies characters, actor
      ensures Valid()
      ensures DeleteRange(old(View()), old(actor.View()), index, count) == Edits(View(), actor.View(), r)
      ensures index + count > old(|VisibleIds(View())|) || index + count > U64_MAX ==>
                r == Err(OutOfRange) && View() == old(View()) && actor.View() == old(actor.View())
      ensures index + count <= old(|VisibleIds(View())|) && index + count <= U64_MAX
              && old(Unspent(actor.View(), View()) && actor.counter <= actor.limit) ==>
                && (r.Ok? <==> count <= old(Remaining(actor.View())))
                && Contents(View()) == Cut(old(Contents(View())), index, Min(count, old(Remaining(actor.View()))))
    {
      ghost var st, author := View(), actor.View();
      WellFormedIds(st);
      var length := characters.Len();
      if index + count > U64_MAX || index + count > length {
        return Err(OutOfRange);
      }
      r := RemoveEach(actor, index, count);
      if Unspent(author, st) && author.counter <= author.limit {
        DeletesExactly(st, author, index, count);
      }
    }

    method Merge(other: Text) returns (r: Result<(), Error>)
      requires Valid() && other.Valid()
      modifies characters
      ensures Valid()
      ensures r.Ok? <==> Compatible(old(View()), old(other.View()))
      ensures r.Ok? ==> Ops(View()) == old(Ops(View())) + old(Ops(other.View()))
      ensures r.Err? ==> View() == old(View())
      ensures r.Err? ==> r.error.Collision? && FirstConflict(old(View()), old(other.View()), r.error.id)
    {
      r := characters.Merge(other.characters);
    }
  }
}
