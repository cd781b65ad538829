// Local edits: an actor issues identities, a list insertion or removal uses
// them, and a text edit repeats one of those.
module ListEdits {
  import opened Wrappers
  import opened Ids
  import opened Sequences
  import opened ListState
  import opened Paths
  import opened ListWalk
  import opened ListOrder

  datatype ActorState = ActorState(replica: ReplicaId, counter: U64, limit: U64)

  datatype Issued = Issued(actor: ActorState, id: Result<OpId, Error>)

  function Issue(actor: ActorState): Issued {
    if actor.counter == actor.limit || actor.counter == U64_MAX then Issued(actor, Err(Exhausted))
    else
      var next: U64 := actor.counter + 1;
      Issued(actor.(counter := next), Ok(Id(actor.replica, next)))
  }

  datatype Edit<T> = Edit(state: State<T>, actor: ActorState, made: Result<ListOp<T>, Error>)

  // The identity is spent even if the operation is then refused.
  function Perform<T(==)>(st: State<T>, actor: ActorState, op: ListOp<T>): Edit<T> {
    match ApplyOp(st, op)
    case Ok(outcome) => Edit(outcome.state, actor, Ok(op))
    case Err(e) => Edit(st, actor, Err(e))
  }

  function InsertAt<T(==)>(st: State<T>, actor: ActorState, index: nat, value: T): Edit<T> {
    if index > |VisibleIds(st)| then Edit(st, actor, Err(OutOfRange))
    else
      match Issue(actor)
      case Issued(_, Err(e)) => Edit(st, actor, Err(e))
      case Issued(next, Ok(id)) => Perform(st, next, Insert(id, AnchorAt(st, index), value))
  }

  function RemoveAt<T(==)>(st: State<T>, actor: ActorState, index: nat): Edit<T> {
    if index >= |VisibleIds(st)| then Edit(st, actor, Err(OutOfRange))
    else
      match Issue(actor)
      case Issued(_, Err(e)) => Edit(st, actor, Err(e))
      case Issued(next, Ok(id)) => Perform(st, next, Delete(id, VisibleIds(st)[index]))
  }

  datatype Edits<T> = Edits(state: State<T>, actor: ActorState, made: Result<seq<ListOp<T>>, Error>)

  // The outcome of a run of edits whose first operations were `ops`.
  function After<T>(ops: seq<ListOp<T>>, rest: Edits<T>): Edits<T> {
    Edits(rest.state, rest.actor, if rest.made.Ok? then Ok(ops + rest.made.value) else Err(rest.made.error))
  }

  lemma AfterNothing<T>(e: Edits<T>)
    ensures After([], e) == e
  {
    if e.made.Ok? {
      assert [] + e.made.value == e.made.value;
    }
  }

  lemma AfterAll<T>(ops: seq<ListOp<T>>, st: State<T>, actor: ActorState)
    ensures After(ops, Edits(st, actor, Ok([]))) == Edits(st, actor, Ok(ops))
  {
    assert ops + [] == ops;
  }

  lemma AfterTwice<T>(ops: seq<ListOp<T>>, more: seq<ListOp<T>>, e: Edits<T>)
    ensures After(ops, After(more, e)) == After(ops + more, e)
  {
    if e.made.Ok? {
      assert ops + (more + e.made.value) == ops + more + e.made.value;
    }
  }

  // Text insertion: one list insertion per character, each one further right.
  function InsertAll<T(==)>(st: State<T>, actor: ActorState, index: nat, values: seq<T>): Edits<T>
    decreases |values|
  {
    if values == [] then Edits(st, actor, Ok([]))
    else
      match InsertAt(st, actor, index, values[0])
      case Edit(state, next, Err(e)) => Edits(state, next, Err(e))
      case Edit(state, next, Ok(op)) =>
        After([op], InsertAll(state, next, index + 1, values[1..]))
  }

  function RemoveAll<T(==)>(st: State<T>, actor: ActorState, index: nat, count: nat): Edits<T>
    decreases count
  {
    if count == 0 then Edits(st, actor, Ok([]))
    else
      match RemoveAt(st, actor, index)
      case Edit(state, next, Err(e)) => Edits(state, next, Err(e))
      case Edit(state, next, Ok(op)) =>
        After([op], RemoveAll(state, next, index, count - 1))
  }

  // One turn of the removal loop, seen from the operations made so far.
  lemma RemovalStep<T>(ops: seq<ListOp<T>>, st: State<T>, actor: ActorState, index: nat, left: nat)
    requires left > 0
    ensures var all := After(ops, RemoveAll(st, actor, index, left));
            match RemoveAt(st, actor, index)
            case Edit(state, next, Err(e)) => all == Edits(state, next, Err(e))
            case Edit(state, next, Ok(op)) => all == After(ops + [op], RemoveAll(state, next, index, left - 1))
  {
    match RemoveAt(st, actor, index)
    case Edit(state, next, Err(e)) =>
    case Edit(state, next, Ok(op)) =>
      AfterTwice(ops, [op], RemoveAll(state, next, index, left - 1));
  }

  // Text deletion checks the whole range first.
  function DeleteRange<T(==)>(st: State<T>, actor: ActorState, index: nat, count: nat): Edits<T> {
    if index + count > U64_MAX || index + count > |VisibleIds(st)| then Edits(st, actor, Err(OutOfRange))
    else RemoveAll(st, actor, index, count)
  }

  // ---- what the edits do to the visible contents ----

  function Contents<T>(st: State<T>): (r: seq<T>)
    ensures |r| == |VisibleIds(st)|
  {
    VisibleRetained(st);
    ValuesOf(st.inserts, VisibleIds(st))
  }

  ghost predicate AllRetained<T>(ins: map<OpId, Entry<T>>, ids: seq<OpId>) {
    forall i :: 0 <= i < |ids| ==> ids[i] in ins
  }

  function ValuesOf<T>(ins: map<OpId, Entry<T>>, ids: seq<OpId>): (r: seq<T>)
    requires AllRetained(ins, ids)
    ensures |r| == |ids|
    ensures forall i :: 0 <= i < |r| ==> r[i] == ins[ids[i]].value
  {
    seq(|ids|, i requires 0 <= i < |ids| => ins[ids[i]].value)
  }

  lemma VisibleRetained<T>(st: State<T>)
    ensures AllRetained(st.inserts, VisibleIds(st))
  {
    VisibleIdsExact(st);
    var v := VisibleIds(st);
    forall i | 0 <= i < |v| ensures v[i] in st.inserts {
      assert Tip(PathOf(st.inserts, v[i])) == Some(v[i]);
    }
  }

  // No identity the actor can still issue is mentioned by the list, which the
  // durable reservation of its counters provides.
  ghost predicate Unspent<T>(actor: ActorState, st: State<T>) {
    forall id: OpId {:trigger Mentioned(st, id)} ::
      Mentioned(st, id) && id.replica == actor.replica ==> id.counter <= actor.counter || actor.limit < id.counter
  }

  // How many identities are left.
  function Remaining(actor: ActorState): nat
    requires actor.counter <= actor.limit
  {
    actor.limit - actor.counter
  }

  lemma MentionedByInsert<T>(st: State<T>, n: OpId, after: Option<OpId>, value: T, id: OpId)
    requires Mentioned(WithInsert(st, n, after, value), id)
    ensures Mentioned(st, id) || id == n || Some(id) == after
  {
    assert Hidden(WithInsert(st, n, after, value)) == Hidden(st);
  }

  lemma MentionedByDelete<T>(st: State<T>, d: OpId, target: OpId, id: OpId)
    requires d !in st.deletes
    requires Mentioned(WithDelete(st, d, target), id)
    ensures Mentioned(st, id) || id == d || id == target
  {
    HiddenWithDelete(st, d, target);
  }

  lemma InsertKeepsUnspent<T>(st: State<T>, actor: ActorState, after: Option<OpId>, value: T)
    requires Unspent(actor, st) && actor.counter < actor.limit
    requires after.Some? ==> Mentioned(st, after.value)
    ensures var n := Id(actor.replica, actor.counter + 1);
            && !Mentioned(st, n)
            && Unspent(actor.(counter := actor.counter + 1), WithInsert(st, n, after, value))
  {
    var n := Id(actor.replica, actor.counter + 1);
    var next := WithInsert(st, n, after, value);
    forall id: OpId | Mentioned(next, id) && id.replica == actor.replica
      ensures id.counter <= actor.counter + 1 || actor.limit < id.counter
    {
      MentionedByInsert(st, n, after, value, id);
    }
  }

  lemma DeleteKeepsUnspent<T>(st: State<T>, actor: ActorState, target: OpId)
    requires Unspent(actor, st) && actor.counter < actor.limit
    requires Mentioned(st, target)
    ensures var d := Id(actor.replica, actor.counter + 1);
            && !Mentioned(st, d)
            && Unspent(actor.(counter := actor.counter + 1), WithDelete(st, d, target))
  {
    var d := Id(actor.replica, actor.counter + 1);
    assert !Mentioned(st, d);
    var next := WithDelete(st, d, target);
    forall id: OpId | Mentioned(next, id) && id.replica == actor.replica
      ensures id.counter <= actor.counter + 1 || actor.limit < id.counter
    {
      MentionedByDelete(st, d, target, id);
    }
  }

  // The part of well-formedness that the edits rely on.
  ghost predicate SoundIds<T>(st: State<T>) {
    && st.inserts.Keys !! st.deletes.Keys
    && forall id :: id in st.inserts ==> id.counter != 0
  }

  lemma WellFormedIds<T(!new)>(st: State<T>)
    requires WellFormed(st)
    ensures SoundIds(st)
  {
    forall id | id in st.inserts ensures id.counter != 0 {
      assert Lookup(st, id).value in Ops(st);
    }
  }

  lemma ValuesPlaced<T>(ins: map<OpId, Entry<T>>, v: seq<OpId>, k: nat, n: OpId, entry: Entry<T>)
    requires AllRetained(ins, v) && n !in ins && k <= |v|
    ensures AllRetained(ins[n := entry], Placed(v, k, [n]))
    ensures ValuesOf(ins[n := entry], Placed(v, k, [n])) == Placed(ValuesOf(ins, v), k, [entry.value])
  {
    hide Placed;
    PlacedOne(v, k, n);
    PlacedOne(ValuesOf(ins, v), k, entry.value);
    forall i | 0 <= i <= |v|
      ensures Placed(v, k, [n])[i] in ins[n := entry]
      ensures Placed(ValuesOf(ins, v), k, [entry.value])[i] == ins[n := entry][Placed(v, k, [n])[i]].value
    {
      PlacedAt(v, k, n, i);
      PlacedAt(ValuesOf(ins, v), k, entry.value, i);
    }
  }

  lemma ContentsPlaced<T>(st: State<T>, n: OpId, after: Option<OpId>, value: T, k: nat)
    requires n !in st.inserts && k <= |VisibleIds(st)|
    requires VisibleIds(WithInsert(st, n, after, value)) == Placed(VisibleIds(st), k, [n])
    ensures Contents(WithInsert(st, n, after, value)) == Placed(Contents(st), k, [value])
  {
    hide VisibleIds, Placed;
    VisibleRetained(st);
    ValuesPlaced(st.inserts, VisibleIds(st), k, n, Entry(after, value));
  }

  lemma ValuesCut<T>(ins: map<OpId, Entry<T>>, v: seq<OpId>, index: nat)
    requires AllRetained(ins, v) && index < |v|
    ensures AllRetained(ins, Cut(v, index, 1))
    ensures ValuesOf(ins, Cut(v, index, 1)) == Cut(ValuesOf(ins, v), index, 1)
  {
    hide Cut;
    CutOne(v, index);
    CutOne(ValuesOf(ins, v), index);
  }

  lemma ContentsCut<T>(st: State<T>, d: OpId, index: nat)
    requires d !in st.deletes && index < |VisibleIds(st)|
    ensures var next := WithDelete(st, d, VisibleIds(st)[index]);
            && VisibleIds(next) == Cut(VisibleIds(st), index, 1)
            && Contents(next) == Cut(Contents(st), index, 1)
  {
    hide VisibleIds, Cut;
    VisibleRetained(st);
    RemovalHides(st, index, d);
    ValuesCut(st.inserts, VisibleIds(st), index);
  }

  // The actor's next identity, while its reservation lasts.
  function NextId(actor: ActorState): OpId
    requires actor.counter < actor.limit
  {
    Id(actor.replica, actor.counter + 1)
  }

  // The identities the actor issues next.
  function NewIds(actor: ActorState, n: nat): (r: seq<OpId>)
    requires actor.counter + n <= actor.limit
    ensures |r| == n
    ensures forall i :: 0 <= i < n ==> r[i] == Id(actor.replica, actor.counter + 1 + i)
  {
    seq(n, i requires 0 <= i < n => Id(actor.replica, actor.counter + 1 + i))
  }

  lemma NewIdsStep(actor: ActorState, n: nat)
    requires 0 < n && actor.counter + n <= actor.limit
    ensures NewIds(actor, n)[0] == NextId(actor)
    ensures NewIds(actor, n)[1..] == NewIds(Advanced(actor, 1), n - 1)
    ensures NewIds(actor, n)[1..][..n - 1] == NewIds(Advanced(actor, 1), n - 1)
    ensures NewIds(actor, n)[..n] == NewIds(actor, n)
  {}

  function Advanced(actor: ActorState, n: nat): ActorState
    requires actor.counter + n <= actor.limit
  {
    actor.(counter := actor.counter + n)
  }

  // An edit session in good standing.
  ghost predicate Ready<T>(st: State<T>, actor: ActorState) {
    && SoundIds(st)
    && Unspent(actor, st)
    && actor.counter <= actor.limit
  }

  lemma InsertAtMakes<T>(st: State<T>, actor: ActorState, index: nat, value: T)
    requires Ready(st, actor) && actor.counter < actor.limit
    requires index <= |VisibleIds(st)|
    ensures InsertAt(st, actor, index, value)
         == Edit(WithInsert(st, NextId(actor), AnchorAt(st, index), value), Advanced(actor, 1),
                 Ok(Insert(NextId(actor), AnchorAt(st, index), value)))
    ensures !Mentioned(st, NextId(actor))
    ensures Ready(WithInsert(st, NextId(actor), AnchorAt(st, index), value), Advanced(actor, 1))
  {
    VisibleRetained(st);
    InsertKeepsUnspent(st, actor, AnchorAt(st, index), value);
  }

  // One insertion under an identity the list does not mention.
  lemma InsertAtEffect<T>(st: State<T>, actor: ActorState, index: nat, value: T) returns (k: nat)
    requires Ready(st, actor) && actor.counter < actor.limit
    requires index <= |VisibleIds(st)|
    ensures AnchorRooted(st, AnchorAt(st, index))
    ensures InsertAt(st, actor, index, value)
         == Edit(WithInsert(st, NextId(actor), AnchorAt(st, index), value), Advanced(actor, 1),
                 Ok(Insert(NextId(actor), AnchorAt(st, index), value)))
    ensures var n, v, w := NextId(actor), VisibleIds(st), InsertAt(st, actor, index, value).state;
            && Ready(w, Advanced(actor, 1))
            && index <= k <= |v|
            && VisibleIds(w) == Placed(v, k, [n])
            && Contents(w) == Placed(Contents(st), k, [value])
            && (forall j :: index <= j < |v| ==> (j < k <==> Overtaken(st, index, j, n)))
            && (k == index <==> !Overtaken(st, index, index, n))
            && (forall x :: x in w.inserts ==> w.inserts[x].after != Some(n))
  {
    hide InsertAt, VisibleIds, Contents, Placed, Overtaken, Mentioned, Unspent, AnchorAt;
    var n := NextId(actor);
    var after := AnchorAt(st, index);
    InsertAtMakes(st, actor, index, value);
    k := InsertionAtIndex(st, index, n, value);
    UnmentionedAbsent(st, n);
    ContentsPlaced(st, n, after, value, k);
    LeafHasNoChildren(st, n, after, value);
  }

  lemma UnmentionedAbsent<T>(st: State<T>, n: OpId)
    requires !Mentioned(st, n)
    ensures n !in st.inserts && n !in st.deletes
  {}

  lemma LeafHasNoChildren<T>(st: State<T>, n: OpId, after: Option<OpId>, value: T)
    requires !Mentioned(st, n) && AnchorRooted(st, after)
    ensures var w := WithInsert(st, n, after, value);
            forall x :: x in w.inserts ==> w.inserts[x].after != Some(n)
  {
    if after.Some? {
      assert Tip(PathOf(st.inserts, after.value)) == after;
      assert after.value in st.inserts;
    }
  }

  lemma RemoveAtEffect<T>(st: State<T>, actor: ActorState, index: nat)
    requires Ready(st, actor) && actor.counter < actor.limit
    requires index < |VisibleIds(st)|
    ensures RemoveAt(st, actor, index)
         == Edit(WithDelete(st, NextId(actor), VisibleIds(st)[index]), Advanced(actor, 1),
                 Ok(Delete(NextId(actor), VisibleIds(st)[index])))
    ensures var v, w := VisibleIds(st), RemoveAt(st, actor, index).state;
            && Ready(w, Advanced(actor, 1))
            && VisibleIds(w) == Cut(v, index, 1)
            && Contents(w) == Cut(Contents(st), index, 1)
  {
    VisibleRetained(st);
    DeleteKeepsUnspent(st, actor, VisibleIds(st)[index]);
    ContentsCut(st, NextId(actor), index);
  }

  function Min(a: nat, b: nat): nat {
    if a <= b then a else b
  }

  ghost predicate LandsAt<T>(st: State<T>, actor: ActorState, index: nat)
    requires index <= |VisibleIds(st)|
  {
    && AnchorRooted(st, AnchorAt(st, index))
    && (actor.counter < actor.limit ==> !Overtaken(st, index, index, NextId(actor)))
  }

  // The outcome of an edit that fits `fit` of `wanted` operations.
  ghost predicate Fitted<T>(actor: ActorState, wanted: nat, e: Edits<T>)
    requires actor.counter <= actor.limit
  {
    var fit := Min(wanted, Remaining(actor));
    && e.actor == Advanced(actor, fit)
    && (e.made.Ok? <==> fit == wanted)
    && (e.made.Err? ==> e.made.error == Exhausted)
    && Ready(e.state, e.actor)
  }

  // Typing a run of text: unless its first character is overtaken, the run
  // lands as one block exactly at the index; if the reservation runs out, the
  // part that fit stays.
  lemma {:induction false} InsertAllExact<T>(st: State<T>, actor: ActorState, index: nat, values: seq<T>)
    requires Ready(st, actor)
    requires index <= |VisibleIds(st)| && LandsAt(st, actor, index)
    ensures var e := InsertAll(st, actor, index, values);
            && Fitted(actor, |values|, e)
            && Contents(e.state) == Placed(Contents(st), index, values[..Min(|values|, Remaining(actor))])
            && VisibleIds(e.state) == Placed(VisibleIds(st), index, NewIds(actor, Min(|values|, Remaining(actor))))
    decreases |values|
  {
    hide VisibleIds, Contents, Placed, LandsAt, Ready, InsertAt, InsertAll, Fitted, AnchorAt;
    if values == [] || actor.counter >= actor.limit {
      NothingFits(st, actor, index, values);
    } else {
      FirstLands(st, actor, index, values[0]);
      var e := InsertAt(st, actor, index, values[0]);
      InsertAllExact(e.state, e.actor, index + 1, values[1..]);
      FittedOnce(st, actor, index, values);
      var fit := Min(|values|, Remaining(actor));
      PlacedRun(Contents(st), index, values, fit);
      NewIdsStep(actor, fit);
      PlacedRun(VisibleIds(st), index, NewIds(actor, fit), fit);
    }
  }

  lemma NothingFits<T>(st: State<T>, actor: ActorState, index: nat, values: seq<T>)
    requires Ready(st, actor) && index <= |VisibleIds(st)|
    requires values == [] || actor.counter >= actor.limit
    ensures var e := InsertAll(st, actor, index, values);
            && Fitted(actor, |values|, e)
            && Contents(e.state) == Placed(Contents(st), index, values[..Min(|values|, Remaining(actor))])
            && VisibleIds(e.state) == Placed(VisibleIds(st), index, NewIds(actor, Min(|values|, Remaining(actor))))
  {
    hide VisibleIds, Placed;
    PlacedNothing(Contents(st), index);
    PlacedNothing(VisibleIds(st), index);
    assert values[..0] == [];
  }

  // One character lands at the index, and the next one may follow it.
  lemma FirstLands<T>(st: State<T>, actor: ActorState, index: nat, value: T)
    requires Ready(st, actor) && actor.counter < actor.limit
    requires index <= |VisibleIds(st)| && LandsAt(st, actor, index)
    ensures var e := InsertAt(st, actor, index, value);
            && e.made.Ok? && e.actor == Advanced(actor, 1)
            && Ready(e.state, e.actor)
            && index + 1 <= |VisibleIds(e.state)| && LandsAt(e.state, e.actor, index + 1)
            && Contents(e.state) == Placed(Contents(st), index, [value])
            && VisibleIds(e.state) == Placed(VisibleIds(st), index, [NextId(actor)])
  {
    hide VisibleIds, Contents, Placed, Ready, InsertAt, AnchorAt, Overtaken;
    var k := InsertAtEffect(st, actor, index, value);
    var e := InsertAt(st, actor, index, value);
    PlacedAt(VisibleIds(st), index, NextId(actor), index);
    NextLandsToo(e.state, e.actor, index + 1, NextId(actor));
  }

  lemma FittedOnce<T>(st: State<T>, actor: ActorState, index: nat, values: seq<T>)
    requires actor.counter < actor.limit && values != []
    requires InsertAt(st, actor, index, values[0]).made.Ok?
    requires InsertAt(st, actor, index, values[0]).actor == Advanced(actor, 1)
    requires var e := InsertAt(st, actor, index, values[0]);
             Fitted(e.actor, |values| - 1, InsertAll(e.state, e.actor, index + 1, values[1..]))
    ensures Fitted(actor, |values|, InsertAll(st, actor, index, values))
    ensures var e := InsertAt(st, actor, index, values[0]);
            InsertAll(st, actor, index, values).state == InsertAll(e.state, e.actor, index + 1, values[1..]).state
  {}

  lemma NextLandsToo<T>(st: State<T>, actor: ActorState, index: nat, leaf: OpId)
    requires 0 < index <= |VisibleIds(st)| && VisibleIds(st)[index - 1] == leaf
    requires forall x :: x in st.inserts ==> st.inserts[x].after != Some(leaf)
    ensures LandsAt(st, actor, index)
  {
    AnchorAtRooted(st, index);
    if actor.counter < actor.limit {
      AfterLeafNotOvertaken(st, index, leaf, NextId(actor));
    }
  }

  // Typing never moves what stands before the index.
  lemma {:induction false} InsertAllKeepsFront<T>(st: State<T>, actor: ActorState, index: nat, values: seq<T>)
    requires Ready(st, actor) && index <= |VisibleIds(st)|
    ensures var v := VisibleIds(InsertAll(st, actor, index, values).state);
            index <= |v| && v[..index] == VisibleIds(st)[..index]
    decreases |values|
  {
    hide VisibleIds, Contents, Ready, InsertAt, Placed, AnchorAt, Overtaken;
    if values != [] && actor.counter < actor.limit {
      var k := InsertAtEffect(st, actor, index, values[0]);
      var e := InsertAt(st, actor, index, values[0]);
      FrontOfPlaced(VisibleIds(st), k, NextId(actor), index);
      InsertAllKeepsFront(e.state, e.actor, index + 1, values[1..]);
      assert VisibleIds(InsertAll(st, actor, index, values).state)[..index + 1][..index]
          == VisibleIds(InsertAll(st, actor, index, values).state)[..index];
    } else {
      NothingFits(st, actor, index, values);
      FrontOfNothing(VisibleIds(st), index);
    }
  }

  lemma FrontOfPlaced(v: seq<OpId>, k: nat, n: OpId, index: nat)
    requires index <= k <= |v|
    ensures |Placed(v, k, [n])| == |v| + 1
    ensures Placed(v, k, [n])[..index + 1][..index] == v[..index]
    ensures index < k ==> Placed(v, k, [n])[..index + 1] == v[..index + 1]
  {
    PlacedOne(v, k, n);
  }

  lemma FrontOfNothing(v: seq<OpId>, index: nat)
    requires index <= |v|
    ensures Placed(v, index, []) == v
  {
    PlacedNothing(v, index);
  }

  // If the first character is overtaken, the element at the index stays there.
  lemma OvertakenKeepsElement<T>(st: State<T>, actor: ActorState, index: nat, values: seq<T>)
    requires Ready(st, actor) && actor.counter < actor.limit && values != []
    requires index <= |VisibleIds(st)| && !LandsAt(st, actor, index)
    ensures var v := VisibleIds(InsertAll(st, actor, index, values).state);
            index < |VisibleIds(st)| && index < |v| && v[index] == VisibleIds(st)[index]
  {
    hide VisibleIds, Contents, Ready, InsertAt, Placed, AnchorAt, Overtaken;
    var k := InsertAtEffect(st, actor, index, values[0]);
    var e := InsertAt(st, actor, index, values[0]);
    FrontOfPlaced(VisibleIds(st), k, NextId(actor), index);
    InsertAllKeepsFront(e.state, e.actor, index + 1, values[1..]);
    var v, before := VisibleIds(InsertAll(st, actor, index, values).state), VisibleIds(st);
    assert v[index] == v[..index + 1][index] && before[index] == before[..index + 1][index];
  }

  // A typed run stands as one block at the index if and only if no older
  // sibling of its first character stands there.
  lemma RunLandsExactly<T>(st: State<T>, actor: ActorState, index: nat, values: seq<T>)
    requires Ready(st, actor) && actor.counter < actor.limit && values != []
    requires index <= |VisibleIds(st)|
    ensures VisibleIds(InsertAll(st, actor, index, values).state)
              == Placed(VisibleIds(st), index, NewIds(actor, Min(|values|, Remaining(actor))))
            <==> LandsAt(st, actor, index)
    ensures !LandsAt(st, actor, index) ==>
              var v := VisibleIds(InsertAll(st, actor, index, values).state);
              index < |VisibleIds(st)| && index < |v| && v[index] == VisibleIds(st)[index]
  {
    hide VisibleIds, Contents, InsertAll, LandsAt, InsertAt, Ready;
    if LandsAt(st, actor, index) {
      InsertAllExact(st, actor, index, values);
    } else {
      OvertakenKeepsElement(st, actor, index, values);
      NextIsNew(st, actor, index);
      assert Placed(VisibleIds(st), index, NewIds(actor, Min(|values|, Remaining(actor))))[index] == NextId(actor);
    }
  }

  lemma NextIsNew<T>(st: State<T>, actor: ActorState, index: nat)
    requires Ready(st, actor) && actor.counter < actor.limit && index < |VisibleIds(st)|
    ensures VisibleIds(st)[index] != NextId(actor)
  {
    hide VisibleIds;
    VisibleRetained(st);
    assert VisibleIds(st)[index] in st.inserts;
    assert Mentioned(st, VisibleIds(st)[index]);
  }

  // Typing at the end always concatenates.
  lemma AppendConcatenates<T>(st: State<T>, actor: ActorState, values: seq<T>)
    requires Ready(st, actor) && |values| <= Remaining(actor)
    ensures var e := InsertAll(st, actor, |VisibleIds(st)|, values);
            e.made.Ok? && Contents(e.state) == Contents(st) + values
  {
    var n := |VisibleIds(st)|;
    AnchorAtRooted(st, n);
    InsertAllExact(st, actor, n, values);
    assert values[..|values|] == values;
    PlacedLast(Contents(st), values);
  }

  // Deleting a range takes out exactly that slice; if the reservation runs
  // out, exactly the part of it that the identities covered.
  lemma {:induction false} RemoveAllExact<T>(st: State<T>, actor: ActorState, index: nat, count: nat)
    requires Ready(st, actor)
    requires index + count <= |VisibleIds(st)|
    ensures var e := RemoveAll(st, actor, index, count);
            && Fitted(actor, count, e)
            && Contents(e.state) == Cut(Contents(st), index, Min(count, Remaining(actor)))
    decreases count
  {
    hide VisibleIds, Contents, Cut, Ready, RemoveAt, RemoveAll, Fitted;
    if count == 0 || actor.counter >= actor.limit {
      NothingRemoved(st, actor, index, count);
    } else {
      RemoveAtEffect(st, actor, index);
      var e := RemoveAt(st, actor, index);
      CutOne(VisibleIds(st), index);
      RemoveAllExact(e.state, e.actor, index, count - 1);
      FittedOnceRemoved(st, actor, index, count);
      CutRun(Contents(st), index, Min(count, Remaining(actor)));
    }
  }

  lemma NothingRemoved<T>(st: State<T>, actor: ActorState, index: nat, count: nat)
    requires Ready(st, actor) && index + count <= |VisibleIds(st)|
    requires count == 0 || actor.counter >= actor.limit
    ensures var e := RemoveAll(st, actor, index, count);
            && Fitted(actor, count, e)
            && Contents(e.state) == Cut(Contents(st), index, Min(count, Remaining(actor)))
  {
    hide VisibleIds, Cut;
    CutNothing(Contents(st), index);
  }

  lemma FittedOnceRemoved<T>(st: State<T>, actor: ActorState, index: nat, count: nat)
    requires actor.counter < actor.limit && count > 0
    requires RemoveAt(st, actor, index).made.Ok?
    requires RemoveAt(st, actor, index).actor == Advanced(actor, 1)
    requires var e := RemoveAt(st, actor, index);
             Fitted(e.actor, count - 1, RemoveAll(e.state, e.actor, index, count - 1))
    ensures Fitted(actor, count, RemoveAll(st, actor, index, count))
    ensures var e := RemoveAt(st, actor, index);
            RemoveAll(st, actor, index, count).state == RemoveAll(e.state, e.actor, index, count - 1).state
  {}

  // ---- which edits are made ----

  predicate CanIssue(actor: ActorState) {
    actor.counter != actor.limit && actor.counter < U64_MAX
  }

  // An edit within the list spends one identity, and is made unless that names
  // another operation already; one out of range spends nothing.
  ghost predicate MadeExactly<T(!new)>(st: State<T>, actor: ActorState, inRange: bool, op: ListOp<T>, e: Edit<T>) {
    && (e.made.Ok? <==> inRange && CanIssue(actor) && Fits(st, op))
    && (e.made.Ok? ==> e.made.value == op && WellFormed(e.state) && Ops(e.state) == Ops(st) + iset{op})
    && (e.made.Err? ==> e.state == st)
    && e.actor == (if inRange && CanIssue(actor) then actor.(counter := actor.counter + 1) else actor)
    && (e.made == Err(OutOfRange) <==> !inRange)
  }

  lemma InsertsExactly<T(!new)>(st: State<T>, actor: ActorState, index: nat, value: T)
    requires WellFormed(st)
    ensures var id := Id(actor.replica, if CanIssue(actor) then actor.counter + 1 else 0);
            MadeExactly(st, actor, index <= |VisibleIds(st)|,
                        Insert(id, if index <= |VisibleIds(st)| then AnchorAt(st, index) else None, value), InsertAt(st, actor, index, value))
  {
    hide VisibleIds;
    var e := InsertAt(st, actor, index, value);
    if index <= |VisibleIds(st)| && CanIssue(actor) {
      var op := Insert(Id(actor.replica, actor.counter + 1), AnchorAt(st, index), value);
      VisibleRetained(st);
      WellFormedIds(st);
      ApplyAddsOperation(st, op);
      assert e.made.Err? ==> e.made.error != OutOfRange;
    }
  }

  lemma RemovesExactly<T(!new)>(st: State<T>, actor: ActorState, index: nat)
    requires WellFormed(st)
    ensures var id := Id(actor.replica, if CanIssue(actor) then actor.counter + 1 else 0);
            MadeExactly(st, actor, index < |VisibleIds(st)|,
                        Delete(id, if index < |VisibleIds(st)| then VisibleIds(st)[index] else id), RemoveAt(st, actor, index))
  {
    hide VisibleIds;
    var e := RemoveAt(st, actor, index);
    if index < |VisibleIds(st)| && CanIssue(actor) {
      VisibleRetained(st);
      WellFormedIds(st);
      ApplyAddsOperation(st, Delete(Id(actor.replica, actor.counter + 1), VisibleIds(st)[index]));
      assert e.made.Err? ==> e.made.error != OutOfRange;
    }
  }

  // A range is deleted, as far as identities last, exactly if all of it is
  // visible; otherwise nothing is touched and no identity is spent.
  lemma DeletesExactly<T>(st: State<T>, actor: ActorState, index: nat, count: nat)
    requires Ready(st, actor)
    ensures var e := DeleteRange(st, actor, index, count);
            if index + count <= |VisibleIds(st)| && index + count <= U64_MAX then
              Fitted(actor, count, e) && Contents(e.state) == Cut(Contents(st), index, Min(count, Remaining(actor)))
            else e == Edits(st, actor, Err(OutOfRange))
  {
    hide VisibleIds, Contents, Cut, Ready, RemoveAll, Fitted;
    if index + count <= |VisibleIds(st)| {
      RemoveAllExact(st, actor, index, count);
    }
  }

  // Wherever a run lands, its characters are inserted one by one under the next
  // identities, as far as those last, and nothing else changes.
  ghost predicate Typed<T(!new)>(st: State<T>, actor: ActorState, values: seq<T>, e: Edits<T>)
    requires actor.counter <= actor.limit
  {
    var ids := NewIds(actor, Min(|values|, Remaining(actor)));
    && Fitted(actor, |values|, e)
    && e.state.deletes == st.deletes
    && InsertsRun(st.inserts, e.state.inserts, ids, values)
    && (e.made.Ok? ==> MakesRun(e.made.value, ids, values))
  }

  ghost predicate InsertsRun<T(!new)>(before: map<OpId, Entry<T>>, after: map<OpId, Entry<T>>, ids: seq<OpId>, values: seq<T>)
    requires |ids| <= |values|
  {
    && (forall id :: id in after <==> id in before || id in ids)
    && (forall id :: id in before ==> id in after && after[id] == before[id])
    && (forall i :: 0 <= i < |ids| ==> ids[i] in after && after[ids[i]].value == values[i])
  }

  predicate MakesRun<T(==)>(ops: seq<ListOp<T>>, ids: seq<OpId>, values: seq<T>) {
    && |ops| == |ids| == |values|
    && forall i :: 0 <= i < |ops| ==> ops[i].Insert? && ops[i].id == ids[i] && ops[i].value == values[i]
  }

  // An empty run changes nothing, and any other beyond the end is refused.
  lemma BeyondEnd<T>(st: State<T>, actor: ActorState, index: nat, values: seq<T>)
    ensures values == [] ==> InsertAll(st, actor, index, values) == Edits(st, actor, Ok([]))
    ensures values != [] && index > |VisibleIds(st)| ==> InsertAll(st, actor, index, values) == Edits(st, actor, Err(OutOfRange))
  {
    hide VisibleIds;
  }

  lemma {:induction false} TypesExactly<T(!new)>(st: State<T>, actor: ActorState, index: nat, values: seq<T>)
    requires Ready(st, actor) && index <= |VisibleIds(st)|
    ensures Typed(st, actor, values, InsertAll(st, actor, index, values))
    decreases |values|
  {
    hide VisibleIds, Contents, Ready, InsertAt, Placed, AnchorAt, Overtaken;
    if values != [] && actor.counter < actor.limit {
      var k := InsertAtEffect(st, actor, index, values[0]);
      InsertAtMakes(st, actor, index, values[0]);
      UnmentionedAbsent(st, NextId(actor));
      var e := InsertAt(st, actor, index, values[0]);
      FrontOfPlaced(VisibleIds(st), k, NextId(actor), index);
      TypesExactly(e.state, e.actor, index + 1, values[1..]);
      TypedOnce(st, actor, index, values);
    } else {
      NothingFits(st, actor, index, values);
      NoneTyped(st, actor, index, values);
    }
  }

  lemma NoneTyped<T(!new)>(st: State<T>, actor: ActorState, index: nat, values: seq<T>)
    requires actor.counter <= actor.limit && index <= |VisibleIds(st)| && (values == [] || actor.counter >= actor.limit)
    requires Fitted(actor, |values|, InsertAll(st, actor, index, values))
    ensures Typed(st, actor, values, InsertAll(st, actor, index, values))
  {
    hide VisibleIds, Fitted, AnchorAt;
    assert InsertAll(st, actor, index, values).state == st;
    assert values != [] ==> InsertAll(st, actor, index, values).made.Err?;
  }

  lemma InsertAllOnce<T>(st: State<T>, actor: ActorState, index: nat, values: seq<T>)
    requires values != [] && InsertAt(st, actor, index, values[0]).made.Ok?
    ensures var Edit(state, next, made) := InsertAt(st, actor, index, values[0]);
            InsertAll(st, actor, index, values) == After([made.value], InsertAll(state, next, index + 1, values[1..]))
  {
    hide InsertAt;
  }

  lemma TypedOnce<T(!new)>(st: State<T>, actor: ActorState, index: nat, values: seq<T>)
    requires actor.counter < actor.limit && values != [] && index <= |VisibleIds(st)| && NextId(actor) !in st.inserts
    requires InsertAt(st, actor, index, values[0])
             == Edit(WithInsert(st, NextId(actor), AnchorAt(st, index), values[0]), Advanced(actor, 1),
                     Ok(Insert(NextId(actor), AnchorAt(st, index), values[0])))
    requires var e := InsertAt(st, actor, index, values[0]);
             Typed(e.state, e.actor, values[1..], InsertAll(e.state, e.actor, index + 1, values[1..]))
    ensures Typed(st, actor, values, InsertAll(st, actor, index, values))
  {
    hide VisibleIds, InsertAt, AnchorAt, Fitted, InsertAll, Min, NewIds, InsertsRun, MakesRun;
    var one := InsertAt(st, actor, index, values[0]);
    var rest := InsertAll(one.state, one.actor, index + 1, values[1..]);
    InsertAllOnce(st, actor, index, values);
    FittedOnce(st, actor, index, values);
    FitsOneMore(actor, values);
    NewIdsStep(actor, Min(|values|, Remaining(actor)));
    var ids := NewIds(actor, Min(|values|, Remaining(actor)));
    RunInserted(st.inserts, rest.state.inserts, ids, values, AnchorAt(st, index));
    if rest.made.Ok? {
      RunMade(one.made.value, rest.made.value, ids, values);
    }
  }

  lemma FitsOneMore<T>(actor: ActorState, values: seq<T>)
    requires actor.counter < actor.limit && values != []
    ensures var fit := Min(|values|, Remaining(actor));
            0 < fit <= |values| && actor.counter + fit <= actor.limit && Min(|values[1..]|, Remaining(Advanced(actor, 1))) == fit - 1
  {}

  lemma RunInserted<T(!new)>(before: map<OpId, Entry<T>>, after: map<OpId, Entry<T>>, ids: seq<OpId>, values: seq<T>, anchor: Option<OpId>)
    requires 0 < |ids| <= |values| && ids[0] !in before
    requires InsertsRun(before[ids[0] := Entry(anchor, values[0])], after, ids[1..], values[1..])
    ensures InsertsRun(before, after, ids, values)
  {
    assert ids == [ids[0]] + ids[1..];
    forall i | 0 <= i < |ids| ensures ids[i] in after && after[ids[i]].value == values[i] {
      if i > 0 {
        assert ids[i] == ids[1..][i - 1] && values[i] == values[1..][i - 1];
      }
    }
  }

  lemma RunMade<T>(op: ListOp<T>, rest: seq<ListOp<T>>, ids: seq<OpId>, values: seq<T>)
    requires values != [] && ids != [] && op.Insert? && op.id == ids[0] && op.value == values[0]
    requires MakesRun(rest, ids[1..], values[1..])
    ensures MakesRun([op] + rest, ids, values)
  {}

  // The documentation of text insertion promises a place before the character
  // at the index. One author typing "ac" and then "b" between them gets "acb".
  lemma MidInsertCanBeOvertaken()
    ensures exists st: State<char>, actor: ActorState ::
              && Ready(st, actor) && actor.counter < actor.limit
              && Contents(st) == ['a', 'c']
              && Contents(InsertAt(st, actor, 1, 'b').state) == ['a', 'c', 'b']
  {
    hide VisibleIds, Contents, InsertAt, Overtaken, Rooted, Ready, AnchorAt;
    var st, actor := TypedAC();
    var k := InsertAtEffect(st, actor, 1, 'b');
    assert k == 2;
    assert Placed(['a', 'c'], 2, ['b']) == ['a', 'c', 'b'];
  }

  lemma EmptyIsBlank<T>()
    ensures VisibleIds(Empty<T>()) == [] && SoundIds(Empty<T>())
  {
    VisibleRetained(Empty<T>());
  }

  lemma TypedA() returns (st: State<char>, actor: ActorState)
    ensures Ready(st, actor) && actor == ActorState(1, 1, 10)
    ensures VisibleIds(st) == [Id(1, 1)] && Contents(st) == ['a']
    ensures st == State(map[Id(1, 1) := Entry(None, 'a')], map[])
  {
    hide VisibleIds, Contents, InsertAt, Overtaken, Rooted;
    var empty: State<char> := Empty();
    var start := ActorState(1, 0, 10);
    EmptyIsBlank<char>();
    assert forall id :: !Mentioned(empty, id);
    assert Ready(empty, start);
    hide Ready;
    var k := InsertAtEffect(empty, start, 0, 'a');
    var one := InsertAt(empty, start, 0, 'a');
    st, actor := one.state, one.actor;
    assert VisibleIds(st) == [Id(1, 1)];
    assert Contents(st) == ['a'];
  }

  lemma TypedAC() returns (st: State<char>, actor: ActorState)
    ensures Ready(st, actor) && actor.counter + 2 <= actor.limit
    ensures Contents(st) == ['a', 'c']
    ensures AnchorRooted(st, AnchorAt(st, 1)) && Overtaken(st, 1, 1, NextId(actor))
  {
    hide VisibleIds, Contents, Ready, InsertAt, Overtaken, Rooted;
    var one, first := TypedA();
    var k := InsertAtEffect(one, first, 1, 'c');
    var two := InsertAt(one, first, 1, 'c');
    st, actor := two.state, two.actor;
    assert VisibleIds(st) == [Id(1, 1), Id(1, 2)];
    assert Contents(st) == ['a', 'c'];
    OlderSibling(st, Id(1, 1), Id(1, 2), NextId(actor));
  }

  lemma OlderSibling<T>(st: State<T>, a: OpId, c: OpId, n: OpId)
    requires VisibleIds(st) == [a, c]
    requires a in st.inserts && st.inserts[a].after == None
    requires c in st.inserts && st.inserts[c].after == Some(a)
    requires Before(c, n)
    ensures AnchorRooted(st, AnchorAt(st, 1)) && Overtaken(st, 1, 1, n)
  {
    AnchorAtRooted(st, 1);
    VisibleIdsExact(st);
    assert IsPath(st.inserts, [a]);
    PathExtends(st.inserts, [a], c);
    assert c in VisibleIds(st);
    PathUnique(st.inserts, [a], PathOf(st.inserts, a));
    PathUnique(st.inserts, [a] + [c], PathOf(st.inserts, c));
  }
}
