// What materialising a merge-enabled document yields: the winner's own fields,
// and in each merge field the union of every put that no delete supersedes.
module Materialize {
  import opened Wrappers
  import opened Ids
  import opened Changes
  import opened StoreState
  import LS = ListState
  import RS = ReplicaState
  import opened AppState

  // ---- which puts take part ----

  lemma {:induction false} NewestIsMaximum(changes: map<ChangeId, Change>, ids: seq<ChangeId>, id: ChangeId)
    requires forall x :: x in ids ==> x in changes
    requires id in ids
    ensures Newest(changes, ids).Some?
    ensures var best := Newest(changes, ids).value;
            best == id || Later(changes[best].timestamp, best, changes[id].timestamp, id)
  {
    if |ids| > 1 {
      var rest := ids[1..];
      var best := Newest(changes, rest);
      assert rest[0] in rest;
      NewestIsMaximum(changes, rest, if id in rest then id else rest[0]);
      if id in rest && Later(changes[ids[0]].timestamp, ids[0], changes[best.value].timestamp, best.value) && best.value != id {
        RS.LaterTransitive(changes[ids[0]].timestamp, ids[0], changes[best.value].timestamp, best.value, changes[id].timestamp, id);
      }
      RS.LaterTotal(changes[ids[0]].timestamp, ids[0], changes[best.value].timestamp, best.value);
    }
  }

  predicate IsDelete(changes: map<ChangeId, Change>, id: ChangeId, key: DocumentKey) {
    id in changes && KeyOf(changes[id].operation) == key && changes[id].operation.Delete?
  }

  // A put of the document under the schema that every delete of it precedes.
  ghost predicate Surviving(changes: map<ChangeId, Change>, id: ChangeId, key: DocumentKey, schema: U64) {
    && id in changes && KeyOf(changes[id].operation) == key
    && changes[id].operation.Put? && changes[id].operation.schema == schema
    && forall d :: IsDelete(changes, d, key) ==> Later(changes[id].timestamp, id, changes[d].timestamp, d)
  }

  // Comparing with the latest delete alone is comparing with every delete.
  lemma ConcurrentExactly(changes: map<ChangeId, Change>, key: DocumentKey, schema: U64, winner: ChangeId, id: ChangeId)
    ensures id in ConcurrentIds(changes, key, schema, winner) <==> Surviving(changes, id, key, schema) && id != winner
  {
    var deletes := DeletesOf(changes, key);
    var latest := Newest(changes, deletes);
    forall d | IsDelete(changes, d, key) ensures d in deletes {}
    if id in changes && latest.Some? {
      forall d | IsDelete(changes, d, key) && Later(changes[id].timestamp, id, changes[latest.value].timestamp, latest.value)
        ensures Later(changes[id].timestamp, id, changes[d].timestamp, d)
      {
        NewestIsMaximum(changes, deletes, d);
        if latest.value != d {
          RS.LaterTransitive(changes[id].timestamp, id, changes[latest.value].timestamp, latest.value, changes[d].timestamp, d);
        }
      }
      assert IsDelete(changes, latest.value, key);
    }
    forall d | IsDelete(changes, d, key) ensures latest.Some? {
      NewestIsMaximum(changes, deletes, d);
    }
  }

  // ---- what materialising depends on ----

  // Two replicas with the same retained changes materialise every document
  // alike, however those changes arrived.
  lemma MaterializeDependsOnChanges(a: RS.State, b: RS.State, key: DocumentKey, schema: StoredSchema, strategy: Option<Strategy>)
    requires RS.Inv(a) && RS.Inv(b) && a.changes == b.changes
    ensures Materialize(a, key, schema, strategy) == Materialize(b, key, schema, strategy)
  {
    hide RS.Inv;
    RS.ChangesDetermineView(a, b);
  }

  lemma MaterializeIgnoresBatching(a: RS.State, b: RS.State, first: seq<Change>, second: seq<Change>, now: U64, later: U64,
                                   key: DocumentKey, schema: StoredSchema, strategy: Option<Strategy>)
    requires RS.Inv(a) && RS.Inv(b)
    requires a.changes == b.changes && a.space == b.space && a.schemas == b.schemas
    requires forall c :: c in first <==> c in second
    requires RS.Import(a, first, now).Ok?
    ensures RS.Import(b, second, later).Ok?
    ensures Materialize(RS.Import(a, first, now).value, key, schema, strategy)
         == Materialize(RS.Import(b, second, later).value, key, schema, strategy)
  {
    hide RS.Inv, RS.Import, Materialize;
    RS.ReorderedDeliveriesConverge(a, b, first, second, now, later);
    RS.ImportIsUnion(a, first, now);
    RS.ImportIsUnion(b, second, later);
    MaterializeDependsOnChanges(RS.Import(a, first, now).value, RS.Import(b, second, later).value, key, schema, strategy);
  }

  // ---- merging documents field by field ----

  type ListOf<T> = LS.State<T>

  // A typed document: its plain fields, and its merge fields in declaration order.
  datatype Doc<T> = Doc(rest: Bytes, bodies: seq<ListOf<T>>)

  datatype Codec<!T> = Codec(encode: Doc<T> -> Bytes, decode: Bytes -> Option<Doc<T>>)

  ghost predicate DocFits<T(!new)>(d: Doc<T>, fields: nat) {
    |d.bodies| == fields && forall i :: 0 <= i < fields ==> LS.WellFormed(d.bodies[i])
  }

  // Encoding is undone by decoding, and only well-formed documents decode.
  ghost predicate Sound<T(!new)>(codec: Codec<T>, fields: nat) {
    && (forall d {:trigger codec.encode(d)} :: DocFits(d, fields) ==> codec.decode(codec.encode(d)) == Some(d))
    && (forall p {:trigger codec.decode(p)} :: codec.decode(p).Some? ==> DocFits(codec.decode(p).value, fields))
  }

  // What a list merge yields.
  ghost function MergeLists<T(!new)>(a: ListOf<T>, b: ListOf<T>): Result<ListOf<T>, LS.Error>
    requires LS.WellFormed(b)
  {
    LS.SortedRetainedIsExact(b);
    LS.Fold(a, LS.SortById(LS.RetainedInMapOrder(b)))
  }

  lemma MergeListsUnites<T(!new)>(a: ListOf<T>, b: ListOf<T>)
    requires LS.WellFormed(a) && LS.WellFormed(b)
    ensures LS.MergesTo(a, b, MergeLists(a, b))
  {
    LS.SortedRetainedIsExact(b);
    LS.FoldMerges(a, b, LS.SortById(LS.RetainedInMapOrder(b)));
  }

  ghost function MergeBodies<T(!new)>(a: seq<ListOf<T>>, b: seq<ListOf<T>>): Option<seq<ListOf<T>>>
    requires |a| == |b| && forall i :: 0 <= i < |b| ==> LS.WellFormed(b[i])
    decreases |a|
  {
    if a == [] then Some([])
    else
      match MergeLists(a[0], b[0])
      case Err(_) => None
      case Ok(first) =>
        match MergeBodies(a[1..], b[1..])
        case None => None
        case Some(rest) => Some([first] + rest)
  }

  ghost predicate FieldsCompatible<T(!new)>(a: seq<ListOf<T>>, b: seq<ListOf<T>>)
    requires |a| == |b|
  {
    forall i {:trigger LS.Compatible(a[i], b[i])} :: 0 <= i < |a| ==> LS.Compatible(a[i], b[i])
  }

  lemma {:induction false} MergeBodiesUnites<T(!new)>(a: seq<ListOf<T>>, b: seq<ListOf<T>>)
    requires |a| == |b|
    requires forall i :: 0 <= i < |a| ==> LS.WellFormed(a[i]) && LS.WellFormed(b[i])
    ensures MergeBodies(a, b).Some? <==> FieldsCompatible(a, b)
    ensures MergeBodies(a, b).Some? ==>
              var m := MergeBodies(a, b).value;
              |m| == |a| && forall i :: 0 <= i < |a| ==>
                LS.WellFormed(m[i]) && LS.Ops(m[i]) == LS.Ops(a[i]) + LS.Ops(b[i])
    decreases |a|
  {
    hide LS.WellFormed, LS.Ops, LS.Compatible, MergeLists;
    if a != [] {
      MergeListsUnites(a[0], b[0]);
      MergeBodiesUnites(a[1..], b[1..]);
      FieldsSplit(a, b);
      if MergeBodies(a, b).Some? {
        var m, rest := MergeBodies(a, b).value, MergeBodies(a[1..], b[1..]).value;
        forall i | 0 <= i < |a| ensures LS.WellFormed(m[i]) && LS.Ops(m[i]) == LS.Ops(a[i]) + LS.Ops(b[i]) {
          if i > 0 {
            assert m[i] == rest[i - 1] && a[i] == a[1..][i - 1] && b[i] == b[1..][i - 1];
          }
        }
      }
    }
  }

  lemma FieldsSplit<T(!new)>(a: seq<ListOf<T>>, b: seq<ListOf<T>>)
    requires |a| == |b| && a != []
    ensures FieldsCompatible(a, b) <==> LS.Compatible(a[0], b[0]) && FieldsCompatible(a[1..], b[1..])
  {
    hide LS.Compatible;
    if LS.Compatible(a[0], b[0]) && FieldsCompatible(a[1..], b[1..]) {
      forall i | 0 <= i < |a| ensures LS.Compatible(a[i], b[i]) {
        if i > 0 {
          assert LS.Compatible(a[1..][i - 1], b[1..][i - 1]);
        }
      }
    }
    if FieldsCompatible(a, b) {
      forall i | 0 <= i < |a| - 1 ensures LS.Compatible(a[1..][i], b[1..][i]) {
        assert LS.Compatible(a[i + 1], b[i + 1]);
      }
    }
  }

  ghost function MergeInto<T(!new)>(codec: Codec<T>, fields: nat, acc: Doc<T>, concurrent: seq<Bytes>): Option<Doc<T>>
    requires Sound(codec, fields) && DocFits(acc, fields)
    decreases |concurrent|
  {
    if concurrent == [] then Some(acc)
    else
      match codec.decode(concurrent[0])
      case None => None
      case Some(other) =>
        MergeBodiesUnites(acc.bodies, other.bodies);
        match MergeBodies(acc.bodies, other.bodies)
        case None => None
        case Some(bodies) => MergeInto(codec, fields, acc.(bodies := bodies), concurrent[1..])
  }

  // With nothing to merge the winner's bytes are returned as they are.
  ghost function MergePayloads<T(!new)>(codec: Codec<T>, fields: nat, winner: Bytes, concurrent: seq<Bytes>): Option<Bytes>
    requires Sound(codec, fields)
  {
    if concurrent == [] then Some(winner)
    else
      match codec.decode(winner)
      case None => None
      case Some(doc) =>
        match MergeInto(codec, fields, doc, concurrent)
        case None => None
        case Some(merged) => Some(codec.encode(merged))
  }

  // The operations a payload holds in the given merge field.
  ghost function FieldOps<T(!new)>(codec: Codec<T>, fields: nat, p: Bytes, field: nat): iset<LS.ListOp<T>>
    requires Sound(codec, fields) && field < fields && codec.decode(p).Some?
  {
    LS.Ops(codec.decode(p).value.bodies[field])
  }

  // An operation some payload holds in the given merge field.
  ghost predicate HeldBySome<T(!new)>(codec: Codec<T>, fields: nat, concurrent: seq<Bytes>, field: nat, op: LS.ListOp<T>)
    requires Sound(codec, fields) && field < fields
  {
    exists p :: p in concurrent && codec.decode(p).Some? && op in FieldOps(codec, fields, p, field)
  }

  ghost predicate HeldByAny<T(!new)>(codec: Codec<T>, fields: nat, acc: Doc<T>, concurrent: seq<Bytes>, field: nat, op: LS.ListOp<T>)
    requires Sound(codec, fields) && field < fields && DocFits(acc, fields)
  {
    op in LS.Ops(acc.bodies[field]) || HeldBySome(codec, fields, concurrent, field, op)
  }

  ghost predicate AllDecode<T>(codec: Codec<T>, concurrent: seq<Bytes>) {
    forall p :: p in concurrent ==> codec.decode(p).Some?
  }

  // No identity names two operations in one field across all the documents.
  ghost predicate NoConflict<T(!new)>(codec: Codec<T>, fields: nat, acc: Doc<T>, concurrent: seq<Bytes>)
    requires Sound(codec, fields) && DocFits(acc, fields)
  {
    forall field: nat, x, y ::
      field < fields && HeldByAny(codec, fields, acc, concurrent, field, x) && HeldByAny(codec, fields, acc, concurrent, field, y) && x.id == y.id
      ==> x == y
  }

  lemma HeldStep<T(!new)>(codec: Codec<T>, fields: nat, acc: Doc<T>, next: Doc<T>, concurrent: seq<Bytes>, field: nat, op: LS.ListOp<T>)
    requires Sound(codec, fields) && field < fields && DocFits(acc, fields) && DocFits(next, fields)
    requires concurrent != [] && codec.decode(concurrent[0]).Some?
    requires LS.Ops(next.bodies[field]) == LS.Ops(acc.bodies[field]) + LS.Ops(codec.decode(concurrent[0]).value.bodies[field])
    ensures HeldByAny(codec, fields, acc, concurrent, field, op) <==> HeldByAny(codec, fields, next, concurrent[1..], field, op)
  {
    hide LS.Ops, LS.WellFormed, DocFits;
    var head, rest := concurrent[0], concurrent[1..];
    assert forall p :: p in concurrent <==> p == head || p in rest;
    assert codec.decode(head).Some? ==> head in concurrent;
  }

  // Merging succeeds exactly when everything decodes and nothing conflicts; it
  // keeps the plain fields and unites every merge field.
  lemma {:induction false} MergeIntoUnites<T(!new)>(codec: Codec<T>, fields: nat, acc: Doc<T>, concurrent: seq<Bytes>)
    requires Sound(codec, fields) && DocFits(acc, fields)
    ensures MergeInto(codec, fields, acc, concurrent).Some? <==> AllDecode(codec, concurrent) && NoConflict(codec, fields, acc, concurrent)
    ensures MergeInto(codec, fields, acc, concurrent).Some? ==>
              var m := MergeInto(codec, fields, acc, concurrent).value;
              && DocFits(m, fields) && m.rest == acc.rest
              && forall field: nat, op :: field < fields ==>
                   (op in LS.Ops(m.bodies[field]) <==> HeldByAny(codec, fields, acc, concurrent, field, op))
    decreases |concurrent|
  {
    hide LS.Ops, LS.WellFormed, LS.Compatible, HeldByAny, MergeBodies, FieldsCompatible;
    if concurrent == [] {
      NothingToMerge(codec, fields, acc);
    } else if codec.decode(concurrent[0]).Some? {
      var other := codec.decode(concurrent[0]).value;
      MergeBodiesUnites(acc.bodies, other.bodies);
      if FieldsCompatible(acc.bodies, other.bodies) {
        var next := acc.(bodies := MergeBodies(acc.bodies, other.bodies).value);
        MergeIntoUnites(codec, fields, next, concurrent[1..]);
        forall field: nat, op | field < fields
          ensures HeldByAny(codec, fields, acc, concurrent, field, op) <==> HeldByAny(codec, fields, next, concurrent[1..], field, op)
        {
          HeldStep(codec, fields, acc, next, concurrent, field, op);
        }
        assert forall p :: p in concurrent <==> p == concurrent[0] || p in concurrent[1..];
      } else {
        FirstConflicts(codec, fields, acc, concurrent);
      }
    } else {
      assert concurrent[0] in concurrent;
    }
  }

  lemma NothingToMerge<T(!new)>(codec: Codec<T>, fields: nat, acc: Doc<T>)
    requires Sound(codec, fields) && DocFits(acc, fields)
    ensures NoConflict(codec, fields, acc, [])
    ensures forall field: nat, op :: field < fields ==>
              (op in LS.Ops(acc.bodies[field]) <==> HeldByAny(codec, fields, acc, [], field, op))
  {
    forall field: nat, x, y | field < fields && x in LS.Ops(acc.bodies[field]) && y in LS.Ops(acc.bodies[field]) && x.id == y.id
      ensures x == y
    {
      assert LS.Lookup(acc.bodies[field], x.id) == Some(x);
    }
    forall field: nat, op | field < fields
      ensures op in LS.Ops(acc.bodies[field]) <==> HeldByAny(codec, fields, acc, [], field, op)
    {}
  }

  lemma FirstConflicts<T(!new)>(codec: Codec<T>, fields: nat, acc: Doc<T>, concurrent: seq<Bytes>)
    requires Sound(codec, fields) && DocFits(acc, fields)
    requires concurrent != [] && codec.decode(concurrent[0]).Some?
    requires !FieldsCompatible(acc.bodies, codec.decode(concurrent[0]).value.bodies)
    ensures !NoConflict(codec, fields, acc, concurrent)
  {
    hide LS.Ops, LS.WellFormed;
    var other := codec.decode(concurrent[0]).value;
    var field: nat :| field < fields && !LS.Compatible(acc.bodies[field], other.bodies[field]);
    var x, y :| x in LS.Ops(acc.bodies[field]) && y in LS.Ops(other.bodies[field]) && x.id == y.id && x != y;
    assert concurrent[0] in concurrent;
    assert HeldBySome(codec, fields, concurrent, field, y);
    assert HeldByAny(codec, fields, acc, concurrent, field, x) && HeldByAny(codec, fields, acc, concurrent, field, y);
  }

  // ---- the materialised document ----

  ghost predicate UsesMerge<T(!new)>(strategy: Strategy, codec: Codec<T>, fields: nat) {
    && strategy.enabled && Sound(codec, fields)
    && forall winner, concurrent {:trigger strategy.merge(winner, concurrent)} ::
         strategy.merge(winner, concurrent) == MergePayloads(codec, fields, winner, concurrent)
  }

  // A change that takes part in a document: the winner, or a surviving put.
  ghost predicate TakesPart(st: RS.State, key: DocumentKey, schema: U64, id: ChangeId)
    requires key in st.documents
  {
    id == st.documents[key].change || Surviving(st.changes, id, key, schema)
  }

  ghost predicate HeldByPart<T(!new)>(st: RS.State, key: DocumentKey, schema: U64, codec: Codec<T>, fields: nat, field: nat, op: LS.ListOp<T>)
    requires key in st.documents && Sound(codec, fields) && field < fields
  {
    exists id ::
      && TakesPart(st, key, schema, id) && id in st.changes && st.changes[id].operation.Put?
      && codec.decode(st.changes[id].operation.payload).Some?
      && op in FieldOps(codec, fields, st.changes[id].operation.payload, field)
  }

  lemma ConcurrentPayloads(changes: map<ChangeId, Change>, key: DocumentKey, schema: U64, winner: ChangeId, p: Bytes)
    ensures var ids := ConcurrentIds(changes, key, schema, winner);
            p in PayloadsAt(changes, ids) <==>
              exists id :: Surviving(changes, id, key, schema) && id != winner && changes[id].operation.payload == p
  {
    hide ConcurrentIds, Surviving;
    var ids := ConcurrentIds(changes, key, schema, winner);
    var payloads := PayloadsAt(changes, ids);
    if p in payloads {
      var i :| 0 <= i < |payloads| && payloads[i] == p;
      assert ids[i] in ids;
      ConcurrentExactly(changes, key, schema, winner, ids[i]);
    }
    forall id | Surviving(changes, id, key, schema) && id != winner && SurvivingPayload(changes, id, key, schema) == p ensures p in payloads {
      ConcurrentExactly(changes, key, schema, winner, id);
      var i :| 0 <= i < |ids| && ids[i] == id;
      assert payloads[i] == p;
    }
  }

  ghost function SurvivingPayload(changes: map<ChangeId, Change>, id: ChangeId, key: DocumentKey, schema: U64): Bytes
    requires Surviving(changes, id, key, schema)
  {
    changes[id].operation.payload
  }

  // The payloads that are merged into the winner's.
  function Others(st: RS.State, key: DocumentKey, schema: U64): seq<Bytes>
    requires key in st.documents
  {
    PayloadsAt(st.changes, ConcurrentIds(st.changes, key, schema, st.documents[key].change))
  }

  lemma WinnerHolds(st: RS.State, key: DocumentKey)
    requires RS.Inv(st) && key in st.documents && st.documents[key].payload.Some?
    ensures var w := st.documents[key].change;
            w in st.changes && st.changes[w].operation.Put? && st.changes[w].operation.payload == st.documents[key].payload.value
  {
    assert RS.Winner(st.changes, key, st.documents[key]);
  }

  lemma PartsAreHeld<T(!new)>(st: RS.State, key: DocumentKey, schema: U64, codec: Codec<T>, fields: nat, field: nat, op: LS.ListOp<T>)
    requires RS.Inv(st) && key in st.documents && st.documents[key].payload.Some?
    requires Sound(codec, fields) && field < fields && codec.decode(st.documents[key].payload.value).Some?
    ensures HeldByAny(codec, fields, codec.decode(st.documents[key].payload.value).value, Others(st, key, schema), field, op)
       <==> HeldByPart(st, key, schema, codec, fields, field, op)
  {
    hide RS.Inv, LS.Ops, LS.WellFormed, Surviving, ConcurrentIds, PayloadsAt;
    WinnerHolds(st, key);
    var w, others := st.documents[key].change, Others(st, key, schema);
    assert op in LS.Ops(codec.decode(st.documents[key].payload.value).value.bodies[field])
           <==> op in FieldOps(codec, fields, st.documents[key].payload.value, field);
    hide Sound, FieldOps;
    assert TakesPart(st, key, schema, w);
    if HeldBySome(codec, fields, others, field, op) {
      var p :| p in others && codec.decode(p).Some? && op in FieldOps(codec, fields, p, field);
      ConcurrentPayloads(st.changes, key, schema, w, p);
      var id :| Surviving(st.changes, id, key, schema) && id != w && SurvivingPayload(st.changes, id, key, schema) == p;
      SurvivesRetained(st.changes, id, key, schema);
      assert TakesPart(st, key, schema, id);
    }
    if HeldByPart(st, key, schema, codec, fields, field, op) {
      var id :| TakesPart(st, key, schema, id) && id in st.changes && st.changes[id].operation.Put?
                && codec.decode(st.changes[id].operation.payload).Some?
                && op in FieldOps(codec, fields, st.changes[id].operation.payload, field);
      if id != w {
        ConcurrentPayloads(st.changes, key, schema, w, SurvivingPayload(st.changes, id, key, schema));
        assert st.changes[id].operation.payload in others;
      }
    }
  }

  lemma SurvivesRetained(changes: map<ChangeId, Change>, id: ChangeId, key: DocumentKey, schema: U64)
    requires Surviving(changes, id, key, schema)
    ensures id in changes && changes[id].operation.Put?
    ensures SurvivingPayload(changes, id, key, schema) == changes[id].operation.payload
  {}

  // A merge-enabled document materialises to the winner's own fields and, in
  // each merge field, exactly the operations of the winner and of every put of
  // the same schema that no delete supersedes.
  lemma MaterializedIsUnion<T(!new)>(st: RS.State, key: DocumentKey, schema: StoredSchema, strategy: Strategy, codec: Codec<T>, fields: nat)
    requires RS.Inv(st) && key in st.documents && st.documents[key].payload.Some?
    requires UsesMerge(strategy, codec, fields)
    requires codec.decode(st.documents[key].payload.value).Some?
    ensures var winner, others := codec.decode(st.documents[key].payload.value).value, Others(st, key, schema.fingerprint);
            Materialize(st, key, schema, Some(strategy)).Ok? <==>
              others == [] || (AllDecode(codec, others) && NoConflict(codec, fields, winner, others))
    ensures Materialize(st, key, schema, Some(strategy)).Ok? ==>
              var winner, m := codec.decode(st.documents[key].payload.value).value, Materialize(st, key, schema, Some(strategy)).value;
              && m.Put? && codec.decode(m.payload).Some?
              && codec.decode(m.payload).value.rest == winner.rest
              && forall field: nat, op :: field < fields ==>
                   (op in FieldOps(codec, fields, m.payload, field)
                    <==> HeldByPart(st, key, schema.fingerprint, codec, fields, field, op))
  {
    hide RS.Inv, LS.Ops, LS.WellFormed, HeldByPart, HeldByAny, NoConflict, AllDecode, MergeInto, DocFits, ConcurrentIds, PayloadsAt;
    var payload, others := st.documents[key].payload.value, Others(st, key, schema.fingerprint);
    var winner := codec.decode(payload).value;
    var result := Materialize(st, key, schema, Some(strategy));
    assert strategy.merge(payload, others) == MergePayloads(codec, fields, payload, others);
    MergeIntoUnites(codec, fields, winner, others);
    if result.Ok? {
      MergedDecodes(codec, fields, payload, others);
      forall field: nat, op | field < fields
        ensures op in FieldOps(codec, fields, result.value.payload, field) <==> HeldByPart(st, key, schema.fingerprint, codec, fields, field, op)
      {
        PartsAreHeld(st, key, schema.fingerprint, codec, fields, field, op);
        if others == [] {
          NothingHeld(codec, fields, winner, field, op);
        }
      }
    }
  }

  lemma NothingHeld<T(!new)>(codec: Codec<T>, fields: nat, acc: Doc<T>, field: nat, op: LS.ListOp<T>)
    requires Sound(codec, fields) && DocFits(acc, fields) && field < fields
    ensures HeldByAny(codec, fields, acc, [], field, op) <==> op in LS.Ops(acc.bodies[field])
  {}

  lemma MergedDecodes<T(!new)>(codec: Codec<T>, fields: nat, winner: Bytes, others: seq<Bytes>)
    requires Sound(codec, fields) && codec.decode(winner).Some?
    requires MergePayloads(codec, fields, winner, others).Some?
    ensures codec.decode(MergePayloads(codec, fields, winner, others).value)
         == if others == [] then codec.decode(winner) else MergeInto(codec, fields, codec.decode(winner).value, others)
  {
    if others != [] {
      MergeIntoUnites(codec, fields, codec.decode(winner).value, others);
    }
  }
}
