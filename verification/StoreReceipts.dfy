// What a transaction reports and leaves in the tables, said of its mutations and
// changes alone: which took effect, under which numbers, and which were new.
module StoreReceipts {
  import opened Wrappers
  import opened Ids
  import opened Changes
  import opened StoreState
  import RS = ReplicaState
  import AP = AppProof

  // A mutation that does something: any put, and the delete of a row present.
  datatype Effect = Effect(key: DocumentKey, payload: Option<Bytes>)

  function KindOf(e: Effect): Kind {
    if e.payload.Some? then PutKind else DeleteKind
  }

  function Effects(rows: set<RowKey>, space: SpaceId, mutations: seq<Mutation>): seq<Effect>
    decreases |mutations|
  {
    if mutations == [] then []
    else
      var m, rest := mutations[0], mutations[1..];
      var key := KeyOfMutation(m);
      var row := RowKey(space, key);
      if m.Put? then [Effect(key, Some(m.payload))] + Effects(rows + {row}, space, rest)
      else if row in rows then [Effect(key, None)] + Effects(rows - {row}, space, rest)
      else Effects(rows, space, rest)
  }

  // Receipts and new journal rows are the effects in order, numbered from the
  // last sequence on.
  ghost predicate Numbered(db: Db, space: SpaceId, effects: seq<Effect>, next: Db, applied: seq<Applied>) {
    && |applied| == |effects| && next.sequence == db.sequence + |effects|
    && |next.journal| == |db.journal| + |effects| && next.journal[..|db.journal|] == db.journal
    && forall i :: 0 <= i < |effects| ==>
         && applied[i] == Applied(KindOf(effects[i]), effects[i].key, db.sequence + 1 + i)
         && next.journal[|db.journal| + i]
            == Entry(db.sequence + 1 + i, RowKey(space, effects[i].key), KindOf(effects[i]), effects[i].payload)
  }

  lemma OneEffect(db: Db, space: SpaceId, m: Mutation)
    requires ApplyMutation(db, space, m).Ok?
    ensures var Batch(next, applied) := ApplyMutation(db, space, m).value;
            var row := RowKey(space, KeyOfMutation(m));
            && Numbered(db, space, Effects(db.documents.Keys, space, [m]), next, applied)
            && next.documents.Keys == if m.Put? then db.documents.Keys + {row} else db.documents.Keys - {row}
  {
    assert [m][1..] == [];
    var row := RowKey(space, KeyOfMutation(m));
    var next := ApplyMutation(db, space, m).value.db;
    assert m.Delete? && row !in db.documents ==> db.documents.Keys - {row} == db.documents.Keys;
  }

  lemma EffectsStep(rows: set<RowKey>, space: SpaceId, mutations: seq<Mutation>)
    requires mutations != []
    ensures var m := mutations[0]; var row := RowKey(space, KeyOfMutation(m));
            Effects(rows, space, mutations)
            == Effects(rows, space, [m]) + Effects(if m.Put? then rows + {row} else rows - {row}, space, mutations[1..])
  {
    var m := mutations[0];
    var row := RowKey(space, KeyOfMutation(m));
    assert [m][1..] == [];
    assert m.Delete? && row !in rows ==> rows - {row} == rows;
  }

  lemma NumberedOn(db: Db, space: SpaceId, first: seq<Effect>, rest: seq<Effect>, middle: Db, next: Db, a: seq<Applied>, b: seq<Applied>)
    requires Numbered(db, space, first, middle, a) && Numbered(middle, space, rest, next, b)
    ensures Numbered(db, space, first + rest, next, a + b)
  {
    var n := |db.journal|;
    assert next.journal[..n] == next.journal[..|middle.journal|][..n];
    forall i | 0 <= i < |first + rest|
      ensures (a + b)[i] == Applied(KindOf((first + rest)[i]), (first + rest)[i].key, db.sequence + 1 + i)
      ensures next.journal[n + i]
           == Entry(db.sequence + 1 + i, RowKey(space, (first + rest)[i].key), KindOf((first + rest)[i]), (first + rest)[i].payload)
    {
      if i < |first| {
        assert next.journal[n + i] == next.journal[..|middle.journal|][n + i];
      }
    }
  }

  // A transaction reports and journals exactly the mutations that take effect.
  lemma {:induction false} AppliedExactly(db: Db, space: SpaceId, mutations: seq<Mutation>)
    requires ApplyEach(db, space, mutations).Ok?
    ensures var Batch(next, applied) := ApplyEach(db, space, mutations).value;
            Numbered(db, space, Effects(db.documents.Keys, space, mutations), next, applied)
    decreases |mutations|
  {
    hide ApplyMutation, Numbered;
    if mutations == [] {
      NothingNumbered(db, space);
    } else {
      var first := ApplyMutation(db, space, mutations[0]).value;
      OneEffect(db, space, mutations[0]);
      EffectsStep(db.documents.Keys, space, mutations);
      AppliedExactly(first.db, space, mutations[1..]);
      var rest := ApplyEach(first.db, space, mutations[1..]).value;
      NumberedOn(db, space, Effects(db.documents.Keys, space, [mutations[0]]), Effects(first.db.documents.Keys, space, mutations[1..]),
                 first.db, rest.db, first.applied, rest.applied);
    }
  }

  lemma NothingNumbered(db: Db, space: SpaceId)
    ensures Numbered(db, space, [], db, [])
  {}

  // ---- the rows afterwards ----

  // The last mutation of a document decides its row.
  function LastOn(mutations: seq<Mutation>, key: DocumentKey): Option<Mutation> {
    if mutations == [] then None
    else
      match LastOn(mutations[1..], key)
      case Some(m) => Some(m)
      case None => if KeyOfMutation(mutations[0]) == key then Some(mutations[0]) else None
  }

  lemma {:induction false} LastMutationStands(db: Db, space: SpaceId, mutations: seq<Mutation>, row: RowKey)
    requires ApplyEach(db, space, mutations).Ok?
    ensures AP.RowPayload(ApplyEach(db, space, mutations).value.db.documents, row)
         == if row.space == space && LastOn(mutations, row.key).Some? then AP.PayloadOf(LastOn(mutations, row.key).value)
            else AP.RowPayload(db.documents, row)
    decreases |mutations|
  {
    hide ApplyMutation, AP.RowPayload, AP.NamesValid;
    if mutations != [] {
      AP.MutationEffect(db, space, mutations[0]);
      LastMutationStands(ApplyMutation(db, space, mutations[0]).value.db, space, mutations[1..], row);
    }
  }

  // The journal's last word on a row is the row.
  ghost predicate JournalTellsRows(db: Db) {
    forall i :: 0 <= i < |db.journal| && (forall j :: i < j < |db.journal| ==> db.journal[j].row != db.journal[i].row) ==>
      var e := db.journal[i];
      if e.kind == PutKind then e.payload.Some? && e.row in db.documents && db.documents[e.row] == Row(e.payload.value, e.sequence)
      else e.payload.None? && e.row !in db.documents
  }

  lemma WriteTells(db: Db, row: RowKey, payload: Bytes)
    requires JournalTellsRows(db)
    ensures JournalTellsRows(WriteRow(db, row, payload))
  {
    Superseded(db, WriteRow(db, row, payload), row);
  }

  lemma DropTells(db: Db, row: RowKey)
    requires JournalTellsRows(db)
    ensures JournalTellsRows(DropRow(db, row))
  {
    Superseded(db, DropRow(db, row), row);
  }

  lemma Superseded(db: Db, next: Db, row: RowKey)
    requires JournalTellsRows(db)
    requires |next.journal| == |db.journal| + 1 && next.journal[..|db.journal|] == db.journal
    requires next.journal[|db.journal|].row == row
    requires forall r :: r != row ==> (r in next.documents <==> r in db.documents) && (r in db.documents ==> next.documents[r] == db.documents[r])
    requires var e := next.journal[|db.journal|];
             if e.kind == PutKind then e.payload.Some? && row in next.documents && next.documents[row] == Row(e.payload.value, e.sequence)
             else e.payload.None? && row !in next.documents
    ensures JournalTellsRows(next)
  {
    var n := |db.journal|;
    forall i | 0 <= i < n + 1 && forall j :: i < j < n + 1 ==> next.journal[j].row != next.journal[i].row
      ensures var e := next.journal[i];
              if e.kind == PutKind then e.payload.Some? && e.row in next.documents && next.documents[e.row] == Row(e.payload.value, e.sequence)
              else e.payload.None? && e.row !in next.documents
    {
      if i < n {
        assert next.journal[n].row != next.journal[i].row;
        assert next.journal[i] == next.journal[..n][i] == db.journal[i];
        forall j | i < j < n ensures db.journal[j].row != db.journal[i].row {
          assert next.journal[j] == next.journal[..n][j] == db.journal[j];
        }
      }
    }
  }

  lemma {:induction false} ApplyTells(db: Db, space: SpaceId, mutations: seq<Mutation>)
    requires JournalTellsRows(db) && ApplyEach(db, space, mutations).Ok?
    ensures JournalTellsRows(ApplyEach(db, space, mutations).value.db)
    decreases |mutations|
  {
    hide JournalTellsRows, WriteRow, DropRow;
    if mutations != [] {
      var m := mutations[0];
      var row, ensured := RowKey(space, KeyOfMutation(m)), EnsureSchema(db, space, m.collection, m.schema).value;
      OtherTables(db, ensured);
      if m.Put? {
        WriteTells(ensured, row, m.payload);
      } else if row in ensured.documents {
        DropTells(ensured, row);
      }
      ApplyTells(ApplyMutation(db, space, m).value.db, space, mutations[1..]);
    }
  }

  lemma OtherTables(db: Db, next: Db)
    requires JournalTellsRows(db) && next.journal == db.journal && next.documents == db.documents
    ensures JournalTellsRows(next)
  {}

  lemma CompactTells(db: Db, retain: U64)
    requires JournalTellsRows(db) && JournalInv(db) && Compact(db, retain, true).Ok?
    ensures JournalTellsRows(Compact(db, retain, true).value)
  {
    hide JournalInv, JournalTellsRows, Threshold, NotBefore, JournalFrontier;
    CompactExact(db, retain);
    SuffixTells(db, |db.journal| - |Compact(db, retain, true).value.journal|);
  }

  lemma SuffixTells(db: Db, k: nat)
    requires JournalTellsRows(db) && k <= |db.journal|
    ensures JournalTellsRows(db.(journal := db.journal[k..]))
  {
    var next := db.(journal := db.journal[k..]);
    forall i | 0 <= i < |next.journal| && forall j :: i < j < |next.journal| ==> next.journal[j].row != next.journal[i].row
      ensures var e := next.journal[i];
              if e.kind == PutKind then e.payload.Some? && e.row in next.documents && next.documents[e.row] == Row(e.payload.value, e.sequence)
              else e.payload.None? && e.row !in next.documents
    {
      forall j | i + k < j < |db.journal| ensures db.journal[j].row != db.journal[i + k].row {
        assert next.journal[j - k] == db.journal[j];
      }
    }
  }

  // ---- which changes were new ----

  // The identity was in neither the log nor an earlier place of the batch.
  predicate NewAt(log: map<LogKey, Change>, changes: seq<Change>, i: nat)
    requires i < |changes|
  {
    LogKeyOf(changes[i]) !in log && forall j :: 0 <= j < i ==> LogKeyOf(changes[j]) != LogKeyOf(changes[i])
  }

  lemma {:induction false} InsertedExactly(log: map<LogKey, Change>, changes: seq<Change>)
    requires AppendEach(log, changes).Ok?
    ensures |AppendEach(log, changes).value.inserted| == |changes|
    ensures forall i :: 0 <= i < |changes| ==> (AppendEach(log, changes).value.inserted[i] <==> NewAt(log, changes, i))
    decreases |changes|
  {
    if changes != [] {
      var c, rest := changes[0], changes[1..];
      var more := log[LogKeyOf(c) := c];
      InsertedExactly(more, rest);
      var flags := AppendEach(log, changes).value.inserted;
      assert flags[1..] == AppendEach(more, rest).value.inserted;
      forall i | 0 <= i < |changes| ensures flags[i] <==> NewAt(log, changes, i) {
        if i > 0 {
          assert flags[i] == flags[1..][i - 1] && changes[i] == rest[i - 1];
          assert NewAt(more, rest, i - 1) <==> NewAt(log, changes, i) by {
            assert forall j :: 0 < j < i ==> changes[j] == rest[j - 1];
          }
        }
      }
    }
  }

  // The log afterwards holds the old entries and the batch, and nothing else.
  lemma {:induction false} LogGrowsBy(log: map<LogKey, Change>, changes: seq<Change>)
    requires AppendEach(log, changes).Ok?
    ensures var after := AppendEach(log, changes).value.log;
            && (forall key :: key in log ==> key in after && after[key] == log[key])
            && (forall c :: c in changes ==> LogKeyOf(c) in after && after[LogKeyOf(c)] == c)
            && (forall key :: key in after && key !in log ==> exists c :: c in changes && LogKeyOf(c) == key)
    decreases |changes|
  {
    if changes != [] {
      var c := changes[0];
      LogGrowsBy(log[LogKeyOf(c) := c], changes[1..]);
      assert forall x :: x in changes <==> x == c || x in changes[1..];
      assert LogKeyOf(c) in log[LogKeyOf(c) := c];
      var after := AppendEach(log, changes).value.log;
      forall key | key in after && key !in log ensures exists x :: x in changes && LogKeyOf(x) == key {
        if key != LogKeyOf(c) {
          assert key !in log[LogKeyOf(c) := c];
        }
      }
    }
  }

  // A batch is appended exactly when nothing in it collides.
  lemma {:induction false} AppendsExactly(log: map<LogKey, Change>, changes: seq<Change>)
    ensures AppendEach(log, changes).Ok? <==>
              && (forall c :: c in changes && LogKeyOf(c) in log ==> log[LogKeyOf(c)] == c)
              && (forall x, y :: x in changes && y in changes && LogKeyOf(x) == LogKeyOf(y) ==> x == y)
    decreases |changes|
  {
    if changes != [] {
      var c, rest := changes[0], changes[1..];
      var more := log[LogKeyOf(c) := c];
      AppendsExactly(more, rest);
      assert c in changes;
      assert forall x :: x in changes <==> x == c || x in rest;
      assert more[LogKeyOf(c)] == c;
    }
  }

  // How many were new is how much the replica's log grew.
  lemma {:induction false} NewCountsGrowth(log: map<LogKey, Change>, batch: seq<Change>, space: SpaceId,
                                           before: map<ChangeId, Change>, after: map<ChangeId, Change>)
    requires AP.LogAgrees(log, before, space) && AllIn(space, batch) && RS.Union(before, batch, after)
    ensures AppendEach(log, batch).Ok?
    ensures |after| == |before| + AP.Trues(AppendEach(log, batch).value.inserted)
    decreases |batch|
  {
    hide AP.LogAgrees, RS.Union, AllIn;
    if batch == [] {
      AP.NothingAppended(before, after);
    } else {
      var c := batch[0];
      AP.HeadRetained(log, batch, space, before, after);
      HeldInLog(log, before, space, c.id);
      ChangesGrow(before, c);
      NewCountsGrowth(log[LogKeyOf(c) := c], batch[1..], space, before[c.id := c], after);
      var rest := AppendEach(log[LogKeyOf(c) := c], batch[1..]).value.inserted;
      assert ([LogKeyOf(c) !in log] + rest)[1..] == rest;
    }
  }

  lemma HeldInLog(log: map<LogKey, Change>, changes: map<ChangeId, Change>, space: SpaceId, id: ChangeId)
    requires AP.LogAgrees(log, changes, space)
    ensures LogKey(space, id) in log <==> id in changes
  {}

  lemma ChangesGrow(changes: map<ChangeId, Change>, c: Change)
    ensures |changes[c.id := c]| == |changes| + if c.id in changes then 0 else 1
  {
    if c.id in changes {
      assert changes[c.id := c].Keys == changes.Keys;
      assert |changes[c.id := c].Keys| == |changes.Keys|;
    } else {
      assert changes[c.id := c].Keys == changes.Keys + {c.id};
    }
  }

  // ---- what a commit of both reports ----

  // The receipts of mutations and changes, against the tables before.
  ghost predicate Reports(db: Db, space: SpaceId, mutations: seq<Mutation>, changes: seq<Change>, next: Db, applied: seq<Applied>, inserted: seq<bool>) {
    && Numbered(db, space, Effects(db.documents.Keys, space, mutations), next, applied)
    && |inserted| == |changes| && (forall i :: 0 <= i < |changes| ==> (inserted[i] <==> NewAt(db.log, changes, i)))
    && AppendEach(db.log, changes).Ok? && inserted == AppendEach(db.log, changes).value.inserted && next.log == AppendEach(db.log, changes).value.log
  }

  lemma CommitReports(db: Db, space: SpaceId, mutations: seq<Mutation>, changes: seq<Change>, commits: bool)
    requires CommitBoth(db, space, mutations, changes, commits).Ok?
    ensures var Committed(next, applied, inserted) := CommitBoth(db, space, mutations, changes, commits).value;
            Reports(db, space, mutations, changes, next, applied, inserted)
  {
    hide ApplyEach, AppendEach, Effects, NewAt;
    AppliedExactly(db, space, mutations);
    AP.EachEffect(db, space, mutations);
    InsertedExactly(db.log, changes);
  }

  lemma NothingReported(db: Db, space: SpaceId)
    ensures Reports(db, space, [], [], db, [], [])
  {}

  lemma LocalReports(db: Db, space: SpaceId, mutations: seq<Mutation>, changes: seq<Change>, commits: bool)
    requires CommitLocal(db, space, mutations, changes, commits).Ok?
    ensures var Committed(next, applied, inserted) := CommitLocal(db, space, mutations, changes, commits).value;
            Reports(db, space, mutations, changes, next, applied, inserted)
  {
    hide CommitBoth, Reports;
    if mutations == [] { NothingReported(db, space); } else { CommitReports(db, space, mutations, changes, commits); }
  }

  lemma SingleEffect(rows: set<RowKey>, space: SpaceId, m: Mutation)
    ensures Effects(rows, space, [m]) ==
            if m.Put? then [Effect(KeyOfMutation(m), Some(m.payload))]
            else if RowKey(space, KeyOfMutation(m)) in rows then [Effect(KeyOfMutation(m), None)] else []
  {
    assert [m][1..] == [];
  }

  // ---- a migration ----

  // A committed migration leaves every row of the collection with its new
  // payload, all others as they were, and the collection under the new schema.
  lemma MigratesExactly(db: Db, space: SpaceId, collection: Name, from: StoredSchema, to: StoredSchema, outcomes: seq<Option<Transformed>>)
    requires |outcomes| == |RowsOf(db, space, collection)|
    requires MigrateCollection(db, space, collection, from, to, outcomes, true).Ok?
    ensures var next, rows := MigrateCollection(db, space, collection, from, to, outcomes, true).value, RowsOf(db, space, collection);
            && next.schemas == db.schemas[SchemaKey(space, collection) := to]
            && next.documents.Keys == db.documents.Keys
            && (forall i :: 0 <= i < |rows| ==>
                  outcomes[i].Some? && AP.RowPayload(next.documents, RowKey(space, rows[i])) == Some(outcomes[i].value.payload))
            && (forall row: RowKey :: row.space != space || row.key.collection != collection ==>
                  AP.RowPayload(next.documents, row) == AP.RowPayload(db.documents, row))
            && (forall i :: 0 <= i < |rows| ==>
                  LogKeyOf(outcomes[i].value.change) in next.log && next.log[LogKeyOf(outcomes[i].value.change)] == outcomes[i].value.change)
            && next.sequence == db.sequence + |rows|
  {
    hide RowsOf, RewriteRows, CheckTransformed, AppendEach, AP.RowPayload, CheckMigration;
    var rows := RowsOf(db, space, collection);
    CheckedAllFit(space, to, rows, outcomes);
    assert forall i :: 0 <= i < |rows| ==> Fits(space, to, rows[i], outcomes[i]);
    RowsRewritten(db, space, rows, outcomes);
    AP.RewriteTouches(db, space, rows, outcomes);
    RewrittenSequence(db, space, rows, outcomes);
    LogGrowsBy(RewriteRows(db, space, rows, outcomes).log, ChangesOf(outcomes));
    forall i | 0 <= i < |rows| ensures outcomes[i].value.change in ChangesOf(outcomes) {
      assert ChangesOf(outcomes)[i] == outcomes[i].value.change;
    }
  }

  lemma {:induction false} RewrittenSequence(db: Db, space: SpaceId, rows: seq<DocumentKey>, outcomes: seq<Option<Transformed>>)
    requires |rows| == |outcomes| && forall i :: 0 <= i < |outcomes| ==> outcomes[i].Some?
    ensures RewriteRows(db, space, rows, outcomes).sequence == db.sequence + |rows|
    decreases |rows|
  {
    if rows != [] {
      RewrittenSequence(WriteRow(db, RowKey(space, rows[0]), outcomes[0].value.payload), space, rows[1..], outcomes[1..]);
    }
  }

  lemma {:induction false} RowsRewritten(db: Db, space: SpaceId, rows: seq<DocumentKey>, outcomes: seq<Option<Transformed>>)
    requires |rows| == |outcomes| && forall i :: 0 <= i < |outcomes| ==> outcomes[i].Some?
    requires forall i, j :: 0 <= i < j < |rows| ==> rows[i] != rows[j]
    requires forall key :: key in rows ==> RowKey(space, key) in db.documents
    ensures var next := RewriteRows(db, space, rows, outcomes);
            && next.documents.Keys == db.documents.Keys
            && (forall i :: 0 <= i < |rows| ==> AP.RowPayload(next.documents, RowKey(space, rows[i])) == Some(outcomes[i].value.payload))
            && (forall row: RowKey :: !(row.space == space && row.key in rows) ==>
                  AP.RowPayload(next.documents, row) == AP.RowPayload(db.documents, row))
    decreases |rows|
  {
    if rows != [] {
      var written := WriteRow(db, RowKey(space, rows[0]), outcomes[0].value.payload);
      assert rows[0] in rows;
      assert written.documents.Keys == db.documents.Keys;
      RowsRewritten(written, space, rows[1..], outcomes[1..]);
      assert forall key :: key in rows <==> key == rows[0] || key in rows[1..];
      assert rows[0] !in rows[1..];
      var next := RewriteRows(db, space, rows, outcomes);
      forall i | 0 <= i < |rows| ensures AP.RowPayload(next.documents, RowKey(space, rows[i])) == Some(outcomes[i].value.payload) {
        if i > 0 {
          assert rows[i] == rows[1..][i - 1] && outcomes[i] == outcomes[1..][i - 1];
        }
      }
    }
  }

  // From then on writes under the new schema pass, and under no other.
  lemma MigratedSchemaGoverns(db: Db, space: SpaceId, collection: Name, from: StoredSchema, to: StoredSchema,
                              outcomes: seq<Option<Transformed>>, m: Mutation)
    requires |outcomes| == |RowsOf(db, space, collection)| && m.collection == collection
    requires MigrateCollection(db, space, collection, from, to, outcomes, true).Ok?
    ensures var next := MigrateCollection(db, space, collection, from, to, outcomes, true).value;
            ApplyMutation(next, space, m).Ok? <==> m.schema == to
  {
    hide RowsOf, AP.RowPayload, MigrateCollection;
    MigratesExactly(db, space, collection, from, to, outcomes);
  }

  // A migration is carried out exactly when the collection is stored under the
  // schema it starts from, it changes the schema, every row was transformed, and
  // the changes are new or duplicates.
  lemma MigrationSucceedsExactly(db: Db, space: SpaceId, collection: Name, from: StoredSchema, to: StoredSchema,
                                 outcomes: seq<Option<Transformed>>, commits: bool)
    requires |outcomes| == |RowsOf(db, space, collection)|
    ensures MigrateCollection(db, space, collection, from, to, outcomes, commits).Ok? <==>
              && commits && RS.ValidName(collection) && from != to
              && SchemaKey(space, collection) in db.schemas && db.schemas[SchemaKey(space, collection)] == from
              && (forall i :: 0 <= i < |outcomes| ==>
                    && outcomes[i].Some?
                    && var (key, t) := (RowsOf(db, space, collection)[i], outcomes[i].value);
                    && t.change.space == space && t.change.id.counter <= I64_MAX
                    && t.change.operation == Operation.Put(key.collection, key.document, to.fingerprint, t.payload))
              && AP.AllDone(outcomes) && AppendEach(db.log, ChangesOf(outcomes)).Ok?
  {
    hide RowsOf, RewriteRows, CheckTransformed, AppendEach, AP.RowPayload;
    var rows := RowsOf(db, space, collection);
    CheckedAllFit(space, to, rows, outcomes);
    assert forall i :: 0 <= i < |rows| ==> (Fits(space, to, rows[i], outcomes[i]) <==>
      outcomes[i].Some? && outcomes[i].value.change.space == space
      && outcomes[i].value.change.operation == Operation.Put(rows[i].collection, rows[i].document, to.fingerprint, outcomes[i].value.payload));
    if forall i :: 0 <= i < |rows| ==> Fits(space, to, rows[i], outcomes[i]) {
      assert AP.AllDone(outcomes);
      AP.RewriteTouches(db, space, rows, outcomes);
      var changes := ChangesOf(outcomes);
      assert (exists c :: c in changes && c.id.counter > I64_MAX) <==>
             exists i :: 0 <= i < |outcomes| && outcomes[i].value.change.id.counter > I64_MAX by {
        forall i | 0 <= i < |outcomes| ensures outcomes[i].value.change in changes {
          assert changes[i] == outcomes[i].value.change;
        }
      }
    }
  }

  // ---- when a transaction succeeds ----

  // Both kinds of rows are committed exactly when every name is within bounds,
  // every mutation passes its schema, counters fit their column, nothing collides
  // and the commit succeeds.
  lemma BothCommitExactly(db: Db, space: SpaceId, mutations: seq<Mutation>, changes: seq<Change>, commits: bool)
    ensures CommitBoth(db, space, mutations, changes, commits).Ok? <==>
              && commits && (forall m :: m in mutations ==> 1 <= |m.collection| && |m.collection| <= 128)
              && ApplyEach(db, space, mutations).Ok?
              && (forall c :: c in changes ==> c.id.counter <= I64_MAX) && AppendEach(db.log, changes).Ok?
  {
    hide ApplyEach, AppendEach;
    if ApplyEach(db, space, mutations).Ok? && forall m :: m in mutations ==> RS.ValidName(m.collection) {
      AP.EachEffect(db, space, mutations);
    }
  }

  // Local writes come with one change each, of the space.
  lemma LocalCommitsExactly(db: Db, space: SpaceId, mutations: seq<Mutation>, changes: seq<Change>, commits: bool)
    ensures CommitLocal(db, space, mutations, changes, commits).Ok? <==>
              && |mutations| == |changes|
              && (mutations == []
                  || ((forall c :: c in changes ==> c.space == space) && CommitBoth(db, space, mutations, changes, commits).Ok?))
    ensures mutations == [] && changes == [] ==> CommitLocal(db, space, mutations, changes, commits) == Ok(Committed(db, [], []))
    ensures CommitLocal(db, space, mutations, changes, commits).Ok? && mutations != [] ==>
              CommitLocal(db, space, mutations, changes, commits) == CommitBoth(db, space, mutations, changes, commits)
  {
    hide CommitBoth;
  }

  // Remote changes are of the space; an empty batch writes nothing.
  lemma RemoteCommitsExactly(db: Db, space: SpaceId, mutations: seq<Mutation>, changes: seq<Change>, commits: bool)
    ensures CommitRemote(db, space, mutations, changes, commits).Ok? <==>
              changes == [] || ((forall c :: c in changes ==> c.space == space) && CommitBoth(db, space, mutations, changes, commits).Ok?)
    ensures changes == [] ==> CommitRemote(db, space, mutations, changes, commits) == Ok(Committed(db, [], []))
    ensures CommitRemote(db, space, mutations, changes, commits).Ok? && changes != [] ==>
              CommitRemote(db, space, mutations, changes, commits) == CommitBoth(db, space, mutations, changes, commits)
  {
    hide CommitBoth;
  }

  // Compaction succeeds exactly when the number of rows to retain fits its column
  // and the commit succeeds; it keeps that many of the newest, and at least one.
  lemma CompactsExactly(db: Db, retain: U64, commits: bool)
    requires JournalInv(db)
    ensures Compact(db, retain, commits).Ok? <==> commits && retain <= I64_MAX
    ensures Compact(db, retain, commits).Ok? ==>
              var next := Compact(db, retain, commits).value;
              && next == db.(journal := next.journal)
              && |next.journal| == (if retain == 0 then (if |db.journal| == 0 then 0 else 1)
                                    else if |db.journal| <= retain then |db.journal| else retain)
              && next.journal == db.journal[|db.journal| - |next.journal|..]
  {
    hide JournalInv, Threshold, NotBefore, JournalFrontier;
    if Compact(db, retain, commits).Ok? {
      CompactExact(db, retain);
    }
  }

  // Counters are reserved exactly for a positive size below overflow, from the
  // high-water mark on, which moves past them.
  lemma ReservesExactly(db: Db, size: U64, commits: bool)
    ensures Reserve(db, size, commits).Ok? <==> commits && size > 0 && db.highWater + size <= U64_MAX
    ensures Reserve(db, size, commits).Ok? ==>
              Reserve(db, size, commits).value == (db.(highWater := db.highWater + size), (db.highWater, db.highWater + size))
  {}
}
