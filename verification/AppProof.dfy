// The durable tables and the in-memory replica refine one another through
// every local write, import, migration, failure and restart.
module AppProof {
  import opened Wrappers
  import opened Ids
  import opened Changes
  import opened Keys
  import opened StoreState
  import opened AppState
  import RS = ReplicaState

  // ---- what the tables must say ----

  function RowPayload(documents: map<RowKey, Row>, row: RowKey): Option<Bytes> {
    if row in documents then Some(documents[row].payload) else None
  }

  function LivePayload(documents: map<DocumentKey, RS.Materialized>, key: DocumentKey): Option<Bytes> {
    if key in documents then documents[key].payload else None
  }

  // The rows of the given collections are exactly the live winners.
  ghost predicate RowsAgree(db: Db, st: RS.State, plain: iset<Name>) {
    forall key: DocumentKey {:trigger LivePayload(st.documents, key)} {:trigger RowPayload(db.documents, RowKey(st.space, key))} ::
      key.collection in plain ==> RowPayload(db.documents, RowKey(st.space, key)) == LivePayload(st.documents, key)
  }

  // The durable log is exactly the retained changes.
  ghost predicate LogAgrees(log: map<LogKey, Change>, changes: map<ChangeId, Change>, space: SpaceId) {
    forall id: ChangeId {:trigger LogKey(space, id)} ::
      && (LogKey(space, id) in log <==> id in changes)
      && (id in changes ==> log[LogKey(space, id)] == changes[id])
  }

  ghost predicate NamesValid(db: Db) {
    forall key :: key in db.schemas && key.space == db.space ==> RS.ValidName(key.collection)
  }

  // `plain` are the collections never opened with merging.
  ghost predicate AppInv(app: App, plain: iset<Name>) {
    && RS.Inv(app.replica)
    && app.replica.id == app.db.replica && app.replica.space == app.db.space
    && LogAgrees(app.db.log, app.replica.changes, app.replica.space)
    && RowsAgree(app.db, app.replica, plain)
    && JournalInv(app.db)
    && NamesValid(app.db)
    && (forall name :: name in plain ==> !Merging(app.mergers, name))
  }

  lemma NewAppInv(replica: ReplicaId, space: SpaceId, plain: iset<Name>)
    ensures AppInv(App(EmptyDb(replica, space), RS.Fresh(replica, space), map[], map[]), plain)
  {
    RS.FreshInv(replica, space);
    hide RS.Inv;
  }

  // ---- the log ----

  // Appending what the staged replica newly retained cannot collide, and the
  // log again equals the retained changes.
  lemma {:induction false} AppendFollows(log: map<LogKey, Change>, changes: seq<Change>, space: SpaceId,
                                         before: map<ChangeId, Change>, after: map<ChangeId, Change>)
    requires LogAgrees(log, before, space) && AllIn(space, changes)
    requires RS.Union(before, changes, after)
    ensures AppendEach(log, changes).Ok?
    ensures LogAgrees(AppendEach(log, changes).value.log, after, space)
    ensures forall key: LogKey :: key.space != space ==>
              (key in AppendEach(log, changes).value.log <==> key in log)
              && (key in log ==> AppendEach(log, changes).value.log[key] == log[key])
    decreases |changes|
  {
    if changes == [] {
      NothingAppended(before, after);
    } else {
      hide LogAgrees, RS.Union;
      var c, rest := changes[0], changes[1..];
      HeadRetained(log, changes, space, before, after);
      AppendFollows(log[LogKeyOf(c) := c], rest, space, before[c.id := c], after);
    }
  }

  lemma NothingAppended(before: map<ChangeId, Change>, after: map<ChangeId, Change>)
    requires RS.Union(before, [], after)
    ensures before == after
  {}

  lemma HeadRetained(log: map<LogKey, Change>, changes: seq<Change>, space: SpaceId,
                     before: map<ChangeId, Change>, after: map<ChangeId, Change>)
    requires LogAgrees(log, before, space) && changes != [] && AllIn(space, changes)
    requires RS.Union(before, changes, after)
    ensures var c := changes[0];
            && LogKeyOf(c) == LogKey(space, c.id)
            && (LogKeyOf(c) in log ==> log[LogKeyOf(c)] == c)
            && LogAgrees(log[LogKeyOf(c) := c], before[c.id := c], space)
            && RS.Union(before[c.id := c], changes[1..], after)
            && AllIn(space, changes[1..])
  {
    var c, rest := changes[0], changes[1..];
    assert c in changes;
    assert forall x :: x in changes <==> x == c || x in rest;
    forall id | id in after ensures id in before[c.id := c] || exists x :: x in rest && x.id == id {
      if id !in before && id != c.id {
        var x :| x in changes && x.id == id;
        assert x in rest;
      }
    }
  }

  // How many of the changes were new is how much the log grew.
  function Trues(flags: seq<bool>): nat {
    if flags == [] then 0 else (if flags[0] then 1 else 0) + Trues(flags[1..])
  }

  lemma {:induction false} InsertedCountsGrowth(log: map<LogKey, Change>, changes: seq<Change>)
    requires AppendEach(log, changes).Ok?
    ensures |AppendEach(log, changes).value.log| == |log| + Trues(AppendEach(log, changes).value.inserted)
    decreases |changes|
  {
    if changes != [] {
      var key := LogKeyOf(changes[0]);
      InsertedCountsGrowth(log[key := changes[0]], changes[1..]);
      MapGrowth(log, key, changes[0]);
      var rest := AppendEach(log[key := changes[0]], changes[1..]).value.inserted;
      assert ([key !in log] + rest)[1..] == rest;
    }
  }

  lemma MapGrowth(log: map<LogKey, Change>, key: LogKey, c: Change)
    ensures |log[key := c]| == |log| + if key in log then 0 else 1
  {
    if key in log {
      assert log[key := c].Keys == log.Keys;
      assert |log[key := c].Keys| == |log.Keys|;
    } else {
      assert log[key := c].Keys == log.Keys + {key};
    }
  }

  // ---- one mutation on both sides ----

  function PayloadOf(m: Mutation): Option<Bytes> {
    if m.Put? then Some(m.payload) else None
  }

  lemma RegisterFrame(st: RS.State, name: Name, schema: U64)
    requires RS.Inv(st) && RS.RegisterSchema(st, name, schema).Ok?
    ensures var next := RS.RegisterSchema(st, name, schema).value;
            RS.Inv(next) && next == st.(schemas := next.schemas) && RS.ValidName(name)
  {
    hide RS.Inv;
    RS.RegisterInv(st, name, schema);
  }

  lemma AuthorEffect(st: RS.State, op: Operation, now: U64)
    requires RS.Inv(st) && RS.Author(st, op, now).Ok?
    ensures var authored := RS.Author(st, op, now).value; var next, c := authored.state, authored.change;
            && RS.Inv(next) && next.id == st.id && next.space == st.space
            && c.space == st.space && c.id !in st.changes && next.changes == st.changes[c.id := c]
            && c.operation == op
            && (next.documents == if RS.Outranked(st, op, now) then st.documents else st.documents[KeyOf(op) := RS.Candidate(c)])
  {
    hide RS.Inv, RS.Author, RS.Outranked;
    RS.AuthorInv(st, op, now);
    RS.LocalWriteWins(st, op, now);
  }

  // The write loses against a standing winner with another payload.
  ghost predicate Lost(st: RS.State, m: Mutation, now: U64) {
    RS.Outranked(st, OperationOf(m), now) && LivePayload(st.documents, KeyOfMutation(m)) != PayloadOf(m)
  }

  lemma StageOneEffect(st: RS.State, m: Mutation, now: U64)
    requires RS.Inv(st) && StageOne(st, m, now).Ok?
    ensures var authored := StageOne(st, m, now).value; var next, c := authored.state, authored.change;
            && RS.Inv(next) && next.id == st.id && next.space == st.space
            && RS.ValidName(m.collection)
            && c.space == st.space && c.id !in st.changes && next.changes == st.changes[c.id := c]
            && (forall key :: key != KeyOfMutation(m) ==> LivePayload(next.documents, key) == LivePayload(st.documents, key))
            && (LivePayload(next.documents, KeyOfMutation(m)) == PayloadOf(m) <==> !Lost(st, m, now))
  {
    hide RS.Inv, RS.Author, RS.RegisterSchema;
    RegisterFrame(st, m.collection, m.schema.fingerprint);
    var registered := RS.RegisterSchema(st, m.collection, m.schema.fingerprint).value;
    AuthorEffect(registered, OperationOf(m), now);
    assert RS.Outranked(registered, OperationOf(m), now) == RS.Outranked(st, OperationOf(m), now);
  }

  // What no transaction on rows touches.
  ghost predicate SameElsewhere(db: Db, next: Db) {
    && next.log == db.log && next.highWater == db.highWater
    && next.replica == db.replica && next.space == db.space
  }

  lemma MutationEffect(db: Db, space: SpaceId, m: Mutation)
    requires ApplyMutation(db, space, m).Ok?
    ensures var next := ApplyMutation(db, space, m).value.db;
            && SameElsewhere(db, next)
            && RowPayload(next.documents, RowKey(space, KeyOfMutation(m))) == PayloadOf(m)
            && (forall row :: row != RowKey(space, KeyOfMutation(m)) ==>
                  RowPayload(next.documents, row) == RowPayload(db.documents, row))
            && (RS.ValidName(m.collection) && NamesValid(db) ==> NamesValid(next))
  {}

  // No mutation of the given collections is lost.
  ghost predicate NoneLost(st: RS.State, mutations: seq<Mutation>, now: U64, plain: iset<Name>)
    requires StageAll(st, mutations, now).Ok?
    decreases |mutations|
  {
    mutations != [] ==>
      && (mutations[0].collection in plain ==> !Lost(st, mutations[0], now))
      && NoneLost(StageOne(st, mutations[0], now).value.state, mutations[1..], now, plain)
  }

  lemma StepAgrees(db: Db, st: RS.State, m: Mutation, now: U64, plain: iset<Name>)
    requires RS.Inv(st) && RowsAgree(db, st, plain)
    requires StageOne(st, m, now).Ok? && ApplyMutation(db, st.space, m).Ok?
    ensures var next, after := ApplyMutation(db, st.space, m).value.db, StageOne(st, m, now).value.state;
            m.collection in plain ==> (RowsAgree(next, after, plain) <==> !Lost(st, m, now))
    ensures var next, after := ApplyMutation(db, st.space, m).value.db, StageOne(st, m, now).value.state;
            (m.collection in plain && Lost(st, m, now)) || RowsAgree(next, after, plain)
  {
    hide RS.Inv, StageOne, ApplyMutation, Lost, RowPayload, LivePayload;
    StageOneEffect(st, m, now);
    MutationEffect(db, st.space, m);
    var next, after := ApplyMutation(db, st.space, m).value.db, StageOne(st, m, now).value.state;
    var key := KeyOfMutation(m);
    assert key.collection == m.collection;
    assert RowPayload(next.documents, RowKey(st.space, key)) == LivePayload(after.documents, key) <==> !Lost(st, m, now);
  }

  lemma {:induction false} WritesAgree(db: Db, st: RS.State, mutations: seq<Mutation>, now: U64, plain: iset<Name>)
    requires RS.Inv(st) && RowsAgree(db, st, plain)
    requires StageAll(st, mutations, now).Ok? && ApplyEach(db, st.space, mutations).Ok?
    requires NoneLost(st, mutations, now, plain)
    ensures RowsAgree(ApplyEach(db, st.space, mutations).value.db, StageAll(st, mutations, now).value.state, plain)
    decreases |mutations|
  {
    hide RS.Inv, RowsAgree, StageOne, ApplyMutation, Lost;
    if mutations != [] {
      StageOneEffect(st, mutations[0], now);
      StepAgrees(db, st, mutations[0], now, plain);
      WritesAgree(ApplyMutation(db, st.space, mutations[0]).value.db, StageOne(st, mutations[0], now).value.state,
                  mutations[1..], now, plain);
    }
  }

  lemma {:induction false} StageAllEffect(st: RS.State, mutations: seq<Mutation>, now: U64)
    requires RS.Inv(st) && StageAll(st, mutations, now).Ok?
    ensures var Staged(next, changes) := StageAll(st, mutations, now).value;
            && RS.Inv(next) && next.id == st.id && next.space == st.space
            && |changes| == |mutations| && AllIn(st.space, changes)
            && RS.Union(st.changes, changes, next.changes)
            && (forall m :: m in mutations ==> RS.ValidName(m.collection))
    decreases |mutations|
  {
    hide RS.Inv, StageOne, RS.Union;
    if mutations == [] {
      RS.NothingAdded(st.changes);
    } else {
      StageOneEffect(st, mutations[0], now);
      var first := StageOne(st, mutations[0], now).value;
      StageAllEffect(first.state, mutations[1..], now);
      var rest := StageAll(first.state, mutations[1..], now).value;
      var all := [first.change] + rest.changes;
      assert all[1..] == rest.changes;
      RS.UnionStep(st.changes, all, rest.state.changes);
    }
  }

  lemma {:induction false} EachEffect(db: Db, space: SpaceId, mutations: seq<Mutation>)
    requires ApplyEach(db, space, mutations).Ok?
    requires forall m :: m in mutations ==> RS.ValidName(m.collection)
    ensures SameElsewhere(db, ApplyEach(db, space, mutations).value.db)
    ensures NamesValid(db) ==> NamesValid(ApplyEach(db, space, mutations).value.db)
    decreases |mutations|
  {
    hide ApplyMutation, NamesValid, RowPayload;
    if mutations != [] {
      assert mutations[0] in mutations;
      MutationEffect(db, space, mutations[0]);
      EachEffect(ApplyMutation(db, space, mutations[0]).value.db, space, mutations[1..]);
    }
  }

  // The log and the remaining tables after a commit of both.
  lemma CommitBothFollows(db: Db, st: RS.State, next: RS.State, mutations: seq<Mutation>, changes: seq<Change>, commits: bool)
    requires JournalInv(db) && NamesValid(db) && LogAgrees(db.log, st.changes, st.space)
    requires next.space == st.space && AllIn(st.space, changes) && RS.Union(st.changes, changes, next.changes)
    requires CommitBoth(db, st.space, mutations, changes, commits).Ok?
    ensures ApplyEach(db, st.space, mutations).Ok?
    ensures var after := CommitBoth(db, st.space, mutations, changes, commits).value.db;
            && after == ApplyEach(db, st.space, mutations).value.db.(log := after.log)
            && JournalInv(after) && NamesValid(after)
            && after.replica == db.replica && after.space == db.space && after.highWater == db.highWater
            && LogAgrees(after.log, next.changes, next.space)
  {
    hide JournalInv, NamesValid, LogAgrees, RS.Union, AllIn, ApplyEach, AppendEach;
    ApplyKeepsJournal(db, st.space, mutations);
    EachEffect(db, st.space, mutations);
    var batch := ApplyEach(db, st.space, mutations).value;
    AppendFollows(batch.db.log, changes, st.space, st.changes, next.changes);
    LogOnlyMoves(batch.db, AppendEach(batch.db.log, changes).value.log);
  }

  lemma LogOnlyMoves(db: Db, log: map<LogKey, Change>)
    requires JournalInv(db) && NamesValid(db)
    ensures JournalInv(db.(log := log)) && NamesValid(db.(log := log))
  {}

  // ---- local writes ----

  // A committed transaction whose writes to those collections are not lost keeps the tables
  // and the replica in agreement.
  lemma CommitKeeps(app: App, mutations: seq<Mutation>, now: U64, commits: bool, plain: iset<Name>)
    requires AppInv(app, plain) && Commit(app, mutations, now, commits).Ok?
    requires NoneLost(app.replica, mutations, now, plain)
    ensures AppInv(Commit(app, mutations, now, commits).value, plain)
  {
    hide RS.Inv, JournalInv, NamesValid, LogAgrees, RowsAgree, RS.Union, AllIn, CommitBoth, NoneLost;
    var st := app.replica;
    StageAllEffect(st, mutations, now);
    var staged := StageAll(st, mutations, now).value;
    if mutations != [] {
      CommitBothFollows(app.db, st, staged.state, mutations, staged.changes, commits);
      WritesAgree(app.db, st, mutations, now, plain);
      var after := ApplyEach(app.db, st.space, mutations).value.db;
      RowsIgnoreLog(after, CommitBoth(app.db, st.space, mutations, staged.changes, commits).value.db.log, staged.state, plain);
    }
  }

  lemma RowsIgnoreLog(db: Db, log: map<LogKey, Change>, st: RS.State, plain: iset<Name>)
    requires RowsAgree(db, st, plain)
    ensures RowsAgree(db.(log := log), st, plain)
  {}

  lemma SingleSteps(db: Db, st: RS.State, m: Mutation, now: U64, plain: iset<Name>)
    requires StageAll(st, [m], now).Ok? && ApplyEach(db, st.space, [m]).Ok?
    ensures StageOne(st, m, now).Ok? && ApplyMutation(db, st.space, m).Ok?
    ensures StageAll(st, [m], now).value.state == StageOne(st, m, now).value.state
    ensures ApplyEach(db, st.space, [m]).value.db == ApplyMutation(db, st.space, m).value.db
    ensures NoneLost(st, [m], now, plain) <==> (m.collection in plain ==> !Lost(st, m, now))
  {
    hide StageOne, ApplyMutation, Lost;
    assert [m][1..] == [];
    if StageOne(st, m, now).Ok? {
      assert StageAll(StageOne(st, m, now).value.state, [], now).Ok?;
    }
  }

  // One put or delete in a plain collection keeps agreement if and only if it
  // is not lost to a saturated clock.
  lemma SingleWriteKeepsExactly(app: App, m: Mutation, now: U64, plain: iset<Name>)
    requires AppInv(app, plain) && m.collection in plain
    requires Commit(app, [m], now, true).Ok?
    ensures AppInv(Commit(app, [m], now, true).value, plain) <==> !Lost(app.replica, m, now)
  {
    hide RS.Inv, JournalInv, NamesValid, LogAgrees, RowsAgree, RS.Union, Lost, StageOne, ApplyMutation, AppendReplicated,
         StageAll, ApplyEach, NoneLost;
    var st := app.replica;
    var next := Commit(app, [m], now, true).value;
    SingleSteps(app.db, st, m, now, plain);
    StepAgrees(app.db, st, m, now, plain);
    if !Lost(st, m, now) {
      CommitKeeps(app, [m], now, true, plain);
    } else if AppInv(next, plain) {
      RowsIgnoreLog(next.db, ApplyMutation(app.db, st.space, m).value.db.log, next.replica, plain);
    }
  }

  // ---- imports ----

  lemma {:induction false} StageImportIsImport(st: RS.State, batch: seq<Change>, mergers: map<Name, Strategy>, now: U64)
    ensures StageImport(st, batch, mergers, now).Ok? <==> RS.Import(st, batch, now).Ok?
    ensures StageImport(st, batch, mergers, now).Ok? ==>
              StageImport(st, batch, mergers, now).value.state == RS.Import(st, batch, now).value
    decreases |batch|
  {
    hide RS.Receive;
    if batch != [] && RS.Receive(st, batch[0], now).Ok? {
      StageImportIsImport(RS.Receive(st, batch[0], now).value.state, batch[1..], mergers, now);
    }
  }

  lemma {:induction false} UnaffectedStays(st: RS.State, batch: seq<Change>, mergers: map<Name, Strategy>, now: U64, key: DocumentKey)
    requires StageImport(st, batch, mergers, now).Ok?
    requires key !in StageImport(st, batch, mergers, now).value.affected
    ensures LivePayload(StageImport(st, batch, mergers, now).value.state.documents, key) == LivePayload(st.documents, key)
    decreases |batch|
  {
    if batch != [] {
      ReceiveTouches(st, batch[0], now, key);
      hide RS.Receive;
      UnaffectedStays(RS.Receive(st, batch[0], now).value.state, batch[1..], mergers, now, key);
    }
  }

  lemma ReceiveTouches(st: RS.State, c: Change, now: U64, key: DocumentKey)
    requires RS.Receive(st, c, now).Ok?
    ensures var received := RS.Receive(st, c, now).value;
            !(received.apply.Applied? && received.apply.visible && KeyOf(c.operation) == key) ==>
              LivePayload(received.state.documents, key) == LivePayload(st.documents, key)
  {}

  lemma {:induction false} MaterializedRows(db: Db, space: SpaceId, st: RS.State, keys: seq<DocumentKey>,
                                            schemas: map<Name, StoredSchema>, mergers: map<Name, Strategy>, key: DocumentKey)
    requires MaterializeAll(st, keys, schemas, mergers).Ok?
    requires ApplyEach(db, space, MaterializeAll(st, keys, schemas, mergers).value).Ok?
    requires !Merging(mergers, key.collection)
    ensures var next := ApplyEach(db, space, MaterializeAll(st, keys, schemas, mergers).value).value.db;
            RowPayload(next.documents, RowKey(space, key))
              == if key in keys then LivePayload(st.documents, key) else RowPayload(db.documents, RowKey(space, key))
    decreases |keys|
  {
    hide ApplyMutation, Materialize, NamesValid;
    if keys != [] {
      var m := Materialize(st, keys[0], schemas[keys[0].collection], StrategyOf(mergers, keys[0].collection)).value;
      var rest := MaterializeAll(st, keys[1..], schemas, mergers).value;
      assert ([m] + rest)[1..] == rest;
      MaterializedIsLive(st, keys[0], schemas[keys[0].collection], StrategyOf(mergers, keys[0].collection));
      MutationEffect(db, space, m);
      MaterializedRows(ApplyMutation(db, space, m).value.db, space, st, keys[1..], schemas, mergers, key);
    }
  }

  lemma MaterializedIsLive(st: RS.State, key: DocumentKey, schema: StoredSchema, strategy: Option<Strategy>)
    requires Materialize(st, key, schema, strategy).Ok?
    ensures KeyOfMutation(Materialize(st, key, schema, strategy).value) == key
    ensures !(strategy.Some? && strategy.value.enabled) ==>
              PayloadOf(Materialize(st, key, schema, strategy).value) == LivePayload(st.documents, key)
  {
    hide ConcurrentIds;
  }

  // Every committed import keeps agreement, whatever the clock.
  lemma ImportKeeps(app: App, batch: seq<Change>, now: U64, commits: bool, plain: iset<Name>)
    requires AppInv(app, plain) && Import(app, batch, now, commits).Ok?
    ensures AppInv(Import(app, batch, now, commits).value, plain)
  {
    if batch != [] {
      hide RS.Inv, JournalInv, NamesValid, LogAgrees, RS.Union, AllIn, CommitBoth, RS.Import, StageImport, MaterializeAll, RowsAgree, SchemaProblem;
      var st := app.replica;
      StageImportIsImport(st, batch, app.mergers, now);
      RS.ImportIsUnion(st, batch, now);
      var staged := StageImport(st, batch, app.mergers, now).value;
      var keys := InOrder(staged.affected);
      var mutations := MaterializeAll(staged.state, keys, app.schemas, app.mergers).value;
      CommitBothFollows(app.db, st, staged.state, mutations, batch, commits);
      ImportedRowsAgree(app, batch, now, plain);
      var after := ApplyEach(app.db, st.space, mutations).value.db;
      RowsIgnoreLog(after, CommitBoth(app.db, st.space, mutations, batch, commits).value.db.log, staged.state, plain);
    }
  }

  lemma ImportedRowsAgree(app: App, batch: seq<Change>, now: U64, plain: iset<Name>)
    requires RowsAgree(app.db, app.replica, plain)
    requires forall name :: name in plain ==> !Merging(app.mergers, name)
    requires StageImport(app.replica, batch, app.mergers, now).Ok?
    requires var staged := StageImport(app.replica, batch, app.mergers, now).value;
             && staged.state.space == app.replica.space
             && MaterializeAll(staged.state, InOrder(staged.affected), app.schemas, app.mergers).Ok?
             && ApplyEach(app.db, app.replica.space,
                          MaterializeAll(staged.state, InOrder(staged.affected), app.schemas, app.mergers).value).Ok?
    ensures var staged := StageImport(app.replica, batch, app.mergers, now).value;
            var mutations := MaterializeAll(staged.state, InOrder(staged.affected), app.schemas, app.mergers).value;
            RowsAgree(ApplyEach(app.db, app.replica.space, mutations).value.db, staged.state, plain)
  {
    hide StageImport, MaterializeAll, ApplyEach, InOrder, RowPayload, LivePayload;
    var staged := StageImport(app.replica, batch, app.mergers, now).value;
    var keys := InOrder(staged.affected);
    var next := ApplyEach(app.db, app.replica.space, MaterializeAll(staged.state, keys, app.schemas, app.mergers).value).value.db;
    forall key: DocumentKey | key.collection in plain
      ensures RowPayload(next.documents, RowKey(app.replica.space, key)) == LivePayload(staged.state.documents, key)
    {
      MaterializedRows(app.db, app.replica.space, staged.state, keys, app.schemas, app.mergers, key);
      if key !in keys {
        UnaffectedStays(app.replica, batch, app.mergers, now, key);
      }
    }
  }

  // ---- migrations ----

  function RowPut(key: DocumentKey, payload: Bytes, to: StoredSchema): Operation {
    Operation.Put(key.collection, key.document, to.fingerprint, payload)
  }

  // No rewritten row of the given collections is outranked.
  ghost predicate NoRowLost(st: RS.State, rows: seq<DocumentKey>, payloads: seq<Option<Bytes>>, to: StoredSchema, now: U64, plain: iset<Name>)
    requires |rows| == |payloads|
    decreases |rows|
  {
    rows != [] && payloads[0].Some? && RS.Author(st, RowPut(rows[0], payloads[0].value, to), now).Ok? ==>
      && (rows[0].collection in plain ==> !RS.Outranked(st, RowPut(rows[0], payloads[0].value, to), now))
      && NoRowLost(RS.Author(st, RowPut(rows[0], payloads[0].value, to), now).value.state, rows[1..], payloads[1..], to, now, plain)
  }

  predicate AllDone(outcomes: seq<Option<Transformed>>) {
    forall i :: 0 <= i < |outcomes| ==> outcomes[i].Some?
  }

  lemma AuthorRowsStep(st: RS.State, rows: seq<DocumentKey>, payloads: seq<Option<Bytes>>, to: StoredSchema, now: U64)
    requires |rows| == |payloads| && rows != []
    requires AllDone(AuthorRows(st, rows, payloads, to, now).outcomes)
    ensures payloads[0].Some? && RS.Author(st, RowPut(rows[0], payloads[0].value, to), now).Ok?
    ensures var authored := RS.Author(st, RowPut(rows[0], payloads[0].value, to), now).value;
            var rest := AuthorRows(authored.state, rows[1..], payloads[1..], to, now);
            && AllDone(rest.outcomes)
            && AuthorRows(st, rows, payloads, to, now)
               == Rewritten(rest.state, [Some(Transformed(payloads[0].value, authored.change))] + rest.outcomes)
  {
    hide RS.Author;
    var all := AuthorRows(st, rows, payloads, to, now).outcomes;
    assert all[0].Some?;
    var authored := RS.Author(st, RowPut(rows[0], payloads[0].value, to), now).value;
    var rest := AuthorRows(authored.state, rows[1..], payloads[1..], to, now).outcomes;
    assert forall i :: 0 <= i < |rest| ==> rest[i] == all[i + 1];
  }

  lemma {:induction false} AuthorRowsEffect(st: RS.State, rows: seq<DocumentKey>, payloads: seq<Option<Bytes>>, to: StoredSchema, now: U64)
    requires RS.Inv(st) && |rows| == |payloads|
    requires AllDone(AuthorRows(st, rows, payloads, to, now).outcomes)
    ensures var r := AuthorRows(st, rows, payloads, to, now);
            && RS.Inv(r.state) && r.state.id == st.id && r.state.space == st.space
            && AllIn(st.space, ChangesOf(r.outcomes))
            && RS.Union(st.changes, ChangesOf(r.outcomes), r.state.changes)
    decreases |rows|
  {
    hide RS.Inv, RS.Author, RS.Union, RS.Outranked;
    if rows == [] {
      RS.NothingAdded(st.changes);
    } else {
      AuthorRowsStep(st, rows, payloads, to, now);
      var op := RowPut(rows[0], payloads[0].value, to);
      AuthorEffect(st, op, now);
      var first := RS.Author(st, op, now).value;
      AuthorRowsEffect(first.state, rows[1..], payloads[1..], to, now);
      var r := AuthorRows(st, rows, payloads, to, now);
      var rest := AuthorRows(first.state, rows[1..], payloads[1..], to, now);
      assert ChangesOf(r.outcomes) == [first.change] + ChangesOf(rest.outcomes);
      assert ChangesOf(r.outcomes)[1..] == ChangesOf(rest.outcomes);
      RS.UnionStep(st.changes, ChangesOf(r.outcomes), r.state.changes);
    }
  }

  lemma WriteRowAgrees(db: Db, st: RS.State, key: DocumentKey, payload: Bytes, to: StoredSchema, now: U64, plain: iset<Name>)
    requires RS.Inv(st) && RowsAgree(db, st, plain)
    requires RS.Author(st, RowPut(key, payload, to), now).Ok?
    requires key.collection in plain ==> !RS.Outranked(st, RowPut(key, payload, to), now)
    ensures RowsAgree(WriteRow(db, RowKey(st.space, key), payload), RS.Author(st, RowPut(key, payload, to), now).value.state, plain)
  {
    hide RS.Inv, RS.Author, RS.Outranked;
    AuthorEffect(st, RowPut(key, payload, to), now);
    assert KeyOf(RowPut(key, payload, to)) == key;
    var next, after := WriteRow(db, RowKey(st.space, key), payload), RS.Author(st, RowPut(key, payload, to), now).value.state;
    forall k: DocumentKey | k.collection in plain
      ensures RowPayload(next.documents, RowKey(st.space, k)) == LivePayload(after.documents, k)
    {
      assert RowPayload(db.documents, RowKey(st.space, k)) == LivePayload(st.documents, k);
    }
  }

  lemma {:induction false} RewrittenAgree(db: Db, st: RS.State, rows: seq<DocumentKey>, payloads: seq<Option<Bytes>>, to: StoredSchema,
                                          now: U64, plain: iset<Name>)
    requires RS.Inv(st) && RowsAgree(db, st, plain) && |rows| == |payloads|
    requires AllDone(AuthorRows(st, rows, payloads, to, now).outcomes)
    requires NoRowLost(st, rows, payloads, to, now, plain)
    ensures var r := AuthorRows(st, rows, payloads, to, now);
            RowsAgree(RewriteRows(db, st.space, rows, r.outcomes), r.state, plain)
    decreases |rows|
  {
    hide RS.Inv, RS.Author, RS.Outranked, RowsAgree;
    if rows != [] {
      AuthorRowsStep(st, rows, payloads, to, now);
      var op := RowPut(rows[0], payloads[0].value, to);
      var first := RS.Author(st, op, now).value;
      var rest := AuthorRows(first.state, rows[1..], payloads[1..], to, now);
      AuthorEffect(st, op, now);
      WriteRowAgrees(db, st, rows[0], payloads[0].value, to, now, plain);
      RewrittenAgree(WriteRow(db, RowKey(st.space, rows[0]), payloads[0].value), first.state, rows[1..], payloads[1..], to, now, plain);
      assert AuthorRows(st, rows, payloads, to, now).outcomes[1..] == rest.outcomes;
    }
  }

  lemma {:induction false} RewriteTouches(db: Db, space: SpaceId, rows: seq<DocumentKey>, outcomes: seq<Option<Transformed>>)
    requires |rows| == |outcomes| && AllDone(outcomes)
    ensures SameElsewhere(db, RewriteRows(db, space, rows, outcomes))
    ensures RewriteRows(db, space, rows, outcomes).schemas == db.schemas
    decreases |rows|
  {
    if rows != [] {
      RewriteTouches(WriteRow(db, RowKey(space, rows[0]), outcomes[0].value.payload), space, rows[1..], outcomes[1..]);
    }
  }

  lemma AdvanceSchema(db: Db, collection: Name, to: StoredSchema, st: RS.State, plain: iset<Name>)
    requires RowsAgree(db, st, plain) && JournalInv(db) && NamesValid(db)
    requires SchemaKey(db.space, collection) in db.schemas
    ensures var next := db.(schemas := db.schemas[SchemaKey(db.space, collection) := to]);
            RowsAgree(next, st, plain) && JournalInv(next) && NamesValid(next)
  {}

  lemma SameSchemasValid(db: Db, next: Db)
    requires NamesValid(db) && next.schemas == db.schemas && next.space == db.space
    ensures NamesValid(next)
  {}

  // A committed migration whose rows are not outranked keeps agreement: every
  // live document of the collection now wins under the new schema.
  lemma MigrateKeeps(app: App, collection: Name, from: StoredSchema, to: StoredSchema,
                     payloads: seq<Option<Bytes>>, now: U64, commits: bool, plain: iset<Name>)
    requires AppInv(app, plain) && |payloads| == |RowsOf(app.db, app.replica.space, collection)|
    requires Migrate(app, collection, from, to, payloads, now, commits).Ok?
    requires NoRowLost(app.replica.(schemas := RS.RegisterSchema(app.replica, collection, to.fingerprint).value.schemas),
                       RowsOf(app.db, app.replica.space, collection), payloads, to, now, plain)
    ensures AppInv(Migrate(app, collection, from, to, payloads, now, commits).value, plain)
  {
    hide RS.Inv, JournalInv, NamesValid, LogAgrees, RowsAgree, RS.Union, AllIn, NoRowLost, AuthorRows, RewriteRows, RowsOf,
         AppendEach, CheckTransformed, RS.RegisterSchema, ChangesOf;
    var st, space := app.replica, app.replica.space;
    RegisterFrame(st, collection, to.fingerprint);
    var registered := RS.RegisterSchema(st, collection, to.fingerprint).value;
    var rows := RowsOf(app.db, space, collection);
    var r := AuthorRows(registered, rows, payloads, to, now);
    CheckedAllFit(space, to, rows, r.outcomes);
    SameRows(app.db, st, registered, plain);
    AuthorRowsEffect(registered, rows, payloads, to, now);
    RewrittenAgree(app.db, registered, rows, payloads, to, now, plain);
    RewriteKeepsJournal(app.db, space, rows, r.outcomes);
    RewriteTouches(app.db, space, rows, r.outcomes);
    var rewritten := RewriteRows(app.db, space, rows, r.outcomes);
    SameSchemasValid(app.db, rewritten);
    AdvanceSchema(rewritten, collection, to, r.state, plain);
    var advanced := rewritten.(schemas := rewritten.schemas[SchemaKey(space, collection) := to]);
    AppendFollows(advanced.log, ChangesOf(r.outcomes), space, st.changes, r.state.changes);
    var log := AppendEach(advanced.log, ChangesOf(r.outcomes)).value.log;
    LogOnlyMoves(advanced, log);
    RowsIgnoreLog(advanced, log, r.state, plain);
  }

  lemma SameRows(db: Db, st: RS.State, next: RS.State, plain: iset<Name>)
    requires RowsAgree(db, st, plain) && next.documents == st.documents && next.space == st.space
    ensures RowsAgree(db, next, plain)
  {}

  // ---- opening, compacting, reserving ----

  lemma OpenKeeps(app: App, name: Name, schema: StoredSchema, strategy: Strategy, plain: iset<Name>)
    requires AppInv(app, plain) && (strategy.enabled ==> name !in plain)
    ensures AppInv(Open(app, name, schema, strategy), plain)
  {
    hide RS.Inv, JournalInv, NamesValid, LogAgrees, RowsAgree, RS.RegisterSchema;
    if RS.RegisterSchema(app.replica, name, schema.fingerprint).Ok? {
      RegisterFrame(app.replica, name, schema.fingerprint);
      SameRows(app.db, app.replica, RS.RegisterSchema(app.replica, name, schema.fingerprint).value, plain);
    }
  }

  lemma CompactKeeps(app: App, retain: U64, plain: iset<Name>)
    requires AppInv(app, plain) && Compact(app.db, retain, true).Ok?
    ensures AppInv(app.(db := Compact(app.db, retain, true).value), plain)
  {
    hide RS.Inv, JournalInv, LogAgrees, JournalFrontier;
    CompactExact(app.db, retain);
    var next := Compact(app.db, retain, true).value;
    assert next.documents == app.db.documents && next.schemas == app.db.schemas && next.space == app.db.space;
  }

  lemma ReserveKeeps(app: App, size: U64, plain: iset<Name>)
    requires AppInv(app, plain) && Reserve(app.db, size, true).Ok?
    ensures AppInv(app.(db := Reserve(app.db, size, true).value.0), plain)
  {
    hide RS.Inv, LogAgrees;
  }

  // ---- reopening ----

  lemma LoadedExactly(app: App, plain: iset<Name>, c: Change)
    requires AppInv(app, plain)
    ensures c in ReplicatedChanges(app.db) <==> c.id in app.replica.changes && app.replica.changes[c.id] == c
  {
    hide RowsAgree, JournalInv, NamesValid, RS.DocumentsExact, RS.CounterExact, RS.ClockDominates, Contiguous;
    var db, changes := app.db, app.replica.changes;
    var ids := Ascending(set key | key in db.log && key.space == db.space :: key.id);
    forall id ensures id in ids <==> id in changes {
      assert id in ids ==> LogKey(db.space, id) in db.log;
      assert id in changes ==> LogKey(db.space, id) in db.log;
    }
    var loaded := ReplicatedChanges(db);
    forall i | 0 <= i < |ids| ensures ids[i] in changes && loaded[i] == changes[ids[i]] {
      assert ids[i] in ids;
      assert LogKey(db.space, ids[i]) in db.log;
    }
    if c.id in changes && changes[c.id] == c {
      var i :| 0 <= i < |ids| && ids[i] == c.id;
      assert loaded[i] == c;
    }
  }

  ghost predicate OnlySchemas(st: RS.State, next: RS.State) {
    next == st.(schemas := next.schemas)
    && forall name, schema: U64 :: RS.Registered(st.schemas, name, schema) ==> RS.Registered(next.schemas, name, schema)
  }

  lemma {:induction false} NamesRegister(st: RS.State, names: seq<Name>, schemas: map<Name, StoredSchema>)
    requires RS.Inv(st) && forall name :: name in names ==> name in schemas && RS.ValidName(name)
    ensures RegisterNames(st, names, schemas).Ok?
    ensures RS.Inv(RegisterNames(st, names, schemas).value) && OnlySchemas(st, RegisterNames(st, names, schemas).value)
    decreases |names|
  {
    hide RS.Inv;
    if names != [] {
      assert names[0] in names;
      RegisterFrame(st, names[0], schemas[names[0]].fingerprint);
      NamesRegister(RS.RegisterSchema(st, names[0], schemas[names[0]].fingerprint).value, names[1..], schemas);
    }
  }

  lemma {:induction false} UsedRegister(st: RS.State, changes: seq<Change>)
    requires RS.Inv(st) && forall c :: c in changes ==> RS.ValidName(c.operation.collection)
    ensures RegisterUsed(st, changes).Ok?
    ensures var next := RegisterUsed(st, changes).value;
            && RS.Inv(next) && OnlySchemas(st, next)
            && forall c :: c in changes ==> RS.Registered(next.schemas, c.operation.collection, c.operation.schema)
    decreases |changes|
  {
    hide RS.Inv;
    if changes != [] {
      var op := changes[0].operation;
      assert changes[0] in changes;
      RS.RegisterInv(st, op.collection, op.schema);
      var first := RS.RegisterSchema(st, op.collection, op.schema).value;
      UsedRegister(first, changes[1..]);
      assert forall c :: c in changes ==> c == changes[0] || c in changes[1..];
    }
  }

  lemma {:induction false} ReplayIsUnion(st: RS.State, batch: seq<Change>, times: seq<U64>)
    requires RS.Inv(st) && |times| == |batch|
    requires RS.AllAcceptable(st.space, st.schemas, batch) && RS.CollisionFree(st.changes, batch)
    ensures Replay(st, batch, times).Ok?
    ensures var next := Replay(st, batch, times).value;
            RS.Inv(next) && RS.SameFrame(st, next) && RS.Union(st.changes, batch, next.changes)
    decreases |batch|
  {
    hide RS.Inv, RS.Receive, RS.CollisionFree, RS.Union, RS.Acceptable;
    if batch == [] {
      RS.NothingAdded(st.changes);
    } else {
      var c, rest := batch[0], batch[1..];
      assert c in batch;
      RS.CollisionAtHead(st.changes, batch);
      RS.ReceiveExactly(st, c, times[0]);
      RS.ReceiveInv(st, c, times[0]);
      RS.CollisionFreeStep(st.changes, batch);
      var next := RS.Receive(st, c, times[0]).value.state;
      ReplayIsUnion(next, rest, times[1..]);
      RS.UnionStep(st.changes, batch, Replay(next, rest, times[1..]).value.changes);
    }
  }

  lemma LoadedFits(app: App, plain: iset<Name>)
    requires AppInv(app, plain)
    ensures forall c :: c in ReplicatedChanges(app.db) ==>
              RS.Bounded(c.operation) && c.space == app.db.space && c.id.counter != 0 && c.timestamp.replica == c.id.replica
    ensures RS.CollisionFree(map[], ReplicatedChanges(app.db))
  {
    hide RowsAgree, JournalInv, NamesValid, LogAgrees, RS.DocumentsExact, RS.CounterExact, RS.ClockDominates, Contiguous, ReplicatedChanges;
    forall c | c in ReplicatedChanges(app.db)
      ensures RS.Bounded(c.operation) && c.space == app.db.space && c.id.counter != 0 && c.timestamp.replica == c.id.replica
    {
      LoadedExactly(app, plain, c);
    }
    forall a, b | a in ReplicatedChanges(app.db) && b in ReplicatedChanges(app.db) && a.id == b.id ensures a == b {
      LoadedExactly(app, plain, a);
      LoadedExactly(app, plain, b);
    }
  }

  lemma NamesAreValid(db: Db)
    requires NamesValid(db)
    ensures forall name :: name in NamesOf(DurableSchemas(db, db.space)) ==> RS.ValidName(name)
  {
    forall name | name in DurableSchemas(db, db.space) ensures RS.ValidName(name) {
      assert SchemaKey(db.space, name) in db.schemas;
    }
  }

  lemma LoadedUnion(app: App, plain: iset<Name>, after: map<ChangeId, Change>)
    requires AppInv(app, plain) && RS.Union(map[], ReplicatedChanges(app.db), after)
    ensures after == app.replica.changes
  {
    hide RowsAgree, JournalInv, NamesValid, LogAgrees, ReplicatedChanges, RS.DocumentsExact, RS.CounterExact, RS.ClockDominates, Contiguous;
    forall id | id in after ensures id in app.replica.changes && app.replica.changes[id] == after[id] {
      var c :| c in ReplicatedChanges(app.db) && c.id == id;
      LoadedExactly(app, plain, c);
    }
    forall id | id in app.replica.changes ensures id in after {
      LoadedExactly(app, plain, app.replica.changes[id]);
    }
  }

  // A restart replays the durable log into an empty replica that knows every
  // schema in it.
  lemma RebuildReplays(app: App, times: seq<U64>, plain: iset<Name>) returns (known: RS.State)
    requires AppInv(app, plain) && |times| == |ReplicatedChanges(app.db)|
    ensures RS.Inv(known) && known == RS.Fresh(app.db.replica, app.db.space).(schemas := known.schemas)
    ensures RS.AllAcceptable(known.space, known.schemas, ReplicatedChanges(app.db)) && RS.CollisionFree(map[], ReplicatedChanges(app.db))
    ensures Rebuild(app.db, times) == Replay(known, ReplicatedChanges(app.db), times)
  {
    hide RS.Inv, JournalInv, NamesValid, LogAgrees, RowsAgree, RS.CollisionFree, RegisterNames, RegisterUsed, Replay,
         ReplicatedChanges, DurableSchemas, NamesOf, RS.Bounded;
    var db, changes := app.db, ReplicatedChanges(app.db);
    var schemas := DurableSchemas(db, db.space);
    var fresh0 := RS.Fresh(db.replica, db.space);
    RS.FreshInv(db.replica, db.space);
    NamesAreValid(db);
    NamesRegister(fresh0, NamesOf(schemas), schemas);
    var named := RegisterNames(fresh0, NamesOf(schemas), schemas).value;
    LoadedFits(app, plain);
    BoundedNames(changes);
    UsedRegister(named, changes);
    known := RegisterUsed(named, changes).value;
  }

  // A restart always succeeds and rebuilds the same changes, documents,
  // frontier and next counter from the durable log alone.
  lemma ReopenRestores(app: App, times: seq<U64>, plain: iset<Name>)
    requires AppInv(app, plain) && |times| == |ReplicatedChanges(app.db)|
    ensures Reopen(app.db, times).Ok?
    ensures var next := Reopen(app.db, times).value;
            && AppInv(next, plain)
            && next.db == app.db
            && next.replica.changes == app.replica.changes
            && next.replica.documents == app.replica.documents
            && next.replica.frontier == app.replica.frontier
            && next.replica.nextCounter == app.replica.nextCounter
  {
    hide RS.Inv, JournalInv, NamesValid, LogAgrees, RowsAgree, RS.Union, RS.CollisionFree, RS.AllAcceptable, Rebuild, Replay,
         ReplicatedChanges, DurableSchemas;
    var db, changes := app.db, ReplicatedChanges(app.db);
    var known := RebuildReplays(app, times, plain);
    ReplayIsUnion(known, changes, times);
    var replica := Replay(known, changes, times).value;
    LoadedUnion(app, plain, replica.changes);
    RS.ChangesDetermineView(replica, app.replica);
    SameRows(db, app.replica, replica, plain);
  }

  lemma BoundedNames(changes: seq<Change>)
    requires forall c :: c in changes ==> RS.Bounded(c.operation)
    ensures forall c :: c in changes ==> RS.ValidName(c.operation.collection)
  {}

  // ---- whole runs ----

  datatype Call =
    | Write(mutations: seq<Mutation>, now: U64, commits: bool)
    | Take(batch: seq<Change>, at: U64, commits: bool)
    | Convert(collection: Name, from: StoredSchema, to: StoredSchema, payloads: seq<Option<Bytes>>, now: U64, commits: bool)
    | Declare(name: Name, schema: StoredSchema, strategy: Strategy)
    | Trim(retain: U64, commits: bool)
    | Grant(size: U64, commits: bool)
    | Restart(times: seq<U64>)

  // Inputs as long as what they are about.
  predicate Fitting(app: App, call: Call) {
    match call
    case Convert(collection, _, _, payloads, _, _) => |payloads| == |RowsOf(app.db, app.replica.space, collection)|
    case Restart(times) => |times| == |ReplicatedChanges(app.db)|
    case _ => true
  }

  // A call that fails changes nothing.
  function Do(app: App, call: Call): App
    requires Fitting(app, call)
  {
    match call
    case Write(mutations, now, commits) =>
      var r := Commit(app, mutations, now, commits);
      if r.Ok? then r.value else app
    case Take(batch, at, commits) =>
      var r := Import(app, batch, at, commits);
      if r.Ok? then r.value else app
    case Convert(collection, from, to, payloads, now, commits) =>
      var r := Migrate(app, collection, from, to, payloads, now, commits);
      if r.Ok? then r.value else app
    case Declare(name, schema, strategy) => Open(app, name, schema, strategy)
    case Trim(retain, commits) =>
      var r := Compact(app.db, retain, commits);
      if r.Ok? then app.(db := r.value) else app
    case Grant(size, commits) =>
      var r := Reserve(app.db, size, commits);
      if r.Ok? then app.(db := r.value.0) else app
    case Restart(times) =>
      var r := Reopen(app.db, times);
      if r.Ok? then r.value else app
  }

  // No local write to a plain collection is lost to a saturated clock, and none
  // is opened with merging.
  ghost predicate Fair(app: App, call: Call, plain: iset<Name>)
    requires Fitting(app, call)
  {
    match call
    case Write(mutations, now, commits) =>
      StageAll(app.replica, mutations, now).Ok? ==> NoneLost(app.replica, mutations, now, plain)
    case Convert(collection, from, to, payloads, now, _) =>
      RS.RegisterSchema(app.replica, collection, to.fingerprint).Ok? ==>
        NoRowLost(app.replica.(schemas := RS.RegisterSchema(app.replica, collection, to.fingerprint).value.schemas),
                  RowsOf(app.db, app.replica.space, collection), payloads, to, now, plain)
    case Declare(name, _, strategy) => strategy.enabled ==> name !in plain
    case _ => true
  }

  lemma CallKeeps(app: App, call: Call, plain: iset<Name>)
    requires AppInv(app, plain) && Fitting(app, call) && Fair(app, call, plain)
    ensures AppInv(Do(app, call), plain)
  {
    hide AppInv, Import, Open, Reopen, StageAll, NoneLost, NoRowLost, RowsOf, AuthorRows, Compact, RS.RegisterSchema, CommitLocal, MigrateCollection, Reserve, ReplicatedChanges;
    match call {
      case Write(mutations, now, commits) =>
        if Commit(app, mutations, now, commits).Ok? { CommitKeeps(app, mutations, now, commits, plain); }
      case Take(batch, at, commits) =>
        if Import(app, batch, at, commits).Ok? { ImportKeeps(app, batch, at, commits, plain); }
      case Convert(collection, from, to, payloads, now, commits) =>
        if Migrate(app, collection, from, to, payloads, now, commits).Ok? {
          MigrateKeeps(app, collection, from, to, payloads, now, commits, plain);
        }
      case Declare(name, schema, strategy) => OpenKeeps(app, name, schema, strategy, plain);
      case Trim(retain, commits) =>
        if Compact(app.db, retain, commits).Ok? { TrimKeeps(app, retain, commits, plain); }
      case Grant(size, commits) =>
        if Reserve(app.db, size, commits).Ok? { GrantKeeps(app, size, commits, plain); }
      case Restart(times) => ReopenRestores(app, times, plain);
    }
  }

  lemma TrimKeeps(app: App, retain: U64, commits: bool, plain: iset<Name>)
    requires AppInv(app, plain) && Compact(app.db, retain, commits).Ok?
    ensures AppInv(app.(db := Compact(app.db, retain, commits).value), plain)
  {
    hide AppInv;
    CompactKeeps(app, retain, plain);
  }

  lemma GrantKeeps(app: App, size: U64, commits: bool, plain: iset<Name>)
    requires AppInv(app, plain) && Reserve(app.db, size, commits).Ok?
    ensures AppInv(app.(db := Reserve(app.db, size, commits).value.0), plain)
  {
    hide AppInv;
    ReserveKeeps(app, size, plain);
  }

  ghost predicate FittingRun(app: App, calls: seq<Call>)
    decreases |calls|
  {
    calls != [] ==> Fitting(app, calls[0]) && FittingRun(Do(app, calls[0]), calls[1..])
  }

  ghost predicate FairRun(app: App, calls: seq<Call>, plain: iset<Name>)
    requires FittingRun(app, calls)
    decreases |calls|
  {
    calls != [] ==> Fair(app, calls[0], plain) && FairRun(Do(app, calls[0]), calls[1..], plain)
  }

  ghost function DoAll(app: App, calls: seq<Call>): App
    requires FittingRun(app, calls)
    decreases |calls|
  {
    if calls == [] then app else DoAll(Do(app, calls[0]), calls[1..])
  }

  lemma {:induction false} CallsKeep(app: App, calls: seq<Call>, plain: iset<Name>)
    requires AppInv(app, plain) && FittingRun(app, calls) && FairRun(app, calls, plain)
    ensures AppInv(DoAll(app, calls), plain)
    decreases |calls|
  {
    hide AppInv, Do, Fair, Fitting;
    if calls != [] {
      CallKeeps(app, calls[0], plain);
      CallsKeep(Do(app, calls[0]), calls[1..], plain);
    }
  }

  // ---- the log needs no condition on the clock ----

  lemma {:induction false} NothingFollowed(st: RS.State, mutations: seq<Mutation>, now: U64)
    requires StageAll(st, mutations, now).Ok?
    ensures NoneLost(st, mutations, now, iset{})
    decreases |mutations|
  {
    hide StageOne, Lost;
    if mutations != [] {
      NothingFollowed(StageOne(st, mutations[0], now).value.state, mutations[1..], now);
    }
  }

  lemma {:induction false} NoRowFollowed(st: RS.State, rows: seq<DocumentKey>, payloads: seq<Option<Bytes>>, to: StoredSchema, now: U64)
    requires |rows| == |payloads|
    ensures NoRowLost(st, rows, payloads, to, now, iset{})
    decreases |rows|
  {
    hide RS.Author, RS.Outranked;
    if rows != [] && payloads[0].Some? && RS.Author(st, RowPut(rows[0], payloads[0].value, to), now).Ok? {
      NoRowFollowed(RS.Author(st, RowPut(rows[0], payloads[0].value, to), now).value.state, rows[1..], payloads[1..], to, now);
    }
  }

  // Where no collection's rows are followed, every call is fair.
  lemma AlwaysFair(app: App, call: Call)
    requires Fitting(app, call)
    ensures Fair(app, call, iset{})
  {
    hide StageAll, NoneLost, NoRowLost, RS.RegisterSchema, RowsOf;
    match call {
      case Write(mutations, now, _) =>
        if StageAll(app.replica, mutations, now).Ok? { NothingFollowed(app.replica, mutations, now); }
      case Convert(collection, _, to, payloads, now, _) =>
        if RS.RegisterSchema(app.replica, collection, to.fingerprint).Ok? {
          NoRowFollowed(app.replica.(schemas := RS.RegisterSchema(app.replica, collection, to.fingerprint).value.schemas),
                        RowsOf(app.db, app.replica.space, collection), payloads, to, now);
        }
      case _ =>
    }
  }

  lemma {:induction false} EveryRunIsFair(app: App, calls: seq<Call>)
    requires FittingRun(app, calls)
    ensures FairRun(app, calls, iset{})
    decreases |calls|
  {
    hide Do, Fair, Fitting;
    if calls != [] {
      AlwaysFair(app, calls[0]);
      EveryRunIsFair(Do(app, calls[0]), calls[1..]);
    }
  }

  // A new database and its replica.
  function NewApp(replica: ReplicaId, space: SpaceId): App {
    App(EmptyDb(replica, space), RS.Fresh(replica, space), map[], map[])
  }

  // Whatever writes, imports, migrations, compactions, failed commits and
  // restarts an application goes through: its durable log equals its replica's
  // changes, however its clock stands; and if no write to the given collections
  // was lost and none was opened with merging, their rows are exactly the live
  // winners.
  lemma TablesRefineReplica(replica: ReplicaId, space: SpaceId, calls: seq<Call>, plain: iset<Name>)
    requires FittingRun(NewApp(replica, space), calls)
    ensures var app := DoAll(NewApp(replica, space), calls);
            && LogAgrees(app.db.log, app.replica.changes, app.replica.space)
            && RS.Inv(app.replica) && app.replica.id == app.db.replica && app.replica.space == app.db.space
            && (FairRun(NewApp(replica, space), calls, plain) ==> RowsAgree(app.db, app.replica, plain))
  {
    hide LogAgrees, RowsAgree, JournalInv, NamesValid, RS.Inv, DoAll, FairRun, FittingRun;
    var start := NewApp(replica, space);
    NewAppInv(replica, space, iset{});
    EveryRunIsFair(start, calls);
    CallsKeep(start, calls, iset{});
    if FairRun(start, calls, plain) {
      NewAppInv(replica, space, plain);
      CallsKeep(start, calls, plain);
    }
  }

  // At any point of any run a restart succeeds and rebuilds the replica's
  // changes, documents, frontier and next counter.
  lemma EveryRunReopens(replica: ReplicaId, space: SpaceId, calls: seq<Call>, times: seq<U64>)
    requires FittingRun(NewApp(replica, space), calls)
    requires |times| == |ReplicatedChanges(DoAll(NewApp(replica, space), calls).db)|
    ensures var app := DoAll(NewApp(replica, space), calls);
            && Reopen(app.db, times).Ok?
            && var next := Reopen(app.db, times).value;
               && next.db == app.db
               && next.replica.changes == app.replica.changes
               && next.replica.documents == app.replica.documents
               && next.replica.frontier == app.replica.frontier
               && next.replica.nextCounter == app.replica.nextCounter
  {
    hide AppInv, DoAll, FairRun, FittingRun, Reopen, ReplicatedChanges;
    NewAppInv(replica, space, iset{});
    EveryRunIsFair(NewApp(replica, space), calls);
    CallsKeep(NewApp(replica, space), calls, iset{});
    ReopenRestores(DoAll(NewApp(replica, space), calls), times, iset{});
  }
}
