// When an application's local operations succeed, condition by condition, and
// what they leave in tables and replica.
module AppRules {
  import opened Wrappers
  import opened Ids
  import opened Clock
  import opened Changes
  import opened StoreState
  import opened AppState
  import RS = ReplicaState
  import AP = AppProof
  import PE = AppPeer
  import SR = StoreReceipts

  // A name of 1 to 128 bytes, a payload of at most 16 mebibytes.
  predicate Bounded(m: Mutation) {
    1 <= |m.collection| && |m.collection| <= 128 && (m.Put? ==> |m.payload| <= 0x100_0000)
  }

  lemma StagesOneExactly(st: RS.State, m: Mutation, now: U64)
    ensures StageOne(st, m, now).Ok? <==> Bounded(m) && st.nextCounter < U64_MAX
    ensures StageOne(st, m, now).Ok? ==>
              var Authored(next, c) := StageOne(st, m, now).value;
              && next.nextCounter == st.nextCounter + 1 && c.id == Id(st.id, st.nextCounter + 1) && next.id == st.id
              && c.operation == OperationOf(m) && c.space == st.space && next.space == st.space
  {
    hide RS.RegisterSchema, RS.Author;
    RS.RegistersExactly(st, m.collection, m.schema.fingerprint);
    if RS.RegisterSchema(st, m.collection, m.schema.fingerprint).Ok? {
      var registered := RS.RegisterSchema(st, m.collection, m.schema.fingerprint).value;
      assert RS.Registered(registered.schemas, m.collection, m.schema.fingerprint);
      RS.AuthorsExactly(registered, OperationOf(m), now);
      if RS.Author(registered, OperationOf(m), now).Ok? {
        AuthorFrame(registered, OperationOf(m), now);
      }
    }
  }

  lemma AuthorFrame(st: RS.State, op: Operation, now: U64)
    requires RS.Author(st, op, now).Ok?
    ensures RS.Author(st, op, now).value.state.id == st.id && RS.Author(st, op, now).value.state.space == st.space
  {}

  // A transaction is staged exactly when every mutation is within bounds and
  // counters last; its changes are those mutations under consecutive counters.
  lemma {:induction false} StagesExactly(st: RS.State, mutations: seq<Mutation>, now: U64)
    ensures StageAll(st, mutations, now).Ok? <==>
              (forall m :: m in mutations ==> Bounded(m)) && (mutations == [] || st.nextCounter + |mutations| <= U64_MAX)
    ensures StageAll(st, mutations, now).Ok? ==>
              var changes := StageAll(st, mutations, now).value.changes;
              && |changes| == |mutations| && StageAll(st, mutations, now).value.state.nextCounter == st.nextCounter + |mutations|
              && forall i :: 0 <= i < |mutations| ==>
                   && changes[i].id.replica == st.id && changes[i].id.counter == st.nextCounter + 1 + i
                   && changes[i].operation == OperationOf(mutations[i]) && changes[i].space == st.space
    decreases |mutations|
  {
    hide StageOne, Bounded;
    if mutations != [] {
      StagesOneExactly(st, mutations[0], now);
      assert forall m :: m in mutations <==> m == mutations[0] || m in mutations[1..];
      if StageOne(st, mutations[0], now).Ok? {
        StagesExactly(StageOne(st, mutations[0], now).value.state, mutations[1..], now);
      }
    }
  }

  // Each collection occurs under one schema, the one the tables know it by, if any.
  ghost predicate OneSchemaEach(db: Db, space: SpaceId, mutations: seq<Mutation>) {
    && (forall m :: m in mutations ==> PE.Declared(db, space, m.collection, m.schema))
    && (forall m, n :: m in mutations && n in mutations && m.collection == n.collection ==> m.schema == n.schema)
  }

  lemma OneSchemaStep(db: Db, next: Db, space: SpaceId, mutations: seq<Mutation>)
    requires mutations != [] && PE.Declared(db, space, mutations[0].collection, mutations[0].schema)
    requires next.schemas == db.schemas[SchemaKey(space, mutations[0].collection) := mutations[0].schema]
    ensures OneSchemaEach(db, space, mutations) <==> OneSchemaEach(next, space, mutations[1..])
  {
    var m, rest := mutations[0], mutations[1..];
    assert forall x :: x in mutations <==> x == m || x in rest;
    assert m in mutations;
    if OneSchemaEach(db, space, mutations) {
      forall x | x in rest ensures PE.Declared(next, space, x.collection, x.schema) {
        assert x in mutations;
      }
    }
    if OneSchemaEach(next, space, rest) {
      forall x | x in rest
        ensures PE.Declared(db, space, x.collection, x.schema) && (x.collection == m.collection ==> x.schema == m.schema)
      {
        assert PE.Declared(next, space, x.collection, x.schema);
      }
    }
  }

  lemma {:induction false} WritesAllExactly(db: Db, space: SpaceId, mutations: seq<Mutation>)
    ensures ApplyEach(db, space, mutations).Ok? <==> OneSchemaEach(db, space, mutations)
    decreases |mutations|
  {
    hide ApplyMutation, PE.Declared;
    if mutations != [] {
      assert mutations[0] in mutations;
      PE.OneWriteExactly(db, space, mutations[0]);
      if ApplyMutation(db, space, mutations[0]).Ok? {
        var next := ApplyMutation(db, space, mutations[0]).value.db;
        WritesAllExactly(next, space, mutations[1..]);
        OneSchemaStep(db, next, space, mutations);
      }
    }
  }

  // A transaction, and so a single put or delete, succeeds exactly when its
  // mutations are within bounds, each collection keeps one schema, counters fit
  // their column and the commit succeeds.
  lemma CommitsExactly(app: App, mutations: seq<Mutation>, now: U64, commits: bool, plain: iset<Name>)
    requires AP.AppInv(app, plain)
    ensures Commit(app, mutations, now, commits).Ok? <==>
              || mutations == []
              || (&& commits && (forall m :: m in mutations ==> Bounded(m))
                  && app.replica.nextCounter + |mutations| <= I64_MAX
                  && OneSchemaEach(app.db, app.replica.space, mutations))
  {
    hide RS.Inv, JournalInv, AP.NamesValid, AP.RowsAgree, AP.LogAgrees, RS.Union, StageAll, ApplyEach, AppendEach, Bounded, OneSchemaEach;
    var st := app.replica;
    StagesExactly(st, mutations, now);
    WritesAllExactly(app.db, st.space, mutations);
    if StageAll(st, mutations, now).Ok? && mutations != [] {
      AP.StageAllEffect(st, mutations, now);
      var staged := StageAll(st, mutations, now).value;
      CountersFit(staged.changes, st.nextCounter);
      if ApplyEach(app.db, st.space, mutations).Ok? {
        AP.EachEffect(app.db, st.space, mutations);
        AP.AppendFollows(ApplyEach(app.db, st.space, mutations).value.db.log, staged.changes, st.space, st.changes, staged.state.changes);
      }
      NamesBounded(mutations);
    } else if mutations == [] {
      assert StageAll(st, mutations, now).Ok?;
    } else {
      assert app.replica.nextCounter + |mutations| <= I64_MAX ==> app.replica.nextCounter + |mutations| <= U64_MAX;
    }
  }

  lemma CountersFit(changes: seq<Change>, last: nat)
    requires forall i :: 0 <= i < |changes| ==> changes[i].id.counter == last + 1 + i
    ensures (forall c :: c in changes ==> c.id.counter <= I64_MAX) <==> changes == [] || last + |changes| <= I64_MAX
  {
    if changes != [] {
      assert changes[|changes| - 1] in changes;
    }
  }

  lemma NamesBounded(mutations: seq<Mutation>)
    requires forall m :: m in mutations ==> Bounded(m)
    ensures forall m :: m in mutations ==> RS.ValidName(m.collection)
  {}

  // Afterwards each document's row is what its last mutation says, every other row
  // is as it was, and the log and the replica hold one change for each mutation.
  lemma CommitLeaves(app: App, mutations: seq<Mutation>, now: U64, plain: iset<Name>, row: RowKey)
    requires AP.AppInv(app, plain) && Commit(app, mutations, now, true).Ok?
    ensures var next := Commit(app, mutations, now, true).value;
            && AP.RowPayload(next.db.documents, row)
               == (if row.space == app.replica.space && SR.LastOn(mutations, row.key).Some? then AP.PayloadOf(SR.LastOn(mutations, row.key).value)
                   else AP.RowPayload(app.db.documents, row))
            && next.replica.nextCounter == app.replica.nextCounter + |mutations|
            && RecordsEach(app.replica, mutations, next.replica.changes, next.db.log)
  {
    hide AP.AppInv, RS.Inv, Commit, StageAll, ApplyEach, AppendEach, Bounded, AP.RowPayload, SR.LastOn, RecordsEach;
    var st := app.replica;
    SoundReplica(app, plain);
    CommittedParts(app, mutations, now);
    StagesExactly(st, mutations, now);
    RecordedEach(app, mutations, now);
    if mutations == [] {
      NothingLast(row.key);
    } else {
      SR.LastMutationStands(app.db, st.space, mutations, row);
    }
  }

  // The changes made of the mutations, under consecutive counters.
  ghost predicate RecordsEach(st: RS.State, mutations: seq<Mutation>, changes: map<ChangeId, Change>, log: map<LogKey, Change>) {
    forall i :: 0 <= i < |mutations| ==> Records(st, i, mutations[i], changes, log)
  }

  predicate Records(st: RS.State, i: nat, m: Mutation, changes: map<ChangeId, Change>, log: map<LogKey, Change>) {
    && st.nextCounter + 1 + i <= U64_MAX
    && var id := Id(st.id, st.nextCounter + 1 + i);
    && id in changes && changes[id].operation == OperationOf(m)
    && LogKey(st.space, id) in log && log[LogKey(st.space, id)] == changes[id]
  }

  lemma RecordedEach(app: App, mutations: seq<Mutation>, now: U64)
    requires RS.Inv(app.replica) && Commit(app, mutations, now, true).Ok?
    ensures RecordsEach(app.replica, mutations, Commit(app, mutations, now, true).value.replica.changes,
                        Commit(app, mutations, now, true).value.db.log)
  {
    hide RS.Inv, Commit, StageAll, ApplyEach, AppendEach, Bounded;
    var st := app.replica;
    CommittedParts(app, mutations, now);
    StagesExactly(st, mutations, now);
    AP.StageAllEffect(st, mutations, now);
    var changes := StageAll(st, mutations, now).value.changes;
    if mutations != [] {
      SR.LogGrowsBy(ApplyEach(app.db, st.space, mutations).value.db.log, changes);
      var next := Commit(app, mutations, now, true).value;
      EachRecorded(st, mutations, changes, next.replica.changes, next.db.log);
    }
  }

  lemma EachRecorded(st: RS.State, mutations: seq<Mutation>, changes: seq<Change>, held: map<ChangeId, Change>, log: map<LogKey, Change>)
    requires |changes| == |mutations|
    requires forall c :: c in changes ==> c.id in held && held[c.id] == c && LogKeyOf(c) in log && log[LogKeyOf(c)] == c
    requires forall i :: 0 <= i < |mutations| ==>
               && changes[i].id.replica == st.id && changes[i].id.counter == st.nextCounter + 1 + i
               && changes[i].operation == OperationOf(mutations[i]) && changes[i].space == st.space
    ensures RecordsEach(st, mutations, held, log)
  {
    forall i | 0 <= i < |mutations|
      ensures Records(st, i, mutations[i], held, log)
    {
      var c := changes[i];
      assert c in changes && c.id.counter <= U64_MAX;
      assert c.id == Id(st.id, st.nextCounter + 1 + i) && LogKeyOf(c) == LogKey(st.space, c.id);
    }
  }

  lemma SoundReplica(app: App, plain: iset<Name>)
    requires AP.AppInv(app, plain)
    ensures RS.Inv(app.replica)
  {
    hide RS.Inv, AP.RowsAgree, AP.LogAgrees, JournalInv, AP.NamesValid;
  }

  // A committed transaction takes the staged replica, the written rows and the
  // extended log.
  lemma CommittedParts(app: App, mutations: seq<Mutation>, now: U64)
    requires Commit(app, mutations, now, true).Ok?
    ensures StageAll(app.replica, mutations, now).Ok?
    ensures var next, staged := Commit(app, mutations, now, true).value, StageAll(app.replica, mutations, now).value;
            && next.replica == staged.state
            && (mutations == [] ==> next.db == app.db)
            && (mutations != [] ==>
                  && ApplyEach(app.db, app.replica.space, mutations).Ok?
                  && var written := ApplyEach(app.db, app.replica.space, mutations).value.db;
                  && AppendEach(written.log, staged.changes).Ok?
                  && next.db == written.(log := AppendEach(written.log, staged.changes).value.log))
  {
    hide StageAll, ApplyEach, AppendEach;
  }

  lemma NothingLast(key: DocumentKey)
    ensures SR.LastOn([], key).None?
  {}

  // Opening takes hold unless the collection is open under another schema.
  lemma OpensExactly(app: App, name: Name, schema: StoredSchema, strategy: Strategy)
    ensures var next := Open(app, name, schema, strategy);
            if name in app.schemas && app.schemas[name] != schema then next == app
            else
              && next.schemas == app.schemas[name := schema] && next.mergers == app.mergers[name := strategy] && next.db == app.db
              && next.replica == next.replica.(schemas := next.replica.schemas) && next.replica.changes == app.replica.changes
              && (1 <= |name| && |name| <= 128 ==> RS.Registered(next.replica.schemas, name, schema.fingerprint))
  {}

  // A migration succeeds exactly from the stored schema to another, when the
  // transformation made a payload within bounds of every row, counters fit, and
  // the commit succeeds.
  lemma MigratesAppExactly(app: App, collection: Name, from: StoredSchema, to: StoredSchema,
                           payloads: seq<Option<Bytes>>, now: U64, commits: bool, plain: iset<Name>)
    requires AP.AppInv(app, plain) && |payloads| == |RowsOf(app.db, app.replica.space, collection)|
    ensures Migrate(app, collection, from, to, payloads, now, commits).Ok? <==>
              && commits && 1 <= |collection| && |collection| <= 128 && from != to
              && SchemaKey(app.replica.space, collection) in app.db.schemas && app.db.schemas[SchemaKey(app.replica.space, collection)] == from
              && (forall i :: 0 <= i < |payloads| ==> payloads[i].Some? && |payloads[i].value| <= 0x100_0000)
              && (payloads == [] || app.replica.nextCounter + |payloads| <= I64_MAX)
  {
    hide RS.Inv, JournalInv, AP.NamesValid, AP.RowsAgree, AP.LogAgrees, RS.Union, RowsOf, AuthorRows, AppendEach, MigrateCollection, RS.RegisterSchema;
    var st, space := app.replica, app.replica.space;
    RS.RegistersExactly(st, collection, to.fingerprint);
    if RS.RegisterSchema(st, collection, to.fingerprint).Ok? {
      var registered := RS.RegisterSchema(st, collection, to.fingerprint).value;
      assert RS.Registered(registered.schemas, collection, to.fingerprint);
      AP.RegisterFrame(st, collection, to.fingerprint);
      var rows := RowsOf(app.db, space, collection);
      RowsAuthorExactly(registered, collection, rows, payloads, to, now);
      var outcomes := AuthorRows(registered, rows, payloads, to, now).outcomes;
      SR.MigrationSucceedsExactly(app.db, space, collection, from, to, outcomes, commits);
      if AP.AllDone(outcomes) {
        AP.AuthorRowsEffect(registered, rows, payloads, to, now);
        AP.AppendFollows(app.db.log, ChangesOf(outcomes), space, st.changes, AuthorRows(registered, rows, payloads, to, now).state.changes);
        OutcomesFit(outcomes, st.nextCounter);
      }
      assert 1 <= |collection| && |collection| <= 128 <==> RS.ValidName(collection);
      assert registered.nextCounter == st.nextCounter && registered.space == space;
      if Migrate(app, collection, from, to, payloads, now, commits).Ok? {
        assert AP.AllDone(outcomes);
      }
    }
  }

  lemma {:induction false} RowsAuthorExactly(st: RS.State, collection: Name, rows: seq<DocumentKey>, payloads: seq<Option<Bytes>>, to: StoredSchema, now: U64)
    requires |rows| == |payloads| && forall key :: key in rows ==> key.collection == collection
    requires 1 <= |collection| && |collection| <= 128 && RS.Registered(st.schemas, collection, to.fingerprint)
    ensures var outcomes := AuthorRows(st, rows, payloads, to, now).outcomes;
            && (AP.AllDone(outcomes) <==>
                  && (forall i :: 0 <= i < |payloads| ==> payloads[i].Some? && |payloads[i].value| <= 0x100_0000)
                  && (payloads == [] || st.nextCounter + |payloads| <= U64_MAX))
            && (AP.AllDone(outcomes) ==>
                  forall i :: 0 <= i < |rows| ==>
                    && Fits(st.space, to, rows[i], outcomes[i]) && outcomes[i].value.payload == payloads[i].value
                    && outcomes[i].value.change.id.counter == st.nextCounter + 1 + i)
    decreases |rows|
  {
    hide RS.Author;
    if rows != [] {
      assert rows[0] in rows;
      var outcomes := AuthorRows(st, rows, payloads, to, now).outcomes;
      if payloads[0].Some? {
        var op := AP.RowPut(rows[0], payloads[0].value, to);
        RS.AuthorsExactly(st, op, now);
        if RS.Author(st, op, now).Ok? {
          var next := RS.Author(st, op, now).value.state;
          AuthoredSchemas(st, op, now);
          RowsAuthorExactly(next, collection, rows[1..], payloads[1..], to, now);
          var rest := AuthorRows(next, rows[1..], payloads[1..], to, now).outcomes;
          assert outcomes[1..] == rest;
          assert AP.AllDone(outcomes) <==> AP.AllDone(rest) by {
            assert forall i :: 0 < i < |outcomes| ==> outcomes[i] == rest[i - 1];
            assert forall i :: 0 <= i < |rest| ==> rest[i] == outcomes[i + 1];
          }
          assert forall i :: 0 <= i < |payloads[1..]| ==> payloads[1..][i] == payloads[i + 1];
        } else {
          assert outcomes[0].None?;
        }
      } else {
        assert outcomes[0].None?;
      }
    }
  }

  lemma OutcomesFit(outcomes: seq<Option<Transformed>>, last: nat)
    requires AP.AllDone(outcomes)
    requires forall i :: 0 <= i < |outcomes| ==> outcomes[i].value.change.id.counter == last + 1 + i
    ensures (forall i :: 0 <= i < |outcomes| ==> outcomes[i].value.change.id.counter <= I64_MAX) <==> outcomes == [] || last + |outcomes| <= I64_MAX
  {
    if outcomes != [] {
      assert outcomes[|outcomes| - 1].value.change.id.counter == last + |outcomes|;
    }
  }

  lemma AuthoredSchemas(st: RS.State, op: Operation, now: U64)
    requires RS.Author(st, op, now).Ok?
    ensures var next := RS.Author(st, op, now).value.state; next.schemas == st.schemas && next.space == st.space
  {}

  // A call of a run has the effect of its operation, and none if that fails.
  lemma CallsTakeEffect(app: App, call: AP.Call)
    requires AP.Fitting(app, call)
    ensures var next := AP.Do(app, call);
            match call
            case Write(mutations, now, commits) => next == Outcome(Commit(app, mutations, now, commits), app)
            case Take(batch, at, commits) => next == Outcome(Import(app, batch, at, commits), app)
            case Convert(collection, from, to, payloads, now, commits) =>
              next == Outcome(Migrate(app, collection, from, to, payloads, now, commits), app)
            case Declare(name, schema, strategy) => next == Open(app, name, schema, strategy)
            case Trim(retain, commits) =>
              next.db == Outcome(Compact(app.db, retain, commits), app.db) && next == app.(db := next.db)
            case Grant(size, commits) =>
              next.db == (if Reserve(app.db, size, commits).Ok? then Reserve(app.db, size, commits).value.0 else app.db) && next == app.(db := next.db)
            case Restart(times) => next == Outcome(Reopen(app.db, times), app)
  {
    hide Commit, Import, Migrate, Open, Compact, Reserve, Reopen;
  }

  function Outcome<T, E>(r: Result<T, E>, otherwise: T): T {
    if r.Ok? then r.value else otherwise
  }
}
