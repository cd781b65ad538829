// An application as a party of a reconciliation session: what its import of a
// page does, exactly when it fails, and what its other operations amount to.
module AppPeer {
  import opened Wrappers
  import opened Ids
  import opened Changes
  import opened Keys
  import opened StoreState
  import opened AppState
  import RS = ReplicaState
  import AP = AppProof
  import R = Reconcile
  import RP = ReconcileProof

  function Fingerprints(schemas: map<Name, StoredSchema>): R.Current {
    map name | name in schemas :: schemas[name].fingerprint
  }

  function PeerOf(app: App): R.Peer {
    R.Peer(app.replica, Fingerprints(app.schemas))
  }

  // ---- when an import reaches the tables ----

  // A document of a merging collection whose winner is live merges.
  predicate Mergeable(st: RS.State, key: DocumentKey, schema: StoredSchema, mergers: map<Name, Strategy>) {
    key in st.documents && st.documents[key].payload.Some? && Merging(mergers, key.collection) ==>
      mergers[key.collection].merge(
        st.documents[key].payload.value,
        PayloadsAt(st.changes, ConcurrentIds(st.changes, key, schema.fingerprint, st.documents[key].change))).Some?
  }

  // The tables know the collection under no other schema.
  predicate Declared(db: Db, space: SpaceId, name: Name, schema: StoredSchema) {
    SchemaKey(space, name) in db.schemas ==> db.schemas[SchemaKey(space, name)] == schema
  }

  // Each affected document merges and is of a collection that the tables know
  // under the opened schema; the counters fit their column; the commit succeeds.
  predicate Storable(app: App, batch: seq<Change>, now: U64, commits: bool) {
    && commits
    && (forall c :: c in batch ==> c.id.counter <= I64_MAX)
    && (StageImport(app.replica, batch, app.mergers, now).Ok? ==>
          var staged := StageImport(app.replica, batch, app.mergers, now).value;
          forall key :: key in staged.affected && key.collection in app.schemas ==>
            && Mergeable(staged.state, key, app.schemas[key.collection], app.mergers)
            && Declared(app.db, app.replica.space, key.collection, app.schemas[key.collection]))
  }

  lemma {:induction false} SchemaProblemExactly(batch: seq<Change>, schemas: map<Name, StoredSchema>)
    ensures SchemaProblem(batch, schemas).None? <==> forall c :: c in batch ==> R.UsesCurrent(Fingerprints(schemas), c)
    decreases |batch|
  {
    if batch != [] {
      SchemaProblemExactly(batch[1..], schemas);
      assert R.UsesCurrent(Fingerprints(schemas), batch[0]) <==>
             batch[0].operation.collection in schemas
             && schemas[batch[0].operation.collection].fingerprint == batch[0].operation.schema;
      hide R.UsesCurrent;
      assert batch[0] in batch;
      assert forall c :: c in batch <==> c == batch[0] || c in batch[1..];
    }
  }

  lemma {:induction false} AffectedFromBatch(st: RS.State, batch: seq<Change>, mergers: map<Name, Strategy>, now: U64, key: DocumentKey)
    requires StageImport(st, batch, mergers, now).Ok? && key in StageImport(st, batch, mergers, now).value.affected
    ensures exists c :: c in batch && KeyOf(c.operation) == key
    decreases |batch|
  {
    hide RS.Receive;
    if batch != [] && key != KeyOf(batch[0].operation) {
      AffectedFromBatch(RS.Receive(st, batch[0], now).value.state, batch[1..], mergers, now, key);
      var c :| c in batch[1..] && KeyOf(c.operation) == key;
      assert c in batch;
    }
  }

  // What is affected was opened, and has a winner afterwards.
  lemma AffectedHaveWinners(app: App, batch: seq<Change>, now: U64, key: DocumentKey)
    requires RS.Inv(app.replica) && StageImport(app.replica, batch, app.mergers, now).Ok?
    requires SchemaProblem(batch, app.schemas).None?
    requires key in StageImport(app.replica, batch, app.mergers, now).value.affected
    ensures key.collection in app.schemas && RS.ValidName(key.collection)
    ensures key in StageImport(app.replica, batch, app.mergers, now).value.state.documents
  {
    hide RS.Inv, StageImport, SchemaProblem, RS.Import;
    AP.StageImportIsImport(app.replica, batch, app.mergers, now);
    RS.ImportIsUnion(app.replica, batch, now);
    SchemaProblemExactly(batch, app.schemas);
    AffectedFromBatch(app.replica, batch, app.mergers, now, key);
    var c :| c in batch && KeyOf(c.operation) == key;
    WinnerOf(RS.Import(app.replica, batch, now).value, c);
  }

  lemma WinnerOf(st: RS.State, c: Change)
    requires RS.Inv(st) && RS.Holds(st, c)
    ensures KeyOf(c.operation) in st.documents
  {
    hide RS.LogSound, RS.CounterExact, RS.ClockDominates, Contiguous;
  }

  lemma MaterializesExactly(st: RS.State, key: DocumentKey, schema: StoredSchema, mergers: map<Name, Strategy>)
    requires key in st.documents
    ensures Materialize(st, key, schema, StrategyOf(mergers, key.collection)).Ok? <==> Mergeable(st, key, schema, mergers)
    ensures Materialize(st, key, schema, StrategyOf(mergers, key.collection)).Ok? ==>
              var m := Materialize(st, key, schema, StrategyOf(mergers, key.collection)).value;
              m.collection == key.collection && m.schema == schema
  {
    hide ConcurrentIds;
  }

  // Every mutation is written under the schema its collection was opened with.
  predicate UnderOpened(mutations: seq<Mutation>, schemas: map<Name, StoredSchema>) {
    forall m :: m in mutations ==> m.collection in schemas && m.schema == schemas[m.collection]
  }

  lemma {:induction false} MaterializesAllExactly(st: RS.State, keys: seq<DocumentKey>, schemas: map<Name, StoredSchema>, mergers: map<Name, Strategy>)
    requires forall key :: key in keys ==> key in st.documents && key.collection in schemas
    ensures MaterializeAll(st, keys, schemas, mergers).Ok?
            <==> forall key :: key in keys ==> Mergeable(st, key, schemas[key.collection], mergers)
    ensures MaterializeAll(st, keys, schemas, mergers).Ok? ==>
              var mutations := MaterializeAll(st, keys, schemas, mergers).value;
              && UnderOpened(mutations, schemas)
              && |mutations| == |keys| && forall i :: 0 <= i < |keys| ==> mutations[i].collection == keys[i].collection
    decreases |keys|
  {
    hide Materialize, Mergeable;
    if keys != [] {
      MaterializesExactly(st, keys[0], schemas[keys[0].collection], mergers);
      MaterializesAllExactly(st, keys[1..], schemas, mergers);
      assert forall key :: key in keys <==> key == keys[0] || key in keys[1..];
    }
  }

  lemma {:induction false} WritesExactly(db: Db, space: SpaceId, mutations: seq<Mutation>, schemas: map<Name, StoredSchema>)
    requires UnderOpened(mutations, schemas)
    ensures ApplyEach(db, space, mutations).Ok?
            <==> forall m :: m in mutations ==> Declared(db, space, m.collection, schemas[m.collection])
    decreases |mutations|
  {
    if mutations != [] {
      var m, rest := mutations[0], mutations[1..];
      assert forall x :: x in mutations <==> x == m || x in rest;
      OneWriteExactly(db, space, m);
      if ApplyMutation(db, space, m).Ok? {
        WritesExactly(ApplyMutation(db, space, m).value.db, space, rest, schemas);
        hide ApplyMutation;
        forall x | x in rest
          ensures Declared(db, space, x.collection, schemas[x.collection])
             <==> Declared(ApplyMutation(db, space, m).value.db, space, x.collection, schemas[x.collection])
        {}
      }
    }
  }

  lemma OneWriteExactly(db: Db, space: SpaceId, m: Mutation)
    ensures ApplyMutation(db, space, m).Ok? <==> Declared(db, space, m.collection, m.schema)
    ensures ApplyMutation(db, space, m).Ok? ==>
              ApplyMutation(db, space, m).value.db.schemas == db.schemas[SchemaKey(space, m.collection) := m.schema]
  {
    var key := SchemaKey(space, m.collection);
    if key in db.schemas && db.schemas[key] == m.schema {
      assert db.schemas == db.schemas[key := m.schema];
    }
  }

  // Writing under the opened schemas leaves every collection under its own.
  lemma {:induction false} WritesKeepDeclared(db: Db, space: SpaceId, mutations: seq<Mutation>, schemas: map<Name, StoredSchema>, name: Name)
    requires UnderOpened(mutations, schemas) && ApplyEach(db, space, mutations).Ok?
    requires name in schemas && Declared(db, space, name, schemas[name])
    ensures Declared(ApplyEach(db, space, mutations).value.db, space, name, schemas[name])
    decreases |mutations|
  {
    hide ApplyMutation;
    if mutations != [] {
      assert mutations[0] in mutations;
      OneWriteExactly(db, space, mutations[0]);
      WritesKeepDeclared(ApplyMutation(db, space, mutations[0]).value.db, space, mutations[1..], schemas, name);
    }
  }

  // ---- the import of a page ----

  lemma StagedMutations(app: App, batch: seq<Change>, now: U64)
    requires RS.Inv(app.replica) && StageImport(app.replica, batch, app.mergers, now).Ok?
    requires SchemaProblem(batch, app.schemas).None?
    ensures var staged := StageImport(app.replica, batch, app.mergers, now).value;
            var all := MaterializeAll(staged.state, InOrder(staged.affected), app.schemas, app.mergers);
            && (forall key :: key in staged.affected ==> key.collection in app.schemas)
            && (all.Ok? <==> forall key :: key in staged.affected ==>
                  Mergeable(staged.state, key, app.schemas[key.collection], app.mergers))
            && (all.Ok? ==> forall m :: m in all.value ==> RS.ValidName(m.collection))
            && (all.Ok? ==> (ApplyEach(app.db, app.replica.space, all.value).Ok? <==>
                  forall key :: key in staged.affected ==>
                    Declared(app.db, app.replica.space, key.collection, app.schemas[key.collection])))
  {
    hide RS.Inv, StageImport, SchemaProblem, MaterializeAll, ApplyEach, Mergeable, Declared, UnderOpened;
    var staged := StageImport(app.replica, batch, app.mergers, now).value;
    var keys := InOrder(staged.affected);
    forall key | key in staged.affected
      ensures key.collection in app.schemas && RS.ValidName(key.collection) && key in staged.state.documents
    {
      AffectedHaveWinners(app, batch, now, key);
    }
    hide RS.ValidName;
    MaterializesAllExactly(staged.state, keys, app.schemas, app.mergers);
    if MaterializeAll(staged.state, keys, app.schemas, app.mergers).Ok? {
      StagedWrites(app.db, app.replica.space, keys, MaterializeAll(staged.state, keys, app.schemas, app.mergers).value, app.schemas);
    }
  }

  // The mutations are of the collections of the affected documents.
  lemma StagedWrites(db: Db, space: SpaceId, keys: seq<DocumentKey>, mutations: seq<Mutation>, schemas: map<Name, StoredSchema>)
    requires UnderOpened(mutations, schemas) && |mutations| == |keys|
    requires forall i :: 0 <= i < |keys| ==> mutations[i].collection == keys[i].collection
    requires forall key :: key in keys ==> key.collection in schemas && RS.ValidName(key.collection)
    ensures forall m :: m in mutations ==> RS.ValidName(m.collection)
    ensures ApplyEach(db, space, mutations).Ok?
            <==> forall key :: key in keys ==> Declared(db, space, key.collection, schemas[key.collection])
  {
    hide ApplyEach, Declared, RS.ValidName;
    WritesExactly(db, space, mutations, schemas);
    forall m | m in mutations ensures exists key :: key in keys && key.collection == m.collection {
      var i :| 0 <= i < |mutations| && mutations[i] == m;
      assert keys[i] in keys;
    }
    forall key | key in keys ensures exists m :: m in mutations && m.collection == key.collection {
      var i :| 0 <= i < |keys| && keys[i] == key;
      assert mutations[i] in mutations;
    }
  }

  // An application imports a page exactly when the party it plays takes it: the
  // page is of legal size, each change is acceptable under an opened schema and
  // collides with none, and the tables take what it does to the documents. Then
  // replica and opened schemas are what the session says.
  lemma ImportsAsPeer(app: App, batch: seq<Change>, now: U64, commits: bool, plain: iset<Name>)
    requires AP.AppInv(app, plain)
    ensures var at := R.Attempt(now, Storable(app, batch, now, commits));
            && (Import(app, batch, now, commits).Ok? <==> R.ApplyChanges(PeerOf(app), batch, at).Some?)
            && (Import(app, batch, now, commits).Ok? ==>
                  R.ApplyChanges(PeerOf(app), batch, at).value == PeerOf(Import(app, batch, now, commits).value))
            && (Import(app, batch, now, commits).Ok? <==>
                  |batch| <= MAX_IMPORT_CHANGES && R.Takes(PeerOf(app), batch, at) && RS.CollisionFree(app.replica.changes, batch))
  {
    hide RS.Inv, AP.RowsAgree, AP.LogAgrees, JournalInv, AP.NamesValid, RS.Import, StageImport, SchemaProblem, MaterializeAll, CommitRemote,
         RS.CollisionFree, RS.Acceptable, Mergeable, Declared;
    SchemaProblemExactly(batch, app.schemas);
    AP.StageImportIsImport(app.replica, batch, app.mergers, now);
    RS.ImportIsUnion(app.replica, batch, now);
    if batch == [] {
      assert RS.CollisionFree(app.replica.changes, []) by { NothingCollides(app.replica.changes); }
    } else if SchemaProblem(batch, app.schemas).None? && StageImport(app.replica, batch, app.mergers, now).Ok? {
      StagedMutations(app, batch, now);
      CommitsExactly(app, batch, now, commits, plain);
    }
  }

  lemma NothingCollides(changes: map<ChangeId, Change>)
    ensures RS.CollisionFree(changes, [])
  {}

  // An import changes no opened schema and no merging strategy, and leaves every
  // opened collection under its schema in the tables.
  lemma ImportKeepsSchemas(app: App, batch: seq<Change>, now: U64, commits: bool, name: Name)
    requires RS.Inv(app.replica) && Import(app, batch, now, commits).Ok?
    requires name in app.schemas && Declared(app.db, app.replica.space, name, app.schemas[name])
    ensures var next := Import(app, batch, now, commits).value;
            && next.schemas == app.schemas && next.mergers == app.mergers
            && RS.SameFrame(app.replica, next.replica)
            && Declared(next.db, next.replica.space, name, next.schemas[name])
  {
    hide RS.Inv, RS.Import, StageImport, SchemaProblem, MaterializeAll, ApplyEach, UnderOpened, AppendEach;
    AP.StageImportIsImport(app.replica, batch, app.mergers, now);
    RS.ImportIsUnion(app.replica, batch, now);
    if batch != [] {
      var staged := StageImport(app.replica, batch, app.mergers, now).value;
      var keys := InOrder(staged.affected);
      forall key | key in keys ensures key in staged.state.documents && key.collection in app.schemas {
        AffectedHaveWinners(app, batch, now, key);
      }
      MaterializesAllExactly(staged.state, keys, app.schemas, app.mergers);
      WritesKeepDeclared(app.db, app.replica.space, MaterializeAll(staged.state, keys, app.schemas, app.mergers).value, app.schemas, name);
    }
  }

  lemma CommitsExactly(app: App, batch: seq<Change>, now: U64, commits: bool, plain: iset<Name>)
    requires AP.AppInv(app, plain) && batch != [] && StageImport(app.replica, batch, app.mergers, now).Ok?
    requires var staged := StageImport(app.replica, batch, app.mergers, now).value;
             var all := MaterializeAll(staged.state, InOrder(staged.affected), app.schemas, app.mergers);
             all.Ok? ==> forall m :: m in all.value ==> RS.ValidName(m.collection)
    ensures var staged := StageImport(app.replica, batch, app.mergers, now).value;
            var all := MaterializeAll(staged.state, InOrder(staged.affected), app.schemas, app.mergers);
            all.Ok? ==>
              (CommitRemote(app.db, app.replica.space, all.value, batch, commits).Ok? <==>
                 && commits && (forall c :: c in batch ==> c.id.counter <= I64_MAX)
                 && ApplyEach(app.db, app.replica.space, all.value).Ok?)
  {
    hide RS.Inv, AP.RowsAgree, AP.LogAgrees, JournalInv, AP.NamesValid, RS.Import, StageImport, MaterializeAll, ApplyEach, AppendEach,
         RS.Union, RS.CollisionFree;
    AP.StageImportIsImport(app.replica, batch, app.mergers, now);
    RS.ImportIsUnion(app.replica, batch, now);
    var staged := StageImport(app.replica, batch, app.mergers, now).value;
    var all := MaterializeAll(staged.state, InOrder(staged.affected), app.schemas, app.mergers);
    if all.Ok? && ApplyEach(app.db, app.replica.space, all.value).Ok? {
      AP.EachEffect(app.db, app.replica.space, all.value);
      AP.AppendFollows(ApplyEach(app.db, app.replica.space, all.value).value.db.log, batch, app.replica.space,
                       app.replica.changes, staged.state.changes);
    }
  }

  // ---- an application's other work ----

  function Toil(p: R.Peer, works: seq<R.Labour>): R.Peer
    decreases |works|
  {
    if works == [] then p else Toil(R.Worked(p, works[0]), works[1..])
  }

  predicate AllOwn(works: seq<R.Labour>) {
    forall work :: work in works ==> RP.Own(work)
  }

  lemma {:induction false} ToilOn(p: R.Peer, first: seq<R.Labour>, rest: seq<R.Labour>)
    ensures Toil(p, first + rest) == Toil(Toil(p, first), rest)
    decreases |first|
  {
    hide R.Worked;
    if first == [] {
      assert first + rest == rest;
    } else {
      assert (first + rest)[1..] == first[1..] + rest;
      ToilOn(R.Worked(p, first[0]), first[1..], rest);
    }
  }

  lemma ToilOnce(p: R.Peer, work: R.Labour)
    ensures Toil(p, [work]) == R.Worked(p, work)
  {
    hide R.Worked;
    assert Toil(R.Worked(p, work), []) == R.Worked(p, work);
    assert [work][1..] == [];
  }

  lemma {:induction false} StagedIsLabour(p: R.Peer, mutations: seq<Mutation>, now: U64) returns (works: seq<R.Labour>)
    requires StageAll(p.replica, mutations, now).Ok?
    ensures AllOwn(works) && Toil(p, works) == p.(replica := StageAll(p.replica, mutations, now).value.state)
    decreases |mutations|
  {
    hide RS.Author, RS.RegisterSchema;
    if mutations == [] {
      works := [];
    } else {
      var m := mutations[0];
      var register := R.OnLog(RS.Register(m.collection, m.schema.fingerprint));
      var write := R.OnLog(RS.Write(OperationOf(m), now));
      ToilOnce(p, register);
      ToilOnce(R.Worked(p, register), write);
      ToilOn(p, [register], [write]);
      var first := p.(replica := StageOne(p.replica, m, now).value.state);
      assert Toil(p, [register] + [write]) == first;
      var rest := StagedIsLabour(first, mutations[1..], now);
      works := [register] + [write] + rest;
      ToilOn(p, [register] + [write], rest);
    }
  }

  lemma {:induction false} RowsAreLabour(p: R.Peer, rows: seq<DocumentKey>, payloads: seq<Option<Bytes>>, to: StoredSchema, now: U64)
    returns (works: seq<R.Labour>)
    requires |rows| == |payloads| && AP.AllDone(AuthorRows(p.replica, rows, payloads, to, now).outcomes)
    ensures AllOwn(works) && Toil(p, works) == p.(replica := AuthorRows(p.replica, rows, payloads, to, now).state)
    decreases |rows|
  {
    hide RS.Author;
    if rows == [] {
      works := [];
    } else {
      AP.AuthorRowsStep(p.replica, rows, payloads, to, now);
      var op := AP.RowPut(rows[0], payloads[0].value, to);
      var first := p.(replica := RS.Author(p.replica, op, now).value.state);
      ToilOnce(p, R.OnLog(RS.Write(op, now)));
      var rest := RowsAreLabour(first, rows[1..], payloads[1..], to, now);
      works := [R.OnLog(RS.Write(op, now))] + rest;
      ToilOn(p, [R.OnLog(RS.Write(op, now))], rest);
    }
  }

  lemma {:induction false} ReceivedIsLabour(p: R.Peer, batch: seq<Change>, at: U64) returns (works: seq<R.Labour>)
    requires RS.Import(p.replica, batch, at).Ok?
    ensures Toil(p, works) == p.(replica := RS.Import(p.replica, batch, at).value)
    decreases |batch|
  {
    hide RS.Receive;
    if batch == [] {
      works := [];
    } else {
      var step := R.OnLog(RS.Deliver(batch[0], at));
      var first := p.(replica := RS.Receive(p.replica, batch[0], at).value.state);
      ToilOnce(p, step);
      var rest := ReceivedIsLabour(first, batch[1..], at);
      works := [step] + rest;
      ToilOn(p, [step], rest);
    }
  }

  lemma Reopened(schemas: map<Name, StoredSchema>, name: Name, schema: StoredSchema)
    ensures Fingerprints(schemas[name := schema]) == Fingerprints(schemas)[name := schema.fingerprint]
  {}

  lemma MigrationIsLabour(app: App, call: AP.Call) returns (works: seq<R.Labour>)
    requires call.Convert? && AP.Fitting(app, call)
    requires Migrate(app, call.collection, call.from, call.to, call.payloads, call.now, call.commits).Ok?
    ensures AllOwn(works) && Toil(PeerOf(app), works) == PeerOf(AP.Do(app, call))
  {
    hide RS.RegisterSchema, AuthorRows, RowsOf, CheckTransformed, RewriteRows, AppendReplicated, CheckMigration, R.Worked, Fits;
    var adopt := R.Adopt(call.collection, call.to.fingerprint);
    var registered := RS.RegisterSchema(app.replica, call.collection, call.to.fingerprint).value;
    var rows := RowsOf(app.db, app.replica.space, call.collection);
    var r := AuthorRows(registered, rows, call.payloads, call.to, call.now);
    CheckedAllFit(app.replica.space, call.to, rows, r.outcomes);
    AllFitIsDone(app.replica.space, call.to, rows, r.outcomes);
    Reopened(app.schemas, call.collection, call.to);
    var first := R.Peer(registered, Fingerprints(app.schemas)[call.collection := call.to.fingerprint]);
    Adopted(PeerOf(app), call.collection, call.to.fingerprint);
    ToilOnce(PeerOf(app), adopt);
    var rest := RowsAreLabour(first, rows, call.payloads, call.to, call.now);
    works := [adopt] + rest;
    ToilOn(PeerOf(app), [adopt], rest);
  }

  lemma AllFitIsDone(space: SpaceId, to: StoredSchema, rows: seq<DocumentKey>, outcomes: seq<Option<Transformed>>)
    requires |rows| == |outcomes| && forall i :: 0 <= i < |rows| ==> Fits(space, to, rows[i], outcomes[i])
    ensures AP.AllDone(outcomes)
  {
    forall i | 0 <= i < |outcomes| ensures outcomes[i].Some? {
      assert Fits(space, to, rows[i], outcomes[i]);
    }
  }

  lemma Adopted(p: R.Peer, name: Name, schema: U64)
    requires RS.RegisterSchema(p.replica, name, schema).Ok?
    ensures R.Worked(p, R.Adopt(name, schema)) == R.Peer(RS.RegisterSchema(p.replica, name, schema).value, p.current[name := schema])
  {}

  // Beside a session, every call of an application, failed ones included, is a
  // run of local work; only an import from elsewhere is not its own work.
  lemma CallIsLabour(app: App, call: AP.Call) returns (works: seq<R.Labour>)
    requires AP.Fitting(app, call) && !call.Restart?
    ensures Toil(PeerOf(app), works) == PeerOf(AP.Do(app, call))
    ensures !call.Take? ==> AllOwn(works)
  {
    hide StageAll, CommitLocal, Migrate, RS.Import, RS.RegisterSchema, StageImport, MaterializeAll, CommitRemote, SchemaProblem, RowsOf, Compact, Reserve;
    works := [];
    match call {
      case Write(mutations, now, commits) =>
        if Commit(app, mutations, now, commits).Ok? {
          works := StagedIsLabour(PeerOf(app), mutations, now);
        }
      case Take(batch, at, commits) =>
        if Import(app, batch, at, commits).Ok? && batch != [] {
          AP.StageImportIsImport(app.replica, batch, app.mergers, at);
          works := ReceivedIsLabour(PeerOf(app), batch, at);
        }
      case Convert(collection, from, to, payloads, now, commits) =>
        if Migrate(app, collection, from, to, payloads, now, commits).Ok? {
          works := MigrationIsLabour(app, call);
        }
      case Declare(name, schema, strategy) =>
        if !(name in app.schemas && app.schemas[name] != schema) {
          Reopened(app.schemas, name, schema);
          works := [R.Adopt(name, schema.fingerprint)];
          ToilOnce(PeerOf(app), works[0]);
        }
      case _ =>
    }
  }
}
