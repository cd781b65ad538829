// The application object: every operation works on a clone of the replica,
// commits the store, and only then swaps the clone in.
module App {
  import opened Wrappers
  import opened Ids
  import opened Changes
  import opened Keys
  import opened StoreState
  import Durable = Store
  import Rep = Replica
  import RS = ReplicaState
  import opened AppState
  import AP = AppProof
  import SR = StoreReceipts

  function StagedSoFar(changes: seq<Change>, rest: Result<Staged, RS.Error>): Result<Staged, RS.Error> {
    match rest
    case Ok(staged) => Ok(Staged(staged.state, changes + staged.changes))
    case Err(e) => Err(e)
  }

  lemma StagedNothing(rest: Result<Staged, RS.Error>)
    ensures StagedSoFar([], rest) == rest
  {
    if rest.Ok? {
      assert [] + rest.value.changes == rest.value.changes;
    }
  }

  lemma StagedEnd(changes: seq<Change>, st: RS.State)
    ensures StagedSoFar(changes, Ok(Staged(st, []))) == Ok(Staged(st, changes))
  {
    assert changes + [] == changes;
  }

  lemma StagedStep(changes: seq<Change>, st: RS.State, mutations: seq<Mutation>, now: U64)
    requires mutations != []
    ensures StagedSoFar(changes, StageAll(st, mutations, now)) ==
            match StageOne(st, mutations[0], now)
            case Ok(first) => StagedSoFar(changes + [first.change], StageAll(first.state, mutations[1..], now))
            case Err(e) => Err(e)
  {
    hide StageOne;
    if StageOne(st, mutations[0], now).Ok? {
      var first := StageOne(st, mutations[0], now).value;
      var rest := StageAll(first.state, mutations[1..], now);
      if rest.Ok? {
        assert changes + ([first.change] + rest.value.changes) == changes + [first.change] + rest.value.changes;
      }
    }
  }

  lemma StagedSingle(st: RS.State, m: Mutation, now: U64)
    ensures StageAll(st, [m], now) ==
            match StageOne(st, m, now)
            case Ok(first) => Ok(Staged(first.state, [first.change]))
            case Err(e) => Err(e)
  {
    hide StageOne;
    assert [m][1..] == [];
    if StageOne(st, m, now).Ok? {
      var first := StageOne(st, m, now).value;
      assert StageAll(first.state, [], now) == Ok(Staged(first.state, []));
      assert [first.change] + [] == [first.change];
    }
  }

  function AffectedSoFar(affected: set<DocumentKey>, rest: Result<Imported, RS.Error>): Result<Imported, RS.Error> {
    match rest
    case Ok(imported) => Ok(Imported(imported.state, affected + imported.affected))
    case Err(e) => Err(e)
  }

  lemma AffectedNothing(rest: Result<Imported, RS.Error>)
    ensures AffectedSoFar({}, rest) == rest
  {
    if rest.Ok? {
      assert {} + rest.value.affected == rest.value.affected;
    }
  }

  lemma AffectedEnd(affected: set<DocumentKey>, st: RS.State)
    ensures AffectedSoFar(affected, Ok(Imported(st, {}))) == Ok(Imported(st, affected))
  {
    assert affected + {} == affected;
  }

  lemma AffectedStep(affected: set<DocumentKey>, st: RS.State, batch: seq<Change>, mergers: map<Name, Strategy>, now: U64)
    requires batch != []
    ensures AffectedSoFar(affected, StageImport(st, batch, mergers, now)) ==
            match RS.Receive(st, batch[0], now)
            case Ok(received) =>
              (var key := KeyOf(batch[0].operation);
               var here := received.apply.Applied? && (received.apply.visible || Merging(mergers, key.collection));
               AffectedSoFar(if here then affected + {key} else affected, StageImport(received.state, batch[1..], mergers, now)))
            case Err(e) => Err(e)
  {
    hide RS.Receive;
    if RS.Receive(st, batch[0], now).Ok? {
      var received := RS.Receive(st, batch[0], now).value;
      var rest := StageImport(received.state, batch[1..], mergers, now);
      if rest.Ok? {
        var key := KeyOf(batch[0].operation);
        assert affected + ({key} + rest.value.affected) == affected + {key} + rest.value.affected;
        assert affected + ({} + rest.value.affected) == affected + rest.value.affected;
      }
    }
  }

  function MadeSoFar(made: seq<Mutation>, rest: Result<seq<Mutation>, AppError>): Result<seq<Mutation>, AppError> {
    match rest
    case Ok(more) => Ok(made + more)
    case Err(e) => Err(e)
  }

  lemma MadeStep(made: seq<Mutation>, st: RS.State, keys: seq<DocumentKey>, schemas: map<Name, StoredSchema>, mergers: map<Name, Strategy>)
    requires keys != []
    ensures MadeSoFar(made, MaterializeAll(st, keys, schemas, mergers)) ==
            if keys[0].collection !in schemas then Err(NotOpened)
            else match Materialize(st, keys[0], schemas[keys[0].collection], StrategyOf(mergers, keys[0].collection))
                 case Ok(first) => MadeSoFar(made + [first], MaterializeAll(st, keys[1..], schemas, mergers))
                 case Err(e) => Err(e)
  {
    hide Materialize;
    if keys[0].collection in schemas {
      var first := Materialize(st, keys[0], schemas[keys[0].collection], StrategyOf(mergers, keys[0].collection));
      var rest := MaterializeAll(st, keys[1..], schemas, mergers);
      if first.Ok? && rest.Ok? {
        assert made + ([first.value] + rest.value) == made + [first.value] + rest.value;
      }
    }
  }

  lemma MadeEnds(made: seq<Mutation>, rest: Result<seq<Mutation>, AppError>)
    ensures MadeSoFar([], rest) == rest
    ensures MadeSoFar(made, Ok([])) == Ok(made)
  {
    if rest.Ok? {
      assert [] + rest.value == rest.value;
    }
    assert made + [] == made;
  }

  // The flags of a committed import.
  lemma RemoteReports(app: AppState.App, batch: seq<Change>, now: U64, commits: bool, mutations: seq<Mutation>)
    requires batch != [] && Import(app, batch, now, commits).Ok?
    requires CommitRemote(app.db, app.replica.space, mutations, batch, commits).Ok?
    ensures var flags := CommitRemote(app.db, app.replica.space, mutations, batch, commits).value.inserted;
            && |flags| == |batch| && (forall i :: 0 <= i < |batch| ==> (flags[i] <==> SR.NewAt(app.db.log, batch, i)))
            && (AP.AppInv(app, iset{}) ==>
                  |Import(app, batch, now, commits).value.replica.changes| == |app.replica.changes| + AP.Trues(flags))
  {
    hide StageImport, MaterializeAll, InOrder, SchemaProblem, AppendEach, SR.Effects, SR.Numbered, SR.NewAt, RS.Inv, RS.Union, RS.Import,
         AP.LogAgrees, AP.RowsAgree, AP.NamesValid, JournalInv, CommitBoth;
    SR.CommitReports(app.db, app.replica.space, mutations, batch, commits);
    if AP.AppInv(app, iset{}) {
      AP.StageImportIsImport(app.replica, batch, app.mergers, now);
      RS.ImportIsUnion(app.replica, batch, now);
      SR.NewCountsGrowth(app.db.log, batch, app.replica.space, app.replica.changes, Import(app, batch, now, commits).value.replica.changes);
    }
  }

  class App {
    const store: Durable.Store
    var replica: Rep.Replica
    var schemas: map<Name, StoredSchema>
    var mergers: map<Name, Strategy>

    function View(): AppState.App
      reads this, store, replica, replica.clock
    {
      AppState.App(store.tables, replica.View(), schemas, mergers)
    }

    ghost predicate Valid()
      reads this, store, replica, replica.clock
    {
      store.Valid() && replica.Valid()
    }

    constructor (store: Durable.Store, replica: Rep.Replica, schemas: map<Name, StoredSchema>)
      requires store.Valid() && replica.Valid()
      ensures Valid() && this.store == store && this.replica == replica
      ensures View() == AppState.App(store.tables, replica.View(), schemas, map[])
    {
      this.store, this.replica, this.schemas, mergers := store, replica, schemas, map[];
    }

    // Registers the schema and authors one change on the staged replica.
    static method Stage(staged: Rep.Replica, m: Mutation, now: U64) returns (r: Result<Change, RS.Error>)
      requires staged.Valid()
      modifies staged, staged.clock
      ensures staged.Valid()
      ensures match StageOne(old(staged.View()), m, now)
              case Ok(authored) => r == Ok(authored.change) && staged.View() == authored.state
              case Err(e) => r == Err(e)
    {
      hide RS.Inv, RS.Author;
      var registered := staged.Register(m.collection, m.schema.fingerprint);
      if registered.Err? {
        return Err(registered.error);
      }
      r := staged.AuthorChange(OperationOf(m), now);
    }

    // One put or delete.
    method Write(m: Mutation, now: U64, commits: bool) returns (r: Result<seq<Applied>, AppError>)
      requires Valid()
      modifies this`replica, store
      ensures Valid()
      ensures match Commit(old(View()), [m], now, commits)
              case Ok(next) => r.Ok? && View() == next
              case Err(e) => r == Err(e) && View() == old(View())
      ensures r.Ok? ==>
                var row, number := RowKey(old(replica.space), KeyOfMutation(m)), old(store.tables.sequence) + 1;
                r.value == if m.Put? then [Applied(PutKind, row.key, number)]
                           else if row in old(store.tables.documents) then [Applied(DeleteKind, row.key, number)] else []
    {
      hide RS.Inv, JournalInv, StageOne, CommitLocal, StageAll;
      StagedSingle(replica.View(), m, now);
      var staged := new Rep.Replica.Clone(replica);
      var change := Stage(staged, m, now);
      if change.Err? {
        return Err(FromReplica(change.error));
      }
      var committed := store.CommitLocalWrites(replica.space, [m], [change.value], commits);
      if committed.Err? {
        return Err(FromStore(committed.error));
      }
      SR.LocalReports(old(store.tables), replica.space, [m], [change.value], commits);
      SR.SingleEffect(old(store.tables.documents.Keys), replica.space, m);
      replica := staged;
      r := Ok(committed.value.0);
    }

    // All staged mutations, or none.
    method CommitTransaction(mutations: seq<Mutation>, now: U64, commits: bool) returns (r: Result<seq<Applied>, AppError>)
      requires Valid()
      modifies this`replica, store
      ensures Valid()
      ensures match Commit(old(View()), mutations, now, commits)
              case Ok(next) => r.Ok? && View() == next
              case Err(e) => r == Err(e) && View() == old(View())
      ensures r.Ok? ==>
                SR.Numbered(old(store.tables), old(replica.space),
                            SR.Effects(old(store.tables.documents.Keys), old(replica.space), mutations), store.tables, r.value)
    {
      hide RS.Inv, JournalInv, StageOne, CommitLocal, StagedSoFar, SR.Effects, SR.Numbered, SR.NewAt;
      var staged := new Rep.Replica.Clone(replica);
      var changes, i := [], 0;
      assert mutations[0..] == mutations;
      StagedNothing(StageAll(staged.View(), mutations, now));
      while i < |mutations|
        invariant 0 <= i <= |mutations|
        invariant staged.Valid() && fresh(staged) && fresh(staged.clock)
        invariant StagedSoFar(changes, StageAll(staged.View(), mutations[i..], now)) == StageAll(replica.View(), mutations, now)
        modifies staged, staged.clock
      {
        hide StageAll;
        assert mutations[i..][0] == mutations[i] && mutations[i..][1..] == mutations[i + 1..];
        StagedStep(changes, staged.View(), mutations[i..], now);
        var change := Stage(staged, mutations[i], now);
        if change.Err? {
          return Err(FromReplica(change.error));
        }
        changes := changes + [change.value];
        i := i + 1;
      }
      StagedEnd(changes, staged.View());
      var committed := store.CommitLocalWrites(replica.space, mutations, changes, commits);
      if committed.Err? {
        return Err(FromStore(committed.error));
      }
      SR.LocalReports(old(store.tables), replica.space, mutations, changes, commits);
      replica := staged;
      r := Ok(committed.value.0);
    }

    method StageBatch(staged: Rep.Replica, batch: seq<Change>, now: U64) returns (r: Result<set<DocumentKey>, RS.Error>)
      requires staged.Valid()
      modifies staged, staged.clock
      ensures staged.Valid()
      ensures match StageImport(old(staged.View()), batch, old(mergers), now)
              case Ok(imported) => r == Ok(imported.affected) && staged.View() == imported.state
              case Err(e) => r == Err(e)
    {
      hide RS.Inv, RS.Receive, AffectedSoFar;
      var affected: set<DocumentKey> := {};
      var i := 0;
      assert batch[0..] == batch;
      AffectedNothing(StageImport(staged.View(), batch, mergers, now));
      while i < |batch|
        invariant 0 <= i <= |batch|
        invariant staged.Valid()
        invariant AffectedSoFar(affected, StageImport(staged.View(), batch[i..], mergers, now))
               == StageImport(old(staged.View()), batch, mergers, now)
      {
        hide StageImport;
        assert batch[i..][0] == batch[i] && batch[i..][1..] == batch[i + 1..];
        AffectedStep(affected, staged.View(), batch[i..], mergers, now);
        var applied := staged.ApplyChange(batch[i], now);
        if applied.Err? {
          return Err(applied.error);
        }
        var key := KeyOf(batch[i].operation);
        if applied.value.Applied? && (applied.value.visible || Merging(mergers, key.collection)) {
          affected := affected + {key};
        }
        i := i + 1;
      }
      AffectedEnd(affected, staged.View());
      r := Ok(affected);
    }

    method MaterializeKeys(staged: Rep.Replica, keys: seq<DocumentKey>) returns (r: Result<seq<Mutation>, AppError>)
      ensures r == MaterializeAll(staged.View(), keys, schemas, mergers)
    {
      hide Materialize, MadeSoFar;
      var made, i := [], 0;
      assert keys[0..] == keys;
      MadeEnds([], MaterializeAll(staged.View(), keys, schemas, mergers));
      while i < |keys|
        invariant 0 <= i <= |keys|
        invariant MadeSoFar(made, MaterializeAll(staged.View(), keys[i..], schemas, mergers))
               == MaterializeAll(staged.View(), keys, schemas, mergers)
      {
        hide MaterializeAll;
        assert keys[i..][0] == keys[i] && keys[i..][1..] == keys[i + 1..];
        MadeStep(made, staged.View(), keys[i..], schemas, mergers);
        var name := keys[i].collection;
        if name !in schemas {
          return Err(NotOpened);
        }
        var one := Materialize(staged.View(), keys[i], schemas[name], StrategyOf(mergers, name));
        if one.Err? {
          return Err(one.error);
        }
        made := made + [one.value];
        i := i + 1;
      }
      MadeEnds(made, Ok([]));
      r := Ok(made);
    }

    // A batch is imported as a whole or leaves everything unchanged.
    method ImportChanges(batch: seq<Change>, now: U64, commits: bool) returns (r: Result<seq<bool>, AppError>)
      requires Valid()
      modifies this`replica, store
      ensures Valid()
      ensures match Import(old(View()), batch, now, commits)
              case Ok(next) => r.Ok? && View() == next
              case Err(e) => r == Err(e) && View() == old(View())
      ensures r.Ok? ==>
                && |r.value| == |batch|
                && forall i :: 0 <= i < |batch| ==> (r.value[i] <==> SR.NewAt(old(store.tables.log), batch, i))
      ensures r.Ok? && old(AP.AppInv(View(), iset{})) ==>
                |View().replica.changes| == |old(View().replica.changes)| + AP.Trues(r.value)
    {
      hide RS.Inv, JournalInv, StageImport, MaterializeAll, CommitRemote, InOrder, SchemaProblem, AP.AppInv, SR.NewAt;
      if |batch| > MAX_IMPORT_CHANGES {
        return Err(TooMany);
      }
      if batch == [] {
        return Ok([]);
      }
      var problem := SchemaProblem(batch, schemas);
      if problem.Some? {
        return Err(problem.value);
      }
      var staged := new Rep.Replica.Clone(replica);
      var affected := StageBatch(staged, batch, now);
      if affected.Err? {
        return Err(FromReplica(affected.error));
      }
      var mutations := MaterializeKeys(staged, InOrder(affected.value));
      if mutations.Err? {
        return Err(mutations.error);
      }
      var committed := store.CommitRemoteChanges(replica.space, mutations.value, batch, commits);
      if committed.Err? {
        return Err(FromStore(committed.error));
      }
      RemoteReports(old(View()), batch, now, commits, mutations.value);
      replica := staged;
      r := Ok(committed.value.1);
    }

    // The closure that the store's migration loop runs on each row.
    static method AuthorEach(staged: Rep.Replica, rows: seq<DocumentKey>, payloads: seq<Option<Bytes>>, to: StoredSchema, now: U64)
      returns (outcomes: seq<Option<Transformed>>)
      requires staged.Valid() && |rows| == |payloads|
      modifies staged, staged.clock
      ensures staged.Valid()
      ensures Rewritten(staged.View(), outcomes) == AuthorRows(old(staged.View()), rows, payloads, to, now)
    {
      hide RS.Inv, RS.Author;
      outcomes := [];
      var i := 0;
      assert rows[0..] == rows && payloads[0..] == payloads;
      ghost var all := AuthorRows(staged.View(), rows, payloads, to, now);
      assert [] + all.outcomes == all.outcomes;
      while i < |rows|
        invariant 0 <= i <= |rows| && |outcomes| == i
        invariant staged.Valid()
        invariant var rest := AuthorRows(staged.View(), rows[i..], payloads[i..], to, now);
                  all == Rewritten(rest.state, outcomes + rest.outcomes)
      {
        ghost var rest := AuthorRows(staged.View(), rows[i..], payloads[i..], to, now);
        assert rows[i..][1..] == rows[i + 1..] && payloads[i..][1..] == payloads[i + 1..];
        assert rows[i..][0] == rows[i] && payloads[i..][0] == payloads[i];
        var change: Option<Transformed> := None;
        if payloads[i].Some? {
          var authored := staged.AuthorChange(Operation.Put(rows[i].collection, rows[i].document, to.fingerprint, payloads[i].value), now);
          if authored.Ok? {
            change := Some(Transformed(payloads[i].value, authored.value));
          }
        }
        if change.None? {
          outcomes := outcomes + seq(|rows| - i, _ => None);
          return;
        }
        ghost var more := AuthorRows(staged.View(), rows[i + 1..], payloads[i + 1..], to, now);
        assert outcomes + ([change] + more.outcomes) == outcomes + [change] + more.outcomes;
        outcomes := outcomes + [change];
        i := i + 1;
      }
      assert outcomes + [] == outcomes;
    }

    method MigrateCollectionRows(collection: Name, from: StoredSchema, to: StoredSchema,
                                 payloads: seq<Option<Bytes>>, now: U64, commits: bool) returns (r: Result<(), AppError>)
      requires Valid() && |payloads| == |RowsOf(store.tables, replica.space, collection)|
      modifies this`replica, this`schemas, store
      ensures Valid()
      ensures match Migrate(old(View()), collection, from, to, payloads, now, commits)
              case Ok(next) => r == Ok(()) && View() == next
              case Err(e) => r == Err(e) && View() == old(View())
    {
      hide RS.Inv, JournalInv, AuthorRows, MigrateCollection, RowsOf;
      var staged := new Rep.Replica.Clone(replica);
      var registered := staged.Register(collection, to.fingerprint);
      if registered.Err? {
        return Err(FromReplica(registered.error));
      }
      var rows := RowsOf(store.tables, replica.space, collection);
      var outcomes := AuthorEach(staged, rows, payloads, to, now);
      var migrated := store.MigrateRows(replica.space, collection, from, to, outcomes, commits);
      if migrated.Err? {
        return Err(FromStore(migrated.error));
      }
      replica := staged;
      schemas := schemas[collection := to];
      r := Ok(());
    }

    method OpenCollection(name: Name, schema: StoredSchema, strategy: Strategy)
      requires Valid()
      modifies this`schemas, this`mergers, replica
      ensures Valid()
      ensures View() == Open(old(View()), name, schema, strategy)
    {
      hide RS.Inv, JournalInv;
      if name in schemas && schemas[name] != schema {
        return;
      }
      schemas := schemas[name := schema];
      var registered := replica.Register(name, schema.fingerprint);
      mergers := mergers[name := strategy];
    }

    // Rebuilds the replica from the durable schemas and log.
    static method OpenStore(store: Durable.Store, times: seq<U64>) returns (r: Result<App, AppError>)
      requires store.Valid() && |times| == |ReplicatedChanges(store.tables)|
      ensures match Reopen(store.tables, times)
              case Ok(next) => r.Ok? && fresh(r.value) && r.value.Valid() && r.value.store == store && r.value.View() == next
              case Err(e) => r == Err(e)
    {
      hide RS.Inv, JournalInv, ReplicatedChanges, NamesOf, DurableSchemas, RS.RegisterSchema, RS.Receive;
      var db := store.tables;
      var replica := new Rep.Replica(db.replica, db.space);
      var known := DurableSchemas(db, db.space);
      var names, i := NamesOf(known), 0;
      assert names[0..] == names;
      while i < |names|
        invariant 0 <= i <= |names|
        invariant replica.Valid() && fresh(replica) && fresh(replica.clock)
        invariant RegisterNames(replica.View(), names[i..], known) == RegisterNames(RS.Fresh(db.replica, db.space), names, known)
        modifies replica
      {
        assert names[i..][0] == names[i] && names[i..][1..] == names[i + 1..];
        assert names[i] in names;
        var registered := replica.Register(names[i], known[names[i]].fingerprint);
        if registered.Err? {
          return Err(FromReplica(registered.error));
        }
        i := i + 1;
      }
      var changes := ReplicatedChanges(db);
      i := 0;
      ghost var opened0 := replica.View();
      assert changes[0..] == changes;
      while i < |changes|
        invariant 0 <= i <= |changes|
        invariant replica.Valid() && fresh(replica) && fresh(replica.clock)
        invariant RegisterUsed(replica.View(), changes[i..]) == RegisterUsed(opened0, changes)
        modifies replica
      {
        assert changes[i..][0] == changes[i] && changes[i..][1..] == changes[i + 1..];
        var registered := replica.Register(changes[i].operation.collection, changes[i].operation.schema);
        if registered.Err? {
          return Err(FromReplica(registered.error));
        }
        i := i + 1;
      }
      i := 0;
      ghost var registered0 := replica.View();
      assert times[0..] == times;
      while i < |changes|
        invariant 0 <= i <= |changes|
        invariant replica.Valid() && fresh(replica) && fresh(replica.clock)
        invariant Replay(replica.View(), changes[i..], times[i..]) == Replay(registered0, changes, times)
        modifies replica, replica.clock
      {
        assert changes[i..][0] == changes[i] && changes[i..][1..] == changes[i + 1..];
        assert times[i..][0] == times[i] && times[i..][1..] == times[i + 1..];
        var applied := replica.ApplyChange(changes[i], times[i]);
        if applied.Err? {
          return Err(FromReplica(applied.error));
        }
        i := i + 1;
      }
      var app := new App(store, replica, known);
      r := Ok(app);
    }
  }
}
