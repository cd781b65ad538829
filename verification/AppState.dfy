// One application as a value: durable tables, the in-memory replica, and the
// schemas it has opened. Every operation works on a staged replica, commits
// the tables, and only then replaces the replica.
module AppState {
  import opened Wrappers
  import opened Ids
  import opened Changes
  import opened Keys
  import opened StoreState
  import RS = ReplicaState

  const MAX_IMPORT_CHANGES := 4096

  // How a collection merges concurrent payloads into the winning one; it may
  // fail to decode or merge.
  datatype Strategy = Strategy(enabled: bool, merge: (Bytes, seq<Bytes>) -> Option<Bytes>)

  datatype App = App(db: Db, replica: RS.State, schemas: map<Name, StoredSchema>, mergers: map<Name, Strategy>)

  datatype AppError =
    | FromReplica(reason: RS.Error) | FromStore(cause: StoreError)
    | TooMany | NotOpened | WrongSchema | NoWinner | MergeFailed

  // ---- local writes ----

  function OperationOf(m: Mutation): Operation {
    match m
    case Put(collection, document, payload, schema) => Operation.Put(collection, document, schema.fingerprint, payload)
    case Delete(collection, document, schema) => Operation.Delete(collection, document, schema.fingerprint)
  }

  datatype Staged = Staged(state: RS.State, changes: seq<Change>)

  function StageOne(st: RS.State, m: Mutation, now: U64): Result<RS.Authored, RS.Error> {
    match RS.RegisterSchema(st, m.collection, m.schema.fingerprint)
    case Err(e) => Err(e)
    case Ok(registered) => RS.Author(registered, OperationOf(m), now)
  }

  function StageAll(st: RS.State, mutations: seq<Mutation>, now: U64): Result<Staged, RS.Error>
    decreases |mutations|
  {
    if mutations == [] then Ok(Staged(st, []))
    else
      match StageOne(st, mutations[0], now)
      case Err(e) => Err(e)
      case Ok(first) =>
        match StageAll(first.state, mutations[1..], now)
        case Err(e) => Err(e)
        case Ok(rest) => Ok(Staged(rest.state, [first.change] + rest.changes))
  }

  // A transaction; a single put or delete is a transaction of one mutation.
  function Commit(app: App, mutations: seq<Mutation>, now: U64, commits: bool): Result<App, AppError> {
    match StageAll(app.replica, mutations, now)
    case Err(e) => Err(FromReplica(e))
    case Ok(staged) =>
      match CommitLocal(app.db, app.replica.space, mutations, staged.changes, commits)
      case Err(e) => Err(FromStore(e))
      case Ok(committed) => Ok(app.(db := committed.db, replica := staged.state))
  }

  // ---- materialising one document ----

  function Newest(changes: map<ChangeId, Change>, ids: seq<ChangeId>): (r: Option<ChangeId>)
    requires forall id :: id in ids ==> id in changes
    ensures r.Some? ==> r.value in ids
  {
    if ids == [] then None
    else
      match Newest(changes, ids[1..])
      case None => Some(ids[0])
      case Some(best) =>
        if Later(changes[ids[0]].timestamp, ids[0], changes[best].timestamp, best) then Some(ids[0]) else Some(best)
  }

  function DeletesOf(changes: map<ChangeId, Change>, key: DocumentKey): (r: seq<ChangeId>)
    ensures forall id :: id in r <==> id in changes && KeyOf(changes[id].operation) == key && changes[id].operation.Delete?
  {
    Ascending(set id | id in changes && KeyOf(changes[id].operation) == key && changes[id].operation.Delete?)
  }

  // The puts of the document, other than the winner, under the given schema
  // and later than the latest delete, in log order.
  function ConcurrentIds(changes: map<ChangeId, Change>, key: DocumentKey, schema: U64, winner: ChangeId): (r: seq<ChangeId>)
    ensures forall id :: id in r ==> id in changes && changes[id].operation.Put?
  {
    var deleted := Newest(changes, DeletesOf(changes, key));
    Ascending(set id | id in changes && KeyOf(changes[id].operation) == key
                       && changes[id].operation.schema == schema
                       && (deleted.None? || Later(changes[id].timestamp, id, changes[deleted.value].timestamp, deleted.value))
                       && id != winner
                       && changes[id].operation.Put?)
  }

  function PayloadsAt(changes: map<ChangeId, Change>, ids: seq<ChangeId>): (r: seq<Bytes>)
    requires forall id :: id in ids ==> id in changes && changes[id].operation.Put?
    ensures |r| == |ids| && forall i :: 0 <= i < |r| ==> r[i] == changes[ids[i]].operation.payload
  {
    seq(|ids|, i requires 0 <= i < |ids| => changes[ids[i]].operation.payload)
  }

  function Materialize(st: RS.State, key: DocumentKey, schema: StoredSchema, strategy: Option<Strategy>): Result<Mutation, AppError> {
    if key !in st.documents then Err(NoWinner)
    else
      match st.documents[key].payload
      case None => Ok(Mutation.Delete(key.collection, key.document, schema))
      case Some(payload) =>
        if strategy.Some? && strategy.value.enabled then
          var concurrent := PayloadsAt(st.changes, ConcurrentIds(st.changes, key, schema.fingerprint, st.documents[key].change));
          match strategy.value.merge(payload, concurrent)
          case None => Err(MergeFailed)
          case Some(merged) => Ok(Mutation.Put(key.collection, key.document, merged, schema))
        else Ok(Mutation.Put(key.collection, key.document, payload, schema))
  }

  // ---- importing a batch ----

  function StrategyOf(mergers: map<Name, Strategy>, name: Name): Option<Strategy> {
    if name in mergers then Some(mergers[name]) else None
  }

  predicate Merging(mergers: map<Name, Strategy>, name: Name) {
    name in mergers && mergers[name].enabled
  }

  // The first change of an unopened collection or another schema decides.
  function SchemaProblem(batch: seq<Change>, schemas: map<Name, StoredSchema>): Option<AppError>
    decreases |batch|
  {
    if batch == [] then None
    else if batch[0].operation.collection !in schemas then Some(NotOpened)
    else if schemas[batch[0].operation.collection].fingerprint != batch[0].operation.schema then Some(WrongSchema)
    else SchemaProblem(batch[1..], schemas)
  }

  datatype Imported = Imported(state: RS.State, affected: set<DocumentKey>)

  // Affected are the documents with a new visible winner, and every document
  // of a merging collection with a new change.
  function StageImport(st: RS.State, batch: seq<Change>, mergers: map<Name, Strategy>, now: U64): Result<Imported, RS.Error>
    decreases |batch|
  {
    if batch == [] then Ok(Imported(st, {}))
    else
      var key := KeyOf(batch[0].operation);
      match RS.Receive(st, batch[0], now)
      case Err(e) => Err(e)
      case Ok(received) =>
        match StageImport(received.state, batch[1..], mergers, now)
        case Err(e) => Err(e)
        case Ok(rest) =>
          var here := received.apply.Applied? && (received.apply.visible || Merging(mergers, key.collection));
          Ok(Imported(rest.state, (if here then {key} else {}) + rest.affected))
  }

  function MaterializeAll(st: RS.State, keys: seq<DocumentKey>, schemas: map<Name, StoredSchema>,
                          mergers: map<Name, Strategy>): Result<seq<Mutation>, AppError>
    decreases |keys|
  {
    if keys == [] then Ok([])
    else if keys[0].collection !in schemas then Err(NotOpened)
    else
      match Materialize(st, keys[0], schemas[keys[0].collection], StrategyOf(mergers, keys[0].collection))
      case Err(e) => Err(e)
      case Ok(first) =>
        match MaterializeAll(st, keys[1..], schemas, mergers)
        case Err(e) => Err(e)
        case Ok(rest) => Ok([first] + rest)
  }

  function Import(app: App, batch: seq<Change>, now: U64, commits: bool): Result<App, AppError> {
    if |batch| > MAX_IMPORT_CHANGES then Err(TooMany)
    else if batch == [] then Ok(app)
    else if SchemaProblem(batch, app.schemas).Some? then Err(SchemaProblem(batch, app.schemas).value)
    else
      match StageImport(app.replica, batch, app.mergers, now)
      case Err(e) => Err(FromReplica(e))
      case Ok(staged) =>
        match MaterializeAll(staged.state, InOrder(staged.affected), app.schemas, app.mergers)
        case Err(e) => Err(e)
        case Ok(mutations) =>
          match CommitRemote(app.db, app.replica.space, mutations, batch, commits)
          case Err(e) => Err(FromStore(e))
          case Ok(committed) => Ok(app.(db := committed.db, replica := staged.state))
  }

  // ---- migrating a collection ----

  datatype Rewritten = Rewritten(state: RS.State, outcomes: seq<Option<Transformed>>)

  // `payloads` is what the caller's transformation makes of each row; a failure
  // there or in authoring ends the pass.
  function AuthorRows(st: RS.State, rows: seq<DocumentKey>, payloads: seq<Option<Bytes>>, to: StoredSchema, now: U64): (r: Rewritten)
    requires |rows| == |payloads|
    ensures |r.outcomes| == |rows|
    decreases |rows|
  {
    if rows == [] then Rewritten(st, [])
    else
      var failed := Rewritten(st, seq(|rows|, _ => None));
      if payloads[0].None? then failed
      else
        var op := Operation.Put(rows[0].collection, rows[0].document, to.fingerprint, payloads[0].value);
        match RS.Author(st, op, now)
        case Err(_) => failed
        case Ok(authored) =>
          var rest := AuthorRows(authored.state, rows[1..], payloads[1..], to, now);
          Rewritten(rest.state, [Some(Transformed(payloads[0].value, authored.change))] + rest.outcomes)
  }

  function Migrate(app: App, collection: Name, from: StoredSchema, to: StoredSchema,
                   payloads: seq<Option<Bytes>>, now: U64, commits: bool): Result<App, AppError>
    requires |payloads| == |RowsOf(app.db, app.replica.space, collection)|
  {
    match RS.RegisterSchema(app.replica, collection, to.fingerprint)
    case Err(e) => Err(FromReplica(e))
    case Ok(registered) =>
      var rows := RowsOf(app.db, app.replica.space, collection);
      var rewritten := AuthorRows(registered, rows, payloads, to, now);
      match MigrateCollection(app.db, app.replica.space, collection, from, to, rewritten.outcomes, commits)
      case Err(e) => Err(FromStore(e))
      case Ok(db) => Ok(app.(db := db, replica := rewritten.state, schemas := app.schemas[collection := to]))
  }

  // ---- opening a typed collection, and reopening the application ----

  function Open(app: App, name: Name, schema: StoredSchema, strategy: Strategy): App {
    if name in app.schemas && app.schemas[name] != schema then app
    else
      var registered := RS.RegisterSchema(app.replica, name, schema.fingerprint);
      app.(schemas := app.schemas[name := schema],
           replica := if registered.Ok? then registered.value else app.replica,
           mergers := app.mergers[name := strategy])
  }

  function DurableSchemas(db: Db, space: SpaceId): map<Name, StoredSchema> {
    map key | key in db.schemas && key.space == space :: key.collection := db.schemas[key]
  }

  // Every retained change of a space, in author and counter order.
  function ReplicatedChanges(db: Db): (r: seq<Change>)
    ensures |r| == |set key | key in db.log && key.space == db.space :: key.id|
  {
    var ids := Ascending(set key | key in db.log && key.space == db.space :: key.id);
    seq(|ids|, i requires 0 <= i < |ids| => assert ids[i] in ids; db.log[LogKey(db.space, ids[i])])
  }

  function NamesOf(schemas: map<Name, StoredSchema>): (r: seq<Name>)
    ensures forall name :: name in r <==> name in schemas
  {
    var keys := InOrder(set name | name in schemas :: DocumentKey(name, 0));
    var r := seq(|keys|, i requires 0 <= i < |keys| => keys[i].collection);
    assert forall name :: name in r <==> name in schemas by {
      forall name | name in schemas ensures name in r {
        assert DocumentKey(name, 0) in keys;
        var i :| 0 <= i < |keys| && keys[i] == DocumentKey(name, 0);
        assert r[i] == name;
      }
      forall i | 0 <= i < |r| ensures r[i] in schemas {
        assert keys[i] in keys;
      }
    }
    r
  }

  function RegisterNames(st: RS.State, names: seq<Name>, schemas: map<Name, StoredSchema>): Result<RS.State, RS.Error>
    requires forall name :: name in names ==> name in schemas
    decreases |names|
  {
    if names == [] then Ok(st)
    else
      match RS.RegisterSchema(st, names[0], schemas[names[0]].fingerprint)
      case Err(e) => Err(e)
      case Ok(next) => RegisterNames(next, names[1..], schemas)
  }

  function RegisterUsed(st: RS.State, changes: seq<Change>): Result<RS.State, RS.Error>
    decreases |changes|
  {
    if changes == [] then Ok(st)
    else
      match RS.RegisterSchema(st, changes[0].operation.collection, changes[0].operation.schema)
      case Err(e) => Err(e)
      case Ok(next) => RegisterUsed(next, changes[1..])
  }

  // Each change is applied at its own instant.
  function Replay(st: RS.State, changes: seq<Change>, times: seq<U64>): Result<RS.State, RS.Error>
    requires |times| == |changes|
    decreases |changes|
  {
    if changes == [] then Ok(st)
    else
      match RS.Receive(st, changes[0], times[0])
      case Err(e) => Err(e)
      case Ok(received) => Replay(received.state, changes[1..], times[1..])
  }

  function Rebuild(db: Db, times: seq<U64>): Result<RS.State, RS.Error>
    requires |times| == |ReplicatedChanges(db)|
  {
    var schemas := DurableSchemas(db, db.space);
    match RegisterNames(RS.Fresh(db.replica, db.space), NamesOf(schemas), schemas)
    case Err(e) => Err(e)
    case Ok(known) =>
      match RegisterUsed(known, ReplicatedChanges(db))
      case Err(e) => Err(e)
      case Ok(registered) => Replay(registered, ReplicatedChanges(db), times)
  }

  function Reopen(db: Db, times: seq<U64>): Result<App, AppError>
    requires |times| == |ReplicatedChanges(db)|
  {
    match Rebuild(db, times)
    case Err(e) => Err(FromReplica(e))
    case Ok(replica) => Ok(App(db, replica, DurableSchemas(db, db.space), map[]))
  }
}
