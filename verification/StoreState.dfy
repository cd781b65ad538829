// The durable tables of one application as a value, and the transactions on
// them. A transaction that fails yields no new tables.
module StoreState {
  import opened Wrappers
  import opened Ids
  import opened Changes
  import opened Keys
  import RS = ReplicaState

  datatype StoredSchema = StoredSchema(name: Name, version: U32, fingerprint: U64)

  datatype Mutation =
    | Put(collection: Name, document: DocumentId, payload: Bytes, schema: StoredSchema)
    | Delete(collection: Name, document: DocumentId, schema: StoredSchema)

  datatype Kind = PutKind | DeleteKind

  datatype RowKey = RowKey(space: SpaceId, key: DocumentKey)
  datatype Row = Row(payload: Bytes, sequence: nat)
  datatype Entry = Entry(sequence: nat, row: RowKey, kind: Kind, payload: Option<Bytes>)
  datatype LogKey = LogKey(space: SpaceId, id: ChangeId)
  datatype SchemaKey = SchemaKey(space: SpaceId, collection: Name)

  datatype Db = Db(
    documents: map<RowKey, Row>,
    journal: seq<Entry>,
    sequence: nat,
    log: map<LogKey, Change>,
    schemas: map<SchemaKey, StoredSchema>,
    highWater: U64,
    replica: ReplicaId,
    space: SpaceId)

  datatype StoreError =
    | BadName | LengthMismatch | CrossSpace | SchemaMismatch | NoSourceSchema | SameSchema | Rejected
    | BadMigrationChange | CounterLimit | LogCollision(id: ChangeId) | CommitFailed
    | RetentionRange | EmptyReservation | ReservationOverflow

  datatype Applied = Applied(kind: Kind, key: DocumentKey, sequence: nat)

  // A new database under a generated replica identity, bound to a space.
  function EmptyDb(replica: ReplicaId, space: SpaceId): Db {
    Db(map[], [], 0, map[], map[], 0, replica, space)
  }

  function KeyOfMutation(m: Mutation): DocumentKey {
    DocumentKey(m.collection, m.document)
  }

  // ---- single statements ----

  function EnsureSchema(db: Db, space: SpaceId, collection: Name, schema: StoredSchema): Result<Db, StoreError> {
    var key := SchemaKey(space, collection);
    if key !in db.schemas then Ok(db.(schemas := db.schemas[key := schema]))
    else if db.schemas[key] == schema then Ok(db)
    else Err(SchemaMismatch)
  }

  // Sequences are assigned by AUTOINCREMENT.
  function AppendEntry(db: Db, row: RowKey, kind: Kind, payload: Option<Bytes>): Db {
    db.(journal := db.journal + [Entry(db.sequence + 1, row, kind, payload)], sequence := db.sequence + 1)
  }

  function WriteRow(db: Db, row: RowKey, payload: Bytes): Db {
    var next := AppendEntry(db, row, PutKind, Some(payload));
    next.(documents := next.documents[row := Row(payload, next.sequence)])
  }

  function DropRow(db: Db, row: RowKey): Db {
    AppendEntry(db.(documents := db.documents - {row}), row, DeleteKind, None)
  }

  datatype Batch = Batch(db: Db, applied: seq<Applied>)

  function ApplyMutation(db: Db, space: SpaceId, m: Mutation): Result<Batch, StoreError> {
    var row := RowKey(space, KeyOfMutation(m));
    match EnsureSchema(db, space, m.collection, m.schema)
    case Err(e) => Err(e)
    case Ok(ensured) =>
      if m.Put? then
        var next := WriteRow(ensured, row, m.payload);
        Ok(Batch(next, [Applied(PutKind, row.key, next.sequence)]))
      else if row !in ensured.documents then Ok(Batch(ensured, []))
      else
        var next := DropRow(ensured, row);
        Ok(Batch(next, [Applied(DeleteKind, row.key, next.sequence)]))
  }

  function ApplyEach(db: Db, space: SpaceId, mutations: seq<Mutation>): Result<Batch, StoreError>
    decreases |mutations|
  {
    if mutations == [] then Ok(Batch(db, []))
    else
      match ApplyMutation(db, space, mutations[0])
      case Err(e) => Err(e)
      case Ok(first) =>
        match ApplyEach(first.db, space, mutations[1..])
        case Err(e) => Err(e)
        case Ok(rest) => Ok(Batch(rest.db, first.applied + rest.applied))
  }

  // Every name is checked before anything is written.
  function ApplyMutations(db: Db, space: SpaceId, mutations: seq<Mutation>): Result<Batch, StoreError> {
    if exists m :: m in mutations && !RS.ValidName(m.collection) then Err(BadName)
    else ApplyEach(db, space, mutations)
  }

  datatype Logged = Logged(log: map<LogKey, Change>, inserted: seq<bool>)

  function LogKeyOf(c: Change): LogKey {
    LogKey(c.space, c.id)
  }

  function AppendEach(log: map<LogKey, Change>, changes: seq<Change>): Result<Logged, StoreError>
    decreases |changes|
  {
    if changes == [] then Ok(Logged(log, []))
    else
      var c := changes[0];
      if LogKeyOf(c) in log && log[LogKeyOf(c)] != c then Err(LogCollision(c.id))
      else
        match AppendEach(log[LogKeyOf(c) := c], changes[1..])
        case Err(e) => Err(e)
        case Ok(rest) => Ok(Logged(rest.log, [LogKeyOf(c) !in log] + rest.inserted))
  }

  // Counters must fit the signed column before anything is appended.
  function AppendReplicated(log: map<LogKey, Change>, changes: seq<Change>): Result<Logged, StoreError> {
    if exists c :: c in changes && c.id.counter > I64_MAX then Err(CounterLimit)
    else AppendEach(log, changes)
  }

  // ---- transactions; `commits` says whether the database commit succeeds ----

  datatype Committed = Committed(db: Db, applied: seq<Applied>, inserted: seq<bool>)

  function CommitBoth(db: Db, space: SpaceId, mutations: seq<Mutation>, changes: seq<Change>, commits: bool): Result<Committed, StoreError> {
    match ApplyMutations(db, space, mutations)
    case Err(e) => Err(e)
    case Ok(batch) =>
      match AppendReplicated(batch.db.log, changes)
      case Err(e) => Err(e)
      case Ok(logged) =>
        if commits then Ok(Committed(batch.db.(log := logged.log), batch.applied, logged.inserted)) else Err(CommitFailed)
  }

  predicate AllIn(space: SpaceId, changes: seq<Change>) {
    forall c :: c in changes ==> c.space == space
  }

  function CommitLocal(db: Db, space: SpaceId, mutations: seq<Mutation>, changes: seq<Change>, commits: bool): Result<Committed, StoreError> {
    if |mutations| != |changes| then Err(LengthMismatch)
    else if mutations == [] then Ok(Committed(db, [], []))
    else if !AllIn(space, changes) then Err(CrossSpace)
    else CommitBoth(db, space, mutations, changes, commits)
  }

  function CommitRemote(db: Db, space: SpaceId, mutations: seq<Mutation>, changes: seq<Change>, commits: bool): Result<Committed, StoreError> {
    if !AllIn(space, changes) then Err(CrossSpace)
    else if changes == [] then Ok(Committed(db, [], []))
    else CommitBoth(db, space, mutations, changes, commits)
  }

  // The rows of a collection in document order.
  function RowsOf(db: Db, space: SpaceId, collection: Name): (r: seq<DocumentKey>)
    ensures forall k :: k in r <==> RowKey(space, k) in db.documents && k.collection == collection
    ensures forall i, j :: 0 <= i < j < |r| ==> r[i] != r[j]
  {
    InOrder(set row | row in db.documents && row.space == space && row.key.collection == collection :: row.key)
  }

  datatype Transformed = Transformed(payload: Bytes, change: Change)

  predicate MigrationChangeFits(space: SpaceId, to: StoredSchema, key: DocumentKey, t: Transformed) {
    && t.change.space == space
    && t.change.operation == Operation.Put(key.collection, key.document, to.fingerprint, t.payload)
  }

  predicate Fits(space: SpaceId, to: StoredSchema, key: DocumentKey, outcome: Option<Transformed>) {
    outcome.Some? && MigrationChangeFits(space, to, key, outcome.value)
  }

  // The first row whose transformation fails or does not fit decides.
  function CheckTransformed(space: SpaceId, to: StoredSchema, rows: seq<DocumentKey>, outcomes: seq<Option<Transformed>>): Option<StoreError>
    requires |rows| == |outcomes|
    decreases |rows|
  {
    if rows == [] then None
    else if outcomes[0].None? then Some(Rejected)
    else if outcomes[0].value.change.space != space then Some(CrossSpace)
    else if !MigrationChangeFits(space, to, rows[0], outcomes[0].value) then Some(BadMigrationChange)
    else CheckTransformed(space, to, rows[1..], outcomes[1..])
  }

  function RewriteRows(db: Db, space: SpaceId, rows: seq<DocumentKey>, outcomes: seq<Option<Transformed>>): Db
    requires |rows| == |outcomes| && forall i :: 0 <= i < |outcomes| ==> outcomes[i].Some?
    decreases |rows|
  {
    if rows == [] then db
    else RewriteRows(WriteRow(db, RowKey(space, rows[0]), outcomes[0].value.payload), space, rows[1..], outcomes[1..])
  }

  function ChangesOf(outcomes: seq<Option<Transformed>>): (r: seq<Change>)
    requires forall i :: 0 <= i < |outcomes| ==> outcomes[i].Some?
    ensures |r| == |outcomes| && forall i :: 0 <= i < |r| ==> r[i] == outcomes[i].value.change
  {
    seq(|outcomes|, i requires 0 <= i < |outcomes| => outcomes[i].value.change)
  }

  lemma {:induction false} CheckedAllFit(space: SpaceId, to: StoredSchema, rows: seq<DocumentKey>, outcomes: seq<Option<Transformed>>)
    requires |rows| == |outcomes|
    ensures CheckTransformed(space, to, rows, outcomes).None? <==>
            forall i :: 0 <= i < |rows| ==> Fits(space, to, rows[i], outcomes[i])
    decreases |rows|
  {
    if rows != [] {
      CheckedAllFit(space, to, rows[1..], outcomes[1..]);
      assert forall i :: 0 < i < |rows| ==> rows[i] == rows[1..][i - 1] && outcomes[i] == outcomes[1..][i - 1];
    }
  }

  datatype MigrationCheck = Refused(error: StoreError) | Proceed

  function CheckMigration(db: Db, space: SpaceId, collection: Name, from: StoredSchema, to: StoredSchema): MigrationCheck {
    var key := SchemaKey(space, collection);
    if !RS.ValidName(collection) then Refused(BadName)
    else if from == to then Refused(SameSchema)
    else if key !in db.schemas then Refused(NoSourceSchema)
    else if db.schemas[key] != from then Refused(SchemaMismatch)
    else Proceed
  }

  // `outcomes` is what the transformation makes of each row in turn.
  function MigrateCollection(db: Db, space: SpaceId, collection: Name, from: StoredSchema, to: StoredSchema,
                             outcomes: seq<Option<Transformed>>, commits: bool): Result<Db, StoreError>
    requires |outcomes| == |RowsOf(db, space, collection)|
  {
    var rows := RowsOf(db, space, collection);
    CheckedAllFit(space, to, rows, outcomes);
    match CheckMigration(db, space, collection, from, to)
    case Refused(e) => Err(e)
    case Proceed =>
      if CheckTransformed(space, to, rows, outcomes).Some? then Err(CheckTransformed(space, to, rows, outcomes).value)
      else
        var rewritten := RewriteRows(db, space, rows, outcomes);
        var advanced := rewritten.(schemas := rewritten.schemas[SchemaKey(space, collection) := to]);
        match AppendReplicated(advanced.log, ChangesOf(outcomes))
        case Err(e) => Err(e)
        case Ok(logged) => if commits then Ok(advanced.(log := logged.log)) else Err(CommitFailed)
  }

  // ---- the local journal ----

  ghost predicate JournalInv(db: Db) {
    && (forall i, j :: 0 <= i < j < |db.journal| ==> db.journal[i].sequence < db.journal[j].sequence)
    && (forall i :: 0 <= i < |db.journal| ==> 0 < db.journal[i].sequence <= db.sequence)
    && (db.sequence > 0 ==> db.journal != [] && db.journal[|db.journal| - 1].sequence == db.sequence)
    && (forall row :: row in db.documents ==> db.documents[row].sequence <= db.sequence)
  }

  // The greatest retained sequence, or zero.
  function JournalFrontier(journal: seq<Entry>): nat {
    if journal == [] then 0
    else
      var rest := JournalFrontier(journal[1..]);
      if journal[0].sequence >= rest then journal[0].sequence else rest
  }

  lemma {:induction false} FrontierIsMaximum(journal: seq<Entry>)
    ensures forall i :: 0 <= i < |journal| ==> journal[i].sequence <= JournalFrontier(journal)
    ensures journal != [] ==> exists i :: 0 <= i < |journal| && journal[i].sequence == JournalFrontier(journal)
  {
    if journal != [] {
      var rest := journal[1..];
      FrontierIsMaximum(rest);
      assert forall i :: 0 < i < |journal| ==> journal[i] == rest[i - 1];
      if JournalFrontier(journal) != journal[0].sequence && rest != [] {
        var i :| 0 <= i < |rest| && rest[i].sequence == JournalFrontier(rest);
        assert journal[i + 1].sequence == JournalFrontier(journal);
      }
    }
  }

  // What the frontier query reads is the last assigned sequence, although the
  // journal may have been compacted.
  lemma FrontierIsLastSequence(db: Db)
    requires JournalInv(db)
    ensures JournalFrontier(db.journal) == db.sequence
  {
    FrontierIsMaximum(db.journal);
  }

  lemma WriteKeepsJournal(db: Db, row: RowKey, payload: Bytes)
    requires JournalInv(db)
    ensures JournalInv(WriteRow(db, row, payload))
  {}

  lemma DropKeepsJournal(db: Db, row: RowKey)
    requires JournalInv(db)
    ensures JournalInv(DropRow(db, row))
  {}

  lemma EnsureKeepsJournal(db: Db, space: SpaceId, collection: Name, schema: StoredSchema)
    requires JournalInv(db) && EnsureSchema(db, space, collection, schema).Ok?
    ensures JournalInv(EnsureSchema(db, space, collection, schema).value)
  {}

  lemma MutationKeepsJournal(db: Db, space: SpaceId, m: Mutation)
    requires JournalInv(db) && ApplyMutation(db, space, m).Ok?
    ensures JournalInv(ApplyMutation(db, space, m).value.db)
    ensures ApplyMutation(db, space, m).value.db.sequence >= db.sequence
    ensures forall a :: a in ApplyMutation(db, space, m).value.applied ==>
              db.sequence < a.sequence <= ApplyMutation(db, space, m).value.db.sequence
  {
    hide JournalInv;
    var row := RowKey(space, KeyOfMutation(m));
    EnsureKeepsJournal(db, space, m.collection, m.schema);
    var ensured := EnsureSchema(db, space, m.collection, m.schema).value;
    if m.Put? {
      WriteKeepsJournal(ensured, row, m.payload);
    } else if row in ensured.documents {
      DropKeepsJournal(ensured, row);
    }
  }

  predicate AscendingSequences(applied: seq<Applied>) {
    forall i, j :: 0 <= i < j < |applied| ==> applied[i].sequence < applied[j].sequence
  }

  // A transaction numbers what it applied strictly upwards from everything
  // before it, and no number is used twice.
  lemma {:induction false} ApplyKeepsJournal(db: Db, space: SpaceId, mutations: seq<Mutation>)
    requires JournalInv(db) && ApplyEach(db, space, mutations).Ok?
    ensures var Batch(next, applied) := ApplyEach(db, space, mutations).value;
            && JournalInv(next)
            && db.sequence <= next.sequence
            && AscendingSequences(applied)
            && (forall a :: a in applied ==> db.sequence < a.sequence <= next.sequence)
    decreases |mutations|
  {
    hide JournalInv, ApplyMutation;
    if mutations != [] {
      MutationKeepsJournal(db, space, mutations[0]);
      var first := ApplyMutation(db, space, mutations[0]).value;
      ApplyKeepsJournal(first.db, space, mutations[1..]);
      AppliedShort(db, space, mutations[0]);
      var rest := ApplyEach(first.db, space, mutations[1..]).value.applied;
      forall i, j | 0 <= i < j < |first.applied + rest|
        ensures (first.applied + rest)[i].sequence < (first.applied + rest)[j].sequence
      {
        assert i < |first.applied| ==> (first.applied + rest)[i] in first.applied;
        assert j >= |first.applied| ==> (first.applied + rest)[j] in rest;
      }
    }
  }

  lemma AppliedShort(db: Db, space: SpaceId, m: Mutation)
    requires ApplyMutation(db, space, m).Ok?
    ensures |ApplyMutation(db, space, m).value.applied| <= 1
  {}

  lemma {:induction false} RewriteKeepsJournal(db: Db, space: SpaceId, rows: seq<DocumentKey>, outcomes: seq<Option<Transformed>>)
    requires JournalInv(db)
    requires |rows| == |outcomes| && forall i :: 0 <= i < |outcomes| ==> outcomes[i].Some?
    ensures JournalInv(RewriteRows(db, space, rows, outcomes))
    ensures RewriteRows(db, space, rows, outcomes).sequence == db.sequence + |rows|
    decreases |rows|
  {
    if rows != [] {
      WriteKeepsJournal(db, RowKey(space, rows[0]), outcomes[0].value.payload);
      RewriteKeepsJournal(WriteRow(db, RowKey(space, rows[0]), outcomes[0].value.payload), space, rows[1..], outcomes[1..]);
    }
  }

  // ---- compaction ----

  function AtLeastOne(n: nat): nat {
    if n == 0 then 1 else n
  }

  // The sequence of the row `retain - 1` places from the newest, if any.
  function Threshold(journal: seq<Entry>, retain: nat): nat
    requires retain > 0
  {
    if |journal| >= retain then journal[|journal| - retain].sequence else 0
  }

  function NotBefore(journal: seq<Entry>, threshold: nat): seq<Entry> {
    if journal == [] then []
    else (if journal[0].sequence < threshold then [] else [journal[0]]) + NotBefore(journal[1..], threshold)
  }

  function Compact(db: Db, retain: U64, commits: bool): Result<Db, StoreError> {
    if AtLeastOne(retain) > I64_MAX then Err(RetentionRange)
    else if !commits then Err(CommitFailed)
    else Ok(db.(journal := NotBefore(db.journal, Threshold(db.journal, AtLeastOne(retain)))))
  }

  lemma {:induction false} KeepsAllFrom(journal: seq<Entry>, k: nat, threshold: nat)
    requires k <= |journal|
    requires forall i :: 0 <= i < k ==> journal[i].sequence < threshold
    requires forall i :: k <= i < |journal| ==> journal[i].sequence >= threshold
    ensures NotBefore(journal, threshold) == journal[k..]
  {
    if journal != [] {
      KeepsAllFrom(journal[1..], if k == 0 then 0 else k - 1, threshold);
      if k == 0 {
        assert journal[1..][0..] == journal[1..];
        assert journal == [journal[0]] + journal[1..];
      } else {
        assert journal[1..][k - 1..] == journal[k..];
      }
    }
  }

  lemma SuffixKeepsJournal(db: Db, k: nat)
    requires JournalInv(db) && (k < |db.journal| || (db.journal == [] && k == 0))
    ensures JournalInv(db.(journal := db.journal[k..]))
  {}

  // Compaction keeps exactly the newest rows, at least one, and touches nothing
  // else; so the frontier does not move and no sequence is ever reused.
  lemma CompactExact(db: Db, retain: U64)
    requires JournalInv(db) && Compact(db, retain, true).Ok?
    ensures var keep, n := AtLeastOne(retain), |db.journal|;
            var next := Compact(db, retain, true).value;
            && next == db.(journal := db.journal[if n <= keep then 0 else n - keep..])
            && JournalInv(next)
            && JournalFrontier(next.journal) == JournalFrontier(db.journal)
  {
    var keep, n := AtLeastOne(retain), |db.journal|;
    var k := if n <= keep then 0 else n - keep;
    KeepsAllFrom(db.journal, k, Threshold(db.journal, keep));
    SuffixKeepsJournal(db, k);
    hide JournalInv;
    FrontierIsLastSequence(db);
    FrontierIsLastSequence(Compact(db, retain, true).value);
  }

  // ---- reserved counters ----

  function Reserve(db: Db, size: U64, commits: bool): Result<(Db, (U64, U64)), StoreError> {
    if size == 0 then Err(EmptyReservation)
    else if db.highWater + size > U64_MAX then Err(ReservationOverflow)
    else if !commits then Err(CommitFailed)
    else Ok((db.(highWater := db.highWater + size), (db.highWater, db.highWater + size)))
  }
}
