// The durable store and its transactions as objects. A transaction stages the
// tables; the store takes them over only when the transaction commits.
module Store {
  import opened Wrappers
  import opened Ids
  import opened Changes
  import opened Keys
  import opened StoreState
  import RS = ReplicaState

  // The rest of a batch, after what has been applied so far.
  function Continued(applied: seq<Applied>, rest: Result<Batch, StoreError>): Result<Batch, StoreError> {
    match rest
    case Ok(batch) => Ok(Batch(batch.db, applied + batch.applied))
    case Err(e) => Err(e)
  }

  lemma ContinuedNothing(rest: Result<Batch, StoreError>)
    ensures Continued([], rest) == rest
  {
    if rest.Ok? {
      assert [] + rest.value.applied == rest.value.applied;
    }
  }

  lemma ContinuedStep(applied: seq<Applied>, db: Db, space: SpaceId, mutations: seq<Mutation>)
    requires mutations != []
    ensures Continued(applied, ApplyEach(db, space, mutations)) ==
            match ApplyMutation(db, space, mutations[0])
            case Ok(first) => Continued(applied + first.applied, ApplyEach(first.db, space, mutations[1..]))
            case Err(e) => Err(e)
  {
    hide ApplyMutation;
    if ApplyMutation(db, space, mutations[0]).Ok? {
      var first := ApplyMutation(db, space, mutations[0]).value;
      var rest := ApplyEach(first.db, space, mutations[1..]);
      if rest.Ok? {
        assert applied + (first.applied + rest.value.applied) == applied + first.applied + rest.value.applied;
      }
    }
  }

  lemma ContinuedEnd(applied: seq<Applied>, db: Db)
    ensures Continued(applied, Ok(Batch(db, []))) == Ok(Batch(db, applied))
  {
    assert applied + [] == applied;
  }

  function LoggedSoFar(inserted: seq<bool>, rest: Result<Logged, StoreError>): Result<Logged, StoreError> {
    match rest
    case Ok(logged) => Ok(Logged(logged.log, inserted + logged.inserted))
    case Err(e) => Err(e)
  }

  lemma LoggedNothing(rest: Result<Logged, StoreError>)
    ensures LoggedSoFar([], rest) == rest
  {
    if rest.Ok? {
      assert [] + rest.value.inserted == rest.value.inserted;
    }
  }

  lemma LoggedStep(inserted: seq<bool>, log: map<LogKey, Change>, changes: seq<Change>)
    requires changes != []
    ensures var c := changes[0];
            LoggedSoFar(inserted, AppendEach(log, changes)) ==
              if LogKeyOf(c) in log && log[LogKeyOf(c)] != c then Err(LogCollision(c.id))
              else LoggedSoFar(inserted + [LogKeyOf(c) !in log], AppendEach(log[LogKeyOf(c) := c], changes[1..]))
  {
    var c := changes[0];
    var rest := AppendEach(log[LogKeyOf(c) := c], changes[1..]);
    if rest.Ok? {
      assert inserted + ([LogKeyOf(c) !in log] + rest.value.inserted) == inserted + [LogKeyOf(c) !in log] + rest.value.inserted;
    }
  }

  class Transaction {
    var db: Db

    constructor (db: Db)
      ensures this.db == db
    {
      this.db := db;
    }

    method Ensure(space: SpaceId, collection: Name, schema: StoredSchema) returns (r: Result<(), StoreError>)
      modifies this
      ensures match EnsureSchema(old(db), space, collection, schema)
              case Ok(next) => r == Ok(()) && db == next
              case Err(e) => r == Err(e) && db == old(db)
    {
      var key := SchemaKey(space, collection);
      if key !in db.schemas {
        db := db.(schemas := db.schemas[key := schema]);
        return Ok(());
      }
      r := if db.schemas[key] == schema then Ok(()) else Err(SchemaMismatch);
    }

    method Append(row: RowKey, kind: Kind, payload: Option<Bytes>) returns (sequence: nat)
      modifies this
      ensures db == AppendEntry(old(db), row, kind, payload)
      ensures sequence == db.sequence == old(db).sequence + 1
    {
      sequence := db.sequence + 1;
      db := db.(journal := db.journal + [Entry(sequence, row, kind, payload)], sequence := sequence);
    }

    method ApplyOne(space: SpaceId, m: Mutation) returns (r: Result<seq<Applied>, StoreError>)
      modifies this
      ensures match ApplyMutation(old(db), space, m)
              case Ok(batch) => r == Ok(batch.applied) && db == batch.db
              case Err(e) => r == Err(e)
    {
      hide AppendEntry, EnsureSchema;
      var row := RowKey(space, KeyOfMutation(m));
      var ensured := Ensure(space, m.collection, m.schema);
      if ensured.Err? {
        return Err(ensured.error);
      }
      if m.Put? {
        var sequence := Append(row, PutKind, Some(m.payload));
        db := db.(documents := db.documents[row := Row(m.payload, sequence)]);
        return Ok([Applied(PutKind, row.key, sequence)]);
      }
      if row !in db.documents {
        return Ok([]);
      }
      db := db.(documents := db.documents - {row});
      var sequence := Append(row, DeleteKind, None);
      r := Ok([Applied(DeleteKind, row.key, sequence)]);
    }

    // Rows written, rows dropped, and what was numbered for each: deletes of
    // absent rows are silent.
    method ApplyAll(space: SpaceId, mutations: seq<Mutation>) returns (r: Result<seq<Applied>, StoreError>)
      modifies this
      ensures match ApplyMutations(old(db), space, mutations)
              case Ok(batch) => r == Ok(batch.applied) && db == batch.db
              case Err(e) => r == Err(e)
      ensures r.Ok? && JournalInv(old(db)) ==>
                JournalInv(db) && AscendingSequences(r.value) && forall a :: a in r.value ==> a.sequence > old(db).sequence
    {
      hide JournalInv, ApplyMutation, AscendingSequences, Continued;
      var i := 0;
      while i < |mutations|
        invariant 0 <= i <= |mutations|
        invariant db == old(db)
        invariant forall j :: 0 <= j < i ==> RS.ValidName(mutations[j].collection)
      {
        if !RS.ValidName(mutations[i].collection) {
          assert mutations[i] in mutations;
          return Err(BadName);
        }
        i := i + 1;
      }
      if JournalInv(db) && ApplyEach(db, space, mutations).Ok? {
        ApplyKeepsJournal(db, space, mutations);
      }
      i := 0;
      var applied := [];
      assert mutations[0..] == mutations;
      ContinuedNothing(ApplyEach(db, space, mutations));
      while i < |mutations|
        invariant 0 <= i <= |mutations|
        invariant Continued(applied, ApplyEach(db, space, mutations[i..])) == ApplyEach(old(db), space, mutations)
      {
        hide ApplyEach;
        assert mutations[i..][0] == mutations[i] && mutations[i..][1..] == mutations[i + 1..];
        ContinuedStep(applied, db, space, mutations[i..]);
        var one := ApplyOne(space, mutations[i]);
        if one.Err? {
          return Err(one.error);
        }
        applied := applied + one.value;
        i := i + 1;
      }
      ContinuedEnd(applied, db);
      r := Ok(applied);
    }

    // True for a newly retained change, false for an exact duplicate.
    method AppendLog(changes: seq<Change>) returns (r: Result<seq<bool>, StoreError>)
      modifies this
      ensures match AppendReplicated(old(db).log, changes)
              case Ok(logged) => r == Ok(logged.inserted) && db == old(db).(log := logged.log)
              case Err(e) => r == Err(e)
    {
      var i := 0;
      while i < |changes|
        invariant 0 <= i <= |changes|
        invariant db == old(db)
        invariant forall j :: 0 <= j < i ==> changes[j].id.counter <= I64_MAX
      {
        if changes[i].id.counter > I64_MAX {
          assert changes[i] in changes;
          return Err(CounterLimit);
        }
        i := i + 1;
      }
      i := 0;
      var inserted := [];
      assert changes[0..] == changes;
      LoggedNothing(AppendEach(db.log, changes));
      while i < |changes|
        invariant 0 <= i <= |changes|
        invariant db == old(db).(log := db.log)
        invariant LoggedSoFar(inserted, AppendEach(db.log, changes[i..])) == AppendEach(old(db).log, changes)
      {
        assert changes[i..][0] == changes[i] && changes[i..][1..] == changes[i + 1..];
        LoggedStep(inserted, db.log, changes[i..]);
        var c := changes[i];
        var key := LogKeyOf(c);
        if key in db.log {
          if db.log[key] != c {
            return Err(LogCollision(c.id));
          }
          assert db.log[key := c] == db.log;
          inserted := inserted + [false];
        } else {
          db := db.(log := db.log[key := c]);
          inserted := inserted + [true];
        }
        i := i + 1;
      }
      assert inserted + [] == inserted;
      r := Ok(inserted);
    }

    method Rewrite(space: SpaceId, rows: seq<DocumentKey>, outcomes: seq<Option<Transformed>>)
      requires |rows| == |outcomes| && forall i :: 0 <= i < |outcomes| ==> outcomes[i].Some?
      modifies this
      ensures db == RewriteRows(old(db), space, rows, outcomes)
    {
      var i := 0;
      assert rows[0..] == rows && outcomes[0..] == outcomes;
      while i < |rows|
        invariant 0 <= i <= |rows|
        invariant RewriteRows(db, space, rows[i..], outcomes[i..]) == RewriteRows(old(db), space, rows, outcomes)
      {
        assert rows[i..][1..] == rows[i + 1..] && outcomes[i..][1..] == outcomes[i + 1..];
        var row, payload := RowKey(space, rows[i]), outcomes[i].value.payload;
        var sequence := Append(row, PutKind, Some(payload));
        db := db.(documents := db.documents[row := Row(payload, sequence)]);
        i := i + 1;
      }
    }
  }

  class Store {
    var tables: Db

    ghost predicate Valid()
      reads this
    {
      JournalInv(tables)
    }

    constructor (replica: ReplicaId, space: SpaceId)
      ensures Valid() && tables == EmptyDb(replica, space)
    {
      tables := EmptyDb(replica, space);
    }

    // Both kinds of rows change together or not at all.
    method CommitTogether(space: SpaceId, mutations: seq<Mutation>, changes: seq<Change>, commits: bool)
      returns (r: Result<(seq<Applied>, seq<bool>), StoreError>)
      requires Valid()
      modifies this
      ensures Valid()
      ensures match CommitBoth(old(tables), space, mutations, changes, commits)
              case Ok(done) => r == Ok((done.applied, done.inserted)) && tables == done.db
              case Err(e) => r == Err(e) && tables == old(tables)
    {
      hide JournalInv, ApplyMutations, AppendReplicated;
      var transaction := new Transaction(tables);
      var applied := transaction.ApplyAll(space, mutations);
      if applied.Err? {
        return Err(applied.error);
      }
      ghost var before := transaction.db;
      var inserted := transaction.AppendLog(changes);
      if inserted.Err? {
        return Err(inserted.error);
      }
      if !commits {
        return Err(CommitFailed);
      }
      LogLeavesJournal(before, transaction.db.log);
      tables := transaction.db;
      r := Ok((applied.value, inserted.value));
    }

    method CommitLocalWrites(space: SpaceId, mutations: seq<Mutation>, changes: seq<Change>, commits: bool)
      returns (r: Result<(seq<Applied>, seq<bool>), StoreError>)
      requires Valid()
      modifies this
      ensures Valid()
      ensures match CommitLocal(old(tables), space, mutations, changes, commits)
              case Ok(done) => r == Ok((done.applied, done.inserted)) && tables == done.db
              case Err(e) => r == Err(e) && tables == old(tables)
    {
      hide JournalInv, CommitBoth;
      if |mutations| != |changes| {
        return Err(LengthMismatch);
      }
      if mutations == [] {
        return Ok(([], []));
      }
      if !AllIn(space, changes) {
        return Err(CrossSpace);
      }
      r := CommitTogether(space, mutations, changes, commits);
    }

    method CommitRemoteChanges(space: SpaceId, mutations: seq<Mutation>, changes: seq<Change>, commits: bool)
      returns (r: Result<(seq<Applied>, seq<bool>), StoreError>)
      requires Valid()
      modifies this
      ensures Valid()
      ensures match CommitRemote(old(tables), space, mutations, changes, commits)
              case Ok(done) => r == Ok((done.applied, done.inserted)) && tables == done.db
              case Err(e) => r == Err(e) && tables == old(tables)
    {
      hide JournalInv, CommitBoth;
      if !AllIn(space, changes) {
        return Err(CrossSpace);
      }
      if changes == [] {
        return Ok(([], []));
      }
      r := CommitTogether(space, mutations, changes, commits);
    }

    method MigrateRows(space: SpaceId, collection: Name, from: StoredSchema, to: StoredSchema,
                       outcomes: seq<Option<Transformed>>, commits: bool) returns (r: Result<(), StoreError>)
      requires Valid() && |outcomes| == |RowsOf(tables, space, collection)|
      modifies this
      ensures Valid()
      ensures match MigrateCollection(old(tables), space, collection, from, to, outcomes, commits)
              case Ok(db) => r == Ok(()) && tables == db
              case Err(e) => r == Err(e) && tables == old(tables)
    {
      hide JournalInv, RowsOf, RewriteRows, AppendReplicated, CheckTransformed;
      var rows := RowsOf(tables, space, collection);
      CheckedAllFit(space, to, rows, outcomes);
      match CheckMigration(tables, space, collection, from, to) {
        case Refused(e) =>
          return Err(e);
        case Proceed =>
      }
      var problem := CheckTransformed(space, to, rows, outcomes);
      if problem.Some? {
        return Err(problem.value);
      }
      var transaction := new Transaction(tables);
      RewriteKeepsJournal(tables, space, rows, outcomes);
      transaction.Rewrite(space, rows, outcomes);
      var key := SchemaKey(space, collection);
      SchemasLeaveJournal(transaction.db, transaction.db.schemas[key := to]);
      transaction.db := transaction.db.(schemas := transaction.db.schemas[key := to]);
      ghost var before := transaction.db;
      var inserted := transaction.AppendLog(ChangesOf(outcomes));
      if inserted.Err? {
        return Err(inserted.error);
      }
      if !commits {
        return Err(CommitFailed);
      }
      LogLeavesJournal(before, transaction.db.log);
      tables := transaction.db;
      r := Ok(());
    }

    // Afterwards the newest rows remain, and no sequence will be used again.
    method CompactJournal(retain: U64, commits: bool) returns (r: Result<(), StoreError>)
      requires Valid()
      modifies this
      ensures Valid()
      ensures match Compact(old(tables), retain, commits)
              case Ok(db) => r == Ok(()) && tables == db
              case Err(e) => r == Err(e) && tables == old(tables)
      ensures JournalFrontier(tables.journal) == JournalFrontier(old(tables).journal)
    {
      hide JournalInv, JournalFrontier, Threshold, NotBefore;
      var keep := AtLeastOne(retain);
      if keep > I64_MAX {
        return Err(RetentionRange);
      }
      if !commits {
        return Err(CommitFailed);
      }
      CompactExact(tables, retain);
      tables := tables.(journal := NotBefore(tables.journal, Threshold(tables.journal, keep)));
      r := Ok(());
    }

    method ReserveCounters(size: U64, commits: bool) returns (r: Result<(U64, U64), StoreError>)
      requires Valid()
      modifies this
      ensures Valid()
      ensures match Reserve(old(tables), size, commits)
              case Ok(done) => r == Ok(done.1) && tables == done.0
              case Err(e) => r == Err(e) && tables == old(tables)
    {
      if size == 0 {
        return Err(EmptyReservation);
      }
      var previous := tables.highWater;
      if previous + size > U64_MAX {
        return Err(ReservationOverflow);
      }
      if !commits {
        return Err(CommitFailed);
      }
      tables := tables.(highWater := previous + size);
      r := Ok((previous, previous + size));
    }
  }

  lemma LogLeavesJournal(db: Db, log: map<LogKey, Change>)
    requires JournalInv(db)
    ensures JournalInv(db.(log := log))
  {}

  lemma SchemasLeaveJournal(db: Db, schemas: map<SchemaKey, StoredSchema>)
    requires JournalInv(db)
    ensures JournalInv(db.(schemas := schemas))
  {}
}
