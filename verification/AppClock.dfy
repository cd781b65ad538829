// Below saturation no local write is lost, so what a caller can count beforehand
// is enough for the tables to agree with the replica.
module AppClock {
  import opened Wrappers
  import opened Ids
  import opened Clock
  import opened Changes
  import opened StoreState
  import opened AppState
  import opened AppProof
  import RS = ReplicaState

  // No logical reading the replica has seen exceeds the bound.
  ghost predicate Below(st: RS.State, n: nat) {
    st.clock.logical <= n && forall id :: id in st.changes ==> st.changes[id].timestamp.logical <= n
  }

  lemma BelowMore(st: RS.State, n: nat, m: nat)
    requires Below(st, n) && n <= m
    ensures Below(st, m)
  {}

  lemma RegisterBelow(st: RS.State, name: Name, schema: U64, n: nat)
    requires Below(st, n) && RS.RegisterSchema(st, name, schema).Ok?
    ensures Below(RS.RegisterSchema(st, name, schema).value, n)
  {}

  // One local event below saturation adds one at most, and is not outranked.
  lemma AuthorBelow(st: RS.State, op: Operation, now: U64, n: nat)
    requires RS.Inv(st) && Below(st, n) && n < U32_MAX && RS.Author(st, op, now).Ok?
    ensures Below(RS.Author(st, op, now).value.state, n + 1)
    ensures !RS.Outranked(st, op, now)
  {
    hide RS.Inv, RS.Retain;
    RS.AuthorInv(st, op, now);
    StampBelow(st, op, now, n);
  }

  lemma StampBelow(st: RS.State, op: Operation, now: U64, n: nat)
    requires st.clock.logical <= n && RS.Author(st, op, now).Ok?
    ensures var Authored(next, c) := RS.Author(st, op, now).value;
            next.clock.logical <= n + 1 && c.timestamp.logical <= n + 1
  {}

  lemma ReceiveBelow(st: RS.State, c: Change, now: U64, n: nat)
    requires RS.Inv(st) && Below(st, n) && c.timestamp.logical <= n && RS.Receive(st, c, now).Ok?
    ensures Below(RS.Receive(st, c, now).value.state, n + 1)
  {
    hide RS.Inv, RS.Retain, RS.Acceptable;
    RS.ReceiveInv(st, c, now);
    ObservedBelow(st, c, now, n);
  }

  lemma ObservedBelow(st: RS.State, c: Change, now: U64, n: nat)
    requires st.clock.logical <= n && c.timestamp.logical <= n && RS.Receive(st, c, now).Ok?
    ensures RS.Receive(st, c, now).value.state.clock.logical <= n + 1
  {}

  // ---- what each call adds ----

  lemma {:induction false} StagedBelow(st: RS.State, mutations: seq<Mutation>, now: U64, plain: iset<Name>, n: nat)
    requires RS.Inv(st) && Below(st, n) && n + |mutations| <= U32_MAX && StageAll(st, mutations, now).Ok?
    ensures NoneLost(st, mutations, now, plain)
    ensures Below(StageAll(st, mutations, now).value.state, n + |mutations|)
    decreases |mutations|
  {
    hide RS.Inv, RS.Author, RS.RegisterSchema, Below, RS.Outranked;
    if mutations != [] {
      var m := mutations[0];
      RegisterBelow(st, m.collection, m.schema.fingerprint, n);
      RegisterFrame(st, m.collection, m.schema.fingerprint);
      RS.RegisterInv(st, m.collection, m.schema.fingerprint);
      var registered := RS.RegisterSchema(st, m.collection, m.schema.fingerprint).value;
      AuthorBelow(registered, OperationOf(m), now, n);
      RS.AuthorInv(registered, OperationOf(m), now);
      RegisteredOutranks(st, m, now);
      StagedBelow(StageOne(st, m, now).value.state, mutations[1..], now, plain, n + 1);
    }
  }

  lemma RegisteredOutranks(st: RS.State, m: Mutation, now: U64)
    requires RS.RegisterSchema(st, m.collection, m.schema.fingerprint).Ok?
    ensures RS.Outranked(RS.RegisterSchema(st, m.collection, m.schema.fingerprint).value, OperationOf(m), now)
            <==> RS.Outranked(st, OperationOf(m), now)
  {}

  lemma {:induction false} ImportedBelow(st: RS.State, batch: seq<Change>, now: U64, n: nat)
    requires RS.Inv(st) && Below(st, n) && RS.Import(st, batch, now).Ok?
    requires forall c :: c in batch ==> c.timestamp.logical <= n
    ensures Below(RS.Import(st, batch, now).value, n + |batch|)
    decreases |batch|
  {
    hide RS.Inv, RS.Receive, Below;
    if batch != [] {
      ReceiveBelow(st, batch[0], now, n);
      RS.ReceiveInv(st, batch[0], now);
      ImportedBelow(RS.Receive(st, batch[0], now).value.state, batch[1..], now, n + 1);
    }
  }

  lemma {:induction false} RewrittenBelow(st: RS.State, rows: seq<DocumentKey>, payloads: seq<Option<Bytes>>, to: StoredSchema, now: U64,
                                          plain: iset<Name>, n: nat)
    requires RS.Inv(st) && Below(st, n) && |rows| == |payloads| && n + |rows| <= U32_MAX
    ensures NoRowLost(st, rows, payloads, to, now, plain)
    ensures Below(AuthorRows(st, rows, payloads, to, now).state, n + |rows|)
    decreases |rows|
  {
    hide RS.Inv, RS.Author, Below, RS.Outranked;
    if rows == [] {
    } else if payloads[0].None? || RS.Author(st, RowPut(rows[0], payloads[0].value, to), now).Err? {
      BelowMore(st, n, n + |rows|);
    } else {
      var op := RowPut(rows[0], payloads[0].value, to);
      AuthorBelow(st, op, now, n);
      RS.AuthorInv(st, op, now);
      RewrittenBelow(RS.Author(st, op, now).value.state, rows[1..], payloads[1..], to, now, plain, n + 1);
    }
  }

  lemma {:induction false} ReplayedBelow(st: RS.State, changes: seq<Change>, times: seq<U64>, n: nat)
    requires RS.Inv(st) && Below(st, n) && |times| == |changes| && Replay(st, changes, times).Ok?
    requires forall c :: c in changes ==> c.timestamp.logical <= n
    ensures Below(Replay(st, changes, times).value, n + |changes|)
    decreases |changes|
  {
    hide RS.Inv, RS.Receive, Below;
    if changes != [] {
      ReceiveBelow(st, changes[0], times[0], n);
      RS.ReceiveInv(st, changes[0], times[0]);
      ReplayedBelow(RS.Receive(st, changes[0], times[0]).value.state, changes[1..], times[1..], n + 1);
    }
  }

  lemma ReopenedBelow(app: App, times: seq<U64>, plain: iset<Name>, n: nat)
    requires AppInv(app, plain) && Below(app.replica, n) && |times| == |ReplicatedChanges(app.db)|
    ensures Reopen(app.db, times).Ok?
    ensures Below(Reopen(app.db, times).value.replica, n + |times|)
  {
    hide RS.Inv, JournalInv, NamesValid, LogAgrees, RowsAgree, RS.CollisionFree, RS.AllAcceptable, Rebuild, Replay, ReplicatedChanges,
         DurableSchemas;
    var changes := ReplicatedChanges(app.db);
    var known := RebuildReplays(app, times, plain);
    forall c | c in changes ensures c.timestamp.logical <= n {
      LoadedExactly(app, plain, c);
    }
    ReplayIsUnion(known, changes, times);
    ReplayedBelow(known, changes, times, n);
  }

  // ---- whole runs ----

  // How many clock events a call may cause.
  function Cost(call: Call): nat {
    match call
    case Write(mutations, _, _) => |mutations|
    case Take(batch, _, _) => |batch|
    case Convert(_, _, _, payloads, _, _) => |payloads|
    case Restart(times) => |times|
    case _ => 0
  }

  function TotalCost(calls: seq<Call>): nat {
    if calls == [] then 0 else Cost(calls[0]) + TotalCost(calls[1..])
  }

  // Imported timestamps stay within the bound.
  predicate Modest(call: Call, limit: nat) {
    call.Take? ==> forall c :: c in call.batch ==> c.timestamp.logical <= limit
  }

  // No plain collection is opened with merging.
  ghost predicate KeepsPlain(call: Call, plain: iset<Name>) {
    call.Declare? && call.strategy.enabled ==> call.name !in plain
  }

  lemma WriteBelow(app: App, call: Call, plain: iset<Name>, n: nat)
    requires AppInv(app, plain) && Below(app.replica, n) && call.Write? && n + Cost(call) <= U32_MAX
    ensures Fair(app, call, plain) && Below(Do(app, call).replica, n + Cost(call))
  {
    hide RS.Inv, JournalInv, NamesValid, LogAgrees, RowsAgree, StageAll, CommitLocal, NoneLost, Below;
    BelowMore(app.replica, n, n + Cost(call));
    if StageAll(app.replica, call.mutations, call.now).Ok? {
      StagedBelow(app.replica, call.mutations, call.now, plain, n);
    }
  }

  lemma TakeBelow(app: App, call: Call, plain: iset<Name>, n: nat)
    requires AppInv(app, plain) && Below(app.replica, n) && call.Take? && Modest(call, n)
    ensures Fair(app, call, plain) && Below(Do(app, call).replica, n + Cost(call))
  {
    hide RS.Inv, JournalInv, NamesValid, LogAgrees, RowsAgree, StageImport, MaterializeAll, CommitRemote, SchemaProblem, RS.Import, Below;
    BelowMore(app.replica, n, n + Cost(call));
    StageImportIsImport(app.replica, call.batch, app.mergers, call.at);
    if RS.Import(app.replica, call.batch, call.at).Ok? {
      ImportedBelow(app.replica, call.batch, call.at, n);
    }
  }

  lemma ConvertBelow(app: App, call: Call, plain: iset<Name>, n: nat)
    requires AppInv(app, plain) && Below(app.replica, n) && call.Convert? && n + Cost(call) <= U32_MAX && Fitting(app, call)
    ensures Fair(app, call, plain) && Below(Do(app, call).replica, n + Cost(call))
  {
    hide RS.Inv, JournalInv, NamesValid, LogAgrees, RowsAgree, AuthorRows, MigrateCollection, RowsOf, RS.RegisterSchema, NoRowLost, Below;
    BelowMore(app.replica, n, n + Cost(call));
    if RS.RegisterSchema(app.replica, call.collection, call.to.fingerprint).Ok? {
      RegisterFrame(app.replica, call.collection, call.to.fingerprint);
      RegisterBelow(app.replica, call.collection, call.to.fingerprint, n);
      var registered := RS.RegisterSchema(app.replica, call.collection, call.to.fingerprint).value;
      RewrittenBelow(registered, RowsOf(app.db, app.replica.space, call.collection), call.payloads, call.to, call.now, plain, n);
    }
  }

  lemma CallBelow(app: App, call: Call, plain: iset<Name>, n: nat)
    requires AppInv(app, plain) && Below(app.replica, n) && Fitting(app, call)
    requires Modest(call, n) && KeepsPlain(call, plain) && n + Cost(call) <= U32_MAX
    ensures Fair(app, call, plain) && Below(Do(app, call).replica, n + Cost(call))
  {
    hide AppInv, Commit, Import, Migrate, Reopen, Compact, Reserve, RowsOf, ReplicatedChanges, RS.RegisterSchema, Below, Modest, NoneLost, NoRowLost, StageAll;
    match call {
      case Write(_, _, _) => WriteBelow(app, call, plain, n);
      case Take(_, _, _) => TakeBelow(app, call, plain, n);
      case Convert(_, _, _, _, _, _) => ConvertBelow(app, call, plain, n);
      case Declare(name, schema, _) =>
        if RS.RegisterSchema(app.replica, name, schema.fingerprint).Ok? { RegisterBelow(app.replica, name, schema.fingerprint, n); }
      case Restart(times) => ReopenedBelow(app, times, plain, n);
      case _ =>
    }
  }

  lemma {:induction false} UnsaturatedIsFair(app: App, calls: seq<Call>, plain: iset<Name>, n: nat, limit: nat)
    requires AppInv(app, plain) && Below(app.replica, n) && limit <= n && FittingRun(app, calls)
    requires forall call :: call in calls ==> Modest(call, limit) && KeepsPlain(call, plain)
    requires n + TotalCost(calls) <= U32_MAX
    ensures FairRun(app, calls, plain)
    decreases |calls|
  {
    hide AppInv, Do, Fair, Fitting, Below, Cost, KeepsPlain;
    if calls != [] {
      var call := calls[0];
      assert call in calls && Modest(call, n);
      CallBelow(app, call, plain, n);
      CallKeeps(app, call, plain);
      UnsaturatedIsFair(Do(app, call), calls[1..], plain, n + Cost(call), limit);
    }
  }

  // An application that has seen no logical reading above the bound, and goes
  // through fewer clock events than are left above it, never saturates: then its
  // tables and its replica agree, whatever else it goes through.
  lemma UnsaturatedTablesRefine(replica: ReplicaId, space: SpaceId, calls: seq<Call>, plain: iset<Name>, limit: nat)
    requires FittingRun(NewApp(replica, space), calls)
    requires forall call :: call in calls ==> Modest(call, limit) && KeepsPlain(call, plain)
    requires limit + TotalCost(calls) <= U32_MAX
    ensures FairRun(NewApp(replica, space), calls, plain)
    ensures var app := DoAll(NewApp(replica, space), calls);
            LogAgrees(app.db.log, app.replica.changes, app.replica.space) && RowsAgree(app.db, app.replica, plain)
  {
    hide LogAgrees, RowsAgree, RS.Inv, DoAll, FairRun, FittingRun, Modest, KeepsPlain, TotalCost;
    NewAppInv(replica, space, plain);
    UnsaturatedIsFair(NewApp(replica, space), calls, plain, limit, limit);
    TablesRefineReplica(replica, space, calls, plain);
  }
}
