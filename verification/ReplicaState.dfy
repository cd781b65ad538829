// One replica of a space as a value: its transitions, the invariant every run
// keeps, and convergence.
module ReplicaState {
  import opened Wrappers
  import opened Ids
  import opened Clock
  import opened Changes

  const MAX_COLLECTION_BYTES := 128
  const MAX_PAYLOAD_BYTES := 16 * 1024 * 1024

  datatype Materialized = Materialized(schema: U64, payload: Option<Bytes>, timestamp: Timestamp, change: ChangeId)

  type Schemas = map<Name, set<U64>>

  datatype State = State(
    id: ReplicaId,
    space: SpaceId,
    nextCounter: U64,
    clock: ClockState,
    schemas: Schemas,
    changes: map<ChangeId, Change>,
    frontier: Frontier,
    documents: map<DocumentKey, Materialized>)

  datatype Error =
    | BadCollection | NoSchema | WrongSchema | PayloadTooLarge
    | WrongSpace | Malformed | Collision(id: ChangeId) | CounterExhausted

  datatype Apply = Applied(visible: bool) | Duplicate

  function Fresh(id: ReplicaId, space: SpaceId): State {
    State(id, space, 0, ClockState(id, 0, 0), map[], map[], map[], map[])
  }

  // ---- validation ----

  predicate ValidName(name: Name) {
    0 < |name| <= MAX_COLLECTION_BYTES
  }

  predicate Registered(schemas: Schemas, name: Name, schema: U64) {
    name in schemas && schema in schemas[name]
  }

  function OperationError(schemas: Schemas, op: Operation): Option<Error> {
    if !ValidName(op.collection) then Some(BadCollection)
    else if op.collection !in schemas then Some(NoSchema)
    else if op.schema !in schemas[op.collection] then Some(WrongSchema)
    else if op.Put? && |op.payload| > MAX_PAYLOAD_BYTES then Some(PayloadTooLarge)
    else None
  }

  function ChangeError(st: State, c: Change): Option<Error> {
    if c.space != st.space then Some(WrongSpace)
    else if c.id.counter == 0 || c.timestamp.replica != c.id.replica then Some(Malformed)
    else OperationError(st.schemas, c.operation)
  }

  // What makes a change acceptable, independent of the order of the checks.
  predicate Bounded(op: Operation) {
    ValidName(op.collection) && (op.Put? ==> |op.payload| <= MAX_PAYLOAD_BYTES)
  }

  predicate Acceptable(space: SpaceId, schemas: Schemas, c: Change) {
    && c.space == space
    && c.id.counter != 0
    && c.timestamp.replica == c.id.replica
    && Bounded(c.operation)
    && Registered(schemas, c.operation.collection, c.operation.schema)
  }

  lemma AcceptableExactly(st: State, c: Change)
    ensures ChangeError(st, c).None? <==> Acceptable(st.space, st.schemas, c)
  {}

  // The same in figures: names of 1 to 128 bytes, payloads up to 16 mebibytes.
  lemma AcceptableInFigures(st: State, c: Change)
    ensures ChangeError(st, c).None? <==>
              && c.space == st.space && c.id.counter >= 1 && c.timestamp.replica == c.id.replica
              && 1 <= |c.operation.collection| && |c.operation.collection| <= 128
              && (c.operation.Put? ==> |c.operation.payload| <= 0x100_0000)
              && c.operation.collection in st.schemas && c.operation.schema in st.schemas[c.operation.collection]
  {}

  // ---- transitions ----

  function RegisterSchema(st: State, name: Name, schema: U64): Result<State, Error> {
    if !ValidName(name) then Err(BadCollection)
    else Ok(st.(schemas := st.schemas[name := (if name in st.schemas then st.schemas[name] else {}) + {schema}]))
  }

  function Candidate(c: Change): Materialized {
    Materialized(c.operation.schema,
                 if c.operation.Put? then Some(c.operation.payload) else None,
                 c.timestamp, c.id)
  }

  predicate Wins(documents: map<DocumentKey, Materialized>, c: Change) {
    var key := KeyOf(c.operation);
    key !in documents || Later(c.timestamp, c.id, documents[key].timestamp, documents[key].change)
  }

  function Retain(st: State, c: Change): State {
    var author := c.id.replica;
    var changes := st.changes[c.id := c];
    st.(
      documents := if Wins(st.documents, c) then st.documents[KeyOf(c.operation) := Candidate(c)] else st.documents,
      nextCounter := if author == st.id then Larger(st.nextCounter, c.id.counter) else st.nextCounter,
      changes := changes,
      frontier := Set(st.frontier, author, RunEnd(changes.Keys, author, Get(st.frontier, author))))
  }

  datatype Authored = Authored(state: State, change: Change)

  function Author(st: State, op: Operation, now: U64): Result<Authored, Error> {
    if OperationError(st.schemas, op).Some? then Err(OperationError(st.schemas, op).value)
    else if st.nextCounter == U64_MAX then Err(CounterExhausted)
    else
      var clock := Tick(st.clock, now);
      var counter: U64 := st.nextCounter + 1;
      var change := Change(Id(st.id, counter), st.space, Stamp(clock), op);
      Ok(Authored(Retain(st.(clock := clock, nextCounter := counter), change), change))
  }

  datatype Received = Received(state: State, apply: Apply)

  function Receive(st: State, c: Change, now: U64): Result<Received, Error> {
    if ChangeError(st, c).Some? then Err(ChangeError(st, c).value)
    else if c.id in st.changes then
      if st.changes[c.id] == c then Ok(Received(st, Duplicate)) else Err(Collision(c.id))
    else Ok(Received(Retain(st.(clock := Observe(st.clock, c.timestamp, now)), c), Applied(Wins(st.documents, c))))
  }

  // ---- the invariant ----

  predicate Holds(st: State, c: Change) {
    c.id in st.changes && st.changes[c.id] == c
  }

  ghost predicate LogSound(st: State) {
    forall id :: id in st.changes ==> st.changes[id].id == id && Acceptable(st.space, st.schemas, st.changes[id])
  }

  // Each document entry is the greatest retained change for its key.
  ghost predicate Winner(changes: map<ChangeId, Change>, key: DocumentKey, m: Materialized) {
    && m.change in changes
    && KeyOf(changes[m.change].operation) == key
    && Candidate(changes[m.change]) == m
    && forall id :: id in changes && KeyOf(changes[id].operation) == key && id != m.change ==>
         Later(m.timestamp, m.change, changes[id].timestamp, id)
  }

  ghost predicate DocumentsExact(changes: map<ChangeId, Change>, documents: map<DocumentKey, Materialized>) {
    && (forall key :: key in documents ==> Winner(changes, key, documents[key]))
    && (forall id :: id in changes ==> KeyOf(changes[id].operation) in documents)
  }

  // The next counter is the greatest retained counter of the replica's own.
  ghost predicate CounterExact(st: State) {
    && (forall id :: id in st.changes && id.replica == st.id ==> id.counter <= st.nextCounter)
    && (st.nextCounter != 0 ==> Id(st.id, st.nextCounter) in st.changes)
  }

  ghost predicate ClockDominates(st: State) {
    && st.clock.replica == st.id
    && forall id :: id in st.changes ==>
         PairAtMost(st.changes[id].timestamp.physical, st.changes[id].timestamp.logical,
                    st.clock.physical, st.clock.logical)
  }

  ghost predicate Inv(st: State) {
    && LogSound(st)
    && DocumentsExact(st.changes, st.documents)
    && Contiguous(st.frontier, st.changes.Keys)
    && CounterExact(st)
    && ClockDominates(st)
  }

  lemma FreshInv(id: ReplicaId, space: SpaceId)
    ensures Inv(Fresh(id, space))
  {}

  lemma RegisterInv(st: State, name: Name, schema: U64)
    requires Inv(st) && RegisterSchema(st, name, schema).Ok?
    ensures Inv(RegisterSchema(st, name, schema).value)
    ensures Registered(RegisterSchema(st, name, schema).value.schemas, name, schema)
  {}

  lemma LaterTotal(t: Timestamp, a: ChangeId, u: Timestamp, b: ChangeId)
    ensures (t == u && a == b) || Later(t, a, u, b) || Later(u, b, t, a)
  {}

  lemma LaterTransitive(t: Timestamp, a: ChangeId, u: Timestamp, b: ChangeId, v: Timestamp, c: ChangeId)
    requires Later(t, a, u, b) && Later(u, b, v, c)
    ensures Later(t, a, v, c)
  {}

  lemma LaterAsymmetric(t: Timestamp, a: ChangeId, u: Timestamp, b: ChangeId)
    requires Later(t, a, u, b)
    ensures !Later(u, b, t, a)
  {}

  lemma RetainWinner(st: State, c: Change, key: DocumentKey)
    requires DocumentsExact(st.changes, st.documents) && c.id !in st.changes
    requires key in Retain(st, c).documents
    ensures Winner(Retain(st, c).changes, key, Retain(st, c).documents[key])
  {
    var next := Retain(st, c);
    var m := next.documents[key];
    if key == KeyOf(c.operation) && key in st.documents {
      var held := st.documents[key];
      LaterTotal(c.timestamp, c.id, held.timestamp, held.change);
      if Wins(st.documents, c) {
        forall id | id in next.changes && KeyOf(next.changes[id].operation) == key && id != c.id
          ensures Later(m.timestamp, m.change, next.changes[id].timestamp, id)
        {
          if id != held.change {
            LaterTransitive(c.timestamp, c.id, held.timestamp, held.change, st.changes[id].timestamp, id);
          }
        }
      }
    }
  }

  lemma RetainFrontier(st: State, c: Change)
    requires Contiguous(st.frontier, st.changes.Keys) && c.id.counter != 0
    ensures Contiguous(Retain(st, c).frontier, Retain(st, c).changes.Keys)
  {
    var next := Retain(st, c);
    assert next.changes.Keys == st.changes.Keys + {c.id};
    FrontierAdvances(st.frontier, st.changes.Keys, c.id);
  }

  lemma FrontierAdvances(f: Frontier, ids: set<ChangeId>, id: ChangeId)
    requires Contiguous(f, ids) && id.counter != 0
    ensures var more := ids + {id};
            Contiguous(Set(f, id.replica, RunEnd(more, id.replica, Get(f, id.replica))), more)
  {
    var more := ids + {id};
    var g := Set(f, id.replica, RunEnd(more, id.replica, Get(f, id.replica)));
    forall r: ReplicaId ensures ContiguousAt(g, more, r) {
      hide Contiguous;
      assert ContiguousAt(f, ids, r);
      assert ContiguousAt(f, ids, id.replica);
      assert Get(g, r) == if r == id.replica then RunEnd(more, r, Get(f, r)) else Get(f, r);
    }
  }

  lemma RetainDocuments(st: State, c: Change)
    requires DocumentsExact(st.changes, st.documents) && c.id !in st.changes
    ensures DocumentsExact(Retain(st, c).changes, Retain(st, c).documents)
  {
    forall key | key in Retain(st, c).documents ensures Winner(Retain(st, c).changes, key, Retain(st, c).documents[key]) {
      RetainWinner(st, c, key);
    }
  }

  // What must hold of the clock and counter before `c` is retained.
  ghost predicate ReadyFor(st: State, c: Change) {
    && c.id !in st.changes
    && Acceptable(st.space, st.schemas, c)
    && ClockDominates(st)
    && PairAtMost(c.timestamp.physical, c.timestamp.logical, st.clock.physical, st.clock.logical)
    && (forall id :: id in st.changes && id.replica == st.id ==> id.counter <= st.nextCounter)
    && (st.nextCounter != 0 ==> Id(st.id, st.nextCounter) in st.changes || c.id == Id(st.id, st.nextCounter))
  }

  lemma RetainBookkeeping(st: State, c: Change)
    requires LogSound(st) && ReadyFor(st, c)
    ensures LogSound(Retain(st, c)) && CounterExact(Retain(st, c)) && ClockDominates(Retain(st, c))
  {
    var next := Retain(st, c);
    assert next.changes == st.changes[c.id := c];
    assert next.clock == st.clock && next.id == st.id && next.schemas == st.schemas && next.space == st.space;
    assert next.nextCounter == if c.id.replica == st.id then Larger(st.nextCounter, c.id.counter) else st.nextCounter;
  }

  // Retaining a new acceptable change keeps the invariant.
  lemma RetainInv(st: State, c: Change)
    requires LogSound(st) && DocumentsExact(st.changes, st.documents)
    requires Contiguous(st.frontier, st.changes.Keys)
    requires ReadyFor(st, c)
    ensures Inv(Retain(st, c))
  {
    hide Retain, DocumentsExact, Contiguous, ClockDominates, CounterExact;
    RetainDocuments(st, c);
    RetainFrontier(st, c);
    RetainBookkeeping(st, c);
  }

  // A newly authored change is never already retained, and is retained now.
  lemma AuthorInv(st: State, op: Operation, now: U64)
    requires Inv(st) && Author(st, op, now).Ok?
    ensures var Authored(next, c) := Author(st, op, now).value;
            && Inv(next)
            && c.id !in st.changes
            && c.id == Id(st.id, next.nextCounter)
            && next.changes == st.changes[c.id := c]
            && c.operation == op && c.space == st.space
            && next == st.(clock := next.clock, nextCounter := next.nextCounter, changes := next.changes,
                           frontier := next.frontier, documents := next.documents)
  {
    hide DocumentsExact, Contiguous;
    var clock := Tick(st.clock, now);
    TickDominates(st.clock, now);
    var counter: U64 := st.nextCounter + 1;
    var c := Change(Id(st.id, counter), st.space, Stamp(clock), op);
    RetainInv(st.(clock := clock, nextCounter := counter), c);
  }

  lemma ReceiveInv(st: State, c: Change, now: U64)
    requires Inv(st) && Receive(st, c, now).Ok?
    ensures var Received(next, apply) := Receive(st, c, now).value;
            && Inv(next)
            && next.changes == st.changes[c.id := c]
            && (apply == Duplicate <==> Holds(st, c))
            && (apply == Duplicate ==> next == st)
            && next == st.(clock := next.clock, nextCounter := next.nextCounter, changes := next.changes,
                           frontier := next.frontier, documents := next.documents)
  {
    hide DocumentsExact, Contiguous;
    if c.id in st.changes {
      assert st.changes == st.changes[c.id := c];
    } else {
      ObserveDominates(st.clock, c.timestamp, now);
      RetainInv(st.(clock := Observe(st.clock, c.timestamp, now)), c);
    }
  }

  // Receiving succeeds exactly for an acceptable change that does not collide.
  lemma ReceiveExactly(st: State, c: Change, now: U64)
    ensures Receive(st, c, now).Ok?
            <==> Acceptable(st.space, st.schemas, c) && (c.id in st.changes ==> st.changes[c.id] == c)
  {
    AcceptableExactly(st, c);
  }

  // ---- every run keeps the invariant ----

  datatype Step =
    | Register(name: Name, schema: U64)
    | Write(op: Operation, now: U64)
    | Deliver(change: Change, at: U64)

  // A failed call leaves the replica unchanged.
  function Perform(st: State, step: Step): State {
    match step
    case Register(name, schema) =>
      var r := RegisterSchema(st, name, schema);
      if r.Ok? then r.value else st
    case Write(op, now) =>
      var r := Author(st, op, now);
      if r.Ok? then r.value.state else st
    case Deliver(change, at) =>
      var r := Receive(st, change, at);
      if r.Ok? then r.value.state else st
  }

  function Runs(st: State, steps: seq<Step>): State
    decreases |steps|
  {
    if steps == [] then st else Runs(Perform(st, steps[0]), steps[1..])
  }

  // A write is authored exactly for a registered operation within bounds while
  // counters last: under the next counter, stamped by a tick of the clock.
  lemma AuthorsExactly(st: State, op: Operation, now: U64)
    ensures Author(st, op, now).Ok? <==>
              && 1 <= |op.collection| && |op.collection| <= 128
              && (op.Put? ==> |op.payload| <= 0x100_0000)
              && op.collection in st.schemas && op.schema in st.schemas[op.collection]
              && st.nextCounter < U64_MAX
    ensures Author(st, op, now).Ok? ==>
              var Authored(next, c) := Author(st, op, now).value; var clock := Tick(st.clock, now);
              && c == Change(Id(st.id, st.nextCounter + 1), st.space, Timestamp(clock.physical, clock.logical, clock.replica), op)
              && next.clock == clock && next.nextCounter == st.nextCounter + 1
              && c.id in next.changes && next.changes[c.id] == c
  {}

  // A name is registered exactly within bounds, beside the schemas it had.
  lemma RegistersExactly(st: State, name: Name, schema: U64)
    ensures RegisterSchema(st, name, schema).Ok? <==> 1 <= |name| && |name| <= 128
    ensures RegisterSchema(st, name, schema).Ok? ==>
              var next := RegisterSchema(st, name, schema).value;
              && next == st.(schemas := next.schemas)
              && forall n, f: U64 {:trigger Registered(next.schemas, n, f)} :: Registered(next.schemas, n, f) <==> Registered(st.schemas, n, f) || (n == name && f == schema)
  {}

  // A delivery of a change already held changes nothing; of a new one it moves the
  // clock past it, retains it, and shows it exactly if it is the latest of its
  // document.
  lemma ReceivesExactly(st: State, c: Change, now: U64)
    requires Inv(st) && Receive(st, c, now).Ok?
    ensures var Received(next, apply) := Receive(st, c, now).value;
            if c.id in st.changes then next == st && apply == Duplicate
            else
              && next.clock == Observe(st.clock, c.timestamp, now)
              && next.changes == st.changes[c.id := c]
              && (apply == Applied(true) || apply == Applied(false))
              && (apply == Applied(true) <==>
                    forall id :: id in st.changes && KeyOf(st.changes[id].operation) == KeyOf(c.operation) ==>
                      Later(c.timestamp, c.id, st.changes[id].timestamp, id))
              && next.documents == if apply == Applied(true) then st.documents[KeyOf(c.operation) := Candidate(c)] else st.documents
  {
    hide CounterExact, ClockDominates, Contiguous, LogSound;
    if c.id !in st.changes {
      var key := KeyOf(c.operation);
      if key in st.documents {
        var held := st.documents[key];
        forall id | id in st.changes && KeyOf(st.changes[id].operation) == key && Later(c.timestamp, c.id, held.timestamp, held.change)
          ensures Later(c.timestamp, c.id, st.changes[id].timestamp, id)
        {
          if id != held.change {
            LaterTransitive(c.timestamp, c.id, held.timestamp, held.change, st.changes[id].timestamp, id);
          }
        }
      }
    }
  }

  // What is visible of a change: its payload under its schema, or its deletion.
  lemma CandidateShows(c: Change)
    ensures Candidate(c).timestamp == c.timestamp && Candidate(c).change == c.id && Candidate(c).schema == c.operation.schema
    ensures c.operation.Put? ==> Candidate(c).payload == Some(c.operation.payload)
    ensures c.operation.Delete? ==> Candidate(c).payload == None
  {}

  // Every step that succeeds is taken, and no other.
  lemma StepsAreTaken(st: State, step: Step)
    ensures step.Register? && RegisterSchema(st, step.name, step.schema).Ok? ==>
              Perform(st, step) == RegisterSchema(st, step.name, step.schema).value
    ensures step.Write? && Author(st, step.op, step.now).Ok? ==> Perform(st, step) == Author(st, step.op, step.now).value.state
    ensures step.Deliver? && Receive(st, step.change, step.at).Ok? ==>
              Perform(st, step) == Receive(st, step.change, step.at).value.state
    ensures Perform(st, step) != st ==>
              || (step.Register? && RegisterSchema(st, step.name, step.schema).Ok?)
              || (step.Write? && Author(st, step.op, step.now).Ok?)
              || (step.Deliver? && Receive(st, step.change, step.at).Ok?)
  {
    hide RegisterSchema, Author, Receive;
  }

  // In every run from a fresh replica, with gaps, duplicates and any arrival
  // order: each document is its greatest retained change, each frontier
  // reading the largest gap-free prefix, the counter the greatest own one, and
  // the clock at least every retained timestamp.
  lemma {:induction false} RunsKeepInv(st: State, steps: seq<Step>)
    requires Inv(st)
    ensures Inv(Runs(st, steps))
    decreases |steps|
  {
    hide Inv, RegisterSchema, Author, Receive;
    if steps != [] {
      match steps[0] {
        case Register(name, schema) =>
          if RegisterSchema(st, name, schema).Ok? { RegisterInv(st, name, schema); }
        case Write(op, now) =>
          if Author(st, op, now).Ok? { AuthorInv(st, op, now); }
        case Deliver(change, at) =>
          if Receive(st, change, at).Ok? { ReceiveInv(st, change, at); }
      }
      RunsKeepInv(Perform(st, steps[0]), steps[1..]);
    }
  }

  // ---- convergence ----

  lemma WinnerUnique(changes: map<ChangeId, Change>, key: DocumentKey, a: Materialized, b: Materialized)
    requires Winner(changes, key, a) && Winner(changes, key, b)
    ensures a == b
  {
    if a.change != b.change {
      LaterAsymmetric(a.timestamp, a.change, b.timestamp, b.change);
    }
  }

  // Documents and frontier are functions of the retained changes alone.
  lemma ChangesDetermineView(a: State, b: State)
    requires Inv(a) && Inv(b) && a.changes == b.changes
    ensures a.documents == b.documents
    ensures a.frontier == b.frontier
    ensures a.id == b.id ==> a.nextCounter == b.nextCounter
  {
    FrontierUnique(a.frontier, b.frontier, a.changes.Keys);
    forall key | key in a.documents ensures key in b.documents && a.documents[key] == b.documents[key] {
      assert Winner(a.changes, key, a.documents[key]);
      assert key in b.documents;
      WinnerUnique(a.changes, key, a.documents[key], b.documents[key]);
    }
    forall key | key in b.documents ensures key in a.documents {
      assert Winner(b.changes, key, b.documents[key]);
    }
  }

  // ---- batches ----

  // Applies in order; the caller discards the staged state on failure.
  function Import(st: State, batch: seq<Change>, now: U64): Result<State, Error>
    decreases |batch|
  {
    if batch == [] then Ok(st)
    else
      match Receive(st, batch[0], now)
      case Ok(received) => Import(received.state, batch[1..], now)
      case Err(e) => Err(e)
  }

  ghost predicate CollisionFree(held: map<ChangeId, Change>, batch: seq<Change>) {
    && (forall c :: c in batch && c.id in held ==> held[c.id] == c)
    && (forall a, b :: a in batch && b in batch && a.id == b.id ==> a == b)
  }

  ghost predicate AllAcceptable(space: SpaceId, schemas: Schemas, batch: seq<Change>) {
    forall c :: c in batch ==> Acceptable(space, schemas, c)
  }

  // The union of a log with a batch.
  ghost predicate Union(before: map<ChangeId, Change>, batch: seq<Change>, after: map<ChangeId, Change>) {
    && (forall id :: id in before ==> id in after && after[id] == before[id])
    && (forall c :: c in batch ==> c.id in after && after[c.id] == c)
    && (forall id :: id in after ==> id in before || exists c :: c in batch && c.id == id)
  }

  // Nothing but the log and what it determines changes.
  predicate SameFrame(a: State, b: State) {
    a.id == b.id && a.space == b.space && a.schemas == b.schemas
  }

  lemma {:induction false} ImportIsUnion(st: State, batch: seq<Change>, now: U64)
    requires Inv(st)
    ensures Import(st, batch, now).Ok? <==>
            AllAcceptable(st.space, st.schemas, batch) && CollisionFree(st.changes, batch)
    ensures Import(st, batch, now).Ok? ==>
              var next := Import(st, batch, now).value;
              Inv(next) && SameFrame(st, next) && Union(st.changes, batch, next.changes)
    decreases |batch|
  {
    hide Inv, Receive, CollisionFree, Union, Acceptable;
    if batch == [] {
      assert CollisionFree(st.changes, batch) && Union(st.changes, batch, st.changes) by {
        NothingAdded(st.changes);
      }
    } else {
      var c, rest := batch[0], batch[1..];
      assert forall x :: x in batch <==> x == c || x in rest;
      ReceiveExactly(st, c, now);
      if Receive(st, c, now).Ok? {
        var next := Receive(st, c, now).value.state;
        ReceiveInv(st, c, now);
        ImportIsUnion(next, rest, now);
        assert next.changes == st.changes[c.id := c];
        CollisionFreeStep(st.changes, batch);
        if Import(next, rest, now).Ok? {
          UnionStep(st.changes, batch, Import(next, rest, now).value.changes);
        }
      } else {
        CollisionAtHead(st.changes, batch);
      }
    }
  }

  lemma NothingAdded(held: map<ChangeId, Change>)
    ensures CollisionFree(held, []) && Union(held, [], held)
  {}

  lemma CollisionAtHead(held: map<ChangeId, Change>, batch: seq<Change>)
    requires batch != []
    ensures CollisionFree(held, batch) ==> (batch[0].id in held ==> held[batch[0].id] == batch[0])
  {
    assert batch[0] in batch;
  }

  lemma CollisionFreeStep(held: map<ChangeId, Change>, batch: seq<Change>)
    requires batch != []
    requires batch[0].id in held ==> held[batch[0].id] == batch[0]
    ensures CollisionFree(held, batch) <==> CollisionFree(held[batch[0].id := batch[0]], batch[1..])
  {
    var c, rest := batch[0], batch[1..];
    assert forall x :: x in batch <==> x == c || x in rest;
    var more := held[c.id := c];
    if CollisionFree(more, rest) {
      forall a, b | a in batch && b in batch && a.id == b.id ensures a == b {
        if a == c && b in rest { assert more[b.id] == b; }
        if b == c && a in rest { assert more[a.id] == a; }
      }
    }
  }

  lemma UnionStep(before: map<ChangeId, Change>, batch: seq<Change>, after: map<ChangeId, Change>)
    requires batch != []
    requires batch[0].id in before ==> before[batch[0].id] == batch[0]
    requires Union(before[batch[0].id := batch[0]], batch[1..], after)
    ensures Union(before, batch, after)
  {
    var c, rest := batch[0], batch[1..];
    assert forall x :: x in batch <==> x == c || x in rest;
    var more := before[c.id := c];
    assert c.id in more && more[c.id] == c;
    forall id | id in before ensures id in after && after[id] == before[id] {
      assert id in more && more[id] == before[id];
    }
    forall id | id in after ensures id in before || exists x :: x in batch && x.id == id {
      if id !in before && id != c.id {
        assert id !in more;
        var x :| x in rest && x.id == id;
        assert x in batch;
      }
    }
  }

  lemma UnionUnique(before: map<ChangeId, Change>, first: seq<Change>, second: seq<Change>,
                    a: map<ChangeId, Change>, b: map<ChangeId, Change>)
    requires forall c :: c in first <==> c in second
    requires Union(before, first, a) && Union(before, second, b)
    ensures a == b
  {
    forall id | id in a ensures id in b && a[id] == b[id] {
      if id !in before {
        var c :| c in first && c.id == id;
        assert a[c.id] == c && b[c.id] == c;
      }
    }
    forall id | id in b ensures id in a {
      if id !in before {
        var c :| c in second && c.id == id;
      }
    }
  }

  // Two replicas holding the same log and accepting the same schemas that get
  // the same valid changes, in any order and with any repetition, end with the
  // same log, documents and frontier.
  lemma ReorderedDeliveriesConverge(a: State, b: State, first: seq<Change>, second: seq<Change>, now: U64, later: U64)
    requires Inv(a) && Inv(b)
    requires a.changes == b.changes && a.space == b.space && a.schemas == b.schemas
    requires forall c :: c in first <==> c in second
    ensures Import(a, first, now).Ok? <==> Import(b, second, later).Ok?
    ensures Import(a, first, now).Ok? ==>
              var x, y := Import(a, first, now).value, Import(b, second, later).value;
              x.changes == y.changes && x.documents == y.documents && x.frontier == y.frontier
  {
    hide Inv, Import, CollisionFree, AllAcceptable, Union;
    ImportIsUnion(a, first, now);
    ImportIsUnion(b, second, later);
    SameDeliveries(a.changes, a.space, a.schemas, first, second);
    if Import(a, first, now).Ok? {
      var x, y := Import(a, first, now).value, Import(b, second, later).value;
      UnionUnique(a.changes, first, second, x.changes, y.changes);
      ChangesDetermineView(x, y);
    }
  }

  lemma SameDeliveries(held: map<ChangeId, Change>, space: SpaceId, schemas: Schemas, first: seq<Change>, second: seq<Change>)
    requires forall c :: c in first <==> c in second
    ensures AllAcceptable(space, schemas, first) <==> AllAcceptable(space, schemas, second)
    ensures CollisionFree(held, first) <==> CollisionFree(held, second)
  {}

  // ---- local writes ----

  // The clock cannot move and a higher replica holds the same last instant.
  ghost predicate Outranked(st: State, op: Operation, now: U64) {
    && Stuck(st.clock, now)
    && KeyOf(op) in st.documents
    && var t := st.documents[KeyOf(op)].timestamp;
       t.physical == st.clock.physical && t.logical == U32_MAX && t.replica > st.id
  }

  // A local write becomes the visible winner of its document, except exactly
  // when the saturated clock is outranked by the standing winner.
  lemma LocalWriteWins(st: State, op: Operation, now: U64)
    requires Inv(st) && Author(st, op, now).Ok?
    ensures var Authored(next, c) := Author(st, op, now).value;
            && (next.documents == st.documents[KeyOf(op) := Candidate(c)] <==> !Outranked(st, op, now))
            && (Outranked(st, op, now) ==> next.documents == st.documents)
  {
    var Authored(next, c) := Author(st, op, now).value;
    var key := KeyOf(op);
    assert next.documents == if Wins(st.documents, c) then st.documents[key := Candidate(c)] else st.documents;
    AuthorInv(st, op, now);
    if key in st.documents {
      WinsUnlessOutranked(st, op, now);
      var held := st.documents[key];
      assert held.change != c.id by {
        assert Winner(st.changes, key, held);
      }
      assert st.documents[key := Candidate(c)][key] != held;
    }
  }

  lemma WinsUnlessOutranked(st: State, op: Operation, now: U64)
    requires Inv(st) && Author(st, op, now).Ok? && KeyOf(op) in st.documents
    ensures Wins(st.documents, Author(st, op, now).value.change) <==> !Outranked(st, op, now)
  {
    hide Contiguous, Retain;
    TickDominates(st.clock, now);
    var held := st.documents[KeyOf(op)];
    assert Winner(st.changes, KeyOf(op), held);
    var t := st.changes[held.change].timestamp;
    assert Acceptable(st.space, st.schemas, st.changes[held.change]);
    assert PairAtMost(t.physical, t.logical, st.clock.physical, st.clock.logical);
    assert t.replica == st.id ==> held.change.counter <= st.nextCounter;
  }

  // Timestamps respect causality: whatever a replica authors is at least as
  // late as everything it had retained, strictly later unless it is stuck.
  lemma AuthoredAfterRetained(st: State, op: Operation, now: U64, id: ChangeId)
    requires Inv(st) && Author(st, op, now).Ok? && id in st.changes
    ensures var t, u := Author(st, op, now).value.change.timestamp, st.changes[id].timestamp;
            && PairAtMost(u.physical, u.logical, t.physical, t.logical)
            && (!Stuck(st.clock, now) ==> PairLess(u.physical, u.logical, t.physical, t.logical))
  {
    TickDominates(st.clock, now);
  }

  // A stuck replica with a lower identity loses its own write.
  lemma StuckWriteCanLose()
    ensures exists st: State, op: Operation, now: U64 :: Inv(st) && Author(st, op, now).Ok? && Outranked(st, op, now)
  {
    var name: Name := [1];
    var st := RegisterSchema(Fresh(1, 0), name, 7).value;
    FreshInv(1, 0);
    RegisterInv(Fresh(1, 0), name, 7);
    var remote := Change(Id(2, 1), 0, Timestamp(5, U32_MAX, 2), Put(name, 9, 7, []));
    ReceiveExactly(st, remote, 0);
    ReceiveInv(st, remote, 0);
    var next := Receive(st, remote, 0).value.state;
    var op := Put(name, 9, 7, [1]);
    assert next.documents[KeyOf(op)] == Candidate(remote);
    assert Outranked(next, op, 0);
  }

  // ---- what a peer is missing ----

  predicate Missing(id: ChangeId, peer: Frontier) {
    id.counter > Get(peer, id.replica)
  }

  predicate MissingToward(id: ChangeId, peer: Frontier, target: Frontier) {
    Missing(id, peer) && id.counter <= Get(target, id.replica)
  }

  function ChangesAt(changes: map<ChangeId, Change>, ids: seq<ChangeId>): (r: seq<Change>)
    requires forall i :: 0 <= i < |ids| ==> ids[i] in changes
    ensures |r| == |ids|
    ensures forall i :: 0 <= i < |r| ==> r[i] == changes[ids[i]]
  {
    seq(|ids|, i requires 0 <= i < |ids| => changes[ids[i]])
  }

  // Filtering a map's entries visits them in key order.
  function MissingIds(st: State, peer: Frontier): seq<ChangeId> {
    Ascending(set id | id in st.changes && Missing(id, peer))
  }

  function MissingFor(st: State, peer: Frontier): seq<Change> {
    var ids := MissingIds(st, peer);
    assert forall i :: 0 <= i < |ids| ==> ids[i] in ids;
    ChangesAt(st.changes, ids)
  }

  function Gap(ids: set<ChangeId>, peer: Frontier, target: Frontier): set<ChangeId> {
    set id | id in ids && MissingToward(id, peer, target)
  }

  function Take<T>(s: seq<T>, n: nat): seq<T> {
    if |s| <= n then s else s[..n]
  }

  datatype Page = Page(changes: seq<Change>, hasMore: bool)

  // One item beyond the limit is taken to learn whether more remain.
  function PageOf(all: seq<Change>, limit: U64): Page {
    var taken := Take(all, if limit == U64_MAX then limit else limit + 1);
    Page(Take(taken, limit), |taken| > limit)
  }

  function MissingForTarget(st: State, peer: Frontier, target: Frontier, limit: U64): Page {
    var ids := Ascending(Gap(st.changes.Keys, peer, target));
    assert forall i :: 0 <= i < |ids| ==> ids[i] in ids;
    PageOf(ChangesAt(st.changes, ids), limit)
  }

  lemma MissingForExactly(st: State, peer: Frontier, c: Change)
    requires LogSound(st)
    ensures c in MissingFor(st, peer) <==> Holds(st, c) && Missing(c.id, peer)
  {
    var ids := MissingIds(st, peer);
    forall i | 0 <= i < |ids| ensures ids[i] in st.changes && Missing(ids[i], peer) {
      assert ids[i] in ids;
    }
    if Holds(st, c) && Missing(c.id, peer) {
      assert c.id in ids;
      var i :| 0 <= i < |ids| && ids[i] == c.id;
      assert MissingFor(st, peer)[i] == c;
    }
  }

  // No identity names different changes in two logs.
  ghost predicate Consistent(a: map<ChangeId, Change>, b: map<ChangeId, Change>) {
    forall id :: id in a && id in b ==> a[id] == b[id]
  }

  ghost predicate Joined(a: map<ChangeId, Change>, b: map<ChangeId, Change>, after: map<ChangeId, Change>) {
    && (forall id :: id in after <==> id in a || id in b)
    && (forall id :: id in a ==> after[id] == a[id])
    && (forall id :: id in b ==> after[id] == b[id])
  }

  lemma MissingBatchFits(sender: State, peer: State)
    requires LogSound(sender)
    requires Consistent(sender.changes, peer.changes)
    requires forall id :: id in sender.changes ==> Acceptable(peer.space, peer.schemas, sender.changes[id])
    ensures var batch := MissingFor(sender, peer.frontier);
            AllAcceptable(peer.space, peer.schemas, batch) && CollisionFree(peer.changes, batch)
  {
    var batch := MissingFor(sender, peer.frontier);
    forall c | c in batch ensures Holds(sender, c) {
      MissingForExactly(sender, peer.frontier, c);
    }
  }

  lemma HeldWithinFrontier(st: State, id: ChangeId)
    requires Contiguous(st.frontier, st.changes.Keys)
    requires id.counter != 0 && !Missing(id, st.frontier)
    ensures id in st.changes
  {
    assert ContiguousAt(st.frontier, st.changes.Keys, id.replica);
  }

  lemma MissingUnionJoins(sender: State, peer: State, after: map<ChangeId, Change>)
    requires LogSound(sender) && Contiguous(peer.frontier, peer.changes.Keys)
    requires Consistent(sender.changes, peer.changes)
    requires Union(peer.changes, MissingFor(sender, peer.frontier), after)
    ensures Joined(peer.changes, sender.changes, after)
  {
    var batch := MissingFor(sender, peer.frontier);
    forall id | id in sender.changes ensures id in after && after[id] == sender.changes[id] {
      MissingForExactly(sender, peer.frontier, sender.changes[id]);
      if !Missing(id, peer.frontier) {
        HeldWithinFrontier(peer, id);
      }
    }
    forall id | id in after ensures id in peer.changes || id in sender.changes {
      if id !in peer.changes {
        var c :| c in batch && c.id == id;
        MissingForExactly(sender, peer.frontier, c);
      }
    }
  }

  // Sending a peer what its frontier lacks makes it hold everything the sender
  // holds, although the frontier says nothing about changes beyond gaps.
  lemma CatchUp(sender: State, peer: State, now: U64)
    requires Inv(sender) && Inv(peer)
    requires Consistent(sender.changes, peer.changes)
    requires forall id :: id in sender.changes ==> Acceptable(peer.space, peer.schemas, sender.changes[id])
    ensures var r := Import(peer, MissingFor(sender, peer.frontier), now);
            r.Ok? && Inv(r.value) && Joined(peer.changes, sender.changes, r.value.changes)
  {
    var batch := MissingFor(sender, peer.frontier);
    MissingBatchFits(sender, peer);
    ImportIsUnion(peer, batch, now);
    MissingUnionJoins(sender, peer, Import(peer, batch, now).value.changes);
  }
}
