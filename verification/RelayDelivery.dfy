// Store-and-forward through a relay mailbox: push, pull, import, acknowledge,
// crash and retry.
module RelayDelivery {
  import opened Wrappers
  import opened Ids
  import opened Changes
  import opened StoreState
  import opened AppState
  import RS = ReplicaState
  import AP = AppProof
  import MS = MailboxState
  import MP = MailboxProof

  // What one epoch key does for a mailbox: opening a packet, and naming the
  // object of a change. Sealing is randomised, so many packets open to one
  // change; `content` is the one change behind each identity.
  datatype Keying = Keying(open: Bytes -> Option<Change>, objectId: ChangeId -> MS.ObjectId, content: ChangeId -> Change)

  ghost predicate Distinguishes(k: Keying) {
    forall a, b {:trigger k.objectId(a), k.objectId(b)} :: k.objectId(a) == k.objectId(b) ==> a == b
  }

  // Such a naming exists.
  lemma SomeNamingDistinguishes(open: Bytes -> Option<Change>, content: ChangeId -> Change) returns (k: Keying)
    ensures Distinguishes(k) && k.open == open && k.content == content
  {
    k := Keying(open, (id: ChangeId) => id.replica * (U64_MAX + 1) + id.counter, content);
    forall a: ChangeId, b: ChangeId | k.objectId(a) == k.objectId(b) ensures a == b {
      assert (a.replica - b.replica) * (U64_MAX + 1) == b.counter - a.counter;
    }
  }

  predicate Genuine(k: Keying, id: MS.ObjectId, packet: Bytes) {
    && k.open(packet).Some?
    && var c := k.open(packet).value;
       k.objectId(c.id) == id && k.content(c.id) == c
  }

  datatype Client =
    | Idle
    | Pulled(items: seq<MS.Delivery>)
    | Imported(items: seq<MS.Delivery>)

  // `stored` are all objects the mailbox has ever held.
  datatype World = World(relay: MS.Relay, app: App, client: Client, stored: set<MS.Object>)

  datatype Event =
    | Request(request: MS.Request, now: U64)
    | PullPage(nonce: MS.Nonce, after: U64, limit: nat, now: U64)
    | ImportPage(now: U64, at: U64, commits: bool)
    | AckPage(nonce: MS.Nonce, now: U64)
    | Crash(times: seq<U64>, now: U64)
    | Work(call: AP.Call, now: U64)

  function MailboxOf(objects: seq<MS.Object>, route: MS.Route): set<MS.Object> {
    set o | o in objects && o.route == route
  }

  function Served(w: World, limits: MS.Limits, route: MS.Route, request: MS.Request, now: U64): World {
    var next := MS.After(w.relay, limits, request, now);
    w.(relay := next, stored := w.stored + MailboxOf(next.objects, route))
  }

  function OpenAll(k: Keying, items: seq<MS.Delivery>): Option<seq<Change>> {
    if items == [] then Some([])
    else
      match k.open(items[0].envelope.ciphertext)
      case None => None
      case Some(c) =>
        match OpenAll(k, items[1..])
        case None => None
        case Some(rest) => Some([c] + rest)
  }

  function ItemIds(items: seq<MS.Delivery>): seq<MS.ObjectId> {
    seq(|items|, i requires 0 <= i < |items| => items[i].envelope.id)
  }

  function PullOf(route: MS.Route, e: Event): MS.Request
    requires e.PullPage?
  {
    MS.Request(route, e.now, e.nonce, MS.Pull(e.after, e.limit), true)
  }

  function AckOf(route: MS.Route, e: Event, items: seq<MS.Delivery>): MS.Request
    requires e.AckPage?
  {
    MS.Request(route, e.now, e.nonce, MS.Acknowledge(ItemIds(items)), true)
  }

  // A failed import or a crash abandons the page; only an imported page is
  // acknowledged.
  function React(w: World, limits: MS.Limits, route: MS.Route, k: Keying, e: Event): World {
    match e
    case Request(request, now) => Served(w, limits, route, request, now)
    case PullPage(_, _, _, now) =>
      var step := MS.Handle(w.relay, limits, PullOf(route, e), now);
      var next := Served(w, limits, route, PullOf(route, e), now);
      if step.Step? && step.response.Deliveries? then next.(client := Pulled(step.response.items)) else next
    case ImportPage(now, at, commits) =>
      if !w.client.Pulled? || OpenAll(k, w.client.items).None? then w.(client := Idle)
      else
        var r := Import(w.app, OpenAll(k, w.client.items).value, at, commits);
        if r.Err? then w.(client := Idle) else w.(app := r.value, client := Client.Imported(w.client.items))
    case AckPage(_, now) =>
      if w.client.Imported? then Served(w, limits, route, AckOf(route, e, w.client.items), now).(client := Idle) else w
    case Crash(times, now) =>
      if |times| == |ReplicatedChanges(w.app.db)| && Reopen(w.app.db, times).Ok? then
        w.(app := Reopen(w.app.db, times).value, client := Idle)
      else w.(client := Idle)
    case Work(call, now) => if AP.Fitting(w.app, call) then w.(app := AP.Do(w.app, call)) else w
  }

  // Delivery is about the log alone: no collection's rows are followed, so the
  // clock does not matter.
  ghost const NO_NAMES: iset<Name> := iset{}

  // Requests by others to this mailbox push genuine packets or pull; nobody
  // but the recipient acknowledges.
  ghost predicate Honest(w: World, route: MS.Route, k: Keying, e: Event) {
    match e
    case Request(request, _) =>
      request.route == route ==>
        && !request.operation.Acknowledge?
        && (request.operation.Push? ==> forall x :: x in request.operation.envelopes ==> Genuine(k, x.id, x.ciphertext))
    case _ => true
  }

  // ---- what every run keeps ----

  predicate Durable(app: App, c: Change) {
    var key := LogKey(app.db.space, c.id);
    key in app.db.log && app.db.log[key] == c
  }

  ghost predicate Safe(w: World, k: Keying, at: U64, o: MS.Object) {
    || o in w.relay.objects
    || o.expires <= at
    || (k.open(o.ciphertext).Some? && Durable(w.app, k.open(o.ciphertext).value))
  }

  ghost predicate ItemsGenuine(k: Keying, items: seq<MS.Delivery>) {
    forall d :: d in items ==> Genuine(k, d.envelope.id, d.envelope.ciphertext)
  }

  ghost predicate MailboxGenuine(objects: seq<MS.Object>, route: MS.Route, k: Keying) {
    forall o :: o in objects && o.route == route ==> Genuine(k, o.id, o.ciphertext)
  }

  ghost predicate ItemsDurable(app: App, k: Keying, items: seq<MS.Delivery>) {
    forall d :: d in items ==> k.open(d.envelope.ciphertext).Some? && Durable(app, k.open(d.envelope.ciphertext).value)
  }

  ghost predicate WorldInv(w: World, limits: MS.Limits, route: MS.Route, k: Keying, at: U64) {
    && MS.RelayInv(w.relay, limits, at)
    && AP.AppInv(w.app, NO_NAMES)
    && MailboxGenuine(w.relay.objects, route, k)
    && (!w.client.Idle? ==> ItemsGenuine(k, w.client.items))
    && (w.client.Imported? ==> ItemsDurable(w.app, k, w.client.items))
    && (forall o :: o in w.stored ==> o.route == route && Genuine(k, o.id, o.ciphertext) && Safe(w, k, at, o))
    && (forall o :: o in w.relay.objects && o.route == route ==> o in w.stored)
  }

  // ---- the tables under one request ----

  lemma {:induction false} InsertAllKeeps(r: MS.Relay, route: MS.Route, envelopes: seq<MS.Envelope>, o: MS.Object)
    ensures o in r.objects ==> o in MS.InsertAll(r, route, envelopes).objects
    ensures o in MS.InsertAll(r, route, envelopes).objects && o !in r.objects ==>
              o.route == route && MS.EnvelopeOf(o) in envelopes
    decreases |envelopes|
  {
    if envelopes != [] {
      InsertAllKeeps(MS.Insert(r, route, envelopes[0]), route, envelopes[1..], o);
      assert forall x :: x in envelopes <==> x == envelopes[0] || x in envelopes[1..];
    }
  }

  // A request takes an object out only by expiry or by its acknowledgement,
  // and puts in only what it pushes.
  lemma RequestMoves(r: MS.Relay, limits: MS.Limits, request: MS.Request, now: U64, o: MS.Object)
    ensures var next := MS.After(r, limits, request, now);
            && (o in r.objects && o !in next.objects ==>
                  o.expires <= now || (request.operation.Acknowledge? && o.route == request.route && o.id in request.operation.ids))
            && (o in next.objects && o !in r.objects ==>
                  request.operation.Push? && o.route == request.route && MS.EnvelopeOf(o) in request.operation.envelopes)
  {
    hide MS.Purge, MS.Verify, MS.Fits, MS.InsertAll, MS.DropAll, MS.ApplyPull;
    if MP.Accepts(r, request, now) {
      MP.AdmittedFollows(r, request, now);
      var admitted := MP.Admitted(r, request, now);
      match request.operation {
        case Push(envelopes) => InsertAllKeeps(admitted, request.route, envelopes, o);
        case Pull(after, limit) => MP.PullLeavesTables(admitted, request.route, after, limit, now);
        case Acknowledge(ids) => MP.DropAllMembers(admitted.objects, request.route, ids, o);
      }
    }
  }

  // What a pull hands over is in the mailbox.
  lemma PulledFromMailbox(r: MS.Relay, limits: MS.Limits, request: MS.Request, now: U64, d: MS.Delivery)
    requires request.operation.Pull?
    requires var step := MS.Handle(r, limits, request, now);
             step.Step? && step.response.Deliveries? && d in step.response.items
    ensures exists o :: o in r.objects && o.route == request.route && MS.EnvelopeOf(o) == d.envelope
  {
    hide MS.Waiting, MS.ValidEnvelope, MS.Purge, MS.FirstOf;
    var admitted := MP.Admitted(r, request, now);
    MP.AdmittedFollows(r, request, now);
    var waiting := MS.Waiting(admitted.objects, request.route, request.operation.after, now);
    var items := MS.Handle(r, limits, request, now).response.items;
    var i :| 0 <= i < |items| && items[i] == d;
    PageMember(waiting, request.operation.limit, i);
    var o := MS.FirstOf(waiting, request.operation.limit)[i];
    MP.WaitingMembers(admitted.objects, request.route, request.operation.after, now, o);
  }

  lemma PageMember(waiting: seq<MS.Object>, limit: nat, i: nat)
    requires i < |MS.FirstOf(waiting, limit)|
    ensures MS.FirstOf(waiting, limit)[i] in waiting
  {}

  // ---- the recipient's durable log only grows ----

  lemma LogHolds(app: App, c: Change)
    requires AP.AppInv(app, NO_NAMES)
    ensures Durable(app, c) <==> c.id in app.replica.changes && app.replica.changes[c.id] == c
  {
    hide RS.Inv, AP.RowsAgree, JournalInv, AP.NamesValid;
  }

  ghost predicate Grows(app: App, next: App) {
    forall id :: id in app.replica.changes ==> id in next.replica.changes && next.replica.changes[id] == app.replica.changes[id]
  }

  lemma ImportRetains(app: App, batch: seq<Change>, now: U64, commits: bool)
    requires AP.AppInv(app, NO_NAMES) && Import(app, batch, now, commits).Ok?
    ensures RS.Union(app.replica.changes, batch, Import(app, batch, now, commits).value.replica.changes)
  {
    hide RS.Inv, AP.RowsAgree, JournalInv, AP.NamesValid, AP.LogAgrees, StageImport, MaterializeAll, CommitRemote, SchemaProblem, RS.Import, RS.Union;
    if batch == [] {
      RS.NothingAdded(app.replica.changes);
    } else {
      AP.StageImportIsImport(app.replica, batch, app.mergers, now);
      RS.ImportIsUnion(app.replica, batch, now);
    }
  }

  lemma CommitGrows(app: App, mutations: seq<Mutation>, now: U64, commits: bool)
    requires AP.AppInv(app, NO_NAMES) && Commit(app, mutations, now, commits).Ok?
    ensures Grows(app, Commit(app, mutations, now, commits).value)
  {
    hide RS.Inv, AP.RowsAgree, JournalInv, AP.NamesValid, AP.LogAgrees, StageAll, CommitLocal, AllIn;
    AP.StageAllEffect(app.replica, mutations, now);
  }

  lemma MigrateGrows(app: App, collection: Name, from: StoredSchema, to: StoredSchema, payloads: seq<Option<Bytes>>,
                     now: U64, commits: bool)
    requires AP.AppInv(app, NO_NAMES) && |payloads| == |RowsOf(app.db, app.replica.space, collection)|
    requires Migrate(app, collection, from, to, payloads, now, commits).Ok?
    ensures Grows(app, Migrate(app, collection, from, to, payloads, now, commits).value)
  {
    hide RS.Inv, AP.RowsAgree, JournalInv, AP.NamesValid, AP.LogAgrees, AuthorRows, RowsOf, RewriteRows, AppendReplicated, RS.RegisterSchema, CheckTransformed, ChangesOf, AllIn;
    AP.RegisterFrame(app.replica, collection, to.fingerprint);
    var registered := RS.RegisterSchema(app.replica, collection, to.fingerprint).value;
    var rows := RowsOf(app.db, app.replica.space, collection);
    CheckedAllFit(app.replica.space, to, rows, AuthorRows(registered, rows, payloads, to, now).outcomes);
    AP.AuthorRowsEffect(registered, rows, payloads, to, now);
  }

  lemma DoGrows(app: App, call: AP.Call)
    requires AP.AppInv(app, NO_NAMES) && AP.Fitting(app, call)
    ensures Grows(app, AP.Do(app, call))
  {
    hide AP.AppInv, Commit, Import, Migrate, Reopen, Compact, Reserve, RowsOf, ReplicatedChanges, RS.RegisterSchema;
    match call {
      case Write(mutations, now, commits) =>
        if Commit(app, mutations, now, commits).Ok? { CommitGrows(app, mutations, now, commits); }
      case Take(batch, at, commits) =>
        if Import(app, batch, at, commits).Ok? { ImportRetains(app, batch, at, commits); }
      case Convert(collection, from, to, payloads, now, commits) =>
        if Migrate(app, collection, from, to, payloads, now, commits).Ok? {
          MigrateGrows(app, collection, from, to, payloads, now, commits);
        }
      case Declare(name, schema, strategy) => RegisteredGrows(app, name, schema.fingerprint);
      case Restart(times) => AP.ReopenRestores(app, times, NO_NAMES);
      case _ =>
    }
  }

  lemma RegisteredGrows(app: App, name: Name, schema: U64)
    ensures RS.RegisterSchema(app.replica, name, schema).Ok? ==>
              RS.RegisterSchema(app.replica, name, schema).value.changes == app.replica.changes
  {}

  lemma GrowthKeepsDurable(app: App, next: App, c: Change)
    requires AP.AppInv(app, NO_NAMES) && AP.AppInv(next, NO_NAMES) && Grows(app, next) && Durable(app, c)
    ensures Durable(next, c)
  {
    hide AP.AppInv, Durable;
    LogHolds(app, c);
    LogHolds(next, c);
  }

  // ---- steps ----

  lemma {:induction false} OpenAllOpens(k: Keying, items: seq<MS.Delivery>, i: nat)
    requires OpenAll(k, items).Some? && i < |items|
    ensures |OpenAll(k, items).value| == |items|
    ensures k.open(items[i].envelope.ciphertext) == Some(OpenAll(k, items).value[i])
    decreases |items|
  {
    if |items| > 1 {
      OpenAllOpens(k, items[1..], if i == 0 then 0 else i - 1);
    }
  }

  lemma ImportMakesDurable(app: App, k: Keying, items: seq<MS.Delivery>, at: U64, commits: bool)
    requires AP.AppInv(app, NO_NAMES) && OpenAll(k, items).Some?
    requires Import(app, OpenAll(k, items).value, at, commits).Ok?
    ensures var next := Import(app, OpenAll(k, items).value, at, commits).value;
            AP.AppInv(next, NO_NAMES) && Grows(app, next) && ItemsDurable(next, k, items)
  {
    hide AP.AppInv, Import, OpenAll, Durable;
    var batch := OpenAll(k, items).value;
    var next := Import(app, batch, at, commits).value;
    AP.ImportKeeps(app, batch, at, commits, NO_NAMES);
    ImportRetains(app, batch, at, commits);
    forall d | d in items ensures k.open(d.envelope.ciphertext).Some? && Durable(next, k.open(d.envelope.ciphertext).value) {
      var i :| 0 <= i < |items| && items[i] == d;
      OpenAllOpens(k, items, i);
      assert batch[i] in batch;
      LogHolds(next, batch[i]);
    }
  }

  // The recipient's log grew and nothing else moved.
  lemma AppKeepsWorld(w: World, next: App, client: Client, limits: MS.Limits, route: MS.Route, k: Keying, at: U64)
    requires WorldInv(w, limits, route, k, at)
    requires AP.AppInv(next, NO_NAMES) && Grows(w.app, next)
    requires client == w.client || client.Idle? || (client.Imported? && w.client == Pulled(client.items) && ItemsDurable(next, k, client.items))
    ensures WorldInv(w.(app := next, client := client), limits, route, k, at)
  {
    hide AP.AppInv, Durable, Grows, MS.RelayInv, Genuine;
    forall c | Durable(w.app, c) ensures Durable(next, c) {
      GrowthKeepsDurable(w.app, next, c);
    }
  }

  ghost predicate RemovedSafely(w: World, k: Keying, route: MS.Route, request: MS.Request) {
    request.operation.Acknowledge? && request.route == route ==>
      forall o :: o in w.relay.objects && o.route == route && o.id in request.operation.ids && Genuine(k, o.id, o.ciphertext) ==>
        Durable(w.app, k.open(o.ciphertext).value)
  }

  lemma RequestKeepsWorld(w: World, limits: MS.Limits, route: MS.Route, k: Keying, request: MS.Request, at: U64, now: U64)
    requires WorldInv(w, limits, route, k, at) && at <= now
    requires request.route == route && request.operation.Push? ==>
               forall x :: x in request.operation.envelopes ==> Genuine(k, x.id, x.ciphertext)
    requires RemovedSafely(w, k, route, request)
    ensures WorldInv(Served(w, limits, route, request, now), limits, route, k, now)
  {
    hide AP.AppInv, Durable, MS.RelayInv, MS.After, Genuine;
    var next := MS.After(w.relay, limits, request, now);
    MP.RequestKeepsInv(w.relay, limits, request, at, now);
    forall o | o in next.objects && o.route == route ensures Genuine(k, o.id, o.ciphertext) {
      RequestMoves(w.relay, limits, request, now, o);
    }
    forall o | o in w.stored && o !in next.objects && o.expires > now
      ensures k.open(o.ciphertext).Some? && Durable(w.app, k.open(o.ciphertext).value)
    {
      RequestMoves(w.relay, limits, request, now, o);
      GenuineOpens(k, o.id, o.ciphertext);
    }
  }

  lemma GenuineOpens(k: Keying, id: MS.ObjectId, packet: Bytes)
    requires Genuine(k, id, packet)
    ensures k.open(packet).Some?
  {}

  // One object name, one change.
  lemma SameNameSameChange(k: Keying, id: MS.ObjectId, a: Bytes, b: Bytes)
    requires Distinguishes(k) && Genuine(k, id, a) && Genuine(k, id, b)
    ensures k.open(a) == k.open(b)
  {}

  lemma AckedAreDurable(w: World, limits: MS.Limits, route: MS.Route, k: Keying, e: Event, at: U64)
    requires WorldInv(w, limits, route, k, at) && Distinguishes(k) && e.AckPage? && w.client.Imported?
    ensures RemovedSafely(w, k, route, AckOf(route, e, w.client.items))
  {
    hide AP.AppInv, Durable, MS.RelayInv, Genuine;
    var items := w.client.items;
    forall o | o in w.relay.objects && o.route == route && o.id in ItemIds(items) && Genuine(k, o.id, o.ciphertext)
      ensures k.open(o.ciphertext).Some? && Durable(w.app, k.open(o.ciphertext).value)
    {
      var i :| 0 <= i < |items| && ItemIds(items)[i] == o.id;
      assert items[i] in items;
      SameNameSameChange(k, o.id, o.ciphertext, items[i].envelope.ciphertext);
    }
  }

  lemma PulledAreGenuine(w: World, limits: MS.Limits, route: MS.Route, k: Keying, request: MS.Request, now: U64)
    requires MailboxGenuine(w.relay.objects, route, k) && request.route == route && request.operation.Pull?
    requires var step := MS.Handle(w.relay, limits, request, now); step.Step? && step.response.Deliveries?
    ensures ItemsGenuine(k, MS.Handle(w.relay, limits, request, now).response.items)
  {
    hide MS.Handle, Genuine;
    var items := MS.Handle(w.relay, limits, request, now).response.items;
    forall d | d in items ensures Genuine(k, d.envelope.id, d.envelope.ciphertext) {
      PulledFromMailbox(w.relay, limits, request, now, d);
    }
  }

  lemma NewPage(w: World, items: seq<MS.Delivery>, limits: MS.Limits, route: MS.Route, k: Keying, at: U64)
    requires WorldInv(w, limits, route, k, at) && ItemsGenuine(k, items)
    ensures WorldInv(w.(client := Pulled(items)), limits, route, k, at)
    ensures WorldInv(w.(client := Idle), limits, route, k, at)
  {
    hide AP.AppInv, Durable, MS.RelayInv, Genuine;
  }

  lemma LaterKeepsWorld(w: World, limits: MS.Limits, route: MS.Route, k: Keying, at: U64, now: U64)
    requires WorldInv(w, limits, route, k, at) && at <= now
    ensures WorldInv(w, limits, route, k, now)
  {
    hide AP.AppInv, Durable, MS.RelayInv, Genuine;
    MP.LaterKeepsInv(w.relay, limits, at, now);
  }

  lemma EventKeepsWorld(w: World, limits: MS.Limits, route: MS.Route, k: Keying, e: Event, at: U64)
    requires WorldInv(w, limits, route, k, at) && Distinguishes(k) && at <= e.now
    requires Honest(w, route, k, e)
    ensures WorldInv(React(w, limits, route, k, e), limits, route, k, e.now)
  {
    hide WorldInv, AP.AppInv, AP.Fair, Served, MS.Handle, Import, Reopen, AP.Do, Genuine, OpenAll, AP.Fitting, Grows, ItemsDurable, ReplicatedChanges, Distinguishes, RemovedSafely;
    LaterKeepsWorld(w, limits, route, k, at, e.now);
    Unpack(w, limits, route, k, at);
    match e {
      case Request(request, now) =>
        NoAck(w, k, route, request);
        RequestKeepsWorld(w, limits, route, k, request, at, now);
      case PullPage(_, _, _, now) =>
        var request := PullOf(route, e);
        NoAck(w, k, route, request);
        RequestKeepsWorld(w, limits, route, k, request, at, now);
        var step := MS.Handle(w.relay, limits, request, now);
        if step.Step? && step.response.Deliveries? {
          PulledAreGenuine(w, limits, route, k, request, now);
          NewPage(Served(w, limits, route, request, now), step.response.items, limits, route, k, now);
        }
      case ImportPage(now, moment, commits) =>
        NewPage(w, [], limits, route, k, now);
        if w.client.Pulled? && OpenAll(k, w.client.items).Some? {
          if Import(w.app, OpenAll(k, w.client.items).value, moment, commits).Ok? {
            ImportMakesDurable(w.app, k, w.client.items, moment, commits);
            AppKeepsWorld(w, Import(w.app, OpenAll(k, w.client.items).value, moment, commits).value,
                          Client.Imported(w.client.items), limits, route, k, now);
          }
        }
      case AckPage(_, now) =>
        if w.client.Imported? {
          AckedAreDurable(w, limits, route, k, e, at);
          RequestKeepsWorld(w, limits, route, k, AckOf(route, e, w.client.items), at, now);
          NewPage(Served(w, limits, route, AckOf(route, e, w.client.items), now), [], limits, route, k, now);
        }
      case Crash(times, now) =>
        NewPage(w, [], limits, route, k, now);
        if |times| == |ReplicatedChanges(w.app.db)| {
          AP.ReopenRestores(w.app, times, NO_NAMES);
          SameChangesGrow(w.app, Reopen(w.app.db, times).value);
          AppKeepsWorld(w, Reopen(w.app.db, times).value, Idle, limits, route, k, now);
        }
      case Work(call, now) =>
        if AP.Fitting(w.app, call) {
          AP.AlwaysFair(w.app, call);
          AP.CallKeeps(w.app, call, NO_NAMES);
          DoGrows(w.app, call);
          AppKeepsWorld(w, AP.Do(w.app, call), w.client, limits, route, k, now);
        }
    }
  }

  lemma SameChangesGrow(app: App, next: App)
    requires next.replica.changes == app.replica.changes
    ensures Grows(app, next)
  {}

  lemma Unpack(w: World, limits: MS.Limits, route: MS.Route, k: Keying, at: U64)
    requires WorldInv(w, limits, route, k, at)
    ensures AP.AppInv(w.app, NO_NAMES) && MailboxGenuine(w.relay.objects, route, k)
  {
    hide AP.AppInv, Durable, MS.RelayInv, Genuine;
  }

  lemma NoAck(w: World, k: Keying, route: MS.Route, request: MS.Request)
    requires request.operation.Acknowledge? ==> request.route != route
    ensures RemovedSafely(w, k, route, request)
  {}

  // ---- whole runs ----

  function Run(w: World, limits: MS.Limits, route: MS.Route, k: Keying, events: seq<Event>): World
    decreases |events|
  {
    if events == [] then w else Run(React(w, limits, route, k, events[0]), limits, route, k, events[1..])
  }

  ghost predicate HonestRun(w: World, limits: MS.Limits, route: MS.Route, k: Keying, events: seq<Event>, at: U64)
    decreases |events|
  {
    events != [] ==>
      && at <= events[0].now && Honest(w, route, k, events[0])
      && HonestRun(React(w, limits, route, k, events[0]), limits, route, k, events[1..], events[0].now)
  }

  // An empty relay and any sound recipient that is not in the middle of a page.
  lemma StartsSound(burns: bool, limits: MS.Limits, app: App, route: MS.Route, k: Keying, at: U64)
    requires AP.AppInv(app, NO_NAMES)
    ensures WorldInv(World(MS.EmptyRelay(burns), app, Idle, {}), limits, route, k, at)
  {
    hide AP.AppInv;
    MP.EmptyRelayInv(burns, limits, at);
  }

  // The time of the last event, if any.
  function LastTime(events: seq<Event>, at: U64): U64 {
    if events == [] then at else events[|events| - 1].now
  }

  lemma {:induction false} RunKeepsWorld(w: World, limits: MS.Limits, route: MS.Route, k: Keying, events: seq<Event>, at: U64)
    requires WorldInv(w, limits, route, k, at) && Distinguishes(k)
    requires HonestRun(w, limits, route, k, events, at)
    ensures WorldInv(Run(w, limits, route, k, events), limits, route, k, LastTime(events, at))
    decreases |events|
  {
    hide React, Honest, Distinguishes, WorldInv;
    if events != [] {
      EventKeepsWorld(w, limits, route, k, events[0], at);
      RunKeepsWorld(React(w, limits, route, k, events[0]), limits, route, k, events[1..], events[0].now);
    }
  }

  // An empty relay, and a recipient whose database is new.
  function FirstWorld(burns: bool, replica: ReplicaId, space: SpaceId): World {
    World(MS.EmptyRelay(burns), AP.NewApp(replica, space), Idle, {})
  }

  // In every run from there, each change once stored in the mailbox is still
  // there, has expired, or is in the recipient's durable log, even across crashes
  // between import and acknowledgement.
  lemma NothingIsLost(burns: bool, limits: MS.Limits, replica: ReplicaId, space: SpaceId, route: MS.Route, k: Keying,
                      events: seq<Event>, at: U64)
    requires Distinguishes(k) && HonestRun(FirstWorld(burns, replica, space), limits, route, k, events, at)
    ensures var end := Run(FirstWorld(burns, replica, space), limits, route, k, events);
            forall o :: o in end.stored ==> Safe(end, k, LastTime(events, at), o)
  {
    hide Run, HonestRun, Distinguishes, Safe, AP.AppInv, Genuine, MS.RelayInv, ItemsDurable;
    AP.NewAppInv(replica, space, NO_NAMES);
    StartsSound(burns, limits, FirstWorld(burns, replica, space).app, route, k, at);
    RunKeepsWorld(FirstWorld(burns, replica, space), limits, route, k, events, at);
  }

  // After a crash the process starts from its tables: it holds the changes,
  // documents and frontier it held, abandons the page and has nothing opened.
  lemma CrashRestores(w: World, limits: MS.Limits, route: MS.Route, k: Keying, e: Event, at: U64)
    requires WorldInv(w, limits, route, k, at) && e.Crash? && |e.times| == |ReplicatedChanges(w.app.db)|
    ensures var next := React(w, limits, route, k, e);
            && next.client == Idle && next.relay == w.relay && next.stored == w.stored
            && next.app.db == w.app.db && SameView(next.app, w.app)
            && Reopen(w.app.db, e.times) == Ok(next.app) && next.app.mergers == map[]
  {
    hide *;
    RecipientSound(w, limits, route, k, at);
    ReopenSame(w.app, e.times);
    CrashReopens(w, limits, route, k, e);
    NothingOpened(w.app.db, e.times);
  }

  // The recipient's other work is what AppProof says it is, and leaves mailbox and
  // page alone.
  lemma WorkIsDone(w: World, limits: MS.Limits, route: MS.Route, k: Keying, e: Event)
    requires e.Work? && AP.Fitting(w.app, e.call)
    ensures React(w, limits, route, k, e) == w.(app := AP.Do(w.app, e.call))
  {
    hide AP.Do, Import, Reopen, Served, MS.Handle, OpenAll;
  }

  predicate SameView(a: App, b: App) {
    && a.replica.changes == b.replica.changes && a.replica.documents == b.replica.documents
    && a.replica.frontier == b.replica.frontier && a.replica.nextCounter == b.replica.nextCounter
  }

  lemma ReopenSame(app: App, times: seq<U64>)
    requires AP.AppInv(app, NO_NAMES) && |times| == |ReplicatedChanges(app.db)|
    ensures Reopen(app.db, times).Ok? && Reopen(app.db, times).value.db == app.db
    ensures SameView(Reopen(app.db, times).value, app)
  {
    hide AP.AppInv, Reopen, ReplicatedChanges;
    AP.ReopenRestores(app, times, NO_NAMES);
  }

  lemma RecipientSound(w: World, limits: MS.Limits, route: MS.Route, k: Keying, at: U64)
    requires WorldInv(w, limits, route, k, at)
    ensures AP.AppInv(w.app, NO_NAMES)
  {
    hide AP.AppInv, MS.RelayInv, Safe, Genuine;
  }

  lemma CrashReopens(w: World, limits: MS.Limits, route: MS.Route, k: Keying, e: Event)
    requires e.Crash? && |e.times| == |ReplicatedChanges(w.app.db)| && Reopen(w.app.db, e.times).Ok?
    ensures React(w, limits, route, k, e) == w.(app := Reopen(w.app.db, e.times).value, client := Idle)
  {
    hide Reopen, ReplicatedChanges, Import, AP.Do, Served, MS.Handle, OpenAll;
  }

  lemma NothingOpened(db: Db, times: seq<U64>)
    requires |times| == |ReplicatedChanges(db)| && Reopen(db, times).Ok?
    ensures Reopen(db, times).value.mergers == map[]
  {
    hide Rebuild, ReplicatedChanges;
  }

  // Redelivery changes nothing: what is already held stays exactly as it is.
  lemma RedeliveryIsIdempotent(app: App, batch: seq<Change>, now: U64, commits: bool)
    requires AP.AppInv(app, NO_NAMES) && Import(app, batch, now, commits).Ok?
    requires forall c :: c in batch ==> RS.Holds(app.replica, c)
    ensures var next := Import(app, batch, now, commits).value;
            && next.replica.changes == app.replica.changes
            && next.replica.documents == app.replica.documents
            && next.replica.frontier == app.replica.frontier
  {
    hide AP.AppInv, Import;
    ImportRetains(app, batch, now, commits);
    AP.ImportKeeps(app, batch, now, commits, NO_NAMES);
    var next := Import(app, batch, now, commits).value;
    HeldUnion(app.replica, batch, next.replica.changes);
    BothSound(app, next);
    RS.ChangesDetermineView(next.replica, app.replica);
  }

  lemma HeldUnion(st: RS.State, batch: seq<Change>, after: map<ChangeId, Change>)
    requires RS.Union(st.changes, batch, after) && forall c :: c in batch ==> RS.Holds(st, c)
    ensures after == st.changes
  {}

  lemma BothSound(app: App, next: App)
    requires AP.AppInv(app, NO_NAMES) && AP.AppInv(next, NO_NAMES)
    ensures RS.Inv(app.replica) && RS.Inv(next.replica)
  {
    hide RS.Inv, AP.RowsAgree, AP.LogAgrees, JournalInv, AP.NamesValid;
  }
}
