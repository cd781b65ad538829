// One turn of draining a mailbox as a value: what stops it, and when nothing
// does.
module RelayTurns {
  import opened Wrappers
  import opened Ids
  import opened Clock
  import opened Changes
  import opened StoreState
  import opened AppState
  import RS = ReplicaState
  import AP = AppProof
  import PE = AppPeer
  import R = Reconcile
  import RD = RelayDelivery
  import opened RelayDelivery
  import MS = MailboxState
  import MP = MailboxProof

  const PAGE := MS.MAX_RELAY_BATCH

  // What one turn of the loop meets: its nonces and clock readings, whether the
  // import commits, and what others request before the pull and between the pull
  // and the acknowledgement.
  datatype Tick = Tick(pull: MS.Nonce, ack: MS.Nonce, now: U64, at: U64, commits: bool, later: U64,
                       before: seq<Event>, between: seq<Event>)

  predicate Quiet(tick: Tick) {
    tick.before == [] && tick.between == []
  }

  // ---- what can stop a turn ----

  function PullEvent(cursor: U64, tick: Tick): (e: Event)
    ensures e.PullPage?
  {
    PullPage(tick.pull, cursor, PAGE, tick.now)
  }

  function TakeEvent(tick: Tick): (e: Event)
    ensures e.ImportPage?
  {
    ImportPage(tick.later, tick.at, tick.commits)
  }

  function AckEvent(tick: Tick): (e: Event)
    ensures e.AckPage?
  {
    AckPage(tick.ack, tick.later)
  }

  // The relay answers the pull with deliveries.
  predicate Answered(r: MS.Relay, limits: MS.Limits, route: MS.Route, cursor: U64, tick: Tick) {
    var step := MS.Handle(r, limits, PullOf(route, PullEvent(cursor, tick)), tick.now);
    step.Step? && step.response.Deliveries?
  }

  function PageOf(r: MS.Relay, limits: MS.Limits, route: MS.Route, cursor: U64, tick: Tick): seq<MS.Delivery>
    requires Answered(r, limits, route, cursor, tick)
  {
    MS.Handle(r, limits, PullOf(route, PullEvent(cursor, tick)), tick.now).response.items
  }

  // Every packet opens, and the recipient imports what they carry.
  predicate Imports(app: App, k: Keying, items: seq<MS.Delivery>, tick: Tick) {
    OpenAll(k, items).Some? && Import(app, OpenAll(k, items).value, tick.at, tick.commits).Ok?
  }

  // The relay acknowledges every object of the page.
  predicate Acknowledged(r: MS.Relay, limits: MS.Limits, route: MS.Route, items: seq<MS.Delivery>, tick: Tick) {
    var step := MS.Handle(r, limits, AckOf(route, AckEvent(tick), items), tick.later);
    step.Step? && step.response == MS.Changed(|items|)
  }

  function AfterPull(w: World, limits: MS.Limits, route: MS.Route, k: Keying, cursor: U64, tick: Tick): World {
    React(RD.Run(w, limits, route, k, tick.before), limits, route, k, PullEvent(cursor, tick))
  }

  function BeforeImport(w: World, limits: MS.Limits, route: MS.Route, k: Keying, cursor: U64, tick: Tick): World {
    RD.Run(AfterPull(w, limits, route, k, cursor, tick), limits, route, k, tick.between)
  }

  // The pull is not answered, or its page is not imported, or not acknowledged.
  predicate TurnFails(w: World, limits: MS.Limits, route: MS.Route, k: Keying, cursor: U64, tick: Tick) {
    var ready := RD.Run(w, limits, route, k, tick.before);
    || !Answered(ready.relay, limits, route, cursor, tick)
    || (var items := PageOf(ready.relay, limits, route, cursor, tick);
        var meanwhile := BeforeImport(w, limits, route, k, cursor, tick);
        && items != []
        && (!Imports(meanwhile.app, k, items, tick) || !Acknowledged(meanwhile.relay, limits, route, items, tick)))
  }

  // The world after a turn.
  function Turned(w: World, limits: MS.Limits, route: MS.Route, k: Keying, cursor: U64, tick: Tick): World {
    var ready := RD.Run(w, limits, route, k, tick.before);
    if !Answered(ready.relay, limits, route, cursor, tick) || PageOf(ready.relay, limits, route, cursor, tick) == [] then
      AfterPull(w, limits, route, k, cursor, tick)
    else
      var imported := React(BeforeImport(w, limits, route, k, cursor, tick), limits, route, k, TakeEvent(tick));
      if imported.client.Imported? then React(imported, limits, route, k, AckEvent(tick)) else imported
  }

  // Some turn fails before a short page ends the loop.
  predicate Stops(w: World, limits: MS.Limits, route: MS.Route, k: Keying, cursor: nat, ticks: seq<Tick>)
    decreases |ticks|
  {
    ticks != [] &&
      (|| cursor > U64_MAX
       || TurnFails(w, limits, route, k, cursor, ticks[0])
       || (var items := PageOf(RD.Run(w, limits, route, k, ticks[0].before).relay, limits, route, cursor, ticks[0]);
           |items| >= PAGE
           && Stops(Turned(w, limits, route, k, cursor, ticks[0]), limits, route, k, MP.LastCursor(items, cursor), ticks[1..])))
  }

  // ---- what lets every turn succeed ----

  // The recipient would import this change whenever it comes: it accepts it under
  // the schema the collection is opened and stored with, and holds no other
  // change under its identity.
  ghost predicate Welcome(app: App, c: Change) {
    && R.Fits(PE.PeerOf(app), c)
    && c.id.counter <= I64_MAX
    && c.operation.collection in app.schemas
    && PE.Declared(app.db, app.replica.space, c.operation.collection, app.schemas[c.operation.collection])
    && (c.id in app.replica.changes ==> app.replica.changes[c.id] == c)
  }

  // Merging, where enabled, never fails.
  ghost predicate MergesAlways(mergers: map<Name, Strategy>) {
    forall name :: Merging(mergers, name) ==>
      forall payload: Bytes, concurrent: seq<Bytes> {:trigger mergers[name].merge(payload, concurrent)} ::
        mergers[name].merge(payload, concurrent).Some?
  }

  // Everything in the mailbox is welcome and outlasts the loop.
  ghost predicate MailboxWelcome(w: World, route: MS.Route, k: Keying, until: U64) {
    && MergesAlways(w.app.mergers)
    && forall o :: o in w.relay.objects && o.route == route ==>
         o.expires > until && k.open(o.ciphertext).Some? && Welcome(w.app, k.open(o.ciphertext).value)
  }

  predicate NewNonces(r: MS.Relay, route: MS.Route, ticks: seq<Tick>) {
    && (forall i :: 0 <= i < |ticks| ==>
          && ticks[i].pull != ticks[i].ack
          && MS.ReplayKey(route, ticks[i].pull) !in r.replays && MS.ReplayKey(route, ticks[i].ack) !in r.replays)
    && (forall i, j :: 0 <= i < j < |ticks| ==> {ticks[i].pull, ticks[i].ack} !! {ticks[j].pull, ticks[j].ack})
  }

  predicate Calm(tick: Tick, until: U64) {
    Quiet(tick) && tick.commits && tick.now <= tick.later <= until
  }

  // Nobody else is active, every nonce is new, commits succeed, and the mailbox is
  // welcome.
  ghost predicate Favourable(w: World, route: MS.Route, k: Keying, ticks: seq<Tick>, until: U64) {
    && (forall t :: t in ticks ==> Calm(t, until))
    && NewNonces(w.relay, route, ticks)
    && MailboxWelcome(w, route, k, until)
    && w.relay.sequence <= I64_MAX && until + MS.MAX_RELAY_CLOCK_SKEW + 1 <= I64_MAX
  }

  lemma NothingRuns(w: World, limits: MS.Limits, route: MS.Route, k: Keying)
    ensures RD.Run(w, limits, route, k, []) == w
  {}

  // ---- the pull ----

  lemma NotReplayed(r: MS.Relay, request: MS.Request, now: U64)
    requires MS.ReplayKey(request.route, request.nonce) !in r.replays
    ensures MS.ReplayKey(request.route, request.nonce) !in MS.Purge(r, now).replays
  {
    hide MS.Unexpired;
  }

  lemma PullIsAnswered(r: MS.Relay, limits: MS.Limits, route: MS.Route, cursor: U64, tick: Tick, at: U64)
    requires MS.RelayInv(r, limits, at) && at <= tick.now && cursor <= I64_MAX
    requires tick.now + MS.MAX_RELAY_CLOCK_SKEW + 1 <= I64_MAX
    requires MS.ReplayKey(route, tick.pull) !in r.replays
    ensures Answered(r, limits, route, cursor, tick)
  {
    hide MS.RelayInv, MS.Waiting, MS.ValidEnvelope, MS.FirstOf, MS.Delivered, MS.Unexpired;
    var request := PullOf(route, PullEvent(cursor, tick));
    NotReplayed(r, request, tick.now);
    PurgedInv(r, limits, at, tick.now);
    var admitted := MP.Admitted(r, request, tick.now);
    MP.PullNeverCorrupt(admitted, limits, route, cursor, PAGE, at, tick.now);
  }

  lemma PurgedInv(r: MS.Relay, limits: MS.Limits, at: U64, now: U64)
    requires MS.RelayInv(r, limits, at)
    ensures forall replays :: MS.RelayInv(MS.Purge(r, now).(replays := replays), limits, at)
  {
    MP.SelectKeepsInv(r, limits, at, (o: MS.Object) => o.expires > now);
  }

  // What an answered pull leaves.
  lemma PullLeaves(r: MS.Relay, limits: MS.Limits, route: MS.Route, cursor: U64, tick: Tick)
    requires Answered(r, limits, route, cursor, tick)
    ensures var next := MS.After(r, limits, PullOf(route, PullEvent(cursor, tick)), tick.now);
            && (forall o :: o in next.objects <==> o in r.objects && o.expires > tick.now)
            && (forall key :: key in next.replays ==> key in r.replays || key == MS.ReplayKey(route, tick.pull))
            && next.sequence == r.sequence
            && forall d :: d in PageOf(r, limits, route, cursor, tick) ==>
                 exists o :: o in next.objects && o.route == route && MS.EnvelopeOf(o) == d.envelope
  {
    hide MS.ValidEnvelope, MS.Unexpired, MS.Waiting, MS.FirstOf;
    var request := PullOf(route, PullEvent(cursor, tick));
    MP.AdmittedFollows(r, request, tick.now);
    var next := MS.After(r, limits, request, tick.now);
    assert next == MP.Admitted(r, request, tick.now);
    var waiting := MS.Waiting(next.objects, route, cursor, tick.now);
    var items := PageOf(r, limits, route, cursor, tick);
    forall d | d in items ensures exists o :: o in next.objects && o.route == route && MS.EnvelopeOf(o) == d.envelope {
      var i :| 0 <= i < |items| && items[i] == d;
      PageMember(waiting, PAGE, i);
      MP.WaitingMembers(next.objects, route, cursor, tick.now, MS.FirstOf(waiting, PAGE)[i]);
    }
  }

  // ---- the import ----

  ghost predicate FromMailbox(w: World, route: MS.Route, items: seq<MS.Delivery>) {
    forall d :: d in items ==> exists o :: o in w.relay.objects && o.route == route && MS.EnvelopeOf(o) == d.envelope
  }

  lemma {:induction false} AllOpen(k: Keying, items: seq<MS.Delivery>)
    requires forall d :: d in items ==> k.open(d.envelope.ciphertext).Some?
    ensures OpenAll(k, items).Some? && |OpenAll(k, items).value| == |items|
    ensures forall i :: 0 <= i < |items| ==> k.open(items[i].envelope.ciphertext) == Some(OpenAll(k, items).value[i])
    decreases |items|
  {
    if items != [] {
      assert items[0] in items;
      AllOpen(k, items[1..]);
    }
  }

  lemma WelcomeImports(app: App, batch: seq<Change>, k: Keying, at: U64)
    requires AP.AppInv(app, NO_NAMES) && |batch| <= PAGE && MergesAlways(app.mergers)
    requires forall c :: c in batch ==> Welcome(app, c) && k.content(c.id) == c
    ensures Import(app, batch, at, true).Ok?
  {
    hide AP.AppInv, RS.Inv, Import, R.Fits, PE.Declared, PE.Mergeable, StageImport, RS.Acceptable;
    var attempt := R.Attempt(at, PE.Storable(app, batch, at, true));
    SoundReplica(app);
    PE.ImportsAsPeer(app, batch, at, true, NO_NAMES);
    WelcomeIsStorable(app, batch, at);
    assert R.AllFit(PE.PeerOf(app), batch);
    assert RS.CollisionFree(app.replica.changes, batch);
  }

  lemma SoundReplica(app: App)
    requires AP.AppInv(app, NO_NAMES)
    ensures RS.Inv(app.replica)
  {
    hide RS.Inv, AP.RowsAgree, AP.LogAgrees, JournalInv, AP.NamesValid;
  }

  lemma WelcomeIsStorable(app: App, batch: seq<Change>, at: U64)
    requires MergesAlways(app.mergers) && forall c :: c in batch ==> Welcome(app, c)
    ensures PE.Storable(app, batch, at, true)
  {
    hide R.Fits, PE.Declared, StageImport, MergesAlways, PE.Mergeable;
    if StageImport(app.replica, batch, app.mergers, at).Ok? {
      var staged := StageImport(app.replica, batch, app.mergers, at).value;
      forall key | key in staged.affected && key.collection in app.schemas
        ensures PE.Mergeable(staged.state, key, app.schemas[key.collection], app.mergers)
        ensures PE.Declared(app.db, app.replica.space, key.collection, app.schemas[key.collection])
      {
        PE.AffectedFromBatch(app.replica, batch, app.mergers, at, key);
        MergesAt(staged.state, key, app.schemas[key.collection], app.mergers);
      }
    }
  }

  lemma MergesAt(st: RS.State, key: DocumentKey, schema: StoredSchema, mergers: map<Name, Strategy>)
    requires MergesAlways(mergers)
    ensures PE.Mergeable(st, key, schema, mergers)
  {
    hide ConcurrentIds, PayloadsAt;
  }

  // What was welcome before an import of other genuine changes still is.
  lemma StillWelcome(app: App, batch: seq<Change>, k: Keying, at: U64, c: Change)
    requires AP.AppInv(app, NO_NAMES) && Import(app, batch, at, true).Ok?
    requires forall x :: x in batch ==> k.content(x.id) == x
    requires Welcome(app, c) && k.content(c.id) == c
    ensures Welcome(Import(app, batch, at, true).value, c)
  {
    hide AP.AppInv, RS.Inv, Import, PE.Declared, RS.Bounded;
    SoundReplica(app);
    PE.ImportKeepsSchemas(app, batch, at, true, c.operation.collection);
    ImportRetains(app, batch, at, true);
    var next := Import(app, batch, at, true).value;
    if c.id in next.replica.changes && c.id !in app.replica.changes {
      var x :| x in batch && x.id == c.id;
    }
  }

  // ---- the acknowledgement ----

  lemma {:induction false} DropAbsent(objects: seq<MS.Object>, route: MS.Route, id: MS.ObjectId)
    requires forall o :: o in objects ==> o.route != route || o.id != id
    ensures |MS.Drop(objects, route, id)| == |objects|
  {
    if objects != [] {
      assert objects[0] in objects;
      DropAbsent(objects[1..], route, id);
    }
  }

  lemma {:induction false} DropTakesOne(objects: seq<MS.Object>, route: MS.Route, id: MS.ObjectId)
    requires MS.UniqueIds(objects) && MS.Holds(objects, route, id)
    ensures |MS.Drop(objects, route, id)| == |objects| - 1
  {
    if objects != [] {
      var rest := objects[1..];
      if objects[0].route == route && objects[0].id == id {
        forall o | o in rest ensures o.route != route || o.id != id {
          var i :| 0 <= i < |rest| && rest[i] == o;
          assert objects[i + 1] == o;
        }
        DropAbsent(rest, route, id);
      } else {
        var o :| o in objects && o.route == route && o.id == id;
        assert o in rest;
        DropTakesOne(rest, route, id);
      }
    }
  }

  lemma {:induction false} DropAllTakesEach(objects: seq<MS.Object>, route: MS.Route, ids: seq<MS.ObjectId>)
    requires MS.UniqueIds(objects)
    requires forall id :: id in ids ==> MS.Holds(objects, route, id)
    requires forall i, j :: 0 <= i < j < |ids| ==> ids[i] != ids[j]
    ensures |objects| == |MS.DropAll(objects, route, ids)| + |ids|
    decreases |ids|
  {
    hide MS.UniqueIds;
    if ids != [] {
      var less := MS.Drop(objects, route, ids[0]);
      DropTakesOne(objects, route, ids[0]);
      MP.SelectKeepsUnique(objects, (o: MS.Object) => o.route != route || o.id != ids[0]);
      forall id | id in ids[1..] ensures MS.Holds(less, route, id) {
        assert id in ids;
        var o :| o in objects && o.route == route && o.id == id;
        MP.SelectMembers(objects, (x: MS.Object) => x.route != route || x.id != ids[0], o);
        var i :| 0 <= i < |ids[1..]| && ids[1..][i] == id;
        assert ids[i + 1] == id;
      }
      DropAllTakesEach(less, route, ids[1..]);
    }
  }

  lemma AckIsAnswered(r: MS.Relay, limits: MS.Limits, route: MS.Route, items: seq<MS.Delivery>, tick: Tick, at: U64)
    requires MS.RelayInv(r, limits, at) && 0 < |items| <= PAGE
    requires tick.later + MS.MAX_RELAY_CLOCK_SKEW + 1 <= I64_MAX
    requires MS.ReplayKey(route, tick.ack) !in r.replays
    requires forall d :: d in items ==> exists o :: o in r.objects && o.route == route && MS.EnvelopeOf(o) == d.envelope && o.expires > tick.later
    requires forall i, j :: 0 <= i < j < |items| ==> items[i].envelope.id != items[j].envelope.id
    ensures Acknowledged(r, limits, route, items, tick)
  {
    hide MS.Unexpired, MS.DropAll, MS.Holds, MS.ValidEnvelope;
    var request := AckOf(route, AckEvent(tick), items);
    NotReplayed(r, request, tick.later);
    PurgedInv(r, limits, at, tick.later);
    MP.AdmittedFollows(r, request, tick.later);
    var admitted, ids := MP.Admitted(r, request, tick.later), ItemIds(items);
    assert MS.UniqueIds(admitted.objects);
    forall id | id in ids ensures MS.Holds(admitted.objects, route, id) {
      var i :| 0 <= i < |ids| && ids[i] == id;
      assert items[i] in items;
      var o :| o in r.objects && o.route == route && MS.EnvelopeOf(o) == items[i].envelope && o.expires > tick.later;
      HeldAs(admitted.objects, route, o);
    }
    DropAllTakesEach(admitted.objects, route, ids);
  }

  lemma HeldAs(objects: seq<MS.Object>, route: MS.Route, o: MS.Object)
    requires o in objects && o.route == route
    ensures MS.Holds(objects, route, o.id)
  {}

  // ---- a favourable turn ----

  lemma PageIdsDiffer(r: MS.Relay, limits: MS.Limits, route: MS.Route, cursor: U64, tick: Tick, at: U64)
    requires MS.RelayInv(r, limits, at) && Answered(r, limits, route, cursor, tick)
    ensures var items := PageOf(r, limits, route, cursor, tick);
            |items| <= PAGE && forall i, j :: 0 <= i < j < |items| ==> items[i].envelope.id != items[j].envelope.id
  {
    hide MS.ValidEnvelope, MS.Unexpired, MS.Ordered, MS.WithinQuota, MS.Select;
    var request := PullOf(route, PullEvent(cursor, tick));
    PurgedInv(r, limits, at, tick.now);
    var admitted := MP.Admitted(r, request, tick.now);
    assert MS.UniqueIds(admitted.objects);
    var keep := (x: MS.Object) => x.route == route && x.sequence > cursor && x.expires > tick.now;
    MP.SelectKeepsUnique(admitted.objects, keep);
    var waiting := MS.Waiting(admitted.objects, route, cursor, tick.now);
    assert waiting == MS.Select(admitted.objects, keep);
    forall i | 0 <= i < |waiting| ensures waiting[i].route == route {
      assert waiting[i] in waiting;
      MP.SelectMembers(admitted.objects, keep, waiting[i]);
    }
  }

  lemma QuietPull(w: World, limits: MS.Limits, route: MS.Route, k: Keying, cursor: U64, tick: Tick)
    requires tick.before == []
    ensures RD.Run(w, limits, route, k, tick.before) == w
    ensures AfterPull(w, limits, route, k, cursor, tick) == React(w, limits, route, k, PullEvent(cursor, tick))
  {
    hide React;
  }

  lemma PulledWorld(w: World, limits: MS.Limits, route: MS.Route, k: Keying, cursor: U64, tick: Tick)
    requires Answered(w.relay, limits, route, cursor, tick)
    ensures var next := React(w, limits, route, k, PullEvent(cursor, tick));
            && next.app == w.app
            && next.relay == MS.After(w.relay, limits, PullOf(route, PullEvent(cursor, tick)), tick.now)
            && next.client == Pulled(PageOf(w.relay, limits, route, cursor, tick))
  {
    hide MS.Handle, MS.After;
  }

  lemma ImportedWorld(w: World, limits: MS.Limits, route: MS.Route, k: Keying, items: seq<MS.Delivery>, tick: Tick)
    requires w.client == Pulled(items)
    ensures var next := React(w, limits, route, k, TakeEvent(tick));
            && next.relay == w.relay
            && (next.client.Imported? <==> Imports(w.app, k, items, tick))
            && (Imports(w.app, k, items, tick) ==>
                  next.client == Client.Imported(items)
                  && next.app == Import(w.app, OpenAll(k, items).value, tick.at, tick.commits).value)
            && (!Imports(w.app, k, items, tick) ==> next.app == w.app)
  {
    hide Import, OpenAll;
  }

  lemma AckedWorld(w: World, limits: MS.Limits, route: MS.Route, k: Keying, items: seq<MS.Delivery>, tick: Tick)
    requires w.client == Client.Imported(items)
    ensures var next := React(w, limits, route, k, AckEvent(tick));
            && next.app == w.app
            && next.relay == MS.After(w.relay, limits, AckOf(route, AckEvent(tick), items), tick.later)
  {
    hide MS.After;
  }

  // What an acknowledgement can do to the tables.
  lemma AckLeaves(r: MS.Relay, limits: MS.Limits, request: MS.Request, now: U64)
    requires request.operation.Acknowledge?
    ensures var next := MS.After(r, limits, request, now);
            && (forall o :: o in next.objects ==> o in r.objects)
            && (forall key :: key in next.replays ==> key in r.replays || key == MS.ReplayKey(request.route, request.nonce))
            && next.sequence == r.sequence
  {
    hide MS.Verify, MS.DropAll, MS.Unexpired;
    if MP.Accepts(r, request, now) {
      MP.AdmittedFollows(r, request, now);
      var admitted := MP.Admitted(r, request, now);
      forall o ensures o in MS.DropAll(admitted.objects, request.route, request.operation.ids) ==> o in admitted.objects {
        MP.DropAllMembers(admitted.objects, request.route, request.operation.ids, o);
      }
    }
  }

  // The page of a welcome mailbox: its packets open to welcome changes.
  lemma PageIsWelcome(w: World, limits: MS.Limits, route: MS.Route, k: Keying, items: seq<MS.Delivery>, until: U64, at: U64)
    requires WorldInv(w, limits, route, k, at) && MailboxWelcome(w, route, k, until) && FromMailbox(w, route, items)
    ensures OpenAll(k, items).Some? && |OpenAll(k, items).value| == |items|
    ensures forall c :: c in OpenAll(k, items).value ==> Welcome(w.app, c) && k.content(c.id) == c
  {
    hide AP.AppInv, Durable, MS.RelayInv, Welcome, MergesAlways, OpenAll;
    forall d | d in items
      ensures k.open(d.envelope.ciphertext).Some?
      ensures Welcome(w.app, k.open(d.envelope.ciphertext).value)
      ensures k.content(k.open(d.envelope.ciphertext).value.id) == k.open(d.envelope.ciphertext).value
    {
      var o :| o in w.relay.objects && o.route == route && MS.EnvelopeOf(o) == d.envelope;
      assert Genuine(k, o.id, o.ciphertext);
    }
    AllOpen(k, items);
    var batch := OpenAll(k, items).value;
    forall c | c in batch ensures Welcome(w.app, c) && k.content(c.id) == c {
      var i :| 0 <= i < |batch| && batch[i] == c;
      assert items[i] in items;
    }
  }

  lemma WelcomeAfter(w: World, next: World, limits: MS.Limits, route: MS.Route, k: Keying, batch: seq<Change>, moment: U64, until: U64, at: U64)
    requires WorldInv(w, limits, route, k, at) && MailboxWelcome(w, route, k, until)
    requires Import(w.app, batch, moment, true).Ok? && next.app == Import(w.app, batch, moment, true).value
    requires forall c :: c in batch ==> Welcome(w.app, c) && k.content(c.id) == c
    requires forall o :: o in next.relay.objects ==> o in w.relay.objects
    ensures MailboxWelcome(next, route, k, until)
  {
    hide AP.AppInv, Durable, MS.RelayInv, Welcome, MergesAlways, Import;
    SameMergers(w.app, batch, moment);
    Unpack(w, limits, route, k, at);
    forall o | o in next.relay.objects && o.route == route ensures Welcome(next.app, k.open(o.ciphertext).value) {
      assert Genuine(k, o.id, o.ciphertext);
      StillWelcome(w.app, batch, k, moment, k.open(o.ciphertext).value);
    }
  }

  lemma SameMergers(app: App, batch: seq<Change>, at: U64)
    requires Import(app, batch, at, true).Ok?
    ensures Import(app, batch, at, true).value.mergers == app.mergers
  {
    hide StageImport, MaterializeAll, CommitRemote, SchemaProblem;
  }

  lemma FewerNonces(r: MS.Relay, next: MS.Relay, route: MS.Route, ticks: seq<Tick>)
    requires ticks != [] && NewNonces(r, route, ticks)
    requires forall key :: key in next.replays ==>
               key in r.replays || key == MS.ReplayKey(route, ticks[0].pull) || key == MS.ReplayKey(route, ticks[0].ack)
    ensures NewNonces(next, route, ticks[1..])
  {
    var rest := ticks[1..];
    forall i | 0 <= i < |rest|
      ensures rest[i].pull != rest[i].ack
      ensures MS.ReplayKey(route, rest[i].pull) !in next.replays && MS.ReplayKey(route, rest[i].ack) !in next.replays
    {
      assert rest[i] == ticks[i + 1];
    }
    forall i, j | 0 <= i < j < |rest| ensures {rest[i].pull, rest[i].ack} !! {rest[j].pull, rest[j].ack} {
      assert rest[i] == ticks[i + 1] && rest[j] == ticks[j + 1];
    }
  }

  lemma SoundRelay(w: World, limits: MS.Limits, route: MS.Route, k: Keying, at: U64)
    requires WorldInv(w, limits, route, k, at)
    ensures MS.RelayInv(w.relay, limits, at) && AP.AppInv(w.app, NO_NAMES)
  {
    hide AP.AppInv, MS.RelayInv, Durable, Genuine;
  }

  // The mailbox after the pull, and the page it gave.
  lemma FavourablePull(w: World, limits: MS.Limits, route: MS.Route, k: Keying, cursor: U64, ticks: seq<Tick>, until: U64, at: U64)
    requires WorldInv(w, limits, route, k, at) && Distinguishes(k) && Favourable(w, route, k, ticks, until)
    requires ticks != [] && at <= ticks[0].now && cursor <= w.relay.sequence
    ensures Answered(w.relay, limits, route, cursor, ticks[0])
    ensures var tick, next := ticks[0], AfterPull(w, limits, route, k, cursor, ticks[0]);
            var items := PageOf(w.relay, limits, route, cursor, tick);
            && RD.Run(w, limits, route, k, tick.before) == w && BeforeImport(w, limits, route, k, cursor, tick) == next
            && WorldInv(next, limits, route, k, tick.now) && MailboxWelcome(next, route, k, until)
            && next.client == Pulled(items) && next.app == w.app && next.relay.sequence == w.relay.sequence
            && FromMailbox(next, route, items)
            && |items| <= PAGE && (forall i, j :: 0 <= i < j < |items| ==> items[i].envelope.id != items[j].envelope.id)
            && (forall key :: key in next.relay.replays ==> key in w.relay.replays || key == MS.ReplayKey(route, tick.pull))
  {
    hide WorldInv, Distinguishes, React, MS.RelayInv, MS.Handle, MS.After, Welcome, MergesAlways, Answered, AP.AppInv;
    var tick := ticks[0];
    assert tick in ticks;
    SoundRelay(w, limits, route, k, at);
    PullIsAnswered(w.relay, limits, route, cursor, tick, at);
    QuietPull(w, limits, route, k, cursor, tick);
    PulledWorld(w, limits, route, k, cursor, tick);
    PullLeaves(w.relay, limits, route, cursor, tick);
    PageIdsDiffer(w.relay, limits, route, cursor, tick, at);
    EventKeepsWorld(w, limits, route, k, PullEvent(cursor, tick), at);
    NothingRuns(AfterPull(w, limits, route, k, cursor, tick), limits, route, k);
  }

  // The page is imported and acknowledged, and the mailbox stays favourable.
  lemma FavourableTake(w: World, limits: MS.Limits, route: MS.Route, k: Keying, items: seq<MS.Delivery>, tick: Tick, until: U64)
    requires WorldInv(w, limits, route, k, tick.now) && MailboxWelcome(w, route, k, until)
    requires w.client == Pulled(items) && FromMailbox(w, route, items) && 0 < |items| <= PAGE
    requires forall i, j :: 0 <= i < j < |items| ==> items[i].envelope.id != items[j].envelope.id
    requires Calm(tick, until) && until + MS.MAX_RELAY_CLOCK_SKEW + 1 <= I64_MAX && MS.ReplayKey(route, tick.ack) !in w.relay.replays
    ensures Imports(w.app, k, items, tick) && Acknowledged(w.relay, limits, route, items, tick)
    ensures var imported := React(w, limits, route, k, TakeEvent(tick));
            && imported.client == Client.Imported(items)
            && var next := React(imported, limits, route, k, AckEvent(tick));
               && MailboxWelcome(next, route, k, until) && next.relay.sequence == w.relay.sequence
               && (forall key :: key in next.relay.replays ==> key in w.relay.replays || key == MS.ReplayKey(route, tick.ack))
  {
    hide WorldInv, React, MS.RelayInv, MS.Handle, MS.After, Welcome, MergesAlways, OpenAll, Import, AP.AppInv, Acknowledged;
    SoundRelay(w, limits, route, k, tick.now);
    PageIsWelcome(w, limits, route, k, items, until, tick.now);
    WelcomeImports(w.app, OpenAll(k, items).value, k, tick.at);
    ImportedWorld(w, limits, route, k, items, tick);
    var imported := React(w, limits, route, k, TakeEvent(tick));
    AckedWorld(imported, limits, route, k, items, tick);
    AckLeaves(w.relay, limits, AckOf(route, AckEvent(tick), items), tick.later);
    AckIsAnswered(w.relay, limits, route, items, tick, tick.now);
    WelcomeAfter(w, React(imported, limits, route, k, AckEvent(tick)), limits, route, k, OpenAll(k, items).value, tick.at, until, tick.now);
  }

  // No turn of a favourable loop fails.
  lemma FavourableTurn(w: World, limits: MS.Limits, route: MS.Route, k: Keying, cursor: U64, ticks: seq<Tick>, until: U64, at: U64)
    requires WorldInv(w, limits, route, k, at) && Distinguishes(k) && Favourable(w, route, k, ticks, until)
    requires ticks != [] && at <= ticks[0].now && cursor <= w.relay.sequence
    ensures !TurnFails(w, limits, route, k, cursor, ticks[0])
    ensures Favourable(Turned(w, limits, route, k, cursor, ticks[0]), route, k, ticks[1..], until)
  {
    hide WorldInv, Distinguishes, React, MS.RelayInv, MailboxWelcome, NewNonces, Answered, AfterPull, BeforeImport, Imports, Acknowledged, FromMailbox;
    var tick := ticks[0];
    assert tick in ticks;
    FavourablePull(w, limits, route, k, cursor, ticks, until, at);
    FirstNonces(w.relay, route, ticks);
    var fetched, items := AfterPull(w, limits, route, k, cursor, tick), PageOf(w.relay, limits, route, cursor, tick);
    if items != [] {
      FavourableTake(fetched, limits, route, k, items, tick, until);
    }
    FewerNonces(w.relay, Turned(w, limits, route, k, cursor, tick).relay, route, ticks);
  }

  lemma FirstNonces(r: MS.Relay, route: MS.Route, ticks: seq<Tick>)
    requires NewNonces(r, route, ticks) && ticks != []
    ensures ticks[0].pull != ticks[0].ack && MS.ReplayKey(route, ticks[0].ack) !in r.replays
  {}

  // The record of what was ever stored only grows.
  lemma StoredGrows(w: World, limits: MS.Limits, route: MS.Route, k: Keying, e: Event)
    ensures w.stored <= React(w, limits, route, k, e).stored
  {
    hide MS.Handle, MS.After, Import, Reopen, AP.Do, AP.Fitting, OpenAll, ReplicatedChanges;
  }

  lemma {:induction false} StoredGrowsOn(w: World, limits: MS.Limits, route: MS.Route, k: Keying, events: seq<Event>)
    ensures w.stored <= RD.Run(w, limits, route, k, events).stored
    decreases |events|
  {
    hide React;
    if events != [] {
      StoredGrows(w, limits, route, k, events[0]);
      StoredGrowsOn(React(w, limits, route, k, events[0]), limits, route, k, events[1..]);
    }
  }

  lemma TurnKeepsStored(w: World, limits: MS.Limits, route: MS.Route, k: Keying, cursor: U64, tick: Tick)
    ensures w.stored <= Turned(w, limits, route, k, cursor, tick).stored
  {
    hide React, Answered;
    StoredGrowsOn(w, limits, route, k, tick.before);
    var ready := RD.Run(w, limits, route, k, tick.before);
    StoredGrows(ready, limits, route, k, PullEvent(cursor, tick));
    StoredGrowsOn(AfterPull(w, limits, route, k, cursor, tick), limits, route, k, tick.between);
    var meanwhile := BeforeImport(w, limits, route, k, cursor, tick);
    StoredGrows(meanwhile, limits, route, k, TakeEvent(tick));
    StoredGrows(React(meanwhile, limits, route, k, TakeEvent(tick)), limits, route, k, AckEvent(tick));
  }

  // A recipient that has opened one collection, and a mailbox with one change of
  // it: such a loop is favourable.
  lemma WelcomeMailboxExists() returns (w: World, limits: MS.Limits, route: MS.Route, k: Keying, ticks: seq<Tick>, until: U64)
    ensures WorldInv(w, limits, route, k, 0) && Distinguishes(k)
    ensures Favourable(w, route, k, ticks, until) && |ticks| > |w.relay.objects|
    ensures exists o :: o in w.relay.objects && o.route == route
  {
    route, until, limits := 3, 10, MS.Limits(100, 100, 100);
    var name: Name, schema := [1], StoredSchema([1], 1, 7);
    var c := Change(Id(2, 1), 5, Timestamp(1, 0, 2), Operation.Put(name, 9, 7, []));
    k := SomeNamingDistinguishes((packet: Bytes) => Some(c), (id: ChangeId) => c);
    var app := Open(AP.NewApp(1, 5), name, schema, Strategy(false, (payload: Bytes, more: seq<Bytes>) => None));
    var o := MS.Object(1, route, k.objectId(c.id), 2000, [0]);
    w := World(MS.Relay([o], 1, map[], false), app, Idle, {o});
    ticks := [Tick(1, 2, 0, 0, true, 0, [], []), Tick(3, 4, 0, 0, true, 0, [], [])];
    WelcomedApp(app, name, schema, c);
    OneObject(w.relay, limits, o);
    assert Genuine(k, o.id, o.ciphertext);
    hide Welcome, AP.AppInv, Open, MS.RelayInv, Distinguishes;
    OneObjectWorld(w, limits, route, k, o);
    assert o in w.relay.objects;
  }

  lemma OneObjectWorld(w: World, limits: MS.Limits, route: MS.Route, k: Keying, o: MS.Object)
    requires MS.RelayInv(w.relay, limits, 0) && AP.AppInv(w.app, NO_NAMES) && w.client == Idle
    requires w.relay.objects == [o] && w.stored == {o} && o.route == route && Genuine(k, o.id, o.ciphertext)
    ensures WorldInv(w, limits, route, k, 0)
  {
    hide AP.AppInv, MS.RelayInv, Genuine, Durable;
  }

  lemma OneObject(r: MS.Relay, limits: MS.Limits, o: MS.Object)
    requires r.objects == [o] && o.sequence == 1 == r.sequence && o.expires == 2000 && |o.ciphertext| == 1
    requires limits == MS.Limits(100, 100, 100)
    ensures MS.RelayInv(r, limits, 0)
  {
    assert r.objects[1..] == [];
    forall route: MS.Route ensures MS.CountIn(r.objects, route) <= 1 && MS.BytesIn(r.objects, route) <= 1 {}
  }

  lemma WelcomedApp(app: App, name: Name, schema: StoredSchema, c: Change)
    requires name == [1] && schema == StoredSchema([1], 1, 7)
    requires app == Open(AP.NewApp(1, 5), name, schema, Strategy(false, (payload: Bytes, more: seq<Bytes>) => None))
    requires c == Change(Id(2, 1), 5, Timestamp(1, 0, 2), Operation.Put(name, 9, 7, []))
    ensures AP.AppInv(app, NO_NAMES) && Welcome(app, c) && MergesAlways(app.mergers)
  {
    AP.NewAppInv(1, 5, NO_NAMES);
    AP.OpenKeeps(AP.NewApp(1, 5), name, schema, Strategy(false, (payload: Bytes, more: seq<Bytes>) => None), NO_NAMES);
    hide AP.AppInv;
  }
}
