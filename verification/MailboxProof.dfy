// Every run of the relay: quotas hold, sequences are never reused, replays are
// refused, and paging by cursor delivers each live object once and in order.
module MailboxProof {
  import opened Wrappers
  import opened Ids
  import opened Changes
  import opened MailboxState

  // ---- selecting rows ----

  lemma {:induction false} SelectMembers(objects: seq<Object>, keep: Object -> bool, o: Object)
    ensures o in Select(objects, keep) <==> o in objects && keep(o)
  {
    if objects != [] {
      SelectMembers(objects[1..], keep, o);
      assert o in objects <==> o == objects[0] || o in objects[1..];
    }
  }

  // What is selected after the head is one of the rows after it.
  lemma SelectedLater(objects: seq<Object>, keep: Object -> bool, i: nat) returns (j: nat)
    requires objects != [] && i < |Select(objects[1..], keep)|
    ensures 0 < j < |objects| && objects[j] == Select(objects[1..], keep)[i]
  {
    var o := Select(objects[1..], keep)[i];
    SelectMembers(objects[1..], keep, o);
    assert o in Select(objects[1..], keep);
    j :| 0 <= j < |objects[1..]| && objects[1..][j] == o;
    j := j + 1;
  }

  lemma {:induction false} SelectKeepsOrder(objects: seq<Object>, keep: Object -> bool)
    requires Ordered(objects)
    ensures Ordered(Select(objects, keep))
  {
    if objects != [] {
      SelectKeepsOrder(objects[1..], keep);
      forall i | 0 <= i < |Select(objects[1..], keep)|
        ensures objects[0].sequence < Select(objects[1..], keep)[i].sequence
      {
        var j := SelectedLater(objects, keep, i);
      }
    }
  }

  lemma {:induction false} SelectKeepsUnique(objects: seq<Object>, keep: Object -> bool)
    requires UniqueIds(objects)
    ensures UniqueIds(Select(objects, keep))
  {
    if objects != [] {
      SelectKeepsUnique(objects[1..], keep);
      forall i | 0 <= i < |Select(objects[1..], keep)|
        ensures objects[0].route != Select(objects[1..], keep)[i].route || objects[0].id != Select(objects[1..], keep)[i].id
      {
        var j := SelectedLater(objects, keep, i);
      }
    }
  }

  lemma {:induction false} SelectCounts(objects: seq<Object>, keep: Object -> bool, route: Route)
    ensures CountIn(Select(objects, keep), route) <= CountIn(objects, route)
    ensures BytesIn(Select(objects, keep), route) <= BytesIn(objects, route)
    ensures BytesOf(Select(objects, keep)) <= BytesOf(objects)
  {
    if objects != [] {
      SelectCounts(objects[1..], keep, route);
      var rest := Select(objects[1..], keep);
      assert ([objects[0]] + rest)[1..] == rest && [] + rest == rest;
    }
  }

  lemma SelectKeepsInv(r: Relay, limits: Limits, at: U64, keep: Object -> bool)
    requires RelayInv(r, limits, at)
    ensures RelayInv(r.(objects := Select(r.objects, keep)), limits, at)
  {
    SelectKeepsOrder(r.objects, keep);
    SelectKeepsUnique(r.objects, keep);
    forall o ensures o in Select(r.objects, keep) ==> o in r.objects {
      SelectMembers(r.objects, keep, o);
    }
    forall route ensures CountIn(Select(r.objects, keep), route) <= CountIn(r.objects, route)
                 ensures BytesIn(Select(r.objects, keep), route) <= BytesIn(r.objects, route)
                 ensures BytesOf(Select(r.objects, keep)) <= BytesOf(r.objects)
    {
      SelectCounts(r.objects, keep, route);
    }
    SelectCounts(r.objects, keep, 0);
  }

  // ---- inserting ----

  lemma {:induction false} AppendCounts(objects: seq<Object>, o: Object, route: Route)
    ensures CountIn(objects + [o], route) == CountIn(objects, route) + if o.route == route then 1 else 0
    ensures BytesIn(objects + [o], route) == BytesIn(objects, route) + if o.route == route then |o.ciphertext| else 0
    ensures BytesOf(objects + [o]) == BytesOf(objects) + |o.ciphertext|
  {
    if objects == [] {
      assert objects + [o] == [o];
    } else {
      AppendCounts(objects[1..], o, route);
      assert (objects + [o])[1..] == objects[1..] + [o];
    }
  }

  lemma InsertHolds(r: Relay, route: Route, e: Envelope, other: Route, id: ObjectId)
    ensures Holds(Insert(r, route, e).objects, other, id) <==> Holds(r.objects, other, id) || (other == route && id == e.id)
  {
    if !Holds(r.objects, route, e.id) {
      var o := Object(r.sequence + 1, route, e.id, e.expires, e.ciphertext);
      assert forall x :: x in r.objects + [o] <==> x in r.objects || x == o;
      if other == route && id == e.id {
        assert o in r.objects + [o];
      }
    }
  }

  // Judged against a larger table, no more is new.
  lemma {:induction false} NewShrinks(r: Relay, route: Route, e: Envelope, envelopes: seq<Envelope>)
    ensures NewObjects(Insert(r, route, e).objects, route, envelopes) <= NewObjects(r.objects, route, envelopes)
    ensures NewBytes(Insert(r, route, e).objects, route, envelopes) <= NewBytes(r.objects, route, envelopes)
    decreases |envelopes|
  {
    if envelopes != [] {
      NewShrinks(r, route, e, envelopes[1..]);
      InsertHolds(r, route, e, route, envelopes[0].id);
    }
  }

  // A batch adds at most what was counted for it, whatever it repeats.
  lemma {:induction false} InsertAllCounts(r: Relay, route: Route, envelopes: seq<Envelope>, other: Route)
    ensures var next := InsertAll(r, route, envelopes).objects;
            && CountIn(next, other) <= CountIn(r.objects, other) + (if other == route then NewObjects(r.objects, route, envelopes) else 0)
            && BytesIn(next, other) <= BytesIn(r.objects, other) + (if other == route then NewBytes(r.objects, route, envelopes) else 0)
            && BytesOf(next) <= BytesOf(r.objects) + NewBytes(r.objects, route, envelopes)
    decreases |envelopes|
  {
    if envelopes != [] {
      var e := envelopes[0];
      InsertAllCounts(Insert(r, route, e), route, envelopes[1..], other);
      NewShrinks(r, route, e, envelopes[1..]);
      if !Holds(r.objects, route, e.id) {
        AppendCounts(r.objects, Object(r.sequence + 1, route, e.id, e.expires, e.ciphertext), other);
      }
    }
  }

  ghost predicate Shaped(r: Relay, at: U64) {
    && Ordered(r.objects) && UniqueIds(r.objects)
    && (forall o :: o in r.objects ==> 0 < o.sequence <= r.sequence)
    && (forall o :: o in r.objects ==>
          0 < |o.ciphertext| <= MAX_RELAY_ENVELOPE_BYTES && o.expires <= at + MAX_RELAY_RETENTION)
  }

  lemma InsertShapes(r: Relay, route: Route, e: Envelope, at: U64)
    requires Shaped(r, at) && ValidEnvelope(e, at)
    ensures Shaped(Insert(r, route, e), at)
  {
    if !Holds(r.objects, route, e.id) {
      forall i | 0 <= i < |r.objects|
        ensures r.objects[i].sequence <= r.sequence
        ensures r.objects[i].route != route || r.objects[i].id != e.id
      {
        assert r.objects[i] in r.objects;
      }
    }
  }

  lemma {:induction false} InsertAllShapes(r: Relay, route: Route, envelopes: seq<Envelope>, at: U64)
    requires Shaped(r, at) && forall e :: e in envelopes ==> ValidEnvelope(e, at)
    ensures Shaped(InsertAll(r, route, envelopes), at)
    decreases |envelopes|
  {
    hide Shaped, Insert, ValidEnvelope;
    if envelopes != [] {
      assert envelopes[0] in envelopes;
      InsertShapes(r, route, envelopes[0], at);
      InsertAllShapes(Insert(r, route, envelopes[0]), route, envelopes[1..], at);
    }
  }

  lemma PushKeepsInv(r: Relay, limits: Limits, route: Route, envelopes: seq<Envelope>, at: U64)
    requires RelayInv(r, limits, at) && Fits(r, limits, route, envelopes)
    requires forall e :: e in envelopes ==> ValidEnvelope(e, at)
    ensures RelayInv(InsertAll(r, route, envelopes), limits, at)
  {
    hide InsertAll, Ordered, UniqueIds, ValidEnvelope;
    InsertAllShapes(r, route, envelopes, at);
    var next := InsertAll(r, route, envelopes).objects;
    forall other: Route ensures CountIn(next, other) <= limits.mailboxObjects && BytesIn(next, other) <= limits.mailboxBytes {
      InsertAllCounts(r, route, envelopes, other);
    }
    InsertAllCounts(r, route, envelopes, route);
  }

  // ---- one request ----

  lemma LaterKeepsInv(r: Relay, limits: Limits, at: U64, now: U64)
    requires RelayInv(r, limits, at) && at <= now
    ensures RelayInv(r, limits, now)
  {
    hide Ordered, UniqueIds, WithinQuota;
  }

  lemma ReplaysLeaveInv(r: Relay, limits: Limits, at: U64, replays: map<ReplayKey, U64>)
    requires RelayInv(r, limits, at)
    ensures RelayInv(r.(replays := replays), limits, at)
  {
    hide Ordered, UniqueIds, WithinQuota;
  }

  lemma {:induction false} DropAllKeepsInv(r: Relay, limits: Limits, at: U64, route: Route, ids: seq<ObjectId>)
    requires RelayInv(r, limits, at)
    ensures RelayInv(r.(objects := DropAll(r.objects, route, ids)), limits, at)
    decreases |ids|
  {
    hide RelayInv;
    if ids != [] {
      SelectKeepsInv(r, limits, at, (o: Object) => o.route != route || o.id != ids[0]);
      DropAllKeepsInv(r.(objects := Drop(r.objects, route, ids[0])), limits, at, route, ids[1..]);
    }
  }

  // What a request is applied to once its nonce is admitted.
  function Admitted(r: Relay, request: Request, now: U64): Relay
    requires now + MAX_RELAY_CLOCK_SKEW + 1 <= U64_MAX
  {
    var purged := Purge(r, now);
    purged.(replays := purged.replays[ReplayKey(request.route, request.nonce) := now + MAX_RELAY_CLOCK_SKEW + 1])
  }

  lemma AdmittedInv(r: Relay, limits: Limits, request: Request, at: U64, now: U64)
    requires RelayInv(r, limits, at) && at <= now <= I64_MAX
    ensures RelayInv(Admitted(r, request, now), limits, now)
  {
    hide RelayInv;
    LaterKeepsInv(r, limits, at, now);
    SelectKeepsInv(r, limits, now, (o: Object) => o.expires > now);
    ReplaysLeaveInv(r.(objects := Unexpired(r.objects, now)), limits, now, Admitted(r, request, now).replays);
  }

  // Every request keeps the quotas; a sequence, once assigned, is never assigned
  // again.
  lemma RequestKeepsInv(r: Relay, limits: Limits, request: Request, at: U64, now: U64)
    requires RelayInv(r, limits, at) && at <= now
    ensures RelayInv(After(r, limits, request, now), limits, now)
  {
    hide RelayInv, WithinBounds, Purge, ApplyPush, ApplyPull, ApplyAck;
    LaterKeepsInv(r, limits, at, now);
    if Verify(request, now).None? && now + MAX_RELAY_CLOCK_SKEW + 1 <= I64_MAX
       && ReplayKey(request.route, request.nonce) !in Purge(r, now).replays {
      AdmittedInv(r, limits, request, at, now);
      OperationKeepsInv(Admitted(r, request, now), limits, request, now);
    }
  }

  function Apply(r: Relay, limits: Limits, request: Request, now: U64): Step {
    match request.operation
    case Push(envelopes) => ApplyPush(r, limits, request.route, envelopes)
    case Pull(after, limit) => ApplyPull(r, request.route, after, limit, now)
    case Acknowledge(ids) => ApplyAck(r, request.route, ids)
  }

  lemma OperationKeepsInv(r: Relay, limits: Limits, request: Request, now: U64)
    requires RelayInv(r, limits, now) && WithinBounds(request.operation, now)
    ensures Apply(r, limits, request, now).Step? ==> RelayInv(Apply(r, limits, request, now).relay, limits, now)
  {
    hide RelayInv, Fits, InsertAll, DropAll, ValidEnvelope, Waiting;
    match request.operation {
      case Push(envelopes) =>
        if Fits(r, limits, request.route, envelopes) { PushKeepsInv(r, limits, request.route, envelopes, now); }
      case Pull(_, _) =>
      case Acknowledge(ids) => DropAllKeepsInv(r, limits, now, request.route, ids);
    }
  }

  lemma EmptyRelayInv(burns: bool, limits: Limits, at: U64)
    ensures RelayInv(EmptyRelay(burns), limits, at)
  {}

  // The time of the last request, if any.
  function LastArrival(arrivals: seq<Arrival>, since: U64): U64 {
    if arrivals == [] then since else arrivals[|arrivals| - 1].now
  }

  // From an empty relay, under a clock that never runs backwards, the quotas of
  // every mailbox and of the whole service hold in every reachable state.
  lemma {:induction false} ServeKeepsInv(r: Relay, limits: Limits, arrivals: seq<Arrival>, since: U64)
    requires RelayInv(r, limits, since) && Forward(arrivals, since)
    ensures RelayInv(Serve(r, limits, arrivals), limits, LastArrival(arrivals, since))
    decreases |arrivals|
  {
    hide RelayInv, After;
    if arrivals != [] {
      var a := arrivals[0];
      RequestKeepsInv(r, limits, a.request, since, a.now);
      ServeKeepsInv(After(r, limits, a.request, a.now), limits, arrivals[1..], a.now);
    }
  }

  lemma QuotasAlwaysHold(burns: bool, limits: Limits, arrivals: seq<Arrival>, since: U64)
    requires Forward(arrivals, since)
    ensures WithinQuota(Serve(EmptyRelay(burns), limits, arrivals).objects, limits)
  {
    hide Serve, WithinQuota;
    EmptyRelayInv(burns, limits, since);
    ServeKeepsInv(EmptyRelay(burns), limits, arrivals, since);
  }

  // ---- sequences ----

  // The table only loses old rows and gains rows under new sequences.
  ghost predicate Follows(next: Relay, r: Relay) {
    && next.sequence >= r.sequence
    && forall o :: o in next.objects ==> o in r.objects || o.sequence > r.sequence
  }

  lemma {:induction false} InsertAllFollows(r: Relay, route: Route, envelopes: seq<Envelope>)
    ensures Follows(InsertAll(r, route, envelopes), r)
    decreases |envelopes|
  {
    if envelopes != [] {
      InsertAllFollows(Insert(r, route, envelopes[0]), route, envelopes[1..]);
    }
  }

  lemma {:induction false} DropAllMembers(objects: seq<Object>, route: Route, ids: seq<ObjectId>, o: Object)
    ensures o in DropAll(objects, route, ids) <==> o in objects && !(o.route == route && o.id in ids)
    decreases |ids|
  {
    if ids != [] {
      SelectMembers(objects, (x: Object) => x.route != route || x.id != ids[0], o);
      DropAllMembers(Drop(objects, route, ids[0]), route, ids[1..], o);
      assert o.id in ids <==> o.id == ids[0] || o.id in ids[1..];
    }
  }

  lemma AdmittedFollows(r: Relay, request: Request, now: U64)
    requires now + MAX_RELAY_CLOCK_SKEW + 1 <= U64_MAX
    ensures Follows(Admitted(r, request, now), r)
    ensures forall o :: o in Admitted(r, request, now).objects <==> o in r.objects && o.expires > now
  {
    forall o ensures o in Unexpired(r.objects, now) <==> o in r.objects && o.expires > now {
      SelectMembers(r.objects, (x: Object) => x.expires > now, o);
    }
  }

  lemma RequestFollows(r: Relay, limits: Limits, request: Request, now: U64)
    ensures Follows(After(r, limits, request, now), r)
  {
    hide Purge, Verify, Fits, InsertAll, DropAll, ApplyPull;
    if Verify(request, now).None? && now + MAX_RELAY_CLOCK_SKEW + 1 <= I64_MAX {
      AdmittedFollows(r, request, now);
      var admitted := Admitted(r, request, now);
      match request.operation {
        case Push(envelopes) => InsertAllFollows(admitted, request.route, envelopes);
        case Pull(after, limit) => PullLeavesTables(admitted, request.route, after, limit, now);
        case Acknowledge(ids) =>
          forall o ensures o in DropAll(admitted.objects, request.route, ids) ==> o in admitted.objects {
            DropAllMembers(admitted.objects, request.route, ids, o);
          }
      }
    }
  }

  lemma PullLeavesTables(r: Relay, route: Route, after: U64, limit: nat, now: U64)
    ensures ApplyPull(r, route, after, limit, now).Step? ==> ApplyPull(r, route, after, limit, now).relay == r
  {}

  // ---- exactly how the reported count relates to what was stored ----

  // An id new to the mailbox occurs twice in the batch.
  ghost predicate RepeatsNew(objects: seq<Object>, route: Route, envelopes: seq<Envelope>) {
    exists i, j :: 0 <= i < j < |envelopes| && envelopes[i].id == envelopes[j].id && !Holds(objects, route, envelopes[i].id)
  }

  function Stored(r: Relay, route: Route, envelopes: seq<Envelope>): int {
    |InsertAll(r, route, envelopes).objects| - |r.objects|
  }

  predicate Occurs(envelopes: seq<Envelope>, id: ObjectId) {
    exists i :: 0 <= i < |envelopes| && envelopes[i].id == id
  }

  // Inserting a new id makes exactly its later occurrences old.
  lemma {:induction false} NewAfterInsert(r: Relay, route: Route, e: Envelope, envelopes: seq<Envelope>)
    requires !Holds(r.objects, route, e.id)
    ensures NewObjects(Insert(r, route, e).objects, route, envelopes) <= NewObjects(r.objects, route, envelopes)
    ensures NewObjects(Insert(r, route, e).objects, route, envelopes) == NewObjects(r.objects, route, envelopes) <==> !Occurs(envelopes, e.id)
    decreases |envelopes|
  {
    if envelopes != [] {
      var rest := envelopes[1..];
      NewAfterInsert(r, route, e, rest);
      InsertHolds(r, route, e, route, envelopes[0].id);
      assert Occurs(envelopes, e.id) <==> envelopes[0].id == e.id || Occurs(rest, e.id) by {
        if Occurs(rest, e.id) {
          var i :| 0 <= i < |rest| && rest[i].id == e.id;
          assert envelopes[i + 1].id == e.id;
        }
        if Occurs(envelopes, e.id) && envelopes[0].id != e.id {
          var i :| 0 <= i < |envelopes| && envelopes[i].id == e.id;
          assert rest[i - 1].id == e.id;
        }
      }
    }
  }

  lemma RepeatsStep(r: Relay, route: Route, envelopes: seq<Envelope>)
    requires envelopes != []
    ensures var e, rest := envelopes[0], envelopes[1..];
            RepeatsNew(r.objects, route, envelopes) <==>
              (!Holds(r.objects, route, e.id) && Occurs(rest, e.id)) || RepeatsNew(Insert(r, route, e).objects, route, rest)
  {
    hide Insert, Holds;
    var e, rest := envelopes[0], envelopes[1..];
    var next := Insert(r, route, e).objects;
    forall id ensures Holds(next, route, id) <==> Holds(r.objects, route, id) || id == e.id {
      InsertHolds(r, route, e, route, id);
    }
    if RepeatsNew(r.objects, route, envelopes) {
      var i, j :| 0 <= i < j < |envelopes| && envelopes[i].id == envelopes[j].id && !Holds(r.objects, route, envelopes[i].id);
      assert rest[j - 1].id == envelopes[i].id;
      if envelopes[i].id != e.id {
        assert i > 0 && rest[i - 1].id == rest[j - 1].id && !Holds(next, route, rest[i - 1].id);
      }
    }
    if !Holds(r.objects, route, e.id) && Occurs(rest, e.id) {
      var i :| 0 <= i < |rest| && rest[i].id == e.id;
      assert envelopes[0].id == envelopes[i + 1].id;
    }
    if RepeatsNew(next, route, rest) {
      var i, j :| 0 <= i < j < |rest| && rest[i].id == rest[j].id && !Holds(next, route, rest[i].id);
      assert envelopes[i + 1].id == envelopes[j + 1].id && !Holds(r.objects, route, envelopes[i + 1].id);
    }
  }

  // The reported count is what was stored, except exactly when the batch
  // repeats an id new to the mailbox; then it is higher.
  lemma {:induction false} CountIsExactUnlessRepeated(r: Relay, route: Route, envelopes: seq<Envelope>)
    ensures Stored(r, route, envelopes) <= NewObjects(r.objects, route, envelopes)
    ensures Stored(r, route, envelopes) == NewObjects(r.objects, route, envelopes) <==> !RepeatsNew(r.objects, route, envelopes)
    decreases |envelopes|
  {
    hide RepeatsNew, Occurs;
    if envelopes == [] {
      NothingRepeats(r.objects, route);
    } else {
      var e, rest := envelopes[0], envelopes[1..];
      CountIsExactUnlessRepeated(Insert(r, route, e), route, rest);
      RepeatsStep(r, route, envelopes);
      if !Holds(r.objects, route, e.id) {
        NewAfterInsert(r, route, e, rest);
      }
    }
  }

  lemma NothingRepeats(objects: seq<Object>, route: Route)
    ensures !RepeatsNew(objects, route, [])
  {}

  // A first push of one object twice: one object is stored, two are reported.
  lemma RepeatedPushIsOvercounted(burns: bool, limits: Limits, route: Route, id: ObjectId, byte: bv8)
    requires limits.mailboxObjects >= 2 && limits.mailboxBytes >= 2 && limits.totalBytes >= 2
    ensures var e := Envelope(id, 1, [byte]);
            var step := Handle(EmptyRelay(burns), limits, Request(route, 0, 0, Push([e, e]), true), 0);
            step.Step? && step.response == Changed(2) && step.relay.objects == [Object(1, route, id, 1, [byte])]
  {
    var e := Envelope(id, 1, [byte]);
    assert [e, e][1..] == [e] && [e][1..] == [];
    assert Size([e]) == 1 && Size([e, e]) == 2;
    var admitted := EmptyRelay(burns).(replays := map[ReplayKey(route, 0) := MAX_RELAY_CLOCK_SKEW + 1]);
    var one := Insert(admitted, route, e);
    assert one.objects == [Object(1, route, id, 1, [byte])];
    assert Holds(one.objects, route, id);
    assert InsertAll(admitted, route, [e, e]) == InsertAll(Insert(one, route, e), route, []);
    assert NewObjects([], route, [e, e]) == 1 + NewObjects([], route, [e]) == 2;
    assert NewBytes([], route, [e, e]) == 1 + NewBytes([], route, [e]) == 2;
    assert Purge(EmptyRelay(burns), 0) == EmptyRelay(burns);
  }

  // ---- replays ----

  predicate Accepts(r: Relay, request: Request, now: U64) {
    && Verify(request, now).None?
    && now + MAX_RELAY_CLOCK_SKEW + 1 <= I64_MAX
    && ReplayKey(request.route, request.nonce) !in Purge(r, now).replays
  }

  // The nonce is remembered until the request itself has become stale.
  ghost predicate Remembered(r: Relay, request: Request, until: nat) {
    var key := ReplayKey(request.route, request.nonce);
    key in r.replays && r.replays[key] >= until
  }

  lemma {:induction false} InsertAllKeepsReplays(r: Relay, route: Route, envelopes: seq<Envelope>)
    ensures InsertAll(r, route, envelopes).replays == r.replays
    decreases |envelopes|
  {
    if envelopes != [] {
      InsertAllKeepsReplays(Insert(r, route, envelopes[0]), route, envelopes[1..]);
    }
  }

  // Serving changes the remembered nonces in one way only.
  lemma ReplaysAfter(r: Relay, limits: Limits, request: Request, now: U64)
    ensures var next := After(r, limits, request, now);
            next.replays == r.replays || (Accepts(r, request, now) && next.replays == Admitted(r, request, now).replays)
    ensures Handle(r, limits, request, now).Step? && Accepts(r, request, now) ==>
              After(r, limits, request, now).replays == Admitted(r, request, now).replays
  {
    hide Purge, Verify, Fits, InsertAll, DropAll, ApplyPull;
    if Accepts(r, request, now) {
      var admitted := Admitted(r, request, now);
      match request.operation {
        case Push(envelopes) => InsertAllKeepsReplays(admitted, request.route, envelopes);
        case Pull(after, limit) => PullLeavesTables(admitted, request.route, after, limit, now);
        case Acknowledge(_) =>
      }
    }
  }

  lemma AcceptedIsRemembered(r: Relay, limits: Limits, request: Request, now: U64)
    requires Accepts(r, request, now) && Handle(r, limits, request, now).Step?
    ensures Remembered(After(r, limits, request, now), request, now + MAX_RELAY_CLOCK_SKEW + 1)
  {
    hide Handle, Verify, Unexpired;
    ReplaysAfter(r, limits, request, now);
  }

  lemma OthersLeaveNonce(r: Relay, limits: Limits, request: Request, other: Request, now: U64, until: nat)
    requires Remembered(r, request, until) && now < until
    ensures Remembered(After(r, limits, other, now), request, until)
  {
    hide After, Verify, Unexpired;
    ReplaysAfter(r, limits, other, now);
  }

  // Whatever arrives, a remembered nonce is refused until it is forgotten.
  lemma {:induction false} RefusedWhileRemembered(r: Relay, limits: Limits, request: Request, until: nat, arrivals: seq<Arrival>, since: U64, now: U64)
    requires Remembered(r, request, until) || since >= until
    requires Forward(arrivals + [Arrival(request, now)], since)
    ensures now < until ==> !Accepts(Serve(r, limits, arrivals), request, now)
    decreases |arrivals|
  {
    hide After, Verify, Unexpired;
    if arrivals == [] {
      assert [] + [Arrival(request, now)] == [Arrival(request, now)];
    } else {
      var a := arrivals[0];
      assert (arrivals + [Arrival(request, now)])[1..] == arrivals[1..] + [Arrival(request, now)];
      if a.now < until && since < until {
        OthersLeaveNonce(r, limits, request, a.request, a.now, until);
      }
      RefusedWhileRemembered(After(r, limits, a.request, a.now), limits, request, until, arrivals[1..], a.now, now);
    }
  }

  // A request accepted no earlier than it was issued is never accepted again,
  // whatever arrives in between.
  lemma NeverAcceptedAgain(r: Relay, limits: Limits, request: Request, first: U64, arrivals: seq<Arrival>, now: U64)
    requires Accepts(r, request, first) && Handle(r, limits, request, first).Step? && request.issuedAt <= first
    requires Forward(arrivals + [Arrival(request, now)], first)
    ensures !Accepts(Serve(After(r, limits, request, first), limits, arrivals), request, now)
  {
    hide After, Handle, WithinBounds, Unexpired, Purge, Forward;
    AcceptedIsRemembered(r, limits, request, first);
    RefusedWhileRemembered(After(r, limits, request, first), limits, request, first + MAX_RELAY_CLOCK_SKEW + 1, arrivals, first, now);
  }

  // The nonce is forgotten this long after a request was accepted.
  function Forgotten(first: U64): nat {
    first + MAX_RELAY_CLOCK_SKEW + 1
  }

  // Some course of later requests lets the relay accept this one again.
  ghost predicate CanRepeat(r: Relay, limits: Limits, request: Request, since: U64) {
    exists arrivals: seq<Arrival>, again: U64 ::
      Forward(arrivals + [Arrival(request, again)], since) && Accepts(Serve(r, limits, arrivals), request, again)
  }

  // An accepted request can be accepted again exactly when it was issued ahead
  // of the relay's clock and is still within bounds once its nonce is forgotten.
  lemma RepeatsExactly(r: Relay, limits: Limits, request: Request, first: U64)
    requires Accepts(r, request, first) && Handle(r, limits, request, first).Step?
    requires Forgotten(first) + MAX_RELAY_CLOCK_SKEW + 1 <= I64_MAX
    ensures CanRepeat(After(r, limits, request, first), limits, request, first)
            <==> first < request.issuedAt && WithinBounds(request.operation, Forgotten(first))
  {
    hide After, Handle, WithinBounds, Unexpired, Purge, Forward;
    var next := After(r, limits, request, first);
    if first < request.issuedAt && WithinBounds(request.operation, Forgotten(first)) {
      ForgottenInTime(r, limits, request, first);
      JustThis(request, Forgotten(first), first);
      assert Serve(next, limits, []) == next;
      assert Forward([] + [Arrival(request, Forgotten(first))], first) && Accepts(Serve(next, limits, []), request, Forgotten(first));
    }
    if CanRepeat(next, limits, request, first) {
      var arrivals, again :|
        Forward(arrivals + [Arrival(request, again)], first) && Accepts(Serve(next, limits, arrivals), request, again);
      if request.issuedAt <= first {
        NeverAcceptedAgain(r, limits, request, first, arrivals, again);
      } else {
        AcceptedIsRemembered(r, limits, request, first);
        RefusedWhileRemembered(next, limits, request, Forgotten(first), arrivals, first, again);
        BoundsInBetween(request.operation, first, Forgotten(first), again);
      }
    }
  }

  // A push issued as far ahead of the relay's clock as is tolerated, accepted by
  // an empty relay, is accepted again by the first instant that has forgotten it.
  lemma PushAheadIsAcceptedTwice(burns: bool, limits: Limits, route: Route, id: ObjectId, byte: bv8)
    ensures var request := Request(route, MAX_RELAY_CLOCK_SKEW, 0, Push([Envelope(id, 1000, [byte])]), true);
            && Accepts(EmptyRelay(burns), request, 0)
            && Accepts(After(EmptyRelay(burns), limits, request, 0), request, Forgotten(0))
  {
    hide After, Handle, Unexpired, Fits, InsertAll;
    var e := Envelope(id, 1000, [byte]);
    var request := Request(route, MAX_RELAY_CLOCK_SKEW, 0, Push([e]), true);
    assert [e][1..] == [];
    assert Size([e]) == 1;
    assert Purge(EmptyRelay(burns), 0).replays == map[];
    assert Handle(EmptyRelay(burns), limits, request, 0).Step? by { FittingPushIsServed(EmptyRelay(burns), limits, request, 0); }
    ForgottenInTime(EmptyRelay(burns), limits, request, 0);
  }

  // A push is answered unless an expiry does not fit its column.
  lemma FittingPushIsServed(r: Relay, limits: Limits, request: Request, now: U64)
    requires Accepts(r, request, now) && request.operation.Push?
    requires forall e :: e in request.operation.envelopes ==> e.expires <= I64_MAX
    ensures Handle(r, limits, request, now).Step?
  {
    hide Fits, InsertAll, Purge, Verify;
  }

  lemma JustThis(request: Request, again: U64, since: U64)
    requires since <= again
    ensures [] + [Arrival(request, again)] == [Arrival(request, again)]
    ensures Forward([] + [Arrival(request, again)], since)
  {
    assert [] + [Arrival(request, again)] == [Arrival(request, again)];
  }

  lemma BoundsInBetween(op: MailboxState.Operation, first: U64, between: U64, last: U64)
    requires first <= between <= last && WithinBounds(op, first) && WithinBounds(op, last)
    ensures WithinBounds(op, between)
  {
    hide Size;
  }

  // Issued ahead, a request is still in time when its nonce has been forgotten.
  lemma ForgottenInTime(r: Relay, limits: Limits, request: Request, first: U64)
    requires Accepts(r, request, first) && Handle(r, limits, request, first).Step? && first < request.issuedAt
    requires Forgotten(first) + MAX_RELAY_CLOCK_SKEW + 1 <= I64_MAX && WithinBounds(request.operation, Forgotten(first))
    ensures Accepts(After(r, limits, request, first), request, Forgotten(first))
  {
    hide Handle, After, WithinBounds, Unexpired;
    ReplaysAfter(r, limits, request, first);
  }

  // ---- who may change a mailbox ----

  // Only a request signed for the mailbox, in time and within bounds, gets
  // anything but a refusal or changes any table.
  lemma RefusedRequestsChangeNothing(r: Relay, limits: Limits, request: Request, now: U64)
    requires !request.authentic || !InTime(request.issuedAt, now) || !WithinBounds(request.operation, now)
    ensures After(r, limits, request, now) == r
    ensures Handle(r, limits, request, now).Step? && Handle(r, limits, request, now).response.Rejected?
  {}

  // And it touches no mailbox but its own, except that the expired leave all.
  lemma OtherMailboxesStay(r: Relay, limits: Limits, request: Request, now: U64, o: Object)
    requires o.route != request.route
    ensures o in After(r, limits, request, now).objects ==> o in r.objects
    ensures o in r.objects && o.expires > now ==> o in After(r, limits, request, now).objects
  {
    hide Purge, Verify, Fits, InsertAll, DropAll, ApplyPull;
    if Accepts(r, request, now) {
      AdmittedFollows(r, request, now);
      var admitted := Admitted(r, request, now);
      match request.operation {
        case Push(envelopes) => InsertAllElsewhere(admitted, request.route, envelopes, o);
        case Pull(after, limit) => PullLeavesTables(admitted, request.route, after, limit, now);
        case Acknowledge(ids) => DropAllMembers(admitted.objects, request.route, ids, o);
      }
    }
  }

  lemma {:induction false} InsertAllElsewhere(r: Relay, route: Route, envelopes: seq<Envelope>, o: Object)
    requires o.route != route
    ensures o in InsertAll(r, route, envelopes).objects <==> o in r.objects
    decreases |envelopes|
  {
    if envelopes != [] {
      InsertAllElsewhere(Insert(r, route, envelopes[0]), route, envelopes[1..], o);
    }
  }

  // ---- paging ----

  // A client's walk through one mailbox: its cursor, and what it was handed.
  datatype Walk = Walk(relay: Relay, cursor: nat, seen: seq<Delivery>)

  datatype Event =
    | Other(request: Request, now: U64)
    | Page(nonce: Nonce, limit: nat, now: U64)

  function PullAfter(route: Route, cursor: nat, e: Event): Request
    requires e.Page? && cursor <= U64_MAX
  {
    Request(route, e.now, e.nonce, Pull(cursor, e.limit), true)
  }

  function LastCursor(items: seq<Delivery>, cursor: nat): nat {
    if items == [] then cursor else items[|items| - 1].cursor
  }

  function Turn(w: Walk, limits: Limits, route: Route, e: Event): Walk {
    match e
    case Other(request, now) => w.(relay := After(w.relay, limits, request, now))
    case Page(nonce, limit, now) =>
      if w.cursor > U64_MAX then w
      else
        match Handle(w.relay, limits, PullAfter(route, w.cursor, e), now)
        case Step(next, Deliveries(items)) => Walk(next, LastCursor(items, w.cursor), w.seen + items)
        case Step(next, _) => w.(relay := next)
        case Unavailable => w
  }

  function Turns(w: Walk, limits: Limits, route: Route, events: seq<Event>): Walk
    decreases |events|
  {
    if events == [] then w else Turns(Turn(w, limits, route, events[0]), limits, route, events[1..])
  }

  predicate RisingCursors(seen: seq<Delivery>) {
    forall i, j :: 0 <= i < j < |seen| ==> seen[i].cursor < seen[j].cursor
  }

  // Everything handed over came in order of sequence, none twice; and every
  // object of the mailbox that is still there and not beyond the cursor has
  // been handed over.
  ghost predicate WalkInv(w: Walk, route: Route) {
    && RisingCursors(w.seen)
    && (forall d :: d in w.seen ==> d.cursor <= w.cursor)
    && w.cursor <= w.relay.sequence
    && forall o :: o in w.relay.objects && o.route == route && o.sequence <= w.cursor ==> Delivery(o.sequence, EnvelopeOf(o)) in w.seen
  }

  lemma OtherKeepsWalk(w: Walk, limits: Limits, route: Route, request: Request, now: U64)
    requires WalkInv(w, route)
    ensures WalkInv(w.(relay := After(w.relay, limits, request, now)), route)
  {
    hide After;
    RequestFollows(w.relay, limits, request, now);
  }

  lemma WaitingMembers(objects: seq<Object>, route: Route, after: nat, now: U64, o: Object)
    ensures o in Waiting(objects, route, after, now) <==> o in objects && o.route == route && o.sequence > after && o.expires > now
  {
    SelectMembers(objects, (x: Object) => x.route == route && x.sequence > after && x.expires > now, o);
  }

  // The objects of a page, as the first of those that wait.
  lemma PageRises(relay: Relay, route: Route, after: U64, limit: nat, now: U64)
    requires Ordered(relay.objects)
    ensures var waiting := Waiting(relay.objects, route, after, now); var page := FirstOf(waiting, limit);
            && Ordered(waiting)
            && (forall i :: 0 <= i < |page| ==> page[i] == waiting[i] && after < page[i].sequence)
            && RisingCursors(Delivered(page))
            && (forall d :: d in Delivered(page) ==> after < d.cursor <= LastCursor(Delivered(page), after))
  {
    var waiting := Waiting(relay.objects, route, after, now);
    var page := FirstOf(waiting, limit);
    SelectKeepsOrder(relay.objects, (x: Object) => x.route == route && x.sequence > after && x.expires > now);
    assert Ordered(waiting);
    hide Waiting, Select;
    forall i | 0 <= i < |page| ensures page[i] == waiting[i] && after < page[i].sequence {
      assert waiting[i] in waiting;
      WaitingMembers(relay.objects, route, after, now, waiting[i]);
    }
  }

  // A page extends the walk by the next objects, and skips none.
  lemma PageExtends(relay: Relay, route: Route, after: U64, limit: nat, now: U64, o: Object)
    requires Ordered(relay.objects) && limit > 0
    requires forall x :: x in relay.objects ==> x.expires > now
    ensures var waiting := Waiting(relay.objects, route, after, now); var items := Delivered(FirstOf(waiting, limit));
            && RisingCursors(items)
            && (forall d :: d in items ==> after < d.cursor <= LastCursor(items, after))
            && (o in relay.objects && o.route == route && after < o.sequence <= LastCursor(items, after) ==>
                  Delivery(o.sequence, EnvelopeOf(o)) in items)
            && (o in relay.objects && o.route == route && after < o.sequence && |items| < limit ==>
                  o.sequence <= LastCursor(items, after))
  {
    hide Waiting, Select, RisingCursors;
    PageRises(relay, route, after, limit, now);
    if o in relay.objects && o.route == route && after < o.sequence {
      var waiting := Waiting(relay.objects, route, after, now);
      WaitingMembers(relay.objects, route, after, now, o);
      var i :| 0 <= i < |waiting| && waiting[i] == o;
      InOrBeyondPage(waiting, i, limit, after);
    }
  }

  lemma InOrBeyondPage(waiting: seq<Object>, i: nat, limit: nat, after: nat)
    requires Ordered(waiting) && i < |waiting| && limit > 0
    ensures var items := Delivered(FirstOf(waiting, limit));
            if i < |items| then
              Delivery(waiting[i].sequence, EnvelopeOf(waiting[i])) in items && waiting[i].sequence <= LastCursor(items, after)
            else |items| == limit && LastCursor(items, after) < waiting[i].sequence
  {
    var items := Delivered(FirstOf(waiting, limit));
    if i < |items| {
      assert items[i] == Delivery(waiting[i].sequence, EnvelopeOf(waiting[i]));
    }
  }

  lemma PurgedOrdered(r: Relay, limits: Limits, at: U64, now: U64)
    requires RelayInv(r, limits, at)
    ensures Ordered(Unexpired(r.objects, now))
  {
    SelectKeepsOrder(r.objects, (x: Object) => x.expires > now);
  }

  lemma RisingConcat(seen: seq<Delivery>, items: seq<Delivery>, cursor: nat)
    requires RisingCursors(seen) && RisingCursors(items)
    requires forall d :: d in seen ==> d.cursor <= cursor
    requires forall d :: d in items ==> cursor < d.cursor
    ensures RisingCursors(seen + items)
  {
    var all := seen + items;
    forall i, j | 0 <= i < j < |all| ensures all[i].cursor < all[j].cursor {
      if i < |seen| <= j {
        assert all[i] in seen && all[j] in items;
      }
    }
  }

  lemma CursorAdvances(relay: Relay, route: Route, after: U64, limit: nat, now: U64)
    requires after <= relay.sequence
    requires forall o :: o in relay.objects ==> o.sequence <= relay.sequence
    ensures var items := Delivered(FirstOf(Waiting(relay.objects, route, after, now), limit));
            after <= LastCursor(items, after) <= relay.sequence
  {
    var page := FirstOf(Waiting(relay.objects, route, after, now), limit);
    hide Waiting;
    if page != [] {
      var last := page[|page| - 1];
      assert last in Waiting(relay.objects, route, after, now);
      WaitingMembers(relay.objects, route, after, now, last);
    }
  }

  lemma SameSeen(w: Walk, limits: Limits, route: Route, e: Event)
    requires e.Page? && w.cursor <= U64_MAX && Turn(w, limits, route, e).seen == w.seen
    ensures Turn(w, limits, route, e) == w.(relay := After(w.relay, limits, PullAfter(route, w.cursor, e), e.now))
  {
    hide Handle;
    var request := PullAfter(route, w.cursor, e);
    var step := Handle(w.relay, limits, request, e.now);
    if step.Step? && step.response.Deliveries? {
      assert |w.seen + step.response.items| == |w.seen|;
    }
  }

  lemma PageAnswer(w: Walk, limits: Limits, route: Route, e: Event)
    requires e.Page? && w.cursor <= U64_MAX && Turn(w, limits, route, e).seen != w.seen
    ensures e.now + MAX_RELAY_CLOCK_SKEW + 1 <= I64_MAX && e.limit > 0
    ensures var admitted := Admitted(w.relay, PullAfter(route, w.cursor, e), e.now);
            var items := Delivered(FirstOf(Waiting(admitted.objects, route, w.cursor, e.now), e.limit));
            Turn(w, limits, route, e) == Walk(admitted, LastCursor(items, w.cursor), w.seen + items)
  {
    hide Waiting, Delivered, ValidEnvelope, Purge, LastCursor, FirstOf;
  }

  lemma PageKeepsWalk(w: Walk, limits: Limits, route: Route, e: Event, at: U64)
    requires WalkInv(w, route) && RelayInv(w.relay, limits, at) && e.Page?
    ensures WalkInv(Turn(w, limits, route, e), route)
  {
    hide Turn, After, Waiting, Delivered, RelayInv, Unexpired, LastCursor, FirstOf, RisingCursors, Ordered;
    if w.cursor > U64_MAX {
      BeyondCursor(w, limits, route, e);
    } else if Turn(w, limits, route, e).seen == w.seen {
      SameSeen(w, limits, route, e);
      OtherKeepsWalk(w, limits, route, PullAfter(route, w.cursor, e), e.now);
    } else {
      PageAnswer(w, limits, route, e);
      NewPageKeepsWalk(w, limits, route, e, at);
    }
  }

  lemma BeyondCursor(w: Walk, limits: Limits, route: Route, e: Event)
    requires e.Page? && w.cursor > U64_MAX
    ensures Turn(w, limits, route, e) == w
  {}

  lemma NewPageKeepsWalk(w: Walk, limits: Limits, route: Route, e: Event, at: U64)
    requires WalkInv(w, route) && RelayInv(w.relay, limits, at) && e.Page? && w.cursor <= U64_MAX
    requires e.now + MAX_RELAY_CLOCK_SKEW + 1 <= I64_MAX && e.limit > 0
    ensures var admitted := Admitted(w.relay, PullAfter(route, w.cursor, e), e.now);
            var items := Delivered(FirstOf(Waiting(admitted.objects, route, w.cursor, e.now), e.limit));
            WalkInv(Walk(admitted, LastCursor(items, w.cursor), w.seen + items), route)
  {
    hide Waiting, Delivered, ValidEnvelope, WithinQuota, UniqueIds, Unexpired, LastCursor, FirstOf, RisingCursors, Ordered;
    var request := PullAfter(route, w.cursor, e);
    AdmittedFollows(w.relay, request, e.now);
    PurgedOrdered(w.relay, limits, at, e.now);
    var admitted := Admitted(w.relay, request, e.now);
    var items := Delivered(FirstOf(Waiting(admitted.objects, route, w.cursor, e.now), e.limit));
    CursorAdvances(admitted, route, w.cursor, e.limit, e.now);
    PageExtends(admitted, route, w.cursor, e.limit, e.now, Object(0, 0, 0, 0, []));
    RisingConcat(w.seen, items, w.cursor);
    forall o | o in admitted.objects && o.route == route && o.sequence <= LastCursor(items, w.cursor)
      ensures Delivery(o.sequence, EnvelopeOf(o)) in w.seen + items
    {
      PageExtends(admitted, route, w.cursor, e.limit, e.now, o);
      assert o in w.relay.objects;
    }
  }

  predicate ForwardEvents(events: seq<Event>, since: U64)
    decreases |events|
  {
    events != [] ==> since <= events[0].now && ForwardEvents(events[1..], events[0].now)
  }

  lemma TurnKeepsRelay(w: Walk, limits: Limits, route: Route, e: Event, at: U64)
    requires RelayInv(w.relay, limits, at) && at <= e.now
    ensures RelayInv(Turn(w, limits, route, e).relay, limits, e.now)
  {
    hide RelayInv, Handle;
    LaterKeepsInv(w.relay, limits, at, e.now);
    if e.Other? {
      RequestKeepsInv(w.relay, limits, e.request, at, e.now);
    } else if w.cursor <= U64_MAX {
      RequestKeepsInv(w.relay, limits, PullAfter(route, w.cursor, e), at, e.now);
    }
  }

  lemma {:induction false} WalkKeeps(w: Walk, limits: Limits, route: Route, events: seq<Event>, since: U64)
    requires WalkInv(w, route) && RelayInv(w.relay, limits, since) && ForwardEvents(events, since)
    ensures WalkInv(Turns(w, limits, route, events), route)
    ensures RelayInv(Turns(w, limits, route, events).relay, limits, LastEvent(events, since))
    decreases |events|
  {
    hide WalkInv, RelayInv, Turn;
    if events != [] {
      var e := events[0];
      TurnKeepsRelay(w, limits, route, e, since);
      if e.Other? {
        OtherTurn(w, limits, route, e);
        OtherKeepsWalk(w, limits, route, e.request, e.now);
      } else {
        PageKeepsWalk(w, limits, route, e, since);
      }
      WalkKeeps(Turn(w, limits, route, e), limits, route, events[1..], e.now);
    }
  }

  function LastEvent(events: seq<Event>, since: U64): U64 {
    if events == [] then since else events[|events| - 1].now
  }

  // A walk over a mailbox of a relay that has served these requests since it was
  // empty.
  function WalkFrom(burns: bool, limits: Limits, before: seq<Arrival>, route: Route, events: seq<Event>): Walk {
    Turns(Walk(Serve(EmptyRelay(burns), limits, before), 0, []), limits, route, events)
  }

  // In every walk from the start of a mailbox, with pushes, acknowledgements and
  // expiries before and in between: what was handed over came once and in order,
  // and no object still in the mailbox was passed over.
  lemma PagingNeverSkips(burns: bool, limits: Limits, before: seq<Arrival>, since: U64, route: Route, events: seq<Event>)
    requires Forward(before, since) && ForwardEvents(events, LastArrival(before, since))
    ensures WalkInv(WalkFrom(burns, limits, before, route, events), route)
    ensures RelayInv(WalkFrom(burns, limits, before, route, events).relay, limits, LastEvent(events, LastArrival(before, since)))
  {
    hide WalkInv, RelayInv, Serve, Turns;
    EmptyRelayInv(burns, limits, since);
    ServeKeepsInv(EmptyRelay(burns), limits, before, since);
    var r := Serve(EmptyRelay(burns), limits, before);
    WalkStarts(r, limits, route, LastArrival(before, since));
    WalkKeeps(Walk(r, 0, []), limits, route, events, LastArrival(before, since));
  }

  lemma OtherTurn(w: Walk, limits: Limits, route: Route, e: Event)
    requires e.Other?
    ensures Turn(w, limits, route, e) == w.(relay := After(w.relay, limits, e.request, e.now))
  {}

  lemma WalkStarts(r: Relay, limits: Limits, route: Route, at: U64)
    requires RelayInv(r, limits, at)
    ensures WalkInv(Walk(r, 0, []), route)
  {}

  // A page that comes back short ends such a walk: everything in the mailbox has
  // been handed over.
  lemma ShortPageFinishes(burns: bool, limits: Limits, before: seq<Arrival>, since: U64, route: Route, events: seq<Event>, e: Event)
    requires Forward(before, since) && ForwardEvents(events, LastArrival(before, since))
    requires e.Page? && LastEvent(events, LastArrival(before, since)) <= e.now
    requires var w := WalkFrom(burns, limits, before, route, events);
             && w.cursor <= U64_MAX
             && var step := Handle(w.relay, limits, PullAfter(route, w.cursor, e), e.now);
                step.Step? && step.response.Deliveries? && |step.response.items| < e.limit
    ensures var w := Turn(WalkFrom(burns, limits, before, route, events), limits, route, e);
            forall o :: o in w.relay.objects && o.route == route ==> Delivery(o.sequence, EnvelopeOf(o)) in w.seen
  {
    hide WalkInv, RelayInv, WalkFrom, Handle, Turn;
    PagingNeverSkips(burns, limits, before, since, route, events);
    ShortPageCovers(WalkFrom(burns, limits, before, route, events), limits, route, e, LastEvent(events, LastArrival(before, since)));
  }

  lemma ShortPageCovers(w: Walk, limits: Limits, route: Route, e: Event, at: U64)
    requires WalkInv(w, route) && RelayInv(w.relay, limits, at) && at <= e.now
    requires e.Page? && w.cursor <= U64_MAX
    requires var step := Handle(w.relay, limits, PullAfter(route, w.cursor, e), e.now);
             step.Step? && step.response.Deliveries? && |step.response.items| < e.limit
    ensures var w' := Turn(w, limits, route, e);
            forall o :: o in w'.relay.objects && o.route == route ==> Delivery(o.sequence, EnvelopeOf(o)) in w'.seen
  {
    hide Waiting, Delivered, ValidEnvelope, WithinQuota, UniqueIds, Unexpired, LastCursor, FirstOf, RisingCursors, Ordered;
    PageKeepsWalk(w, limits, route, e, at);
    var w', request := Turn(w, limits, route, e), PullAfter(route, w.cursor, e);
    AdmittedFollows(w.relay, request, e.now);
    PurgedOrdered(w.relay, limits, at, e.now);
    var admitted := Admitted(w.relay, request, e.now);
    forall o | o in w'.relay.objects && o.route == route ensures Delivery(o.sequence, EnvelopeOf(o)) in w'.seen {
      assert w'.relay == admitted;
      PageExtends(admitted, route, w.cursor, e.limit, e.now, o);
    }
  }

  // A stored object always validates again, so a pull never reports corruption.
  lemma PullNeverCorrupt(r: Relay, limits: Limits, route: Route, after: U64, limit: nat, at: U64, now: U64)
    requires RelayInv(r, limits, at) && at <= now && after <= I64_MAX
    ensures ApplyPull(r, route, after, limit, now).Step?
  {
    var waiting := Waiting(r.objects, route, after, now);
    hide Waiting;
    forall o | o in FirstOf(waiting, limit) ensures ValidEnvelope(EnvelopeOf(o), now) {
      assert o in waiting;
      WaitingMembers(r.objects, route, after, now, o);
    }
  }
}
