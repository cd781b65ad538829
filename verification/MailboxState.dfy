// The relay's mailbox tables as a value, one request at a time: quotas,
// sequences, replay defence, and paging by cursor.
module MailboxState {
  import opened Wrappers
  import opened Ids
  import opened Changes

  const MAX_RELAY_ENVELOPE_BYTES := 1024 * 1024
  const MAX_RELAY_BATCH := 256
  const MAX_RELAY_BATCH_BYTES := 4 * 1024 * 1024
  const MAX_RELAY_CLOCK_SKEW := 300
  const MAX_RELAY_RETENTION := 30 * 24 * 60 * 60

  // Routing keys, object ids and nonces are opaque.
  type Route = nat
  type ObjectId = nat
  type Nonce = nat

  datatype Object = Object(sequence: nat, route: Route, id: ObjectId, expires: U64, ciphertext: Bytes)

  datatype Envelope = Envelope(id: ObjectId, expires: U64, ciphertext: Bytes)

  datatype Delivery = Delivery(cursor: nat, envelope: Envelope)

  datatype Operation =
    | Push(envelopes: seq<Envelope>)
    | Pull(after: U64, limit: nat)
    | Acknowledge(ids: seq<ObjectId>)

  // `authentic` stands for the ideal signature over the other fields.
  datatype Request = Request(route: Route, issuedAt: U64, nonce: Nonce, operation: Operation, authentic: bool)

  datatype Rejection = Unauthorized | LimitExceeded

  datatype Response =
    | Changed(count: nat)
    | Deliveries(items: seq<Delivery>)
    | Rejected(code: Rejection)

  datatype ReplayKey = ReplayKey(route: Route, nonce: Nonce)

  datatype Limits = Limits(mailboxBytes: U64, mailboxObjects: U64, totalBytes: U64)

  // Objects are kept in the order of their AUTOINCREMENT sequence. Whether an
  // ignored insertion uses up a sequence is the database's choice.
  datatype Relay = Relay(objects: seq<Object>, sequence: nat, replays: map<ReplayKey, U64>, burns: bool)

  function EmptyRelay(burns: bool): Relay {
    Relay([], 0, map[], burns)
  }

  // ---- request validation ----

  predicate ValidEnvelope(e: Envelope, now: U64) {
    && 0 < |e.ciphertext| <= MAX_RELAY_ENVELOPE_BYTES
    && now < e.expires
    && e.expires - now <= MAX_RELAY_RETENTION
  }

  function Size(envelopes: seq<Envelope>): nat {
    if envelopes == [] then 0 else |envelopes[0].ciphertext| + Size(envelopes[1..])
  }

  predicate WithinBounds(op: Operation, now: U64) {
    match op
    case Push(envelopes) =>
      && 0 < |envelopes| <= MAX_RELAY_BATCH
      && (forall e :: e in envelopes ==> ValidEnvelope(e, now))
      && Size(envelopes) <= MAX_RELAY_BATCH_BYTES
    case Pull(_, limit) => 0 < limit <= MAX_RELAY_BATCH
    case Acknowledge(ids) => 0 < |ids| <= MAX_RELAY_BATCH
  }

  predicate InTime(issuedAt: U64, now: U64) {
    issuedAt <= now + MAX_RELAY_CLOCK_SKEW && now <= issuedAt + MAX_RELAY_CLOCK_SKEW
  }

  function Verify(r: Request, now: U64): Option<Rejection> {
    if !InTime(r.issuedAt, now) then Some(Unauthorized)
    else if !WithinBounds(r.operation, now) then Some(LimitExceeded)
    else if !r.authentic then Some(Unauthorized)
    else None
  }

  // ---- the tables ----

  predicate Holds(objects: seq<Object>, route: Route, id: ObjectId) {
    exists o :: o in objects && o.route == route && o.id == id
  }

  // The rows a condition selects, in order.
  function Select(objects: seq<Object>, keep: Object -> bool): seq<Object> {
    if objects == [] then []
    else (if keep(objects[0]) then [objects[0]] else []) + Select(objects[1..], keep)
  }

  function Unexpired(objects: seq<Object>, now: U64): seq<Object> {
    Select(objects, (o: Object) => o.expires > now)
  }

  function Purge(r: Relay, now: U64): Relay {
    r.(objects := Unexpired(r.objects, now),
       replays := map key | key in r.replays && r.replays[key] > now :: r.replays[key])
  }

  function CountIn(objects: seq<Object>, route: Route): nat {
    if objects == [] then 0 else (if objects[0].route == route then 1 else 0) + CountIn(objects[1..], route)
  }

  function BytesIn(objects: seq<Object>, route: Route): nat {
    if objects == [] then 0
    else (if objects[0].route == route then |objects[0].ciphertext| else 0) + BytesIn(objects[1..], route)
  }

  function BytesOf(objects: seq<Object>): nat {
    if objects == [] then 0 else |objects[0].ciphertext| + BytesOf(objects[1..])
  }

  // What a push would add, judged against the table before it: an id repeated
  // within the batch is counted each time.
  function NewObjects(objects: seq<Object>, route: Route, envelopes: seq<Envelope>): nat {
    if envelopes == [] then 0
    else (if Holds(objects, route, envelopes[0].id) then 0 else 1) + NewObjects(objects, route, envelopes[1..])
  }

  function NewBytes(objects: seq<Object>, route: Route, envelopes: seq<Envelope>): nat {
    if envelopes == [] then 0
    else (if Holds(objects, route, envelopes[0].id) then 0 else |envelopes[0].ciphertext|) + NewBytes(objects, route, envelopes[1..])
  }

  function Insert(r: Relay, route: Route, e: Envelope): Relay {
    if Holds(r.objects, route, e.id) then r.(sequence := if r.burns then r.sequence + 1 else r.sequence)
    else
      r.(objects := r.objects + [Object(r.sequence + 1, route, e.id, e.expires, e.ciphertext)], sequence := r.sequence + 1)
  }

  function InsertAll(r: Relay, route: Route, envelopes: seq<Envelope>): Relay
    decreases |envelopes|
  {
    if envelopes == [] then r else InsertAll(Insert(r, route, envelopes[0]), route, envelopes[1..])
  }

  predicate Fits(r: Relay, limits: Limits, route: Route, envelopes: seq<Envelope>) {
    && CountIn(r.objects, route) + NewObjects(r.objects, route, envelopes) <= limits.mailboxObjects
    && BytesIn(r.objects, route) + NewBytes(r.objects, route, envelopes) <= limits.mailboxBytes
    && BytesOf(r.objects) + NewBytes(r.objects, route, envelopes) <= limits.totalBytes
  }

  datatype Step = Step(relay: Relay, response: Response) | Unavailable

  function ApplyPush(r: Relay, limits: Limits, route: Route, envelopes: seq<Envelope>): Step {
    if !Fits(r, limits, route, envelopes) then Step(r, Rejected(LimitExceeded))
    else if exists e :: e in envelopes && e.expires > I64_MAX then Unavailable
    else Step(InsertAll(r, route, envelopes), Changed(NewObjects(r.objects, route, envelopes)))
  }

  function Waiting(objects: seq<Object>, route: Route, after: nat, now: U64): seq<Object> {
    Select(objects, (o: Object) => o.route == route && o.sequence > after && o.expires > now)
  }

  function EnvelopeOf(o: Object): Envelope {
    Envelope(o.id, o.expires, o.ciphertext)
  }

  function FirstOf(objects: seq<Object>, limit: nat): seq<Object> {
    if |objects| <= limit then objects else objects[..limit]
  }

  function Delivered(objects: seq<Object>): (r: seq<Delivery>)
    ensures |r| == |objects| && forall i :: 0 <= i < |r| ==> r[i] == Delivery(objects[i].sequence, EnvelopeOf(objects[i]))
  {
    seq(|objects|, i requires 0 <= i < |objects| => Delivery(objects[i].sequence, EnvelopeOf(objects[i])))
  }

  // A stored envelope that no longer validates counts as corruption.
  function ApplyPull(r: Relay, route: Route, after: U64, limit: nat, now: U64): Step {
    var page := FirstOf(Waiting(r.objects, route, after, now), limit);
    if after > I64_MAX then Unavailable
    else if exists o :: o in page && !ValidEnvelope(EnvelopeOf(o), now) then Unavailable
    else Step(r, Deliveries(Delivered(page)))
  }

  function Drop(objects: seq<Object>, route: Route, id: ObjectId): seq<Object> {
    Select(objects, (o: Object) => o.route != route || o.id != id)
  }

  function DropAll(objects: seq<Object>, route: Route, ids: seq<ObjectId>): (r: seq<Object>)
    ensures |r| <= |objects|
    decreases |ids|
  {
    if ids == [] then objects
    else
      SelectShortens(objects, (o: Object) => o.route != route || o.id != ids[0]);
      DropAll(Drop(objects, route, ids[0]), route, ids[1..])
  }

  lemma {:induction false} SelectShortens(objects: seq<Object>, keep: Object -> bool)
    ensures |Select(objects, keep)| <= |objects|
  {
    if objects != [] {
      SelectShortens(objects[1..], keep);
    }
  }

  function ApplyAck(r: Relay, route: Route, ids: seq<ObjectId>): Step {
    var left := DropAll(r.objects, route, ids);
    Step(r.(objects := left), Changed(|r.objects| - |left|))
  }

  // One request. A refused nonce rolls the purge back; a refused push keeps it.
  function Handle(r: Relay, limits: Limits, request: Request, now: U64): Step {
    if Verify(request, now).Some? then Step(r, Rejected(Verify(request, now).value))
    else if now > I64_MAX || now + MAX_RELAY_CLOCK_SKEW + 1 > I64_MAX then Unavailable
    else
      var purged := Purge(r, now);
      var key := ReplayKey(request.route, request.nonce);
      if key in purged.replays then Step(r, Rejected(Unauthorized))
      else
        var admitted := purged.(replays := purged.replays[key := now + MAX_RELAY_CLOCK_SKEW + 1]);
        match request.operation
        case Push(envelopes) => ApplyPush(admitted, limits, request.route, envelopes)
        case Pull(after, limit) => ApplyPull(admitted, request.route, after, limit, now)
        case Acknowledge(ids) => ApplyAck(admitted, request.route, ids)
  }

  // A request the service cannot complete leaves the tables as they were.
  function After(r: Relay, limits: Limits, request: Request, now: U64): Relay {
    match Handle(r, limits, request, now)
    case Step(next, _) => next
    case Unavailable => r
  }

  // ---- runs ----

  datatype Arrival = Arrival(request: Request, now: U64)

  function Serve(r: Relay, limits: Limits, arrivals: seq<Arrival>): Relay
    decreases |arrivals|
  {
    if arrivals == [] then r else Serve(After(r, limits, arrivals[0].request, arrivals[0].now), limits, arrivals[1..])
  }

  // The clock does not run backwards from `since`.
  predicate Forward(arrivals: seq<Arrival>, since: U64)
    decreases |arrivals|
  {
    arrivals != [] ==> since <= arrivals[0].now && Forward(arrivals[1..], arrivals[0].now)
  }

  predicate Ordered(objects: seq<Object>) {
    forall i, j :: 0 <= i < j < |objects| ==> objects[i].sequence < objects[j].sequence
  }

  predicate UniqueIds(objects: seq<Object>) {
    forall i, j :: 0 <= i < j < |objects| ==> objects[i].route != objects[j].route || objects[i].id != objects[j].id
  }

  ghost predicate WithinQuota(objects: seq<Object>, limits: Limits) {
    && (forall route: Route :: CountIn(objects, route) <= limits.mailboxObjects && BytesIn(objects, route) <= limits.mailboxBytes)
    && BytesOf(objects) <= limits.totalBytes
  }

  // `at` is the time of the last request.
  ghost predicate RelayInv(r: Relay, limits: Limits, at: U64) {
    && Ordered(r.objects) && UniqueIds(r.objects)
    && (forall o :: o in r.objects ==> 0 < o.sequence <= r.sequence)
    && WithinQuota(r.objects, limits)
    && (forall o :: o in r.objects ==>
          0 < |o.ciphertext| <= MAX_RELAY_ENVELOPE_BYTES && o.expires <= at + MAX_RELAY_RETENTION)
  }
}
