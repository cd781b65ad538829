// When the relay serves a request, condition by condition, and what its mailbox
// then holds.
module MailboxRules {
  import opened Wrappers
  import opened Ids
  import opened Changes
  import opened MailboxState
  import opened MailboxProof

  // Signed, issued no more than five minutes from the relay's clock, and under a
  // nonce that the relay does not remember for this mailbox.
  predicate Admissible(r: Relay, request: Request, now: U64) {
    && request.authentic
    && request.issuedAt <= now + 300 && now <= request.issuedAt + 300
    && now + 301 <= I64_MAX
    && (ReplayKey(request.route, request.nonce) in r.replays ==> r.replays[ReplayKey(request.route, request.nonce)] <= now)
  }

  // From one byte to a mebibyte, alive, and for thirty days at most.
  predicate Storable(e: Envelope, now: U64) {
    0 < |e.ciphertext| && |e.ciphertext| <= 0x10_0000 && now < e.expires && e.expires <= now + 2_592_000
  }

  lemma SizeIsSum(envelopes: seq<Envelope>)
    ensures Size(envelopes) == if envelopes == [] then 0 else |envelopes[0].ciphertext| + Size(envelopes[1..])
  {}

  // A push is answered with a count exactly for one to 256 storable envelopes, of
  // four mebibytes together at most, that fit the quotas beside what has not
  // expired.
  lemma PushesExactly(r: Relay, limits: Limits, request: Request, now: U64)
    requires request.operation.Push?
    ensures var envelopes, step := request.operation.envelopes, Handle(r, limits, request, now);
            step.Step? && step.response.Changed? <==>
              && Admissible(r, request, now)
              && 0 < |envelopes| && |envelopes| <= 256 && Size(envelopes) <= 0x40_0000
              && (forall e :: e in envelopes ==> Storable(e, now) && e.expires <= I64_MAX)
              && Fits(Admitted(r, request, now), limits, request.route, envelopes)
  {
    hide Fits, InsertAll, NewObjects, Unexpired, Size;
  }

  lemma {:induction false} AllHeld(r: Relay, route: Route, envelopes: seq<Envelope>, id: ObjectId)
    ensures Holds(InsertAll(r, route, envelopes).objects, route, id) <==>
              Holds(r.objects, route, id) || exists e :: e in envelopes && e.id == id
    decreases |envelopes|
  {
    hide Insert, Holds;
    if envelopes != [] {
      InsertHolds(r, route, envelopes[0], route, id);
      AllHeld(Insert(r, route, envelopes[0]), route, envelopes[1..], id);
      assert forall e :: e in envelopes <==> e == envelopes[0] || e in envelopes[1..];
    }
  }

  // Afterwards the mailbox holds what it held and had not expired, and an object
  // under every identity pushed.
  lemma PushedIsHeld(r: Relay, limits: Limits, request: Request, now: U64, id: ObjectId)
    requires request.operation.Push?
    requires var step := Handle(r, limits, request, now); step.Step? && step.response.Changed?
    ensures var next := After(r, limits, request, now);
            Holds(next.objects, request.route, id) <==>
              || (exists o :: o in r.objects && o.route == request.route && o.id == id && o.expires > now)
              || (exists e :: e in request.operation.envelopes && e.id == id)
  {
    hide Fits, InsertAll, NewObjects, Unexpired, Verify;
    PushesExactly(r, limits, request, now);
    AdmittedFollows(r, request, now);
    AllHeld(Admitted(r, request, now), request.route, request.operation.envelopes, id);
  }

  // An object already there under the identity is left alone, and the database may
  // use up a sequence for it.
  lemma RepeatedInsertLeavesObjects(r: Relay, route: Route, e: Envelope)
    requires Holds(r.objects, route, e.id)
    ensures Insert(r, route, e).objects == r.objects
    ensures Insert(r, route, e).sequence == r.sequence + if r.burns then 1 else 0
  {}

  function NextPage(r: Relay, request: Request, now: U64): seq<Object>
    requires request.operation.Pull? && now + MAX_RELAY_CLOCK_SKEW + 1 <= U64_MAX
  {
    FirstOf(Waiting(Admitted(r, request, now).objects, request.route, request.operation.after, now), request.operation.limit)
  }

  // A pull is answered exactly within bounds and when everything on its page is
  // still storable, as everything stored is.
  lemma PullsExactly(r: Relay, limits: Limits, request: Request, now: U64)
    requires request.operation.Pull?
    ensures var step := Handle(r, limits, request, now);
            var Pull(after, limit) := request.operation;
            step.Step? && step.response.Deliveries? <==>
              && Admissible(r, request, now) && 0 < limit && limit <= 256 && after <= I64_MAX
              && forall o :: o in NextPage(r, request, now) ==> Storable(EnvelopeOf(o), now)
    ensures var step := Handle(r, limits, request, now);
            step.Step? && step.response.Deliveries? ==>
              && step.response.items == Delivered(NextPage(r, request, now))
              && After(r, limits, request, now) == Admitted(r, request, now)
  {
    hide Waiting, FirstOf, Unexpired, Delivered;
  }

  // An acknowledgement is answered exactly within bounds, with the number of
  // objects it removed, and leaves exactly the others that have not expired.
  lemma AcknowledgesExactly(r: Relay, limits: Limits, request: Request, now: U64)
    requires request.operation.Acknowledge?
    ensures var step, ids := Handle(r, limits, request, now), request.operation.ids;
            var next := After(r, limits, request, now);
            && (step.Step? && step.response.Changed? <==> Admissible(r, request, now) && 0 < |ids| && |ids| <= 256)
            && (step.Step? && step.response.Changed? ==>
                  && (forall o :: o in next.objects <==>
                        o in r.objects && o.expires > now && !(o.route == request.route && o.id in ids))
                  && step.response.count == |Admitted(r, request, now).objects| - |next.objects|
                  && next.sequence == r.sequence)
  {
    hide DropAll, Unexpired;
    if Admissible(r, request, now) {
      AdmittedFollows(r, request, now);
      forall o { DropAllMembers(Admitted(r, request, now).objects, request.route, request.operation.ids, o); }
    }
  }

  // Nothing but an admitted request changes the tables, and whatever is admitted
  // has its nonce remembered past the time it could be repeated in.
  lemma UnadmittedChangesNothing(r: Relay, limits: Limits, request: Request, now: U64)
    requires !Admissible(r, request, now)
    ensures After(r, limits, request, now) == r
  {
    hide Unexpired;
  }
}
