// The relay's store as an object. A request runs on a staged copy of the
// tables, which replaces them when the request commits.
module Mailbox {
  import opened Wrappers
  import opened Ids
  import opened Changes
  import opened MailboxState
  import Proof = MailboxProof

  class Transaction {
    var tables: Relay

    constructor (tables: Relay)
      ensures this.tables == tables
    {
      this.tables := tables;
    }

    // Counts what is new, row by row, before anything is written.
    method CountNew(route: Route, envelopes: seq<Envelope>) returns (objects: nat, bytes: nat)
      ensures objects == NewObjects(tables.objects, route, envelopes)
      ensures bytes == NewBytes(tables.objects, route, envelopes)
    {
      objects, bytes := 0, 0;
      var i := 0;
      assert envelopes[0..] == envelopes;
      while i < |envelopes|
        invariant 0 <= i <= |envelopes|
        invariant objects + NewObjects(tables.objects, route, envelopes[i..]) == NewObjects(tables.objects, route, envelopes)
        invariant bytes + NewBytes(tables.objects, route, envelopes[i..]) == NewBytes(tables.objects, route, envelopes)
      {
        assert envelopes[i..][0] == envelopes[i] && envelopes[i..][1..] == envelopes[i + 1..];
        if !Holds(tables.objects, route, envelopes[i].id) {
          objects := objects + 1;
          bytes := bytes + |envelopes[i].ciphertext|;
        }
        i := i + 1;
      }
    }

    method InsertNew(route: Route, envelopes: seq<Envelope>) returns (ok: bool)
      modifies this
      ensures ok <==> forall e :: e in envelopes ==> e.expires <= I64_MAX
      ensures ok ==> tables == InsertAll(old(tables), route, envelopes)
    {
      var i := 0;
      assert envelopes[0..] == envelopes;
      while i < |envelopes|
        invariant 0 <= i <= |envelopes|
        invariant forall j :: 0 <= j < i ==> envelopes[j].expires <= I64_MAX
        invariant InsertAll(tables, route, envelopes[i..]) == InsertAll(old(tables), route, envelopes)
      {
        assert envelopes[i..][0] == envelopes[i] && envelopes[i..][1..] == envelopes[i + 1..];
        var e := envelopes[i];
        if e.expires > I64_MAX {
          assert e in envelopes;
          return false;
        }
        if Holds(tables.objects, route, e.id) {
          tables := tables.(sequence := if tables.burns then tables.sequence + 1 else tables.sequence);
        } else {
          var sequence := tables.sequence + 1;
          tables := tables.(objects := tables.objects + [Object(sequence, route, e.id, e.expires, e.ciphertext)], sequence := sequence);
        }
        i := i + 1;
      }
      ok := true;
    }

    // What was deleted is counted id by id.
    method DeleteEach(route: Route, ids: seq<ObjectId>) returns (changed: nat)
      modifies this
      ensures tables == old(tables).(objects := DropAll(old(tables).objects, route, ids))
      ensures changed == |old(tables).objects| - |tables.objects|
    {
      changed := 0;
      var i := 0;
      assert ids[0..] == ids;
      while i < |ids|
        invariant 0 <= i <= |ids|
        invariant tables == old(tables).(objects := tables.objects)
        invariant DropAll(tables.objects, route, ids[i..]) == DropAll(old(tables).objects, route, ids)
        invariant changed + |tables.objects| == |old(tables).objects|
      {
        assert ids[i..][0] == ids[i] && ids[i..][1..] == ids[i + 1..];
        var left := Drop(tables.objects, route, ids[i]);
        SelectShortens(tables.objects, (o: Object) => o.route != route || o.id != ids[i]);
        changed := changed + (|tables.objects| - |left|);
        tables := tables.(objects := left);
        i := i + 1;
      }
    }
  }

  class RelayStore {
    const limits: Limits
    var tables: Relay

    constructor (limits: Limits, burns: bool)
      ensures this.limits == limits && tables == EmptyRelay(burns)
    {
      this.limits := limits;
      tables := EmptyRelay(burns);
    }

    // The response, or none when the service could not complete the request;
    // the quotas hold afterwards if they held before.
    method HandleRequest(request: Request, now: U64) returns (r: Option<Response>)
      modifies this
      ensures tables == After(old(tables), limits, request, now)
      ensures match Handle(old(tables), limits, request, now)
              case Step(_, response) => r == Some(response)
              case Unavailable => r == None
      ensures forall at: U64 :: at <= now && RelayInv(old(tables), limits, at) ==> RelayInv(tables, limits, now)
    {
      hide RelayInv, Verify, InsertAll, DropAll, Fits, Waiting;
      forall at: U64 | at <= now && RelayInv(tables, limits, at)
        ensures RelayInv(After(tables, limits, request, now), limits, now)
      {
        Proof.RequestKeepsInv(tables, limits, request, at, now);
      }
      var refused := Verify(request, now);
      if refused.Some? {
        return Some(Rejected(refused.value));
      }
      if now > I64_MAX || now + MAX_RELAY_CLOCK_SKEW + 1 > I64_MAX {
        return None;
      }
      var transaction := new Transaction(Purge(tables, now));
      var key := ReplayKey(request.route, request.nonce);
      if key in transaction.tables.replays {
        return Some(Rejected(Unauthorized));
      }
      transaction.tables := transaction.tables.(replays := transaction.tables.replays[key := now + MAX_RELAY_CLOCK_SKEW + 1]);
      match request.operation {
        case Push(envelopes) =>
          var response := PushInto(transaction, request.route, envelopes);
          if response.None? {
            return None;
          }
          r := response;
        case Pull(after, limit) =>
          var step := ApplyPull(transaction.tables, request.route, after, limit, now);
          if step.Unavailable? {
            return None;
          }
          r := Some(step.response);
        case Acknowledge(ids) =>
          var changed := transaction.DeleteEach(request.route, ids);
          r := Some(Changed(changed));
      }
      tables := transaction.tables;
    }

    method PushInto(transaction: Transaction, route: Route, envelopes: seq<Envelope>) returns (r: Option<Response>)
      modifies transaction
      ensures match ApplyPush(old(transaction.tables), limits, route, envelopes)
              case Step(next, response) => r == Some(response) && transaction.tables == next
              case Unavailable => r == None
    {
      var staged := transaction.tables;
      var objects, bytes := transaction.CountNew(route, envelopes);
      if CountIn(staged.objects, route) + objects > limits.mailboxObjects
         || BytesIn(staged.objects, route) + bytes > limits.mailboxBytes
         || BytesOf(staged.objects) + bytes > limits.totalBytes
      {
        return Some(Rejected(LimitExceeded));
      }
      var ok := transaction.InsertNew(route, envelopes);
      r := if ok then Some(Changed(objects)) else None;
    }
  }
}
