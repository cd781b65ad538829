// The mutable replica. Every method performs a transition of ReplicaState and
// keeps the replica invariant.
module Replica {
  import opened Wrappers
  import opened Ids
  import Clk = Clock
  import opened Changes
  import opened ReplicaState

  // Filtering a sequence of identities.
  function Pick(ids: seq<ChangeId>, keep: set<ChangeId>): (r: seq<ChangeId>)
    ensures forall x :: x in r <==> x in ids && x in keep
  {
    if ids == [] then []
    else (if ids[0] in keep then [ids[0]] else []) + Pick(ids[1..], keep)
  }

  lemma {:induction false} PickSorted(ids: seq<ChangeId>, keep: set<ChangeId>)
    requires Sorted(ids)
    ensures Sorted(Pick(ids, keep))
  {
    if ids != [] {
      PickSorted(ids[1..], keep);
      var rest := Pick(ids[1..], keep);
      forall i | 0 <= i < |rest| ensures Before(ids[0], rest[i]) {
        assert rest[i] in ids[1..];
      }
    }
  }

  lemma PickAscending(all: set<ChangeId>, keep: set<ChangeId>)
    requires keep <= all
    ensures Pick(Ascending(all), keep) == Ascending(keep)
  {
    PickSorted(Ascending(all), keep);
    AscendingUnique(Pick(Ascending(all), keep), Ascending(keep));
  }

  lemma Regroup(a: seq<ChangeId>, b: seq<ChangeId>, c: seq<ChangeId>)
    ensures a + (b + c) == a + b + c
  {}

  lemma PickStep(ids: seq<ChangeId>, i: nat, keep: set<ChangeId>, kept: seq<ChangeId>)
    requires i < |ids|
    requires kept + Pick(ids[i..], keep) == Pick(ids, keep)
    ensures (if ids[i] in keep then kept + [ids[i]] else kept) + Pick(ids[i + 1..], keep) == Pick(ids, keep)
  {
    var rest, id := ids[i..], ids[i];
    assert rest[1..] == ids[i + 1..] && rest[0] == id;
    var head := if id in keep then [id] else [];
    assert Pick(rest, keep) == head + Pick(rest[1..], keep);
    Regroup(kept, head, Pick(rest[1..], keep));
    assert id !in keep ==> kept + head == kept;
  }

  lemma {:induction false} PickShorter(ids: seq<ChangeId>, keep: set<ChangeId>)
    ensures |Pick(ids, keep)| <= |ids|
  {
    if ids != [] {
      PickShorter(ids[1..], keep);
    }
  }

  // The lazily bounded filter over the key-ordered log.
  method TakeMissing(ids: seq<ChangeId>, peer: Frontier, target: Option<Frontier>, cap: nat, ghost keep: set<ChangeId>)
    returns (kept: seq<ChangeId>)
    requires forall x :: x in ids ==>
               (x in keep <==> Missing(x, peer) && (target.Some? ==> x.counter <= Get(target.value, x.replica)))
    ensures kept == Take(Pick(ids, keep), cap)
  {
    var i := 0;
    kept := [];
    assert ids[0..] == ids;
    while i < |ids| && |kept| < cap
      invariant 0 <= i <= |ids| && |kept| <= cap
      invariant kept + Pick(ids[i..], keep) == Pick(ids, keep)
    {
      PickStep(ids, i, keep, kept);
      assert ids[i] in ids;
      if Missing(ids[i], peer) && (target.Some? ==> ids[i].counter <= Get(target.value, ids[i].replica)) {
        kept := kept + [ids[i]];
      }
      i := i + 1;
    }
    if i == |ids| {
      assert kept + [] == kept;
    }
    assert kept == Pick(ids, keep)[..|kept|];
  }

  lemma TakeChanges(changes: map<ChangeId, Change>, ids: seq<ChangeId>, cap: nat)
    requires forall x :: x in ids ==> x in changes
    ensures forall i :: 0 <= i < |ids| ==> ids[i] in changes
    ensures forall i :: 0 <= i < |Take(ids, cap)| ==> Take(ids, cap)[i] in changes
    ensures ChangesAt(changes, Take(ids, cap)) == Take(ChangesAt(changes, ids), cap)
  {
    assert forall i :: 0 <= i < |ids| ==> ids[i] in ids;
  }

  lemma MissingForLists(st: State, peer: Frontier)
    requires LogSound(st)
    ensures forall c :: c in MissingFor(st, peer) <==> Holds(st, c) && Missing(c.id, peer)
  {
    forall c ensures c in MissingFor(st, peer) <==> Holds(st, c) && Missing(c.id, peer) {
      MissingForExactly(st, peer, c);
    }
  }

  class Replica {
    const id: ReplicaId
    const space: SpaceId
    var nextCounter: U64
    const clock: Clk.Clock
    var schemas: Schemas
    var changes: map<ChangeId, Change>
    var frontier: Frontier
    var documents: map<DocumentKey, Materialized>

    function View(): State
      reads this, clock
    {
      State(id, space, nextCounter, clock.View(), schemas, changes, frontier, documents)
    }

    ghost predicate Valid()
      reads this, clock
    {
      Inv(View())
    }

    constructor (id: ReplicaId, space: SpaceId)
      ensures Valid() && fresh(clock) && View() == Fresh(id, space)
    {
      this.id, this.space, nextCounter := id, space, 0;
      clock := new Clk.Clock(id);
      schemas, changes, frontier, documents := map[], map[], map[], map[];
      new;
      FreshInv(id, space);
    }

    // The staged copy that a durable commit works on.
    constructor Clone(other: Replica)
      requires other.Valid()
      ensures Valid() && fresh(clock) && View() == other.View()
    {
      id, space, nextCounter := other.id, other.space, other.nextCounter;
      clock := new Clk.Clock.Copy(other.clock.View());
      schemas, changes, frontier, documents := other.schemas, other.changes, other.frontier, other.documents;
    }

    method Register(name: Name, schema: U64) returns (r: Result<(), Error>)
      requires Valid()
      modifies this`schemas
      ensures Valid()
      ensures match RegisterSchema(old(View()), name, schema)
              case Ok(next) => r == Ok(()) && View() == next && Registered(schemas, name, schema)
              case Err(e) => r == Err(e) && View() == old(View())
    {
      ghost var before := View();
      if !ValidName(name) {
        return Err(BadCollection);
      }
      RegisterInv(View(), name, schema);
      schemas := schemas[name := (if name in schemas then schemas[name] else {}) + {schema}];
      r := Ok(());
    }

    // A local write is retained under an identity never seen before, at a time
    // no earlier than anything retained, and wins its document unless outranked.
    method AuthorChange(op: Operation, now: U64) returns (r: Result<Change, Error>)
      requires Valid()
      modifies this`nextCounter, this`changes, this`frontier, this`documents, clock
      ensures Valid()
      ensures match Author(old(View()), op, now)
              case Ok(authored) => r == Ok(authored.change) && View() == authored.state
              case Err(e) => r == Err(e) && View() == old(View())
      ensures r.Ok? ==> r.value.id !in old(changes) && changes == old(changes)[r.value.id := r.value]
      ensures r.Ok? && !old(Outranked(View(), op, now)) ==> documents == old(documents)[KeyOf(op) := Candidate(r.value)]
    {
      hide Retain, Clk.Tick, Outranked, LogSound, DocumentsExact, ClockDominates, CounterExact;
      ghost var before := View();
      var invalid := OperationError(schemas, op);
      if invalid.Some? {
        return Err(invalid.value);
      }
      if nextCounter == U64_MAX {
        return Err(CounterExhausted);
      }
      AuthorInv(before, op, now);
      LocalWriteWins(before, op, now);
      var counter: U64 := nextCounter + 1;
      var timestamp := clock.TickAt(now);
      var change := Change(Id(id, counter), space, timestamp, op);
      nextCounter := counter;
      var visible := ApplyValidated(change);
      r := Ok(change);
    }

    method ApplyChange(change: Change, now: U64) returns (r: Result<Apply, Error>)
      requires Valid()
      modifies this`nextCounter, this`changes, this`frontier, this`documents, clock
      ensures Valid()
      ensures match Receive(old(View()), change, now)
              case Ok(received) => r == Ok(received.apply) && View() == received.state
              case Err(e) => r == Err(e) && View() == old(View())
      ensures r.Ok? <==> Acceptable(space, schemas, change)
                         && (change.id in old(changes) ==> old(changes)[change.id] == change)
      ensures r.Ok? ==> changes == old(changes)[change.id := change]
    {
      hide LogSound, DocumentsExact, Contiguous, CounterExact, ClockDominates, Retain, Clk.Observe;
      ghost var before := View();
      ReceiveExactly(before, change, now);
      var invalid := ChangeError(View(), change);
      if invalid.Some? {
        return Err(invalid.value);
      }
      if change.id in changes {
        if changes[change.id] == change {
          assert changes == changes[change.id := change];
          return Ok(Duplicate);
        }
        return Err(Collision(change.id));
      }
      ReceiveInv(before, change, now);
      clock.ObserveAt(change.timestamp, now);
      var visible := ApplyValidated(change);
      r := Ok(Applied(visible));
    }

    method ApplyValidated(change: Change) returns (visible: bool)
      requires Contiguous(frontier, changes.Keys) && change.id.counter != 0
      modifies this`nextCounter, this`changes, this`frontier, this`documents
      ensures View() == Retain(old(View()), change)
      ensures visible == Wins(old(documents), change)
    {
      var key := KeyOf(change.operation);
      visible := key !in documents
                 || Later(change.timestamp, change.id, documents[key].timestamp, documents[key].change);
      if visible {
        documents := documents[key := Candidate(change)];
      }
      var author := change.id.replica;
      if author == id {
        nextCounter := Clk.Larger(nextCounter, change.id.counter);
      }
      changes := changes[change.id := change];
      AdvanceFrontier(author);
    }

    method AdvanceFrontier(author: ReplicaId)
      modifies this`frontier
      ensures frontier == Set(old(frontier), author, RunEnd(changes.Keys, author, Get(old(frontier), author)))
    {
      var counter: U64 := Get(frontier, author);
      while counter < U64_MAX && Id(author, counter + 1) in changes
        invariant RunEnd(changes.Keys, author, counter) == RunEnd(changes.Keys, author, Get(frontier, author))
        decreases U64_MAX - counter
      {
        counter := counter + 1;
      }
      frontier := Set(frontier, author, counter);
    }

    // Exactly the retained changes beyond the peer's frontier, in key order.
    method MissingForPeer(peer: Frontier) returns (r: seq<Change>)
      ensures r == MissingFor(View(), peer)
      ensures LogSound(View()) ==> forall c :: c in r <==> Holds(View(), c) && Missing(c.id, peer)
    {
      var ids := Ascending(changes.Keys);
      ghost var keep := set x | x in changes && Missing(x, peer);
      var kept := TakeMissing(ids, peer, None, |ids|, keep);
      PickAscending(changes.Keys, keep);
      PickShorter(ids, keep);
      ghost var st := View();
      assert kept == MissingIds(st, peer);
      assert forall j :: 0 <= j < |kept| ==> kept[j] in kept;
      r := ChangesAt(changes, kept);
      assert r == MissingFor(st, peer);
      if LogSound(st) {
        MissingForLists(st, peer);
      }
    }

    // One page toward a fixed target: the least missing changes, at most
    // `limit` of them, and whether more remain.
    method MissingPage(peer: Frontier, target: Frontier, limit: U64) returns (page: Page)
      ensures page == MissingForTarget(View(), peer, target, limit)
    {
      var ids := Ascending(changes.Keys);
      var cap := if limit == U64_MAX then limit else limit + 1;
      ghost var keep := Gap(changes.Keys, peer, target);
      var kept := TakeMissing(ids, peer, Some(target), cap, keep);
      assert Pick(ids, keep) == Ascending(keep) by {
        PickAscending(changes.Keys, keep);
      }
      TakeChanges(changes, Ascending(keep), cap);
      var taken := ChangesAt(changes, kept);
      page := Page(Take(taken, limit), |taken| > limit);
    }
  }
}
