// Convergence of the simulated network: once the queue is empty, each replica
// holds exactly what it held and what was on its way to it.
module Convergence {
  import opened Wrappers
  import opened Ids
  import opened Changes
  import opened ReplicaState
  import Net = SimulatorState
  import opened SimulatorState

  // ---- what the network does on its own ----

  function Moves(w: World, steps: seq<TransportStep>): World
    decreases |steps|
  {
    if steps == [] then w else Moves(Move(w, steps[0]), steps[1..])
  }

  type Pool = map<ChangeId, Change>

  predicate InFlight(queue: seq<Envelope>, to: ReplicaId, c: Change) {
    exists e :: e in queue && e.to == to && e.change == c
  }

  ghost predicate Accepts(st: State, pool: Pool) {
    forall id :: id in pool ==> pool[id].id == id && Acceptable(st.space, st.schemas, pool[id])
  }

  // A replica on its way to holding exactly the pool: it holds nothing else,
  // is sent nothing else, and what it lacks is in flight.
  ghost predicate Draining(w: World, r: ReplicaId, pool: Pool) {
    && r in w.replicas && Inv(w.replicas[r]) && Accepts(w.replicas[r], pool)
    && (forall id :: id in w.replicas[r].changes ==> id in pool && pool[id] == w.replicas[r].changes[id])
    && (forall e :: e in w.queue && e.to == r ==> e.change.id in pool && pool[e.change.id] == e.change)
    && (forall id :: id in pool ==> id in w.replicas[r].changes || InFlight(w.queue, r, pool[id]))
  }

  lemma SameQueueDrains(w: World, w': World, r: ReplicaId, pool: Pool)
    requires Draining(w, r, pool) && w'.replicas == w.replicas
    requires forall e :: e in w'.queue <==> e in w.queue
    ensures Draining(w', r, pool)
  {
    hide Inv, Accepts;
    forall c | InFlight(w.queue, r, c) ensures InFlight(w'.queue, r, c) {}
  }

  lemma DeliverDrains(w: World, index: nat, now: U64, r: ReplicaId, pool: Pool)
    requires Draining(w, r, pool)
    ensures Draining(Net.Deliver(w, index, now).0, r, pool)
  {
    hide Inv, Receive, Without, Acceptable;
    if index < |w.queue| && Pair(w.queue[index].from, w.queue[index].to) !in w.partitions {
      var e, rest, w' := w.queue[index], Without(w.queue, index), Net.Deliver(w, index, now).0;
      WithoutMembers(w.queue, index);
      assert e in w.queue;
      if e.to == r {
        ReceiveExactly(w.replicas[r], e.change, now);
        ReceiveInv(w.replicas[r], e.change, now);
      }
      forall c | InFlight(w.queue, r, c) && c != e.change ensures InFlight(rest, r, c) {}
      if e.to != r {
        forall c | InFlight(w.queue, r, c) ensures InFlight(rest, r, c) {}
      }
    }
  }

  lemma MoveDrains(w: World, step: TransportStep, r: ReplicaId, pool: Pool)
    requires Draining(w, r, pool)
    ensures Draining(Move(w, step), r, pool)
  {
    hide Draining, Net.Deliver;
    match step {
      case Hand(index, now) => DeliverDrains(w, index, now, r, pool);
      case Shuffle(order) =>
        if Permutes(order, |w.queue|) { ShuffleMembers(w.queue, order); }
        SameQueueDrains(w, Move(w, step), r, pool);
      case _ => SameQueueDrains(w, Move(w, step), r, pool);
    }
  }

  lemma {:induction false} MovesDrain(w: World, steps: seq<TransportStep>, r: ReplicaId, pool: Pool)
    requires Draining(w, r, pool)
    ensures Draining(Moves(w, steps), r, pool)
    decreases |steps|
  {
    hide Draining, Move;
    if steps != [] {
      MoveDrains(w, steps[0], r, pool);
      MovesDrain(Move(w, steps[0]), steps[1..], r, pool);
    }
  }

  lemma Drained(w: World, r: ReplicaId, pool: Pool)
    requires Draining(w, r, pool) && w.queue == []
    ensures w.replicas[r].changes == pool
  {
    hide Inv, Accepts;
  }

  // ---- what a replica is bound to hold ----

  function ArrivingIds(queue: seq<Envelope>, to: ReplicaId): set<ChangeId> {
    set e | e in queue && e.to == to :: e.change.id
  }

  // What the replica holds or has coming under this identity.
  ghost function ContentFor(w: World, r: ReplicaId, id: ChangeId): (c: Change)
    requires r in w.replicas && (id in w.replicas[r].changes || id in ArrivingIds(w.queue, r))
    ensures id in w.replicas[r].changes ==> c == w.replicas[r].changes[id]
    ensures id !in w.replicas[r].changes ==> c.id == id && InFlight(w.queue, r, c)
  {
    if id in w.replicas[r].changes then w.replicas[r].changes[id]
    else
      var e :| e in w.queue && e.to == r && e.change.id == id;
      e.change
  }

  // What it holds and what is on its way to it.
  ghost function Bound(w: World, r: ReplicaId): Pool
    requires r in w.replicas
  {
    map id | id in w.replicas[r].changes.Keys + ArrivingIds(w.queue, r) :: ContentFor(w, r, id)
  }

  // The replica accepts all of it.
  ghost predicate Willing(w: World, r: ReplicaId) {
    r in w.replicas && Accepts(w.replicas[r], Bound(w, r))
  }

  lemma BoundIsGenuine(w: World, r: ReplicaId, id: ChangeId)
    requires WorldInv(w) && r in w.replicas && id in Bound(w, r)
    ensures Bound(w, r)[id].id == id && Genuine(w, Bound(w, r)[id])
  {
    hide WorldInv, Genuine;
    if id in w.replicas[r].changes {
      HeldIsGenuine(w, r, id);
    } else {
      var e :| e in w.queue && e.to == r && e.change == Bound(w, r)[id];
      QueuedIsGenuine(w, e);
    }
  }

  // Under one identity all are bound to hold the same change.
  lemma BoundsAgree(w: World, r: ReplicaId, q: ReplicaId, id: ChangeId)
    requires WorldInv(w) && r in w.replicas && q in w.replicas && id in Bound(w, r) && id in Bound(w, q)
    ensures Bound(w, r)[id] == Bound(w, q)[id]
  {
    hide WorldInv, Bound;
    BoundIsGenuine(w, r, id);
    BoundIsGenuine(w, q, id);
  }

  lemma SameBound(w: World, r: ReplicaId, q: ReplicaId)
    requires WorldInv(w) && r in w.replicas && q in w.replicas
    ensures Bound(w, r) == Bound(w, q) <==> Bound(w, r).Keys == Bound(w, q).Keys
  {
    hide WorldInv, Bound;
    if Bound(w, r).Keys == Bound(w, q).Keys {
      forall id | id in Bound(w, r) ensures Bound(w, r)[id] == Bound(w, q)[id] {
        assert id in Bound(w, r).Keys;
        BoundsAgree(w, r, q, id);
      }
    }
  }

  lemma BoundDrains(w: World, r: ReplicaId)
    requires WorldInv(w) && Willing(w, r)
    ensures Draining(w, r, Bound(w, r))
  {
    hide WorldInv, Inv, Accepts, Genuine;
    ReplicaSound(w, r);
    forall e | e in w.queue && e.to == r ensures e.change.id in Bound(w, r) && Bound(w, r)[e.change.id] == e.change {
      BoundIsGenuine(w, r, e.change.id);
      QueuedIsGenuine(w, e);
      SameGenuine(w, Bound(w, r)[e.change.id], e.change);
    }
  }

  lemma SameGenuine(w: World, c: Change, d: Change)
    requires Genuine(w, c) && Genuine(w, d) && c.id == d.id
    ensures c == d
  {}

  // However the network hands over its queue, with repetition, reordering and
  // partitions on the way: when the queue is empty, every willing replica holds
  // exactly what it was bound to hold.
  lemma EmptiedQueueDelivers(w: World, r: ReplicaId, steps: seq<TransportStep>)
    requires WorldInv(w) && Willing(w, r) && Moves(w, steps).queue == []
    ensures r in Moves(w, steps).replicas && Inv(Moves(w, steps).replicas[r])
    ensures Moves(w, steps).replicas[r].changes == Bound(w, r)
  {
    hide WorldInv, Moves, Bound, Willing, Inv, Accepts;
    BoundDrains(w, r);
    MovesDrain(w, steps, r, Bound(w, r));
    Drained(Moves(w, steps), r, Bound(w, r));
  }

  // Two replicas end alike if and only if they were bound to hold the same.
  lemma AgreeExactly(w: World, r: ReplicaId, q: ReplicaId, steps: seq<TransportStep>)
    requires WorldInv(w) && Willing(w, r) && Willing(w, q) && Moves(w, steps).queue == []
    ensures var done := Moves(w, steps).replicas;
            && r in done && q in done
            && (done[r].changes == done[q].changes <==> Bound(w, r).Keys == Bound(w, q).Keys)
            && (done[r].changes == done[q].changes ==>
                  done[r].documents == done[q].documents && done[r].frontier == done[q].frontier)
  {
    hide WorldInv, Moves, Bound, Inv, Accepts;
    EmptiedQueueDelivers(w, r, steps);
    EmptiedQueueDelivers(w, q, steps);
    SameBound(w, r, q);
    var done := Moves(w, steps).replicas;
    if done[r].changes == done[q].changes {
      ChangesDetermineView(done[r], done[q]);
    }
  }

  // Such a hand-over exists from everywhere: mend the link of the first
  // envelope, hand it over, and go on.
  lemma {:induction false} CanDeliverAll(w: World, now: U64) returns (steps: seq<TransportStep>)
    ensures Moves(w, steps).queue == []
    decreases |w.queue|
  {
    hide Receive;
    if w.queue == [] {
      steps := [];
    } else {
      var e := w.queue[0];
      var mended := Move(w, Mend(e.from, e.to));
      HandOverShortens(mended, now);
      var next := Move(mended, Hand(0, now));
      var rest := CanDeliverAll(next, now);
      steps := [Mend(e.from, e.to), Hand(0, now)] + rest;
      assert steps[1..] == [Hand(0, now)] + rest && steps[1..][1..] == rest;
      assert Moves(w, steps) == Moves(mended, steps[1..]) == Moves(next, rest);
    }
  }

  lemma HandOverShortens(w: World, now: U64)
    requires w.queue != [] && Pair(w.queue[0].from, w.queue[0].to) !in w.partitions
    ensures |Net.Deliver(w, 0, now).0.queue| == |w.queue| - 1
  {
    hide Receive;
  }

  // ---- reconciling ----

  lemma LackedIsSent(sender: State, receiver: State, from: ReplicaId, to: ReplicaId, id: ChangeId, queue: seq<Envelope>)
    requires Inv(sender) && Inv(receiver) && id in sender.changes && id !in receiver.changes
    requires forall e :: e in Addressed(from, to, MissingFor(sender, receiver.frontier)) ==> e in queue
    ensures InFlight(queue, to, sender.changes[id])
  {
    hide MissingFor, DocumentsExact, CounterExact, ClockDominates;
    if !Missing(id, receiver.frontier) {
      HeldWithinFrontier(receiver, id);
    }
    MissingForExactly(sender, receiver.frontier, sender.changes[id]);
    assert Envelope(from, to, sender.changes[id]) in Addressed(from, to, MissingFor(sender, receiver.frontier));
  }

  lemma SentFromLog(sender: State, receiver: State, c: Change)
    requires Inv(sender) && c in MissingFor(sender, receiver.frontier)
    ensures Holds(sender, c)
  {
    hide MissingFor, DocumentsExact, Contiguous, CounterExact, ClockDominates;
    MissingForExactly(sender, receiver.frontier, c);
  }

  function Reconciled(w: World, r: ReplicaId, q: ReplicaId): World {
    Reconcile(Reconcile(Heal(w, r, q), r, q).0, q, r).0
  }

  lemma ReconciledKeepsWorld(w: World, r: ReplicaId, q: ReplicaId)
    requires WorldInv(w)
    ensures WorldInv(Reconciled(w, r, q))
  {
    hide WorldInv, Reconcile;
    MoveKeepsWorld(w, Mend(r, q));
    ActKeepsWorld(Heal(w, r, q), Sync(r, q));
    ActKeepsWorld(Reconcile(Heal(w, r, q), r, q).0, Sync(q, r));
  }

  lemma ReconciledQueue(w: World, r: ReplicaId, q: ReplicaId)
    requires r in w.replicas && q in w.replicas
    ensures Reconciled(w, r, q).replicas == w.replicas
    ensures var there, back := Addressed(r, q, MissingFor(w.replicas[r], w.replicas[q].frontier)),
                               Addressed(q, r, MissingFor(w.replicas[q], w.replicas[r].frontier));
            forall e :: e in Reconciled(w, r, q).queue <==> e in w.queue || e in there || e in back
  {
    hide MissingFor, Addressed;
  }

  // Reconciling makes each bound to hold both logs, and what was on its way.
  lemma ReconciledBound(w: World, r: ReplicaId, q: ReplicaId)
    requires WorldInv(w) && r in w.replicas && q in w.replicas && r != q
    ensures Reconciled(w, r, q).replicas == w.replicas
    ensures Bound(Reconciled(w, r, q), r).Keys
         == w.replicas[r].changes.Keys + w.replicas[q].changes.Keys + ArrivingIds(w.queue, r)
    ensures Bound(Reconciled(w, r, q), q).Keys
         == w.replicas[r].changes.Keys + w.replicas[q].changes.Keys + ArrivingIds(w.queue, q)
  {
    hide WorldInv, Inv, MissingFor, Addressed, Reconciled;
    var w', x, y := Reconciled(w, r, q), w.replicas[r], w.replicas[q];
    ReconciledQueue(w, r, q);
    ReplicaSound(w, r);
    ReplicaSound(w, q);
    ArrivingAfter(x, y, r, q, w.queue, w'.queue);
    ArrivingAfter(y, x, q, r, w.queue, w'.queue);
  }

  // What a sender addresses to a receiver, beside what was queued.
  lemma ArrivingAfter(sender: State, receiver: State, from: ReplicaId, to: ReplicaId, before: seq<Envelope>, after: seq<Envelope>)
    requires Inv(sender) && Inv(receiver) && from != to
    requires forall e :: e in Addressed(from, to, MissingFor(sender, receiver.frontier)) ==> e in after
    requires forall e :: e in before ==> e in after
    requires forall e :: e in after && e.to == to ==> e in before || e in Addressed(from, to, MissingFor(sender, receiver.frontier))
    ensures receiver.changes.Keys + ArrivingIds(after, to)
         == receiver.changes.Keys + sender.changes.Keys + ArrivingIds(before, to)
  {
    hide Inv, MissingFor, Addressed;
    forall id | id in ArrivingIds(after, to) ensures id in sender.changes || id in ArrivingIds(before, to) {
      var e :| e in after && e.to == to && e.change.id == id;
      if e !in before {
        AddressedFrom(from, to, MissingFor(sender, receiver.frontier), e);
        SentFromLog(sender, receiver, e.change);
      }
    }
    forall id | id in sender.changes && id !in receiver.changes ensures id in ArrivingIds(after, to) {
      LackedIsSent(sender, receiver, from, to, id, after);
      KeyedById(sender, id);
      var e :| e in after && e.to == to && e.change == sender.changes[id];
    }
  }

  lemma AddressedFrom(from: ReplicaId, to: ReplicaId, changes: seq<Change>, e: Envelope)
    requires e in Addressed(from, to, changes)
    ensures e.from == from && e.to == to && e.change in changes
  {
    hide Addressed;
  }

  // Whatever third parties have under way to one of the two is under way to
  // both, or held by one of them.
  ghost predicate NothingOneSided(w: World, r: ReplicaId, q: ReplicaId)
    requires r in w.replicas && q in w.replicas
  {
    forall e :: e in w.queue && (e.to == r || e.to == q) ==>
      || e.change.id in w.replicas[r].changes
      || e.change.id in w.replicas[q].changes
      || (e.change.id in ArrivingIds(w.queue, r) && e.change.id in ArrivingIds(w.queue, q))
  }

  // Heal, reconcile both ways, and let the network hand over everything, in any
  // order and with any repetition. Two willing replicas of any network then
  // agree if and only if nothing was under way to only one of them.
  lemma HealedPairConverges(w: World, r: ReplicaId, q: ReplicaId, steps: seq<TransportStep>)
    requires WorldInv(w) && r in w.replicas && q in w.replicas && r != q
    requires var start := Reconciled(w, r, q);
             Willing(start, r) && Willing(start, q) && Moves(start, steps).queue == []
    ensures var done := Moves(Reconciled(w, r, q), steps).replicas;
            && r in done && q in done
            && (done[r].changes == done[q].changes <==> NothingOneSided(w, r, q))
            && (NothingOneSided(w, r, q) ==>
                  done[r].documents == done[q].documents && done[r].frontier == done[q].frontier)
  {
    hide WorldInv, Moves, Bound, Reconciled, Willing;
    var start := Reconciled(w, r, q);
    ReconciledKeepsWorld(w, r, q);
    ReconciledBound(w, r, q);
    AgreeExactly(start, r, q, steps);
    OneSidedExactly(w, r, q);
  }

  lemma OneSidedExactly(w: World, r: ReplicaId, q: ReplicaId)
    requires r in w.replicas && q in w.replicas
    ensures var logs := w.replicas[r].changes.Keys + w.replicas[q].changes.Keys;
            logs + ArrivingIds(w.queue, r) == logs + ArrivingIds(w.queue, q) <==> NothingOneSided(w, r, q)
  {
    var logs := w.replicas[r].changes.Keys + w.replicas[q].changes.Keys;
    if logs + ArrivingIds(w.queue, r) == logs + ArrivingIds(w.queue, q) {
      forall e | e in w.queue && (e.to == r || e.to == q)
        ensures e.change.id in logs || (e.change.id in ArrivingIds(w.queue, r) && e.change.id in ArrivingIds(w.queue, q))
      {
        assert e.change.id in logs + ArrivingIds(w.queue, r) || e.change.id in logs + ArrivingIds(w.queue, q);
      }
    }
  }

  // With a third party it can be: replica 3 has sent its change to 1 only when 1
  // and 2 reconcile.
  lemma ThirdPartyDivides()
    ensures exists actions: seq<Action>, steps: seq<TransportStep> ::
              && LegalRun(EmptyWorld(), actions)
              && 1 in Net.Run(EmptyWorld(), actions).replicas && 2 in Net.Run(EmptyWorld(), actions).replicas
              && var end := Moves(Reconciled(Net.Run(EmptyWorld(), actions), 1, 2), steps);
                 end.queue == [] && 1 in end.replicas && 2 in end.replicas && end.replicas[1].changes != end.replicas[2].changes
  {
    var actions, c := ThirdPartyRun();
    var w := Net.Run(EmptyWorld(), actions);
    hide LegalRun, Net.Run, WorldInv, Moves, Reconciled, Bound, Acceptable;
    NothingYet();
    RunKeepsWorld(EmptyWorld(), actions);
    var start := Reconciled(w, 1, 2);
    ReconciledKeepsWorld(w, 1, 2);
    ReconciledBound(w, 1, 2);
    OnlyAccepts(start, 1, c);
    OnlyAccepts(start, 2, c);
    var steps := CanDeliverAll(start, 0);
    HealedPairConverges(w, 1, 2, steps);
  }

  // Bound to hold nothing but this one change, and accepting it.
  lemma OnlyAccepts(w: World, r: ReplicaId, c: Change)
    requires WorldInv(w) && r in w.replicas && Bound(w, r).Keys <= {c.id} && Genuine(w, c)
    requires Bound(w, r) != map[] ==> Acceptable(w.replicas[r].space, w.replicas[r].schemas, c)
    ensures Willing(w, r)
  {
    hide WorldInv, Genuine, Bound, Acceptable;
    forall id | id in Bound(w, r) ensures Bound(w, r)[id] == c {
      assert id in Bound(w, r).Keys;
      BoundIsGenuine(w, r, id);
      SameGenuine(w, Bound(w, r)[id], c);
    }
    forall id | id in Bound(w, r) ensures Bound(w, r)[id].id == id {
      assert id in Bound(w, r).Keys;
    }
  }

  const NOTES: Name := [1]
  const NOTE := Operation.Put(NOTES, 9, 7, [])

  // Replica 3 opens a collection and writes its first change.
  lemma ThirdWrites() returns (ready: State, author: State, sender: State, c: Change)
    ensures ready == Work(Fresh(1, 0), Accept(NOTES, 7))
    ensures author == Work(Fresh(3, 0), Accept(NOTES, 7)) && sender == Work(author, LocalStep.Author(NOTE, 0))
    ensures ready.changes == map[] && Acceptable(ready.space, ready.schemas, c)
    ensures Inv(sender) && sender.changes == map[c.id := c] && c.id == Id(3, 1)
    ensures ready.frontier == map[]
  {
    hide Contiguous, DocumentsExact;
    FreshInv(3, 0);
    RegisterInv(Fresh(3, 0), NOTES, 7);
    ready, author := Work(Fresh(1, 0), Accept(NOTES, 7)), Work(Fresh(3, 0), Accept(NOTES, 7));
    assert ReplicaState.Author(author, NOTE, 0).Ok?;
    AuthorInv(author, NOTE, 0);
    sender, c := ReplicaState.Author(author, NOTE, 0).value.state, ReplicaState.Author(author, NOTE, 0).value.change;
  }

  lemma ThirdPartyRun() returns (actions: seq<Action>, c: Change)
    ensures LegalRun(EmptyWorld(), actions)
    ensures var w := Net.Run(EmptyWorld(), actions);
            && w.replicas.Keys == {1, 2, 3} && Genuine(w, c)
            && w.replicas[1].changes == map[] && w.replicas[2].changes == map[]
            && Acceptable(w.replicas[1].space, w.replicas[1].schemas, c)
            && (forall e :: e in w.queue ==> e.to == 1 && e.change == c)
            && InFlight(w.queue, 1, c)
  {
    var ready, author, sender;
    ready, author, sender, c := ThirdWrites();
    hide MissingFor, Addressed, LegalRun, Net.Run, Inv, Acceptable, Work;
    var one, two, three := Fresh(1, 0), Fresh(2, 0), Fresh(3, 0);
    var queue := Addressed(3, 1, MissingFor(sender, ready.frontier));
    OnlySends(sender, ready.frontier, c);
    var w1 := World(map[1 := one], [], {});
    var w2 := World(map[1 := one, 2 := two], [], {});
    var w3 := World(map[1 := one, 2 := two, 3 := three], [], {});
    var w4 := World(map[1 := ready, 2 := two, 3 := three], [], {});
    var w5 := World(map[1 := ready, 2 := two, 3 := author], [], {});
    var w6 := World(map[1 := ready, 2 := two, 3 := sender], [], {});
    var w7 := World(w6.replicas, queue, {});
    actions := [];
    Ends(w7);
    actions := RunStep(w6, Sync(3, 1), w7, actions);
    actions := RunStep(w5, Local(3, LocalStep.Author(NOTE, 0)), w6, actions);
    actions := RunStep(w4, Local(3, Accept(NOTES, 7)), w5, actions);
    actions := RunStep(w3, Local(1, Accept(NOTES, 7)), w4, actions);
    actions := RunStep(w2, Join(3, 0), w3, actions);
    actions := RunStep(w1, Join(2, 0), w2, actions);
    actions := RunStep(EmptyWorld(), Join(1, 0), w1, actions);
  }

  lemma OnlySends(sender: State, peer: Frontier, c: Change)
    requires Inv(sender) && sender.changes == map[c.id := c] && c.id == Id(3, 1) && peer == map[]
    ensures forall e :: e in Addressed(3, 1, MissingFor(sender, peer)) ==> e.to == 1 && e.change == c
    ensures InFlight(Addressed(3, 1, MissingFor(sender, peer)), 1, c)
  {
    hide MissingFor, DocumentsExact, Contiguous, CounterExact, ClockDominates;
    MissingForExactly(sender, peer, c);
    forall e | e in Addressed(3, 1, MissingFor(sender, peer)) ensures e.to == 1 && e.change == c {
      MissingForExactly(sender, peer, e.change);
    }
    assert Envelope(3, 1, c) in Addressed(3, 1, MissingFor(sender, peer));
  }

  lemma Ends(w: World)
    ensures LegalRun(w, []) && Net.Run(w, []) == w
  {}

  lemma RunStep(w: World, a: Action, next: World, rest: seq<Action>) returns (actions: seq<Action>)
    requires Legal(w, a) && Act(w, a) == next && LegalRun(next, rest)
    ensures actions == [a] + rest && LegalRun(w, actions) && Net.Run(w, actions) == Net.Run(next, rest)
  {
    hide Legal, Act;
    actions := [a] + rest;
    assert actions[1..] == rest;
  }

  // In a network of two nothing is ever one-sided, so every run converges.
  lemma EveryPairRunConverges(actions: seq<Action>, r: ReplicaId, q: ReplicaId, steps: seq<TransportStep>)
    requires LegalRun(EmptyWorld(), actions) && r != q && Net.Run(EmptyWorld(), actions).replicas.Keys == {r, q}
    requires var start := Reconciled(Net.Run(EmptyWorld(), actions), r, q);
             Willing(start, r) && Willing(start, q) && Moves(start, steps).queue == []
    ensures var done := Moves(Reconciled(Net.Run(EmptyWorld(), actions), r, q), steps).replicas;
            && r in done && q in done
            && done[r].changes == done[q].changes
            && done[r].documents == done[q].documents
            && done[r].frontier == done[q].frontier
  {
    hide WorldInv, Net.Run, LegalRun, Moves, Reconciled, Willing, NothingOneSided;
    NothingYet();
    RunKeepsWorld(EmptyWorld(), actions);
    var w := Net.Run(EmptyWorld(), actions);
    TwoHaveNoThird(w, r, q);
    HealedPairConverges(w, r, q, steps);
  }

  lemma TwoHaveNoThird(w: World, r: ReplicaId, q: ReplicaId)
    requires WorldInv(w) && w.replicas.Keys == {r, q}
    ensures r in w.replicas && q in w.replicas && NothingOneSided(w, r, q)
  {
    hide WorldInv;
    assert r in w.replicas.Keys && q in w.replicas.Keys;
    forall e | e in w.queue ensures e.change.id in w.replicas[r].changes || e.change.id in w.replicas[q].changes {
      QueuedIsGenuine(w, e);
      assert e.change.id.replica in w.replicas.Keys;
    }
  }

  // ---- the whole network ----

  function ReconcileAll(w: World, links: seq<Link>): World
    decreases |links|
  {
    if links == [] then w else ReconcileAll(Reconcile(w, links[0].0, links[0].1).0, links[1..])
  }

  // Every replica is a source for every other.
  ghost predicate AllLinks(w: World, links: seq<Link>) {
    forall x, y :: x in w.replicas && y in w.replicas && x != y ==> (x, y) in links
  }

  // Everything any replica holds.
  function HeldSomewhere(w: World): set<ChangeId> {
    set r, id | r in w.replicas && id in w.replicas[r].changes :: id
  }

  function Sent(w: World, link: Link): seq<Envelope> {
    if link.0 in w.replicas && link.1 in w.replicas
    then Addressed(link.0, link.1, MissingFor(w.replicas[link.0], w.replicas[link.1].frontier)) else []
  }

  lemma {:induction false} ReconcileAllSends(w: World, links: seq<Link>)
    requires WorldInv(w)
    ensures var w' := ReconcileAll(w, links);
            && WorldInv(w') && w'.replicas == w.replicas
            && (forall e :: e in w.queue ==> e in w'.queue)
            && (forall link, e :: link in links && e in Sent(w, link) ==> e in w'.queue)
    decreases |links|
  {
    hide WorldInv, MissingFor, Addressed;
    if links != [] {
      var next := Reconcile(w, links[0].0, links[0].1).0;
      ActKeepsWorld(w, Sync(links[0].0, links[0].1));
      ReconcileAllSends(next, links[1..]);
      forall link, e | link in links && e in Sent(w, link) ensures e in ReconcileAll(w, links).queue {
        if link == links[0] {
          assert e in next.queue;
        } else {
          assert link in links[1..] && Sent(next, link) == Sent(w, link);
        }
      }
    }
  }

  // Reconciling everyone with everyone makes each bound to hold everything.
  lemma ReconcileAllBound(w: World, links: seq<Link>, r: ReplicaId)
    requires WorldInv(w) && AllLinks(w, links) && r in w.replicas
    ensures ReconcileAll(w, links).replicas == w.replicas
    ensures Bound(ReconcileAll(w, links), r).Keys == HeldSomewhere(w)
  {
    hide WorldInv, Inv, MissingFor, Addressed, ReconcileAll, Genuine;
    var w' := ReconcileAll(w, links);
    ReconcileAllSends(w, links);
    forall id | id in Bound(w', r) ensures id in HeldSomewhere(w) {
      BoundIsGenuine(w', r, id);
      AuthorHolds(w', Bound(w', r)[id]);
    }
    forall id | id in HeldSomewhere(w) ensures id in Bound(w', r) {
      var q :| q in w.replicas && id in w.replicas[q].changes;
      if id !in w.replicas[r].changes {
        ReplicaSound(w, r);
        ReplicaSound(w, q);
        assert (q, r) in links && Sent(w, (q, r)) == Addressed(q, r, MissingFor(w.replicas[q], w.replicas[r].frontier));
        LackedIsSent(w.replicas[q], w.replicas[r], q, r, id, w'.queue);
        KeyedById(w.replicas[q], id);
        var e :| e in w'.queue && e.to == r && e.change == w.replicas[q].changes[id];
        assert e.change.id in ArrivingIds(w'.queue, r);
      }
    }
  }

  lemma AuthorHolds(w: World, c: Change)
    requires Genuine(w, c)
    ensures c.id.replica in w.replicas && c.id in w.replicas[c.id.replica].changes
  {}

  // Each accepts everything that any replica holds.
  ghost predicate AllAccept(w: World) {
    forall r, q, id :: r in w.replicas && q in w.replicas && id in w.replicas[q].changes ==>
      Acceptable(w.replicas[r].space, w.replicas[r].schemas, w.replicas[q].changes[id])
  }

  lemma AllWilling(w: World, links: seq<Link>, r: ReplicaId)
    requires WorldInv(w) && r in w.replicas && AllAccept(w)
    ensures Willing(ReconcileAll(w, links), r)
  {
    hide WorldInv, Acceptable, Bound, ReconcileAll;
    var w' := ReconcileAll(w, links);
    ReconcileAllSends(w, links);
    forall id | id in Bound(w', r)
      ensures Bound(w', r)[id].id == id && Acceptable(w'.replicas[r].space, w'.replicas[r].schemas, Bound(w', r)[id])
    {
      BoundIsGenuine(w', r, id);
    }
  }

  // A network of any size: from any state, reconcile everyone with everyone and
  // deliver everything; all replicas then hold the union of all logs, the same
  // documents and the same frontier, whatever third parties had under way.
  lemma NetworkConverges(w: World, links: seq<Link>, steps: seq<TransportStep>, r: ReplicaId, q: ReplicaId)
    requires WorldInv(w) && AllLinks(w, links) && AllAccept(w) && r in w.replicas && q in w.replicas
    requires Moves(ReconcileAll(w, links), steps).queue == []
    ensures var done := Moves(ReconcileAll(w, links), steps).replicas;
            && r in done && q in done
            && done[r].changes.Keys == HeldSomewhere(w)
            && done[r].changes == done[q].changes
            && done[r].documents == done[q].documents
            && done[r].frontier == done[q].frontier
  {
    hide WorldInv, Moves, Bound, ReconcileAll, AllAccept, AllLinks, Willing, Inv;
    var start := ReconcileAll(w, links);
    ReconcileAllSends(w, links);
    ReconcileAllBound(w, links, r);
    ReconcileAllBound(w, links, q);
    AllWilling(w, links, r);
    AllWilling(w, links, q);
    AgreeExactly(start, r, q, steps);
    EmptiedQueueDelivers(start, r, steps);
  }

  // So at the end of every run from an empty network.
  lemma EveryRunConverges(actions: seq<Action>, links: seq<Link>, steps: seq<TransportStep>, r: ReplicaId, q: ReplicaId)
    requires LegalRun(EmptyWorld(), actions)
    requires var w := Net.Run(EmptyWorld(), actions);
             && AllLinks(w, links) && AllAccept(w) && r in w.replicas && q in w.replicas
             && Moves(ReconcileAll(w, links), steps).queue == []
    ensures var done := Moves(ReconcileAll(Net.Run(EmptyWorld(), actions), links), steps).replicas;
            && r in done && q in done
            && done[r].changes == done[q].changes
            && done[r].documents == done[q].documents
            && done[r].frontier == done[q].frontier
  {
    hide WorldInv, Net.Run, LegalRun, Moves, ReconcileAll, AllAccept, AllLinks;
    NothingYet();
    RunKeepsWorld(EmptyWorld(), actions);
    NetworkConverges(Net.Run(EmptyWorld(), actions), links, steps, r, q);
  }
}
