// The simulated network as a value: its steps, and one content per change
// identity in every run.
module SimulatorState {
  import opened Wrappers
  import opened Ids
  import opened Changes
  import RS = ReplicaState
  import opened ReplicaState

  datatype Envelope = Envelope(from: ReplicaId, to: ReplicaId, change: Change)

  type Link = (ReplicaId, ReplicaId)

  datatype World = World(replicas: map<ReplicaId, State>, queue: seq<Envelope>, partitions: set<Link>)

  datatype SimError =
    | AlreadyPresent | NoReplica(id: ReplicaId) | OutOfBounds | Partitioned | BadOrder
    | Refused(error: RS.Error)

  function EmptyWorld(): World {
    World(map[], [], {})
  }

  function Pair(first: ReplicaId, second: ReplicaId): Link {
    if first <= second then (first, second) else (second, first)
  }

  // ---- the operations ----

  // The identity is taken over before its presence is reported.
  function Add(w: World, st: State): (World, Result<(), SimError>) {
    (w.(replicas := w.replicas[st.id := st]), if st.id in w.replicas then Err(AlreadyPresent) else Ok(()))
  }

  // The documentation says an identity already present is not replaced. It is:
  // a refused addition leaves the network as it was only if the two replicas
  // are the same.
  lemma RefusedAddKeepsExactly(w: World, st: State)
    requires st.id in w.replicas
    ensures Add(w, st).1 == Err(AlreadyPresent)
    ensures Add(w, st).0 == w <==> w.replicas[st.id] == st
  {
    assert Add(w, st).0.replicas[st.id] == st;
    if w.replicas[st.id] == st {
      assert w.replicas[st.id := st] == w.replicas;
    }
  }

  // Every replica but the sender, in identity order.
  function Recipients(replicas: set<ReplicaId>, from: ReplicaId): (r: seq<ReplicaId>)
    ensures forall x :: x in r <==> x in replicas && x != from
  {
    Rising(replicas - {from})
  }

  function Broadcast(w: World, from: ReplicaId, change: Change): World {
    var to := Recipients(w.replicas.Keys, from);
    w.(queue := w.queue + seq(|to|, i requires 0 <= i < |to| => Envelope(from, to[i], change)))
  }

  // A broadcast queues exactly one copy of the change for each replica other than
  // the sender, behind what was queued, and moves nothing else.
  lemma BroadcastsExactly(w: World, from: ReplicaId, change: Change)
    ensures var next := Broadcast(w, from, change);
            && next.replicas == w.replicas && next.partitions == w.partitions
            && |next.queue| >= |w.queue| && next.queue[..|w.queue|] == w.queue
            && (forall to :: to in w.replicas && to != from ==> Envelope(from, to, change) in next.queue[|w.queue|..])
            && (forall e :: e in next.queue[|w.queue|..] ==> e.from == from && e.change == change && e.to in w.replicas && e.to != from)
            && (forall i, j :: |w.queue| <= i < j < |next.queue| ==> next.queue[i] != next.queue[j])
  {
    hide Rising;
    var next, to := Broadcast(w, from, change), Recipients(w.replicas.Keys, from);
    forall x | x in w.replicas && x != from ensures Envelope(from, x, change) in next.queue[|w.queue|..] {
      var i :| 0 <= i < |to| && to[i] == x;
      assert next.queue[|w.queue|..][i] == Envelope(from, x, change);
    }
    forall i | 0 <= i < |to| ensures to[i] in w.replicas && to[i] != from {
      assert to[i] in to;
    }
  }

  function Addressed(from: ReplicaId, to: ReplicaId, changes: seq<Change>): (r: seq<Envelope>)
    ensures forall e :: e in r <==> e.from == from && e.to == to && e.change in changes
  {
    var r := seq(|changes|, i requires 0 <= i < |changes| => Envelope(from, to, changes[i]));
    assert forall e :: e in r <==> e.from == from && e.to == to && e.change in changes by {
      forall e: Envelope | e.from == from && e.to == to && e.change in changes ensures e in r {
        var i :| 0 <= i < |changes| && changes[i] == e.change;
        assert r[i] == e;
      }
    }
    r
  }

  function Reconcile(w: World, from: ReplicaId, to: ReplicaId): (World, Result<nat, SimError>) {
    if to !in w.replicas then (w, Err(NoReplica(to)))
    else if from !in w.replicas then (w, Err(NoReplica(from)))
    else
      var changes := MissingFor(w.replicas[from], w.replicas[to].frontier);
      (w.(queue := w.queue + Addressed(from, to, changes)), Ok(|changes|))
  }

  function Duplicate(w: World, index: nat): (World, Result<(), SimError>) {
    if index >= |w.queue| then (w, Err(OutOfBounds))
    else (w.(queue := w.queue + [w.queue[index]]), Ok(()))
  }

  function Partition(w: World, first: ReplicaId, second: ReplicaId): World {
    w.(partitions := w.partitions + {Pair(first, second)})
  }

  function Heal(w: World, first: ReplicaId, second: ReplicaId): World {
    w.(partitions := w.partitions - {Pair(first, second)})
  }

  function Without(queue: seq<Envelope>, index: nat): seq<Envelope>
    requires index < |queue|
  {
    queue[..index] + queue[index + 1..]
  }

  // An envelope on a partitioned link stays queued; any other leaves the queue
  // even if its recipient is unknown or refuses it.
  function Deliver(w: World, index: nat, now: U64): (World, Result<Apply, SimError>) {
    if index >= |w.queue| then (w, Err(OutOfBounds))
    else
      var e := w.queue[index];
      if Pair(e.from, e.to) in w.partitions then (w, Err(SimError.Partitioned))
      else
        var rest := w.(queue := Without(w.queue, index));
        if e.to !in w.replicas then (rest, Err(NoReplica(e.to)))
        else
          match Receive(w.replicas[e.to], e.change, now)
          case Err(error) => (rest, Err(Refused(error)))
          case Ok(Received(next, apply)) => (rest.(replicas := w.replicas[e.to := next]), Ok(apply))
  }

  // Each index of the queue exactly once.
  predicate Permutes(order: seq<nat>, n: nat) {
    && |order| == n
    && (forall i :: 0 <= i < n ==> order[i] < n)
    && (forall i, j :: 0 <= i < j < n ==> order[i] != order[j])
  }

  function Rearranged(queue: seq<Envelope>, order: seq<nat>): (r: seq<Envelope>)
    requires Permutes(order, |queue|)
    ensures |r| == |queue| && forall i :: 0 <= i < |r| ==> r[i] == queue[order[i]]
  {
    seq(|order|, i requires 0 <= i < |order| => queue[order[i]])
  }

  function Reorder(w: World, order: seq<nat>): (World, Result<(), SimError>) {
    if Permutes(order, |w.queue|) then (w.(queue := Rearranged(w.queue, order)), Ok(()))
    else (w, Err(BadOrder))
  }

  // ---- what each operation does ----

  // A link joins two replicas whichever is named first, and no others.
  lemma LinksAreUndirected(a: ReplicaId, b: ReplicaId, c: ReplicaId, d: ReplicaId)
    ensures Pair(a, b) == Pair(b, a)
    ensures Pair(a, b) == Pair(c, d) <==> (a == c && b == d) || (a == d && b == c)
  {}

  // Cutting a link cuts it in both directions, mending undoes that, and neither
  // touches any other link.
  lemma LinksExactly(w: World, a: ReplicaId, b: ReplicaId, c: ReplicaId, d: ReplicaId)
    ensures Pair(a, b) in Partition(w, a, b).partitions && Pair(b, a) in Partition(w, a, b).partitions
    ensures Pair(a, b) !in Heal(w, b, a).partitions
    ensures Pair(c, d) != Pair(a, b) ==>
              && (Pair(c, d) in Partition(w, a, b).partitions <==> Pair(c, d) in w.partitions)
              && (Pair(c, d) in Heal(w, a, b).partitions <==> Pair(c, d) in w.partitions)
    ensures Partition(w, a, b) == w.(partitions := Partition(w, a, b).partitions) && Heal(w, a, b) == w.(partitions := Heal(w, a, b).partitions)
  {}

  // A reconciliation queues exactly what the recipient's frontier lacks, in order,
  // or reports the replica that is not there.
  lemma ReconcilesExactly(w: World, from: ReplicaId, to: ReplicaId)
    ensures Reconcile(w, from, to).1.Ok? <==> from in w.replicas && to in w.replicas
    ensures Reconcile(w, from, to).1.Err? ==>
              Reconcile(w, from, to) == (w, Err(NoReplica(if to in w.replicas then from else to)))
    ensures Reconcile(w, from, to).1.Ok? ==>
              var (next, count) := Reconcile(w, from, to);
              var missing := MissingFor(w.replicas[from], w.replicas[to].frontier);
              && next == w.(queue := next.queue) && count == Ok(|missing|)
              && |next.queue| == |w.queue| + |missing| && next.queue[..|w.queue|] == w.queue
              && forall i :: 0 <= i < |missing| ==> next.queue[|w.queue| + i] == Envelope(from, to, missing[i])
  {
    hide MissingFor;
  }

  // A delivery takes exactly the envelope named out of the queue unless its link
  // is cut, and gives its change to the recipient if there is one that accepts it.
  lemma DeliversExactly(w: World, index: nat, now: U64)
    ensures index >= |w.queue| ==> Deliver(w, index, now) == (w, Err(OutOfBounds))
    ensures index < |w.queue| ==>
              var e := w.queue[index]; var (next, result) := Deliver(w, index, now);
              if Pair(e.from, e.to) in w.partitions then next == w && result == Err(SimError.Partitioned)
              else
                && next.queue == w.queue[..index] + w.queue[index + 1..] && next.partitions == w.partitions
                && (result.Ok? <==> e.to in w.replicas && Receive(w.replicas[e.to], e.change, now).Ok?)
                && (result.Ok? ==>
                      && next.replicas == w.replicas[e.to := Receive(w.replicas[e.to], e.change, now).value.state]
                      && result == Ok(Receive(w.replicas[e.to], e.change, now).value.apply))
                && (result.Err? ==> next.replicas == w.replicas)
                && (e.to !in w.replicas ==> result == Err(NoReplica(e.to)))
  {
    hide Receive;
  }

  // Exactly the orders that name each place of the queue once rearrange it, and
  // then the envelope named at a place stands there.
  lemma ReordersExactly(w: World, order: seq<nat>)
    ensures Reorder(w, order).1.Ok? <==>
              && |order| == |w.queue| && (forall i :: 0 <= i < |order| ==> order[i] < |w.queue|)
              && (forall i, j :: 0 <= i < |order| && 0 <= j < |order| && i != j ==> order[i] != order[j])
    ensures Reorder(w, order).1.Err? ==> Reorder(w, order).0 == w
    ensures Reorder(w, order).1.Ok? ==>
              var next := Reorder(w, order).0;
              && next == w.(queue := next.queue) && |next.queue| == |w.queue|
              && forall i :: 0 <= i < |order| ==> next.queue[i] == w.queue[order[i]]
  {
    if Permutes(order, |w.queue|) {
      forall i, j | 0 <= i < |order| && 0 <= j < |order| && i != j ensures order[i] != order[j] {
        if i < j { assert order[i] != order[j]; } else { assert order[j] != order[i]; }
      }
    }
  }

  // A duplicate is one more copy of the envelope named, behind the others.
  lemma DuplicatesExactly(w: World, index: nat)
    ensures Duplicate(w, index).1.Ok? <==> index < |w.queue|
    ensures Duplicate(w, index).0 == if index < |w.queue| then w.(queue := w.queue + [w.queue[index]]) else w
  {}

  // ---- steps ----

  datatype Action =
    | Join(id: ReplicaId, space: SpaceId)
    | Local(at: ReplicaId, step: LocalStep)
    | Send(from: ReplicaId, change: Change)
    | Sync(from: ReplicaId, to: ReplicaId)
    | Transport(move: TransportStep)

  datatype LocalStep = Accept(name: Name, schema: U64) | Author(op: Operation, now: U64)

  // What the network may do on its own.
  datatype TransportStep =
    | Twice(index: nat)
    | Cut(first: ReplicaId, second: ReplicaId)
    | Mend(first: ReplicaId, second: ReplicaId)
    | Hand(index: nat, now: U64)
    | Shuffle(order: seq<nat>)

  function Work(st: State, step: LocalStep): State {
    match step
    case Accept(name, schema) => Perform(st, Register(name, schema))
    case Author(op, now) => Perform(st, Write(op, now))
  }

  function Move(w: World, step: TransportStep): World {
    match step
    case Twice(index) => Duplicate(w, index).0
    case Cut(first, second) => Partition(w, first, second)
    case Mend(first, second) => Heal(w, first, second)
    case Hand(index, now) => Deliver(w, index, now).0
    case Shuffle(order) => Reorder(w, order).0
  }

  function Act(w: World, a: Action): World {
    match a
    case Join(id, space) => Add(w, Fresh(id, space)).0
    case Local(at, step) =>
      if at in w.replicas then w.(replicas := w.replicas[at := Work(w.replicas[at], step)]) else w
    case Send(from, change) => Broadcast(w, from, change)
    case Sync(from, to) => Reconcile(w, from, to).0
    case Transport(step) => Move(w, step)
  }

  // A change its author holds.
  predicate Genuine(w: World, c: Change) {
    c.id.replica in w.replicas && Holds(w.replicas[c.id.replica], c)
  }

  // Identities are new when they join, and only authored changes are sent.
  predicate Legal(w: World, a: Action) {
    match a
    case Join(id, _) => id !in w.replicas
    case Send(_, change) => Genuine(w, change)
    case _ => true
  }

  ghost predicate LegalRun(w: World, actions: seq<Action>)
    decreases |actions|
  {
    actions != [] ==> Legal(w, actions[0]) && LegalRun(Act(w, actions[0]), actions[1..])
  }

  function Run(w: World, actions: seq<Action>): World
    decreases |actions|
  {
    if actions == [] then w else Run(Act(w, actions[0]), actions[1..])
  }

  // ---- one content per identity ----

  ghost predicate WorldInv(w: World) {
    && (forall r :: r in w.replicas ==> w.replicas[r].id == r && Inv(w.replicas[r]))
    && (forall r, id :: r in w.replicas && id in w.replicas[r].changes ==> Genuine(w, w.replicas[r].changes[id]))
    && (forall e :: e in w.queue ==> Genuine(w, e.change))
  }

  // One replica grew by genuine changes, and the queue by genuine envelopes.
  lemma GrowthKeepsWorld(w: World, at: ReplicaId, next: State, queue: seq<Envelope>, partitions: set<Link>)
    requires WorldInv(w) && at in w.replicas
    requires next.id == at && Inv(next)
    requires forall id :: id in w.replicas[at].changes ==> id in next.changes && next.changes[id] == w.replicas[at].changes[id]
    requires forall id :: id in next.changes && id !in w.replicas[at].changes ==>
               id.replica == at || Genuine(w, next.changes[id])
    requires forall e :: e in queue ==> Genuine(w, e.change)
    ensures WorldInv(World(w.replicas[at := next], queue, partitions))
  {
    hide Inv;
    var w' := World(w.replicas[at := next], queue, partitions);
    forall c | Genuine(w, c) ensures Genuine(w', c) {}
    forall r, id | r in w'.replicas && id in w'.replicas[r].changes ensures Genuine(w', w'.replicas[r].changes[id]) {
      if r == at && id !in w.replicas[at].changes && id.replica == at {
        KeyedById(next, id);
      } else {
        assert r != at ==> Genuine(w, w.replicas[r].changes[id]);
      }
    }
  }

  lemma SameReplicas(w: World, queue: seq<Envelope>, partitions: set<Link>)
    requires WorldInv(w)
    requires forall e :: e in queue ==> Genuine(w, e.change)
    ensures WorldInv(World(w.replicas, queue, partitions))
  {
    hide Inv;
    forall c | Genuine(w, c) ensures Genuine(World(w.replicas, queue, partitions), c) {}
    hide Genuine;
  }

  lemma KeyedById(st: State, id: ChangeId)
    requires Inv(st) && id in st.changes
    ensures st.changes[id].id == id
  {}

  lemma WorkGrows(st: State, step: LocalStep)
    requires Inv(st)
    ensures var next := Work(st, step);
            && Inv(next) && next.id == st.id && next.space == st.space
            && (forall id :: id in st.changes ==> id in next.changes && next.changes[id] == st.changes[id])
            && (forall id :: id in next.changes && id !in st.changes ==> id.replica == st.id)
  {
    hide LogSound, DocumentsExact, Contiguous, CounterExact, ClockDominates, RS.Author;
    match step {
      case Accept(name, schema) =>
        if RegisterSchema(st, name, schema).Ok? { RegisterInv(st, name, schema); }
      case Author(op, now) =>
        if RS.Author(st, op, now).Ok? { AuthorInv(st, op, now); }
    }
  }

  lemma WithoutMembers(queue: seq<Envelope>, index: nat)
    requires index < |queue|
    ensures forall e :: e in Without(queue, index) ==> e in queue
    ensures forall e :: e in queue && e != queue[index] ==> e in Without(queue, index)
  {
    var rest := Without(queue, index);
    forall e | e in queue && e != queue[index] ensures e in rest {
      var i :| 0 <= i < |queue| && queue[i] == e;
      assert rest[if i < index then i else i - 1] == e;
    }
  }

  lemma DeliverKeepsWorld(w: World, index: nat, now: U64)
    requires WorldInv(w)
    ensures WorldInv(Deliver(w, index, now).0)
  {
    hide Inv, Receive, Without, Genuine, Acceptable;
    if index < |w.queue| {
      var e, rest := w.queue[index], Without(w.queue, index);
      WithoutMembers(w.queue, index);
      assert e in w.queue;
      if e.to in w.replicas && Receive(w.replicas[e.to], e.change, now).Ok? {
        ReceiveInv(w.replicas[e.to], e.change, now);
        ReceiveExactly(w.replicas[e.to], e.change, now);
        var next := Receive(w.replicas[e.to], e.change, now).value.state;
        assert forall id :: id in next.changes && id !in w.replicas[e.to].changes ==> next.changes[id] == e.change;
        GrowthKeepsWorld(w, e.to, next, rest, w.partitions);
      } else {
        SameReplicas(w, rest, w.partitions);
      }
    }
  }

  lemma PermutationMembers(order: seq<nat>, n: nat, k: nat)
    requires Permutes(order, n) && k < n
    ensures k in order
  {
    if k !in order {
      DistinctNats(order);
      FewerInSubset(Indexes(order), Below(n) - {k});
    }
  }

  function Below(n: nat): (r: set<nat>)
    ensures forall i: nat :: i in r <==> i < n
    ensures |r| == n
  {
    if n == 0 then {} else Below(n - 1) + {n - 1}
  }

  function Indexes(order: seq<nat>): set<nat> {
    set i | i in order
  }

  lemma {:induction false} DistinctNats(s: seq<nat>)
    requires forall i, j :: 0 <= i < j < |s| ==> s[i] != s[j]
    ensures |Indexes(s)| == |s|
  {
    if s != [] {
      DistinctNats(s[1..]);
      assert Indexes(s) == {s[0]} + Indexes(s[1..]);
      assert s[0] !in s[1..];
    }
  }

  lemma ShuffleMembers(queue: seq<Envelope>, order: seq<nat>)
    requires Permutes(order, |queue|)
    ensures forall e :: e in Rearranged(queue, order) <==> e in queue
  {
    var r := Rearranged(queue, order);
    forall e | e in queue ensures e in r {
      var k :| 0 <= k < |queue| && queue[k] == e;
      PermutationMembers(order, |queue|, k);
      var i :| 0 <= i < |order| && order[i] == k;
      assert r[i] == e;
    }
  }

  lemma MoveKeepsWorld(w: World, step: TransportStep)
    requires WorldInv(w)
    ensures WorldInv(Move(w, step))
  {
    hide Inv, Deliver, Genuine;
    match step {
      case Hand(index, now) => DeliverKeepsWorld(w, index, now);
      case Shuffle(order) =>
        if Permutes(order, |w.queue|) { ShuffleMembers(w.queue, order); }
        SameReplicas(w, Move(w, step).queue, w.partitions);
      case _ => SameReplicas(w, Move(w, step).queue, Move(w, step).partitions);
    }
  }

  lemma JoinKeepsWorld(w: World, id: ReplicaId, space: SpaceId)
    requires WorldInv(w) && id !in w.replicas
    ensures WorldInv(Add(w, Fresh(id, space)).0)
  {
    hide Inv;
    var w' := Add(w, Fresh(id, space)).0;
    FreshInv(id, space);
    forall c | Genuine(w, c) ensures Genuine(w', c) {}
    hide Genuine;
  }

  lemma ActKeepsWorld(w: World, a: Action)
    requires WorldInv(w) && Legal(w, a)
    ensures WorldInv(Act(w, a))
  {
    hide Inv, Move, Work, MissingFor, Genuine, Addressed;
    match a {
      case Join(id, space) => JoinKeepsWorld(w, id, space);
      case Local(at, step) =>
        if at in w.replicas {
          WorkGrows(w.replicas[at], step);
          GrowthKeepsWorld(w, at, Work(w.replicas[at], step), w.queue, w.partitions);
        }
      case Send(from, change) => SameReplicas(w, Broadcast(w, from, change).queue, w.partitions);
      case Sync(from, to) =>
        if from in w.replicas && to in w.replicas {
          SentAreGenuine(w, from, to);
        }
        SameReplicas(w, Reconcile(w, from, to).0.queue, w.partitions);
      case Transport(step) => MoveKeepsWorld(w, step);
    }
  }

  lemma SentAreGenuine(w: World, from: ReplicaId, to: ReplicaId)
    requires WorldInv(w) && from in w.replicas && to in w.replicas
    ensures forall c :: c in MissingFor(w.replicas[from], w.replicas[to].frontier) ==> Genuine(w, c)
  {
    hide MissingFor, DocumentsExact, Contiguous, CounterExact, ClockDominates;
    forall c | c in MissingFor(w.replicas[from], w.replicas[to].frontier) ensures Genuine(w, c) {
      MissingForExactly(w.replicas[from], w.replicas[to].frontier, c);
    }
  }

  // In every run from an empty network, with writes, broadcasts, duplicates,
  // reordering, partitions and refusals in any order: each change identity has
  // one content across all replicas and everything in flight.
  lemma {:induction false} RunKeepsWorld(w: World, actions: seq<Action>)
    requires WorldInv(w) && LegalRun(w, actions)
    ensures WorldInv(Run(w, actions))
    decreases |actions|
  {
    hide WorldInv, Act, Legal;
    if actions != [] {
      ActKeepsWorld(w, actions[0]);
      RunKeepsWorld(Act(w, actions[0]), actions[1..]);
    }
  }

  lemma OneContentPerIdentity(w: World, r: ReplicaId, q: ReplicaId)
    requires WorldInv(w) && r in w.replicas && q in w.replicas
    ensures Consistent(w.replicas[r].changes, w.replicas[q].changes)
    ensures forall e, id :: e in w.queue && id == e.change.id && id in w.replicas[r].changes ==>
              w.replicas[r].changes[id] == e.change
  {
    hide WorldInv;
    forall id | id in w.replicas[r].changes && id in w.replicas[q].changes
      ensures w.replicas[r].changes[id] == w.replicas[q].changes[id]
    {
      HeldIsGenuine(w, r, id);
      HeldIsGenuine(w, q, id);
    }
    forall e, id | e in w.queue && id == e.change.id && id in w.replicas[r].changes
      ensures w.replicas[r].changes[id] == e.change
    {
      HeldIsGenuine(w, r, id);
      QueuedIsGenuine(w, e);
    }
  }

  lemma HeldIsGenuine(w: World, r: ReplicaId, id: ChangeId)
    requires WorldInv(w) && r in w.replicas && id in w.replicas[r].changes
    ensures w.replicas[r].changes[id].id == id && Genuine(w, w.replicas[r].changes[id])
  {
    hide Inv, Genuine;
    KeyedById(w.replicas[r], id);
  }

  lemma QueuedIsGenuine(w: World, e: Envelope)
    requires WorldInv(w) && e in w.queue
    ensures Genuine(w, e.change)
  {
    hide Inv, Genuine;
  }

  lemma ReplicaSound(w: World, r: ReplicaId)
    requires WorldInv(w) && r in w.replicas
    ensures w.replicas[r].id == r && Inv(w.replicas[r])
  {
    hide Inv, Genuine;
  }

  // Hence no delivery in any run fails with a collision.
  lemma DeliveryNeverCollides(actions: seq<Action>, index: nat, now: U64)
    requires LegalRun(EmptyWorld(), actions)
    ensures var r := Deliver(Run(EmptyWorld(), actions), index, now).1;
            !(r.Err? && r.error.Refused? && r.error.error.Collision?)
  {
    hide WorldInv, Run, LegalRun, Deliver;
    NothingYet();
    RunKeepsWorld(EmptyWorld(), actions);
    NoCollision(Run(EmptyWorld(), actions), index, now);
  }

  lemma NoCollision(w: World, index: nat, now: U64)
    requires WorldInv(w)
    ensures var r := Deliver(w, index, now).1; !(r.Err? && r.error.Refused? && r.error.error.Collision?)
  {
    hide WorldInv, Acceptable;
    if index < |w.queue| && w.queue[index].to in w.replicas {
      var e := w.queue[index];
      OneContentPerIdentity(w, e.to, e.to);
      assert e in w.queue;
    }
  }

  lemma NothingYet()
    ensures WorldInv(EmptyWorld())
  {}
}
