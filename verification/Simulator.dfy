// The mutable simulator. Every method performs a step of SimulatorState, and
// every step keeps the one-content-per-identity invariant.
module Simulator {
  import opened Wrappers
  import opened Ids
  import opened Changes
  import opened ReplicaState
  import opened SimulatorState

  class Simulator {
    var replicas: map<ReplicaId, State>
    var queue: seq<Envelope>
    var partitions: set<Link>

    constructor ()
      ensures View() == EmptyWorld() && WorldInv(View())
    {
      replicas, queue, partitions := map[], [], {};
      new;
      NothingYet();
    }

    function View(): World
      reads this
    {
      World(replicas, queue, partitions)
    }

    method AddReplica(replica: State) returns (r: Result<(), SimError>)
      modifies this`replicas
      ensures (View(), r) == Add(old(View()), replica)
      ensures r.Ok? <==> replica.id !in old(replicas)
    {
      var present := replica.id in replicas;
      replicas := replicas[replica.id := replica];
      r := if present then Err(AlreadyPresent) else Ok(());
    }

    // Local work on one replica through its mutable reference.
    method Edit(at: ReplicaId, step: LocalStep)
      requires at in replicas && WorldInv(View())
      modifies this`replicas
      ensures View() == Act(old(View()), Local(at, step))
      ensures WorldInv(View())
    {
      ActKeepsWorld(View(), Local(at, step));
      replicas := replicas[at := Work(replicas[at], step)];
    }

    method BroadcastChange(from: ReplicaId, change: Change)
      modifies this`queue
      ensures View() == Broadcast(old(View()), from, change)
      ensures old(WorldInv(View()) && Genuine(View(), change)) ==> WorldInv(View())
    {
      hide WorldInv;
      ghost var before := View();
      if WorldInv(before) && Genuine(before, change) {
        ActKeepsWorld(before, Send(from, change));
      }
      var to := Recipients(replicas.Keys, from);
      queue := queue + seq(|to|, i requires 0 <= i < |to| => Envelope(from, to[i], change));
    }

    method ReconcilePair(from: ReplicaId, to: ReplicaId) returns (r: Result<nat, SimError>)
      requires WorldInv(View())
      modifies this`queue
      ensures (View(), r) == Reconcile(old(View()), from, to)
      ensures WorldInv(View())
    {
      hide WorldInv, MissingFor;
      ActKeepsWorld(View(), Sync(from, to));
      if to !in replicas {
        return Err(NoReplica(to));
      }
      if from !in replicas {
        return Err(NoReplica(from));
      }
      var changes := MissingFor(replicas[from], replicas[to].frontier);
      queue := queue + Addressed(from, to, changes);
      r := Ok(|changes|);
    }

    method DuplicateAt(index: nat) returns (r: Result<(), SimError>)
      requires WorldInv(View())
      modifies this`queue
      ensures (View(), r) == SimulatorState.Duplicate(old(View()), index)
      ensures WorldInv(View())
    {
      hide WorldInv;
      MoveKeepsWorld(View(), Twice(index));
      if index >= |queue| {
        return Err(OutOfBounds);
      }
      queue := queue + [queue[index]];
      r := Ok(());
    }

    method PartitionLink(first: ReplicaId, second: ReplicaId)
      requires WorldInv(View())
      modifies this`partitions
      ensures View() == Partition(old(View()), first, second)
      ensures WorldInv(View())
    {
      hide WorldInv;
      MoveKeepsWorld(View(), Cut(first, second));
      partitions := partitions + {Pair(first, second)};
    }

    method HealLink(first: ReplicaId, second: ReplicaId)
      requires WorldInv(View())
      modifies this`partitions
      ensures View() == Heal(old(View()), first, second)
      ensures WorldInv(View())
    {
      hide WorldInv;
      MoveKeepsWorld(View(), Mend(first, second));
      partitions := partitions - {Pair(first, second)};
    }

    // The recipient never refuses an envelope because of a collision.
    method DeliverAt(index: nat, now: U64) returns (r: Result<Apply, SimError>)
      requires WorldInv(View())
      modifies this`queue, this`replicas
      ensures (View(), r) == SimulatorState.Deliver(old(View()), index, now)
      ensures WorldInv(View())
      ensures !(r.Err? && r.error.Refused? && r.error.error.Collision?)
    {
      hide WorldInv, Receive, Without;
      MoveKeepsWorld(View(), Hand(index, now));
      NoCollision(View(), index, now);
      if index >= |queue| {
        return Err(OutOfBounds);
      }
      var e := queue[index];
      if Pair(e.from, e.to) in partitions {
        return Err(SimError.Partitioned);
      }
      queue := Without(queue, index);
      if e.to !in replicas {
        return Err(NoReplica(e.to));
      }
      match Receive(replicas[e.to], e.change, now) {
        case Err(error) => r := Err(Refused(error));
        case Ok(received) =>
          replicas := replicas[e.to := received.state];
          r := Ok(received.apply);
      }
    }

    // The indexes are collected into a set: as many as the queue is long, the
    // greatest being its last. That is exactly a permutation.
    method ReorderQueue(order: seq<nat>) returns (r: Result<(), SimError>)
      requires WorldInv(View())
      modifies this`queue
      ensures (View(), r) == Reorder(old(View()), order)
      ensures r.Ok? <==> Permutes(order, |old(queue)|)
      ensures r.Ok? ==> forall e :: e in queue <==> e in old(queue)
      ensures WorldInv(View())
    {
      hide WorldInv;
      MoveKeepsWorld(View(), Shuffle(order));
      if |order| != |queue| {
        return Err(BadOrder);
      }
      var indexes := Indexes(order);
      PermutationByIndexSet(order);
      if |indexes| != |order| || (order != [] && !IsMaximum(|order| - 1, indexes)) {
        return Err(BadOrder);
      }
      ShuffleMembers(queue, order);
      queue := Rearranged(queue, order);
      r := Ok(());
    }
  }

  predicate IsMaximum(m: nat, s: set<nat>) {
    m in s && forall x :: x in s ==> x <= m
  }

  // Distinct indexes are counted by their set.
  lemma {:induction false} CountDetectsRepeats(s: seq<nat>)
    ensures |Indexes(s)| <= |s|
    ensures |Indexes(s)| == |s| ==> forall i, j :: 0 <= i < j < |s| ==> s[i] != s[j]
  {
    if s != [] {
      var rest := s[1..];
      CountDetectsRepeats(rest);
      assert Indexes(s) == {s[0]} + Indexes(rest);
      if |Indexes(s)| == |s| {
        assert s[0] !in Indexes(rest);
        forall i, j | 0 <= i < j < |s| ensures s[i] != s[j] {
          assert s[j] == rest[j - 1] && rest[j - 1] in Indexes(rest);
          assert i > 0 ==> s[i] == rest[i - 1];
        }
      }
    }
  }

  lemma PermutationByIndexSet(order: seq<nat>)
    ensures Permutes(order, |order|) <==>
            |Indexes(order)| == |order| && (order != [] ==> IsMaximum(|order| - 1, Indexes(order)))
  {
    CountDetectsRepeats(order);
    if Permutes(order, |order|) {
      DistinctNats(order);
      if order != [] {
        PermutationMembers(order, |order|, |order| - 1);
      }
    }
    if |Indexes(order)| == |order| && (order != [] ==> IsMaximum(|order| - 1, Indexes(order))) {
      forall i | 0 <= i < |order| ensures order[i] < |order| {
        assert order[i] in Indexes(order);
      }
    }
  }
}
