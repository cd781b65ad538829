// Operation identities across reservations, edits, crashes and restarts of one
// store.
module Actors {
  import opened Wrappers
  import opened Ids
  import LS = ListState
  import opened ListEdits
  import opened StoreState

  const CRDT_COUNTER_RESERVATION: U64 := 65_536

  // An actor value some caller holds, with the start of its reservation.
  datatype Handle = Handle(start: U64, actor: ActorState)

  // Handles below `alive` were lost in a crash.
  datatype World = World(db: Db, handles: seq<Handle>, alive: nat, issued: seq<LS.OpId>)

  datatype Action =
    | Acquire(commits: bool)
    | Take(index: nat)
    | Copy(index: nat)
    | Crash

  function Start(db: Db): World {
    World(db, [], 0, [])
  }

  // A reservation becomes an actor over the reserved range.
  function Acquired(w: World, commits: bool): Result<World, StoreError> {
    match Reserve(w.db, CRDT_COUNTER_RESERVATION, commits)
    case Err(e) => Err(e)
    case Ok((db, (previous, limit))) =>
      Ok(w.(db := db, handles := w.handles + [Handle(previous, ActorState(w.db.replica, previous, limit))]))
  }

  predicate Usable(w: World, index: nat) {
    w.alive <= index < |w.handles|
  }

  function NextIssue(w: World, index: nat): Result<LS.OpId, LS.Error>
    requires Usable(w, index)
  {
    Issue(w.handles[index].actor).id
  }

  function Act(w: World, a: Action): World {
    match a
    case Acquire(commits) =>
      var r := Acquired(w, commits);
      if r.Ok? then r.value else w
    case Take(index) =>
      if Usable(w, index) && NextIssue(w, index).Ok? then
        w.(handles := w.handles[index := w.handles[index].(actor := Issue(w.handles[index].actor).actor)],
           issued := w.issued + [NextIssue(w, index).value])
      else w
    case Copy(index) =>
      if Usable(w, index) then w.(handles := w.handles + [w.handles[index]]) else w
    case Crash => w.(alive := |w.handles|)
  }

  function Run(w: World, actions: seq<Action>): World
    decreases |actions|
  {
    if actions == [] then w else Run(Act(w, actions[0]), actions[1..])
  }

  // The handle has issued, or was copied after the issue of, this counter.
  predicate Spent(h: Handle, counter: nat) {
    h.start < counter <= h.actor.counter
  }

  ghost predicate HandleInv(h: Handle, db: Db) {
    && h.actor.replica == db.replica
    && h.start <= h.actor.counter <= h.actor.limit
    && h.actor.limit == h.start + CRDT_COUNTER_RESERVATION
    && h.actor.limit <= db.highWater
  }

  predicate SameReservation(a: Handle, b: Handle) {
    a.start == b.start
  }

  predicate Apart(a: Handle, b: Handle) {
    a.actor.limit <= b.start || b.actor.limit <= a.start
  }

  // Reservations coincide or do not meet, and exactly the spent counters have
  // been issued.
  ghost predicate WorldInv(w: World) {
    && (forall i :: 0 <= i < |w.handles| ==> HandleInv(w.handles[i], w.db))
    && (forall i, j :: 0 <= i < j < |w.handles| ==>
          SameReservation(w.handles[i], w.handles[j]) || Apart(w.handles[i], w.handles[j]))
    && (forall id :: id in w.issued ==>
          id.replica == w.db.replica && exists i :: 0 <= i < |w.handles| && Spent(w.handles[i], id.counter))
    && (forall i, c: U64 :: 0 <= i < |w.handles| && Spent(w.handles[i], c) ==> Id(w.db.replica, c) in w.issued)
  }

  // No reservation has two holders.
  ghost predicate Unshared(w: World) {
    forall i, j :: 0 <= i < j < |w.handles| ==> !SameReservation(w.handles[i], w.handles[j])
  }

  predicate Distinct(ids: seq<LS.OpId>) {
    forall i, j :: 0 <= i < j < |ids| ==> ids[i] != ids[j]
  }

  lemma AcquireKeeps(w: World, commits: bool)
    requires WorldInv(w)
    ensures WorldInv(Act(w, Acquire(commits)))
    ensures Unshared(w) ==> Unshared(Act(w, Acquire(commits)))
    ensures Act(w, Acquire(commits)).issued == w.issued
  {
    var w' := Act(w, Acquire(commits));
    if Acquired(w, commits).Ok? {
      var n := |w.handles|;
      forall i | 0 <= i < n ensures w'.handles[i] == w.handles[i] && w'.handles[i].actor.limit <= w'.handles[n].start {
        assert HandleInv(w.handles[i], w.db);
      }
      forall id | id in w'.issued ensures exists i :: 0 <= i < |w'.handles| && Spent(w'.handles[i], id.counter) {
        var i :| 0 <= i < n && Spent(w.handles[i], id.counter);
        assert Spent(w'.handles[i], id.counter);
      }
    }
  }

  lemma CopyKeeps(w: World, index: nat)
    requires WorldInv(w)
    ensures WorldInv(Act(w, Copy(index)))
  {
    var w' := Act(w, Copy(index));
    if Usable(w, index) {
      var n := |w.handles|;
      assert forall i :: 0 <= i < |w'.handles| ==> w'.handles[i] == w.handles[if i < n then i else index];
      forall id | id in w'.issued ensures exists i :: 0 <= i < |w'.handles| && Spent(w'.handles[i], id.counter) {
        var i :| 0 <= i < n && Spent(w.handles[i], id.counter);
        assert Spent(w'.handles[i], id.counter);
      }
    }
  }

  lemma TakeKeeps(w: World, index: nat)
    requires WorldInv(w)
    ensures WorldInv(Act(w, Take(index)))
    ensures Unshared(w) ==> Unshared(Act(w, Take(index)))
  {
    var w' := Act(w, Take(index));
    if Usable(w, index) && NextIssue(w, index).Ok? {
      var h, h', id := w.handles[index], w'.handles[index], NextIssue(w, index).value;
      assert HandleInv(h, w.db);
      assert h'.start == h.start && h'.actor.limit == h.actor.limit && h'.actor.counter == h.actor.counter + 1 == id.counter;
      forall i | 0 <= i < |w'.handles| ensures HandleInv(w'.handles[i], w'.db) {
        assert HandleInv(w.handles[i], w.db);
      }
      forall x: LS.OpId | x in w'.issued
        ensures x.replica == w.db.replica && exists i :: 0 <= i < |w'.handles| && Spent(w'.handles[i], x.counter)
      {
        if x in w.issued {
          var i :| 0 <= i < |w.handles| && Spent(w.handles[i], x.counter);
          assert Spent(w'.handles[i], x.counter);
        } else {
          assert Spent(w'.handles[index], x.counter);
        }
      }
      forall i, c: U64 | 0 <= i < |w'.handles| && Spent(w'.handles[i], c) ensures Id(w.db.replica, c) in w'.issued {
        if Spent(w.handles[i], c) {
          assert Id(w.db.replica, c) in w.issued;
        } else {
          assert i == index && Id(w.db.replica, c) == id;
        }
      }
    }
  }

  lemma ActKeeps(w: World, a: Action)
    requires WorldInv(w)
    ensures WorldInv(Act(w, a))
  {
    match a {
      case Acquire(commits) => AcquireKeeps(w, commits);
      case Take(index) => TakeKeeps(w, index);
      case Copy(index) => CopyKeeps(w, index);
      case Crash =>
    }
  }

  lemma {:induction false} RunKeeps(w: World, actions: seq<Action>)
    requires WorldInv(w)
    ensures WorldInv(Run(w, actions))
    decreases |actions|
  {
    hide WorldInv, Act;
    if actions != [] {
      ActKeeps(w, actions[0]);
      RunKeeps(Act(w, actions[0]), actions[1..]);
    }
  }

  // An actor value can be copied. An issue repeats an identity if and only if
  // another holder of the same reservation has already gone further.
  lemma IssueRepeatsExactly(w: World, index: nat)
    requires WorldInv(w) && Usable(w, index) && NextIssue(w, index).Ok?
    ensures NextIssue(w, index).value in w.issued <==>
            exists j :: 0 <= j < |w.handles| && SameReservation(w.handles[j], w.handles[index])
                        && w.handles[j].actor.counter > w.handles[index].actor.counter
  {
    var h, id := w.handles[index], NextIssue(w, index).value;
    assert HandleInv(h, w.db);
    if id in w.issued {
      var j :| 0 <= j < |w.handles| && Spent(w.handles[j], id.counter);
      assert HandleInv(w.handles[j], w.db);
      assert !Apart(w.handles[j], h) && !Apart(h, w.handles[j]);
    }
    forall j | 0 <= j < |w.handles| && SameReservation(w.handles[j], h) && w.handles[j].actor.counter > h.actor.counter
      ensures id in w.issued
    {
      assert Spent(w.handles[j], id.counter);
    }
  }

  // What an actor issues lies inside its own durable reservation.
  lemma IssueWithinReservation(w: World, index: nat)
    requires WorldInv(w) && Usable(w, index) && NextIssue(w, index).Ok?
    ensures var id, h := NextIssue(w, index).value, w.handles[index];
            && id.replica == w.db.replica
            && h.start < id.counter <= h.start + CRDT_COUNTER_RESERVATION <= w.db.highWater
  {
    assert HandleInv(w.handles[index], w.db);
  }

  predicate CopyFree(actions: seq<Action>) {
    forall a :: a in actions ==> !a.Copy?
  }

  lemma UnsharedNeverRepeats(w: World, index: nat)
    requires WorldInv(w) && Unshared(w) && Usable(w, index) && NextIssue(w, index).Ok?
    ensures NextIssue(w, index).value !in w.issued
  {
    hide WorldInv;
    IssueRepeatsExactly(w, index);
  }

  lemma DistinctAppend(ids: seq<LS.OpId>, id: LS.OpId)
    requires Distinct(ids) && id !in ids
    ensures Distinct(ids + [id])
  {}

  lemma {:induction false} CopyFreeRun(w: World, actions: seq<Action>)
    requires WorldInv(w) && Unshared(w) && Distinct(w.issued) && CopyFree(actions)
    ensures Distinct(Run(w, actions).issued)
    decreases |actions|
  {
    hide WorldInv, Acquired;
    if actions != [] {
      var a := actions[0];
      assert a in actions;
      ActKeeps(w, a);
      match a {
        case Acquire(commits) => AcquireKeeps(w, commits);
        case Take(index) =>
          TakeKeeps(w, index);
          if Usable(w, index) && NextIssue(w, index).Ok? {
            UnsharedNeverRepeats(w, index);
            DistinctAppend(w.issued, NextIssue(w, index).value);
          }
        case _ =>
      }
      assert CopyFree(actions[1..]);
      CopyFreeRun(Act(w, a), actions[1..]);
    }
  }

  // Across any interleaving of reservations, failed commits, edits, crashes
  // and restarts, no operation identity is issued twice, provided no actor
  // value is copied.
  lemma IdentitiesNeverRepeat(db: Db, actions: seq<Action>)
    requires CopyFree(actions)
    ensures Distinct(Run(Start(db), actions).issued)
  {
    CopyFreeRun(Start(db), actions);
  }

  // The copy of an actor issues what the original has already issued.
  lemma CopiesRepeat()
    ensures exists db: Db, actions: seq<Action> :: !Distinct(Run(Start(db), actions).issued)
  {
    var db := EmptyDb(1, 0);
    var actions := [Acquire(true), Copy(0), Take(0), Take(1)];
    var w1 := Act(Start(db), actions[0]);
    var w2 := Act(w1, actions[1]);
    var w3 := Act(w2, actions[2]);
    var w4 := Act(w3, actions[3]);
    assert actions[1..][1..][1..][1..] == [];
    assert actions[1..][0] == Copy(0) && actions[1..][1..][0] == Take(0) && actions[1..][1..][1..][0] == Take(1);
    assert Run(w3, actions[1..][1..][1..]) == w4;
    assert Run(w2, actions[1..][1..]) == w4;
    assert Run(Start(db), actions) == w4;
    assert w4.issued == [Id(1, 1), Id(1, 1)];
    assert w4.issued[0] == w4.issued[1];
    assert !Distinct(Run(Start(db), actions).issued);
  }
}
