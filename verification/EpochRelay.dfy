// The two loops that carry epoch updates through the relay, turn by turn.
module EpochRelay {
  import opened Wrappers
  import opened Ids
  import opened VaultState
  import opened Epochs

  // The updates for the first members, put where the slot is still free.
  function PutEach(mail: map<Slot, Update>, previous: Key, current: Credentials, members: map<Device, Capability>, subjects: seq<Device>):
    map<Slot, Update>
    requires current.access.epoch > 0
  {
    Updates(previous, current, Reached(members, set d | d in subjects)) + mail
  }

  lemma PutAt(mail: map<Slot, Update>, previous: Key, current: Credentials, members: map<Device, Capability>, subjects: seq<Device>, slot: Slot)
    requires current.access.epoch > 0
    ensures var put := PutEach(mail, previous, current, members, subjects);
            && (slot in put <==> slot in mail || (slot.key == previous && slot.recipient in members && slot.recipient in subjects))
            && (slot in mail ==> put[slot] == mail[slot])
            && (slot in put && slot !in mail ==> put[slot] == UpdateFor(current, members[slot.recipient]))
  {
    hide UpdateFor;
  }

  lemma PutStep(mail: map<Slot, Update>, previous: Key, current: Credentials, members: map<Device, Capability>, subjects: seq<Device>, d: Device)
    requires current.access.epoch > 0 && d in members
    ensures var before := PutEach(mail, previous, current, members, subjects);
            PutEach(mail, previous, current, members, subjects + [d])
            == if Slot(previous, d) in before then before
               else before[Slot(previous, d) := UpdateFor(current, members[d])]
  {
    hide UpdateFor, PutEach;
    var before, after := PutEach(mail, previous, current, members, subjects), PutEach(mail, previous, current, members, subjects + [d]);
    var next := if Slot(previous, d) in before then before else before[Slot(previous, d) := UpdateFor(current, members[d])];
    forall slot
      ensures slot in after <==> slot in next
      ensures slot in after && slot in next ==> after[slot] == next[slot]
    {
      PutAt(mail, previous, current, members, subjects, slot);
      PutAt(mail, previous, current, members, subjects + [d], slot);
    }
    SameMail(after, next);
  }

  lemma SameMail(a: map<Slot, Update>, b: map<Slot, Update>)
    requires forall slot :: slot in a <==> slot in b
    requires forall slot :: slot in a && slot in b ==> a[slot] == b[slot]
    ensures a == b
  {}

  lemma PutNone(mail: map<Slot, Update>, previous: Key, current: Credentials, members: map<Device, Capability>)
    requires current.access.epoch > 0
    ensures PutEach(mail, previous, current, members, []) == mail
  {}

  lemma PutIsUpdates(mail: map<Slot, Update>, previous: Key, current: Credentials, members: map<Device, Capability>,
                     subjects: seq<Device>, reached: set<Device>)
    requires current.access.epoch > 0 && reached == set d | d in subjects
    ensures PutEach(mail, previous, current, members, subjects) == Updates(previous, current, Reached(members, reached)) + mail
  {}

  // The members that so many pushes get to, in their stable order.
  function FirstReached(members: set<Device>, pushes: nat): seq<Device> {
    var subjects := Rising(members);
    if |subjects| <= pushes then subjects else subjects[..pushes]
  }

  // One pushed object per current member, in their stable order, until the relay
  // fails after so many pushes.
  method PublishEach(mail: map<Slot, Update>, previous: Key, current: Credentials, members: map<Device, Capability>, pushes: nat)
    returns (filled: map<Slot, Update>, ghost reached: set<Device>)
    requires current.access.epoch > 0
    ensures filled == Updates(previous, current, Reached(members, reached)) + mail
    ensures reached == set d | d in FirstReached(members.Keys, pushes)
    ensures reached <= members.Keys && (|Rising(members.Keys)| <= pushes ==> reached == members.Keys)
  {
    hide UpdateFor, PutEach, Updates, Reached;
    var subjects := Rising(members.Keys);
    filled := mail;
    var i := 0;
    PutNone(mail, previous, current, members);
    while i < |subjects| && i < pushes
      invariant 0 <= i <= |subjects| && i <= pushes
      invariant filled == PutEach(mail, previous, current, members, subjects[..i])
    {
      var d := subjects[i];
      assert d in subjects && subjects[..i + 1] == subjects[..i] + [d];
      PutStep(mail, previous, current, members, subjects[..i], d);
      if Slot(previous, d) !in filled {
        filled := filled[Slot(previous, d) := UpdateFor(current, members[d])];
      }
      i := i + 1;
    }
    reached := set d | d in subjects[..i];
    PutIsUpdates(mail, previous, current, members, subjects[..i], reached);
    assert i == |subjects| ==> subjects[..i] == subjects;
    assert subjects[..i] == FirstReached(members.Keys, pushes);
  }

  // A publication that fails half-way has reached some of the members, and leaves
  // the world as sound as one that does not.
  method PublishUpdates(w: World, pushes: nat) returns (end: World, ghost reached: set<Device>)
    ensures end == Publish(w, reached)
    ensures |Rising(w.owner.members.Keys)| <= pushes ==> w.owner.members.Keys <= reached
    ensures WorldInv(w) ==> WorldInv(end)
    ensures WorldInv(w) && Epoch(w.owner) > 1 ==>
              && reached == (set d | d in FirstReached(w.owner.members.Keys, pushes))
              && Epoch(w.owner) - 1 in w.owner.keys
              && var previous := w.owner.keys[Epoch(w.owner) - 1];
                 forall d :: d in reached ==>
                   && Slot(previous, d) in end.mail
                   && (Slot(previous, d) !in w.mail ==>
                         end.mail[Slot(previous, d)]
                         == Update(Epoch(w.owner) - 1, Access(w.owner.device, Epoch(w.owner), w.owner.members[d]), w.owner.keys[Epoch(w.owner)]))
  {
    hide WorldInv, Updates, Reached, Rising, UpdateFor, FirstReached;
    end, reached := w, w.owner.members.Keys;
    if WorldInv(w) {
      OwnerOf(w);
    }
    match CredentialsOf(w.owner) {
      case Err(_) =>
      case Ok(None) =>
      case Ok(Some(current)) =>
        var epoch := current.access.epoch;
        if current.access.issuer == w.owner.device && epoch > 1 && epoch - 1 in w.owner.keys {
          var mail;
          mail, reached := PublishEach(w.mail, w.owner.keys[epoch - 1], current, w.owner.members, pushes);
          end := w.(mail := mail);
        }
    }
    if WorldInv(w) {
      PublishKeeps(w, reached);
      if Epoch(w.owner) > 1 {
        hide Publish;
        forall d | d in reached { PublishesExactly(w, reached, Slot(w.owner.keys[Epoch(w.owner) - 1], d)); }
      }
    }
  }

  // Pull, install, acknowledge, and on to the mailbox of the new key: the device
  // advances by as many epochs as are counted, was on the roster of every one of
  // them, and ends where nothing usable awaits it.
  method RefreshEpochs(w: World, d: Device, now: U64) returns (end: World, advanced: nat)
    requires WorldInv(w) && d in w.devices && w.devices[d].access.Some?
    ensures end == RefreshAll(w, d, now) && WorldInv(end) && WorldAdvances(w, end)
    ensures d in end.devices && end.devices[d].access.Some?
    ensures Epoch(end.devices[d]) == Epoch(w.devices[d]) + advanced
    ensures forall e: nat {:trigger RosterAt(w.rosters, e)} ::
      Epoch(w.devices[d]) < e <= Epoch(w.devices[d]) + advanced ==> d in RosterAt(w.rosters, e)
    ensures RefreshOnce(end, d, now).None?
  {
    hide WorldInv, WorldAdvances, RosterAt, RefreshOnce;
    RefreshKeeps(w, d, now);
    end, advanced := w, 0;
    var step := RefreshOnce(end, d, now);
    while step.Some?
      invariant step == RefreshOnce(end, d, now)
      invariant RefreshAll(end, d, now) == RefreshAll(w, d, now)
      invariant WorldInv(end) && end.rosters == w.rosters
      invariant d in end.devices && end.devices[d].access.Some?
      invariant Epoch(end.devices[d]) == Epoch(w.devices[d]) + advanced
      invariant forall e: nat {:trigger RosterAt(w.rosters, e)} ::
        Epoch(w.devices[d]) < e <= Epoch(w.devices[d]) + advanced ==> d in RosterAt(w.rosters, e)
      decreases |end.mail|
    {
      OnceKeeps(end, d, now);
      OnceShrinks(end, d, now);
      end := step.value;
      advanced := advanced + 1;
      step := RefreshOnce(end, d, now);
    }
  }
}
