// The user identity and the vault tables that keep it, updated in place.
module User {
  import opened Wrappers
  import opened Ids
  import opened UserEvents
  import opened UserChain
  import opened UserAuthority

  class UserIdentity {
    var id: UserId
    var devices: set<Device>
    var events: seq<Event>

    ghost function View(): Identity
      reads this
    {
      Identity(id, devices, events)
    }

    constructor (i: Identity)
      ensures View() == i
    {
      id, devices, events := i.id, i.devices, i.events;
    }

    // Appends the next event of the chain, or reports why not and changes nothing.
    method ApplyEvent(c: Crypto, e: Event) returns (error: Option<Error>)
      modifies this
      ensures error == ApplyError(c, old(View()), e)
      ensures error.None? ==> Apply(c, old(View()), e) == Ok(View())
      ensures error.Some? ==> View() == old(View())
      ensures old(Verified(c, View())) ==> Verified(c, View())
      ensures old(Verified(c, View())) ==> old(events) != [] && (error.None? <==> old(MayFollow(c, events, e)))
    {
      ghost var was := View();
      if Verified(c, was) {
        AppliesExactly(c, was, e);
      }
      hide MayFollow, FromEvents, Linked;
      if e.version != USER_VERSION || e.user != id || e.nonce.Some? {
        return Some(InvalidEvent);
      }
      if e.sequence < |events| {
        return if events[e.sequence] == e then Some(Duplicate) else Some(Fork);
      }
      if e.sequence > |events| {
        return Some(InvalidSequence);
      }
      if events == [] {
        return Some(MissingGenesis);
      }
      if e.previous != Digest(c, events[|events| - 1]) {
        return Some(Fork);
      }
      if e.actor !in devices {
        return Some(UnauthorizedActor);
      }
      if !c.verify(e.actor, SigningBytes(e), e.signature) {
        return Some(InvalidSignature);
      }
      match e.action {
        case Add(device) =>
          if device in devices {
            return Some(AlreadyLinked);
          }
          devices := devices + {device};
        case Remove(device) =>
          if device !in devices {
            return Some(NotLinked);
          }
          if |devices| == 1 {
            return Some(LastDevice);
          }
          devices := devices - {device};
      }
      events := events + [e];
      error := None;
      assert Apply(c, was, e) == Ok(View());
      if Verified(c, was) {
        ApplyKeepsVerified(c, was, e);
      }
    }
  }

  // Replays a history into a new identity, stopping at the first rejected event.
  method Replay(c: Crypto, history: seq<Event>) returns (error: Option<Error>, identity: UserIdentity?)
    ensures error.None? ==> identity != null && fresh(identity) && FromEvents(c, history) == Ok(identity.View())
    ensures error.Some? ==> identity == null && FromEvents(c, history) == Err(error.value)
    ensures error.None? <==> ValidHistory(c, history)
  {
    ReplaysExactly(c, history);
    hide ApplyAll, FromGenesis, Verified, ApplyError, ValidHistory;
    identity := null;
    var k := 0;
    while k < |history|
      invariant 0 <= k <= |history|
      invariant k == 0 <==> identity == null
      invariant identity != null ==> fresh(identity) && FromEvents(c, history[..k]) == Ok(identity.View())
    {
      var e := history[k];
      ReplayStep(c, history, k);
      if identity == null {
        var first := FromGenesis(c, e);
        if first.Err? {
          return Some(first.error), null;
        }
        identity := new UserIdentity(first.value);
      } else {
        error := identity.ApplyEvent(c, e);
        if error.Some? {
          return error, null;
        }
      }
      k := k + 1;
    }
    assert history[..k] == history;
    error := if identity == null then Some(MissingGenesis) else None;
  }

  class UserTables {
    const device: Device
    var user: Option<UserId>
    var rows: seq<Event>

    ghost function View(): UserVault
      reads this
    {
      UserVault(device, user, rows)
    }

    constructor (device: Device)
      ensures View() == UserVault(device, None, [])
    {
      this.device := device;
      user, rows := None, [];
    }

    // The verified identity of the stored chain.
    method LoadUser(c: Crypto) returns (error: Option<Error>, identity: UserIdentity?)
      ensures error.Some? ==> identity == null && Load(c, View()) == Err(error.value)
      ensures error.None? && identity == null ==> Load(c, View()) == Ok(None)
      ensures error.None? && identity != null ==> fresh(identity) && Load(c, View()) == Ok(Some(identity.View()))
    {
      if user.None? {
        return None, null;
      }
      var events := [];
      while |events| < |rows|
        invariant |events| <= |rows| && events == rows[..|events|]
        invariant forall e :: e in events ==> e.user == user.value
      {
        var e := rows[|events|];
        if e.user != user.value {
          return Some(ProtectedMaterial), null;
        }
        events := events + [e];
      }
      assert events == rows;
      error, identity := Replay(c, events);
    }

    method InstallUser(c: Crypto, incoming: UserIdentity) returns (error: Option<Error>)
      modifies this
      ensures error.Some? ==> Install(c, old(View()), old(incoming.View())) == Err(error.value) && View() == old(View())
      ensures error.None? ==> Install(c, old(View()), old(incoming.View())) == Ok(View())
    {
      var failed, local := LoadUser(c);
      if failed.Some? {
        return failed;
      }
      if local != null {
        return Some(UserAlreadyInitialized);
      }
      if device !in incoming.devices {
        return Some(SharePrincipalMismatch);
      }
      user := Some(incoming.id);
      rows := incoming.events;
      error := None;
    }

    method Append(c: Crypto, e: Event) returns (error: Option<Error>, identity: UserIdentity?)
      requires VaultInv(c, View())
      modifies this
      ensures VaultInv(c, View())
      ensures error.Some? ==> ApplyUserEvent(c, old(View()), e) == Err(error.value) && View() == old(View())
      ensures error.None? ==> identity != null && ApplyUserEvent(c, old(View()), e) == Ok(Updated(View(), identity.View()))
      ensures old(user).Some? ==> old(rows) != []
      ensures error.None? <==> old(user).Some? && MayFollow(c, old(rows), e)
    {
      ghost var was := View();
      StoresExactly(c, was, e);
      hide MayFollow;
      error, identity := LoadUser(c);
      if error.Some? {
        return;
      }
      if identity == null {
        return Some(MissingGenesis), null;
      }
      error := identity.ApplyEvent(c, e);
      if error.Some? {
        return;
      }
      rows := rows + [e];
      ApplyUserEventExactly(c, was, e);
    }

    // Adopts an extension of the local history.
    method ImportIdentity(c: Crypto, incoming: UserIdentity) returns (error: Option<Error>, identity: UserIdentity?)
      requires VaultInv(c, View()) && Verified(c, incoming.View())
      modifies this
      ensures VaultInv(c, View())
      ensures error.Some? ==> ImportUser(c, old(View()), old(incoming.View())) == Err(error.value) && View() == old(View())
      ensures error.None? ==>
                identity != null && ImportUser(c, old(View()), old(incoming.View())) == Ok(Updated(View(), identity.View()))
    {
      hide FromEvents, Diverges;
      ghost var was := View();
      ghost var theirs := incoming.View();
      error, identity := LoadUser(c);
      if error.Some? {
        return;
      }
      if identity == null {
        error := InstallUser(c, incoming);
        if error.None? {
          identity := incoming;
          ReplaySound(c, theirs.events);
        }
        return;
      }
      if identity.id != incoming.id || |incoming.events| < |identity.events| {
        return Some(Fork), identity;
      }
      var k := 0;
      while k < |identity.events|
        invariant 0 <= k <= |identity.events|
        invariant identity.events[..k] == incoming.events[..k]
      {
        if identity.events[k] != incoming.events[k] {
          DivergesAt(identity.events, incoming.events, k);
          return Some(Fork), identity;
        }
        k := k + 1;
      }
      assert !Diverges(identity.events, incoming.events) by {
        NotDivergingIsPrefix(identity.events, incoming.events);
      }
      ImportExactly(c, was, theirs);
      if |incoming.events| == |identity.events| {
        return;
      }
      rows := rows + incoming.events[|identity.events|..];
      identity := incoming;
    }
  }
}
