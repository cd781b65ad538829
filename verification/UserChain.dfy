// A user's verified device chain: replay, extension, forks and import.
module UserChain {
  import opened Wrappers
  import opened Ids
  import opened UserEvents

  // The hash and the signature scheme. Nothing is assumed of the hash: it has
  // far fewer values than inputs.
  datatype Crypto = Crypto(
    hash: Octets -> Hash32,
    verify: (Device, Octets, Octets) -> bool,
    sign: (Device, Octets) -> Octets)

  ghost predicate SignaturesVerify(c: Crypto) {
    forall d, m {:trigger c.sign(d, m)} :: c.verify(d, m, c.sign(d, m))
  }

  function Digest(c: Crypto, e: Event): Hash32 {
    c.hash(DigestInput(e))
  }

  function UserIdInput(device: Device, nonce: Nonce16): Octets {
    USER_DOMAIN + device + nonce
  }

  function DeriveUserId(c: Crypto, device: Device, nonce: Nonce16): UserId {
    c.hash(UserIdInput(device, nonce))
  }

  // A user's name is derived from its first device and its nonce, and from nothing
  // else under its domain.
  lemma UserIdInputInjective(device: Device, nonce: Nonce16, other: Device, others: Nonce16)
    ensures UserIdInput(device, nonce) == UserIdInput(other, others) <==> device == other && nonce == others
    ensures |UserIdInput(device, nonce)| == |USER_DOMAIN| + 48 && USER_DOMAIN <= UserIdInput(device, nonce)
  {
    if UserIdInput(device, nonce) == UserIdInput(other, others) {
      SplitSame(USER_DOMAIN + device, nonce, USER_DOMAIN + other, others);
      SplitSame(USER_DOMAIN, device, USER_DOMAIN, other);
    }
  }

  datatype Identity = Identity(id: UserId, devices: set<Device>, events: seq<Event>)

  datatype Error =
    | MissingGenesis | InvalidEvent | InvalidSequence | Duplicate | Fork | InvalidSignature
    | UnauthorizedActor | AlreadyLinked | NotLinked | LastDevice
    | UserAlreadyInitialized | SharePrincipalMismatch | ProtectedMaterial

  // ---- verification ----

  function FromGenesis(c: Crypto, e: Event): Result<Identity, Error> {
    if !e.action.Add? then Err(InvalidEvent)
    else if e.nonce.None? then Err(MissingGenesis)
    else if e.version != USER_VERSION || e.sequence != 0 || e.previous != NO_PREDECESSOR || e.actor != e.action.device
            || e.user != DeriveUserId(c, e.action.device, e.nonce.value) then Err(InvalidEvent)
    else if !c.verify(e.action.device, SigningBytes(e), e.signature) then Err(InvalidSignature)
    else Ok(Identity(e.user, {e.action.device}, [e]))
  }

  function ActionError(devices: set<Device>, action: Action): Option<Error> {
    match action
    case Add(device) => if device in devices then Some(AlreadyLinked) else None
    case Remove(device) =>
      if device !in devices then Some(NotLinked) else if |devices| == 1 then Some(LastDevice) else None
  }

  function ApplyError(c: Crypto, i: Identity, e: Event): Option<Error> {
    if e.version != USER_VERSION || e.user != i.id || e.nonce.Some? then Some(InvalidEvent)
    else if e.sequence < |i.events| then
      if i.events[e.sequence] == e then Some(Duplicate) else Some(Fork)
    else if e.sequence > |i.events| then Some(InvalidSequence)
    else if i.events == [] then Some(MissingGenesis)
    else if e.previous != Digest(c, i.events[|i.events| - 1]) then Some(Fork)
    else if e.actor !in i.devices then Some(UnauthorizedActor)
    else if !c.verify(e.actor, SigningBytes(e), e.signature) then Some(InvalidSignature)
    else ActionError(i.devices, e.action)
  }

  function DevicesAfter(devices: set<Device>, action: Action): set<Device> {
    if action.Add? then devices + {action.device} else devices - {action.device}
  }

  function Apply(c: Crypto, i: Identity, e: Event): Result<Identity, Error> {
    match ApplyError(c, i, e)
    case Some(error) => Err(error)
    case None => Ok(Identity(i.id, DevicesAfter(i.devices, e.action), i.events + [e]))
  }

  function ApplyAll(c: Crypto, i: Identity, events: seq<Event>): Result<Identity, Error>
    decreases |events|
  {
    if events == [] then Ok(i)
    else
      match Apply(c, i, events[0])
      case Err(e) => Err(e)
      case Ok(next) => ApplyAll(c, next, events[1..])
  }

  function FromEvents(c: Crypto, events: seq<Event>): Result<Identity, Error> {
    if events == [] then Err(MissingGenesis)
    else
      match FromGenesis(c, events[0])
      case Err(e) => Err(e)
      case Ok(first) => ApplyAll(c, first, events[1..])
  }

  // ---- issuing ----

  // The signed root of a new user.
  function Genesis(c: Crypto, device: Device, nonce: Nonce16): Event {
    var e := Event(USER_VERSION, DeriveUserId(c, device, nonce), 0, NO_PREDECESSOR, Some(nonce), Add(device), device, []);
    e.(signature := c.sign(device, SigningBytes(e)))
  }

  function Unsigned(c: Crypto, i: Identity, actor: Device, action: Action): Event
    requires i.events != [] && |i.events| <= U64_MAX
  {
    Event(USER_VERSION, i.id, |i.events|, Digest(c, i.events[|i.events| - 1]), None, action, actor, [])
  }

  function Issue(c: Crypto, i: Identity, actor: Device, action: Action): Result<Event, Error>
    requires i.events != [] && |i.events| <= U64_MAX
  {
    if actor !in i.devices then Err(UnauthorizedActor)
    else
      var e := Unsigned(c, i, actor, action);
      Ok(e.(signature := c.sign(actor, SigningBytes(e))))
  }

  function LinkDevice(c: Crypto, i: Identity, actor: Device, device: Device): Result<Event, Error>
    requires i.events != [] && |i.events| <= U64_MAX
  {
    if device in i.devices then Err(AlreadyLinked) else Issue(c, i, actor, Add(device))
  }

  function RemoveDevice(c: Crypto, i: Identity, actor: Device, device: Device): Result<Event, Error>
    requires i.events != [] && |i.events| <= U64_MAX
  {
    if device !in i.devices then Err(NotLinked)
    else if |i.devices| == 1 then Err(LastDevice)
    else Issue(c, i, actor, Remove(device))
  }

  // ---- a verified identity ----

  // It equals the replay of its own events.
  ghost predicate Verified(c: Crypto, i: Identity) {
    FromEvents(c, i.events) == Ok(i)
  }

  // What every verified identity satisfies.
  ghost predicate Sound(c: Crypto, i: Identity) {
    && i.events != [] && i.devices != {}
    && (forall k :: 0 <= k < |i.events| ==> i.events[k].sequence == k && i.events[k].user == i.id)
    && i.events[0].previous == NO_PREDECESSOR
    && (forall k :: 0 < k < |i.events| ==> i.events[k].previous == Digest(c, i.events[k - 1]))
  }

  lemma GenesisSound(c: Crypto, e: Event)
    requires FromGenesis(c, e).Ok?
    ensures Sound(c, FromGenesis(c, e).value) && FromGenesis(c, e).value.events == [e]
  {}

  lemma SizeOne(devices: set<Device>, d: Device)
    requires d in devices && devices - {d} == {}
    ensures |devices| == 1
  {
    assert devices == {d};
  }

  lemma ApplySound(c: Crypto, i: Identity, e: Event)
    requires Sound(c, i) && Apply(c, i, e).Ok?
    ensures Sound(c, Apply(c, i, e).value) && Apply(c, i, e).value.events == i.events + [e]
    ensures Apply(c, i, e).value.id == i.id
  {
    if e.action.Remove? && i.devices - {e.action.device} == {} {
      SizeOne(i.devices, e.action.device);
    }
  }

  lemma {:induction false} ApplyAllSound(c: Crypto, i: Identity, events: seq<Event>)
    requires Sound(c, i) && ApplyAll(c, i, events).Ok?
    ensures var r := ApplyAll(c, i, events).value; Sound(c, r) && r.events == i.events + events && r.id == i.id
    decreases |events|
  {
    hide Sound, Apply;
    if events == [] {
      assert i.events + [] == i.events;
    } else {
      ApplySound(c, i, events[0]);
      var next := Apply(c, i, events[0]).value;
      ApplyAllSound(c, next, events[1..]);
      assert i.events + events == i.events + [events[0]] + events[1..];
    }
  }

  // Replaying a history yields an identity with exactly that history, at least
  // one device, contiguous positions and linked digests.
  lemma ReplaySound(c: Crypto, events: seq<Event>)
    requires FromEvents(c, events).Ok?
    ensures Sound(c, FromEvents(c, events).value) && FromEvents(c, events).value.events == events
    ensures Verified(c, FromEvents(c, events).value)
  {
    hide Sound, FromGenesis;
    GenesisSound(c, events[0]);
    ApplyAllSound(c, FromGenesis(c, events[0]).value, events[1..]);
    assert [events[0]] + events[1..] == events;
  }

  lemma {:induction false} ApplyAllSplits(c: Crypto, i: Identity, first: seq<Event>, rest: seq<Event>)
    ensures ApplyAll(c, i, first + rest) ==
            if ApplyAll(c, i, first).Ok? then ApplyAll(c, ApplyAll(c, i, first).value, rest) else ApplyAll(c, i, first)
    decreases |first|
  {
    hide Apply;
    if first == [] {
      assert first + rest == rest;
    } else {
      assert (first + rest)[1..] == first[1..] + rest && (first + rest)[0] == first[0];
      if Apply(c, i, first[0]).Ok? {
        ApplyAllSplits(c, Apply(c, i, first[0]).value, first[1..], rest);
      }
    }
  }

  // Extending a history is replaying the extended history.
  lemma ReplayExtends(c: Crypto, first: seq<Event>, rest: seq<Event>)
    requires first != []
    ensures FromEvents(c, first + rest) ==
            if FromEvents(c, first).Ok? then ApplyAll(c, FromEvents(c, first).value, rest) else FromEvents(c, first)
  {
    hide FromGenesis;
    assert (first + rest)[0] == first[0] && (first + rest)[1..] == first[1..] + rest;
    if FromGenesis(c, first[0]).Ok? {
      ApplyAllSplits(c, FromGenesis(c, first[0]).value, first[1..], rest);
    }
  }

  // A history replays up to its first rejected event, one event at a time.
  lemma ReplayStep(c: Crypto, history: seq<Event>, k: nat)
    requires k < |history|
    ensures FromEvents(c, history[..k + 1]) ==
            if k == 0 then FromGenesis(c, history[0])
            else if FromEvents(c, history[..k]).Ok? then Apply(c, FromEvents(c, history[..k]).value, history[k])
            else FromEvents(c, history[..k])
    ensures FromEvents(c, history[..k + 1]).Err? ==> FromEvents(c, history) == FromEvents(c, history[..k + 1])
  {
    hide FromGenesis, Apply;
    var e := history[k];
    assert history[..k + 1] == history[..k] + [e];
    assert history == history[..k + 1] + history[k + 1..];
    ReplayExtends(c, history[..k + 1], history[k + 1..]);
    if k == 0 {
      assert history[..k + 1] == [e] && [e][1..] == [];
    } else {
      ReplayExtends(c, history[..k], [e]);
      if FromEvents(c, history[..k]).Ok? {
        OneEvent(c, FromEvents(c, history[..k]).value, e);
      }
    }
  }

  lemma OneEvent(c: Crypto, i: Identity, e: Event)
    ensures ApplyAll(c, i, [e]) == Apply(c, i, e)
  {
    hide Apply;
    assert [e][1..] == [];
    if Apply(c, i, e).Ok? {
      assert ApplyAll(c, Apply(c, i, e).value, []) == Apply(c, i, e);
    }
  }

  // An applied event keeps an identity the replay of its own events.
  lemma ApplyKeepsVerified(c: Crypto, i: Identity, e: Event)
    requires Verified(c, i) && Apply(c, i, e).Ok?
    ensures Verified(c, Apply(c, i, e).value)
    ensures Apply(c, i, e).value.events == i.events + [e] && Apply(c, i, e).value.devices != {}
  {
    ReplaySound(c, i.events);
    ReplayExtends(c, i.events, [e]);
    ApplySound(c, i, e);
    assert [e][1..] == [];
    assert ApplyAll(c, Apply(c, i, e).value, []) == Ok(Apply(c, i, e).value);
  }

  // ---- issued events take effect ----

  // A fresh root verifies and has its creator as the only device.
  lemma GenesisVerifies(c: Crypto, device: Device, nonce: Nonce16)
    requires SignaturesVerify(c)
    ensures FromEvents(c, [Genesis(c, device, nonce)])
         == Ok(Identity(DeriveUserId(c, device, nonce), {device}, [Genesis(c, device, nonce)]))
  {
    var e := Genesis(c, device, nonce);
    assert SigningBytes(e) == SigningBytes(e.(signature := []));
    assert FromGenesis(c, e) == Ok(Identity(DeriveUserId(c, device, nonce), {device}, [e]));
    assert [e][1..] == [];
  }

  lemma IssuedApplies(c: Crypto, i: Identity, actor: Device, action: Action)
    requires Verified(c, i) && SignaturesVerify(c) && |i.events| < U64_MAX
    requires actor in i.devices && ActionError(i.devices, action).None?
    ensures i.events != []
    ensures Issue(c, i, actor, action).Ok?
    ensures Apply(c, i, Issue(c, i, actor, action).value)
         == Ok(Identity(i.id, DevicesAfter(i.devices, action), i.events + [Issue(c, i, actor, action).value]))
  {
    ReplaySound(c, i.events);
    var e := Issue(c, i, actor, action).value;
    assert SigningBytes(e) == SigningBytes(Unsigned(c, i, actor, action));
  }

  // A linked device can link exactly the devices not linked yet, and remove
  // exactly linked devices other than the last; either takes effect.
  lemma LinkTakesEffect(c: Crypto, i: Identity, actor: Device, device: Device)
    requires Verified(c, i) && SignaturesVerify(c) && |i.events| < U64_MAX
    ensures i.events != []
    ensures LinkDevice(c, i, actor, device).Ok? <==> actor in i.devices && device !in i.devices
    ensures LinkDevice(c, i, actor, device) == Err(AlreadyLinked) <==> device in i.devices
    ensures LinkDevice(c, i, actor, device).Ok? ==>
              Apply(c, i, LinkDevice(c, i, actor, device).value).Ok?
              && Apply(c, i, LinkDevice(c, i, actor, device).value).value.devices == i.devices + {device}
  {
    hide SigningBytes;
    ReplaySound(c, i.events);
    if actor in i.devices && device !in i.devices {
      IssuedApplies(c, i, actor, Add(device));
    }
  }

  lemma RemovalTakesEffect(c: Crypto, i: Identity, actor: Device, device: Device)
    requires Verified(c, i) && SignaturesVerify(c) && |i.events| < U64_MAX
    ensures i.events != []
    ensures RemoveDevice(c, i, actor, device).Ok? <==> actor in i.devices && device in i.devices && i.devices != {device}
    ensures RemoveDevice(c, i, actor, device) == Err(NotLinked) <==> device !in i.devices
    ensures RemoveDevice(c, i, actor, device) == Err(LastDevice) <==> i.devices == {device}
    ensures RemoveDevice(c, i, actor, device).Ok? ==>
              Apply(c, i, RemoveDevice(c, i, actor, device).value).Ok?
              && Apply(c, i, RemoveDevice(c, i, actor, device).value).value.devices == i.devices - {device}
  {
    hide SigningBytes;
    ReplaySound(c, i.events);
    assert device in i.devices && |i.devices| == 1 ==> i.devices == {device} by {
      if device in i.devices && |i.devices| == 1 {
        assert |i.devices - {device}| == 0;
      }
    }
    if actor in i.devices && device in i.devices && i.devices != {device} {
      IssuedApplies(c, i, actor, Remove(device));
    }
  }

  // Of two different events for one position, whichever comes second is a fork.
  lemma CompetitorForks(c: Crypto, i: Identity, e: Event, other: Event)
    requires Verified(c, i) && Apply(c, i, e).Ok? && Apply(c, i, other).Ok? && e != other
    ensures Apply(c, Apply(c, i, e).value, other) == Err(Fork)
    ensures Apply(c, Apply(c, i, e).value, e) == Err(Duplicate)
  {}

  // ---- one head, one history ----

  // Two events that hash alike although their encodings differ.
  predicate Collides(c: Crypto, x: Event, y: Event) {
    Digest(c, x) == Digest(c, y) && DigestInput(x) != DigestInput(y)
  }

  // Some event of the one history and some event of the other do.
  ghost predicate HistoriesCollide(c: Crypto, a: seq<Event>, b: seq<Event>) {
    exists x, y :: x in a && y in b && Collides(c, x, y)
  }

  lemma SameDigest(c: Crypto, x: Event, y: Event)
    requires Digest(c, x) == Digest(c, y)
    ensures x == y || Collides(c, x, y)
  {
    hide DigestInput;
    if DigestInput(x) == DigestInput(y) {
      DigestInputInjective(x, y);
    }
  }

  // Chains that agree on the digest at one position agree up to it, or two of
  // their events collide.
  lemma {:induction false} ChainsAgree(c: Crypto, a: Identity, b: Identity, k: nat)
    requires Sound(c, a) && Sound(c, b)
    requires k < |a.events| && k < |b.events|
    requires Digest(c, a.events[k]) == Digest(c, b.events[k])
    ensures a.events[..k + 1] == b.events[..k + 1] || HistoriesCollide(c, a.events, b.events)
    decreases k
  {
    hide DigestInput, Collides;
    SameDigest(c, a.events[k], b.events[k]);
    if !Collides(c, a.events[k], b.events[k]) {
      if k > 0 {
        ChainsAgree(c, a, b, k - 1);
      }
      assert a.events[..k + 1] == a.events[..k] + [a.events[k]];
      assert b.events[..k + 1] == b.events[..k] + [b.events[k]];
    }
  }

  // Two verified chains with the same head digest are the same identity, unless
  // an event of one collides with an event of the other.
  lemma HeadDeterminesIdentity(c: Crypto, a: Identity, b: Identity)
    requires Verified(c, a) && Verified(c, b)
    ensures a.events != [] && b.events != []
    ensures Digest(c, a.events[|a.events| - 1]) == Digest(c, b.events[|b.events| - 1]) ==>
              a == b || HistoriesCollide(c, a.events, b.events)
  {
    hide DigestInput, Collides;
    ReplaySound(c, a.events);
    ReplaySound(c, b.events);
    var m, n := |a.events| - 1, |b.events| - 1;
    if Digest(c, a.events[m]) == Digest(c, b.events[n]) {
      SameDigest(c, a.events[m], b.events[n]);
      if a.events[m] == b.events[n] {
        ChainsAgree(c, a, b, m);
        assert a.events[..m + 1] == a.events && b.events[..m + 1] == b.events;
      }
    }
  }

  // Under a hash with one value, two users that start from different nonces are
  // different identities with the same head: the collision is what tells them
  // apart.
  lemma ConstantHashForks(device: Device) returns (c: Crypto, a: Identity, b: Identity)
    ensures SignaturesVerify(c) && Verified(c, a) && Verified(c, b) && a != b
    ensures a.events != [] && b.events != []
    ensures Digest(c, a.events[|a.events| - 1]) == Digest(c, b.events[|b.events| - 1])
    ensures HistoriesCollide(c, a.events, b.events)
  {
    hide DigestInput;
    c := Crypto((_: Octets) => NO_PREDECESSOR, (_: Device, _: Octets, _: Octets) => true, (_: Device, _: Octets) => []);
    var first: Nonce16, second: Nonce16 := seq(16, _ => 0), seq(16, _ => 1);
    assert first[0] != second[0];
    GenesisVerifies(c, device, first);
    GenesisVerifies(c, device, second);
    a := FromEvents(c, [Genesis(c, device, first)]).value;
    b := FromEvents(c, [Genesis(c, device, second)]).value;
    HeadDeterminesIdentity(c, a, b);
  }

  // Two different verified chains without a collision, so with different heads:
  // a hash that tells one root from every other input.
  lemma DistinctHeads(device: Device) returns (c: Crypto, a: Identity, b: Identity)
    ensures SignaturesVerify(c) && Verified(c, a) && Verified(c, b) && a != b
    ensures !HistoriesCollide(c, a.events, b.events)
  {
    var first: Nonce16, second: Nonce16 := seq(16, _ => 0), seq(16, _ => 1);
    assert first[0] != second[0];
    var one: Hash32 := seq(32, _ => 1);
    assert one[0] != NO_PREDECESSOR[0];
    var root := Event(USER_VERSION, NO_PREDECESSOR, 0, NO_PREDECESSOR, Some(first), Add(device), device, []);
    var told := DigestInput(root);
    c := Crypto((o: Octets) => if o == told then one else NO_PREDECESSOR,
                (_: Device, _: Octets, _: Octets) => true, (_: Device, _: Octets) => []);
    RootIsLonger(root, USER_DOMAIN + device + first);
    assert Genesis(c, device, first) == root;
    var other := Genesis(c, device, second);
    if DigestInput(other) == told {
      DigestInputInjective(other, root);
    }
    hide DigestInput, DeriveUserId, Genesis;
    GenesisVerifies(c, device, first);
    GenesisVerifies(c, device, second);
    a := FromEvents(c, [root]).value;
    b := FromEvents(c, [other]).value;
  }

  lemma RootIsLonger(e: Event, short: Octets)
    requires |short| <= 70
    ensures DigestInput(e) != short
  {
    HeaderLength(e);
  }

  // ---- the vault's user ----

  // `rows` are the stored events in order; an empty vault has no user.
  datatype UserVault = UserVault(device: Device, user: Option<UserId>, rows: seq<Event>)

  ghost predicate VaultInv(c: Crypto, v: UserVault) {
    match v.user
    case None => v.rows == []
    case Some(id) => FromEvents(c, v.rows).Ok? && FromEvents(c, v.rows).value.id == id
  }

  function Load(c: Crypto, v: UserVault): Result<Option<Identity>, Error> {
    if v.user.None? then Ok(None)
    else if exists e :: e in v.rows && e.user != v.user.value then Err(ProtectedMaterial)
    else
      match FromEvents(c, v.rows)
      case Ok(i) => Ok(Some(i))
      case Err(e) => Err(e)
  }

  function Install(c: Crypto, v: UserVault, i: Identity): Result<UserVault, Error> {
    var loaded := Load(c, v);
    if loaded.Err? then Err(loaded.error)
    else if loaded.value.Some? then Err(UserAlreadyInitialized)
    else if v.device !in i.devices then Err(SharePrincipalMismatch)
    else Ok(v.(user := Some(i.id), rows := i.events))
  }

  datatype Updated = Updated(vault: UserVault, identity: Identity)

  function ApplyUserEvent(c: Crypto, v: UserVault, e: Event): Result<Updated, Error> {
    var loaded := Load(c, v);
    if loaded.Err? then Err(loaded.error)
    else if loaded.value.None? then Err(MissingGenesis)
    else
      var next := Apply(c, loaded.value.value, e);
      if next.Err? then Err(next.error) else Ok(Updated(v.(rows := v.rows + [e]), next.value))
  }

  predicate Diverges(local: seq<Event>, incoming: seq<Event>) {
    exists k :: 0 <= k < |local| && k < |incoming| && local[k] != incoming[k]
  }

  function ImportUser(c: Crypto, v: UserVault, incoming: Identity): Result<Updated, Error> {
    var loaded := Load(c, v);
    if loaded.Err? then Err(loaded.error)
    else if loaded.value.None? then
      var installed := Install(c, v, incoming);
      if installed.Err? then Err(installed.error) else Ok(Updated(installed.value, incoming))
    else
      var current := loaded.value.value;
      if current.id != incoming.id || |incoming.events| < |current.events| then Err(Fork)
      else if Diverges(current.events, incoming.events) then Err(Fork)
      else if |incoming.events| == |current.events| then Ok(Updated(v, current))
      else Ok(Updated(v.(rows := v.rows + incoming.events[|current.events|..]), incoming))
  }

  // A sound vault loads the replay of its rows.
  lemma LoadsReplay(c: Crypto, v: UserVault)
    requires VaultInv(c, v)
    ensures Load(c, v).Ok?
    ensures v.user.Some? ==> Load(c, v).value.Some? && Verified(c, Load(c, v).value.value) && Load(c, v).value.value.events == v.rows
    ensures v.user.None? ==> Load(c, v).value.None?
  {
    if v.user.Some? {
      hide FromEvents;
      ReplaySound(c, v.rows);
      forall e | e in v.rows ensures e.user == v.user.value {
        var k :| 0 <= k < |v.rows| && v.rows[k] == e;
      }
    }
  }

  lemma NotDivergingIsPrefix(local: seq<Event>, incoming: seq<Event>)
    requires |local| <= |incoming|
    ensures !Diverges(local, incoming) <==> local <= incoming
  {
    if !Diverges(local, incoming) {
      assert forall k :: 0 <= k < |local| ==> local[k] == incoming[k];
    }
  }

  lemma DivergesAt(local: seq<Event>, incoming: seq<Event>, k: nat)
    requires k < |local| && k < |incoming| && local[k] != incoming[k]
    ensures Diverges(local, incoming)
  {}

  // An import succeeds exactly for an extension of the local history, which it
  // then adopts; every divergence is reported as a fork.
  lemma ImportExactly(c: Crypto, v: UserVault, incoming: Identity)
    requires VaultInv(c, v) && v.user.Some? && Verified(c, incoming)
    ensures ImportUser(c, v, incoming).Ok? <==> v.rows <= incoming.events
    ensures ImportUser(c, v, incoming).Err? ==> ImportUser(c, v, incoming).error == Fork
    ensures ImportUser(c, v, incoming).Ok? ==>
              var Updated(next, identity) := ImportUser(c, v, incoming).value;
              && identity == incoming && next.rows == incoming.events && next.user == v.user && VaultInv(c, next)
  {
    hide Diverges;
    LoadsReplay(c, v);
    ReplaySound(c, v.rows);
    ReplaySound(c, incoming.events);
    var current := Load(c, v).value.value;
    hide FromEvents;
    if |v.rows| <= |incoming.events| {
      NotDivergingIsPrefix(v.rows, incoming.events);
      if v.rows <= incoming.events {
        assert v.rows[0] == incoming.events[0];
        assert v.rows + incoming.events[|v.rows|..] == incoming.events;
        if |v.rows| == |incoming.events| {
          assert v.rows == incoming.events;
        }
      }
    }
  }

  // Divergent histories of one user are refused in both directions.
  lemma DivergenceIsMutual(c: Crypto, v: UserVault, w: UserVault)
    requires VaultInv(c, v) && VaultInv(c, w) && v.user.Some? && w.user.Some?
    requires !(v.rows <= w.rows) && !(w.rows <= v.rows)
    ensures Load(c, v).Ok? && Load(c, w).Ok? && Load(c, v).value.Some? && Load(c, w).value.Some?
    ensures ImportUser(c, v, Load(c, w).value.value) == Err(Fork)
    ensures ImportUser(c, w, Load(c, v).value.value) == Err(Fork)
  {
    hide Load, ImportUser, FromEvents;
    LoadsReplay(c, v);
    LoadsReplay(c, w);
    ImportExactly(c, v, Load(c, w).value.value);
    ImportExactly(c, w, Load(c, v).value.value);
  }

  // A stored event makes the vault load the identity it produced; a rejected
  // event leaves no trace.
  lemma ApplyUserEventExactly(c: Crypto, v: UserVault, e: Event)
    requires VaultInv(c, v)
    ensures ApplyUserEvent(c, v, e).Ok? ==>
              var Updated(next, identity) := ApplyUserEvent(c, v, e).value;
              VaultInv(c, next) && Load(c, next) == Ok(Some(identity)) && next.rows == v.rows + [e]
    ensures ApplyUserEvent(c, v, e).Ok? <==>
              v.user.Some? && Load(c, v).Ok? && Load(c, v).value.Some? && ApplyError(c, Load(c, v).value.value, e).None?
  {
    LoadsReplay(c, v);
    if ApplyUserEvent(c, v, e).Ok? {
      var i := Load(c, v).value.value;
      ApplyKeepsVerified(c, i, e);
      var next := ApplyUserEvent(c, v, e).value;
      hide FromEvents, Apply;
      assert VaultInv(c, next.vault);
      LoadsReplay(c, next.vault);
    }
  }
}
