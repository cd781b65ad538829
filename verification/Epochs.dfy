// Key epochs of one shared space across its owner, its members and the relay:
// rotation, publication, direct refresh and relay refresh.
module Epochs {
  import opened Wrappers
  import opened Ids
  import opened VaultState

  // A signed update as one member's epoch mailbox carries it. The mailbox is
  // derived from the preceding key and the recipient.
  datatype Update = Update(previous: U64, access: Access, key: Key)
  datatype Slot = Slot(key: Key, recipient: Device)

  // A redeemed share on its way to its subject.
  datatype Grant = Grant(access: Access, key: Key)

  // `rosters` records who was ever a member during each epoch.
  datatype World = World(
    owner: Vault,
    devices: map<Device, Vault>,
    mail: map<Slot, Update>,
    grants: set<Grant>,
    rosters: map<U64, set<Device>>)

  datatype Event =
    | Rotated(revoked: seq<Device>, key: Key, now: U64)
    | Offered(invite: Invite)
    | Joined(invite: Invite, subject: Device, now: U64)
    | Received(device: Device, grant: Grant, now: U64)
    | Direct(device: Device, now: U64)
    | Published(reached: set<Device>)
    | Turned(device: Device, now: U64)
    | Interrupted(device: Device, now: U64)
    | Refreshed(device: Device, now: U64)
    | Expired(slot: Slot)

  function Epoch(v: Vault): U64
    requires v.access.Some?
  {
    v.access.value.epoch
  }

  // ---- publishing ----

  function UpdateFor(current: Credentials, member: Capability): Update
    requires current.access.epoch > 0
  {
    Update(current.access.epoch - 1, Access(current.access.issuer, current.access.epoch, member), current.key)
  }

  function Updates(previous: Key, current: Credentials, members: map<Device, Capability>): (r: map<Slot, Update>)
    requires current.access.epoch > 0
    ensures forall slot :: slot in r <==> slot.key == previous && slot.recipient in members
    ensures forall slot :: slot in r ==> r[slot] == UpdateFor(current, members[slot.recipient])
  {
    map d | d in members :: Slot(previous, d) := UpdateFor(current, members[d])
  }

  // The members a publication gets to before the relay fails, if it does.
  function Reached(members: map<Device, Capability>, reached: set<Device>): map<Device, Capability> {
    map d | d in members && d in reached :: members[d]
  }

  // One update for each member reached; a slot already filled is left alone.
  function Publish(w: World, reached: set<Device>): World {
    match CredentialsOf(w.owner)
    case Ok(Some(current)) =>
      var epoch := current.access.epoch;
      if current.access.issuer != w.owner.device || epoch <= 1 || epoch - 1 !in w.owner.keys then w
      else
        w.(mail := Updates(w.owner.keys[epoch - 1], current, Reached(w.owner.members, reached)) + w.mail)
    case _ => w
  }

  // ---- refreshing through the relay ----

  predicate Acceptable(v: Vault, u: Update, now: U64)
    requires v.access.Some?
  {
    && u.previous == Epoch(v)
    && u.access.issuer == v.access.value.issuer
    && u.access.epoch == Epoch(v) + 1
    && u.access.capability.subject == v.device
    && Authorized(u.access.capability, u.access.issuer, u.access.epoch, v.device, now)
  }

  // One turn of the refresh loop; none when it stops.
  function RefreshOnce(w: World, d: Device, now: U64): Option<World> {
    if d !in w.devices || CredentialsOf(w.devices[d]).Err? then None
    else
      var v := w.devices[d];
      match CredentialsOf(v).value
      case None => None
      case Some(current) =>
        var slot := Slot(current.key, d);
        if slot !in w.mail || !Acceptable(v, w.mail[slot], now) then None
        else
          match AcceptEpoch(v, w.owner.device, w.mail[slot].access, w.mail[slot].key, now)
          case Err(_) => None
          case Ok(next) => Some(w.(devices := w.devices[d := next], mail := w.mail - {slot}))
  }

  lemma TakenShrinks(mail: map<Slot, Update>, slot: Slot)
    requires slot in mail
    ensures |mail - {slot}| < |mail|
  {
    assert (mail - {slot}).Keys == mail.Keys - {slot};
    assert |(mail - {slot}).Keys| == |mail.Keys| - 1;
  }

  lemma OnceShrinks(w: World, d: Device, now: U64)
    requires RefreshOnce(w, d, now).Some?
    ensures |RefreshOnce(w, d, now).value.mail| < |w.mail|
  {
    var slot := Slot(w.devices[d].keys[Epoch(w.devices[d])], d);
    TakenShrinks(w.mail, slot);
  }

  function RefreshAll(w: World, d: Device, now: U64): World
    decreases |w.mail|
  {
    match RefreshOnce(w, d, now)
    case None => w
    case Some(next) =>
      OnceShrinks(w, d, now);
      RefreshAll(next, d, now)
  }

  // ---- refreshing directly with the owner ----

  // The owner answers a retained member with its current grant and key.
  function DirectRefresh(w: World, d: Device, now: U64): World {
    if d !in w.devices || w.devices[d].access.None? || w.owner.access.None? || d !in w.owner.members then w
    else if Epoch(w.devices[d]) >= Epoch(w.owner) || Epoch(w.owner) !in w.owner.keys then w
    else
      var a := Access(w.owner.access.value.issuer, Epoch(w.owner), w.owner.members[d]);
      if !Authorized(a.capability, a.issuer, a.epoch, d, now) then w
      else
        match AcceptEpoch(w.devices[d], w.owner.device, a, w.owner.keys[Epoch(w.owner)], now)
        case Err(_) => w
        case Ok(next) => w.(devices := w.devices[d := next])
  }

  // ---- steps ----

  function AfterRotation(w: World, next: Vault): World
    requires next.access.Some?
  {
    w.(owner := next, rosters := w.rosters[Epoch(next) := next.members.Keys])
  }

  function RosterAt(rosters: map<U64, set<Device>>, epoch: nat): set<Device> {
    if epoch <= U64_MAX && epoch in rosters then rosters[epoch] else {}
  }

  function React(w: World, e: Event): World {
    match e
    case Rotated(revoked, key, now) =>
      var r := Rotate(w.owner, revoked, key, now);
      if r.Ok? && r.value.access.Some? then AfterRotation(w, r.value) else w
    case Offered(invite) =>
      var r := RecordOffer(w.owner, invite);
      if r.Ok? then w.(owner := r.value) else w
    case Joined(invite, subject, now) =>
      var r := Redeem(w.owner, invite, subject, now);
      if r.Ok? && invite.epoch in w.owner.keys then
        w.(owner := r.value.vault,
           grants := w.grants + {Grant(Access(w.owner.device, invite.epoch, r.value.capability), w.owner.keys[invite.epoch])},
           rosters := w.rosters[invite.epoch := RosterAt(w.rosters, invite.epoch) + {subject}])
      else w
    case Received(d, grant, now) =>
      if d in w.devices && grant in w.grants then
        var r := AcceptShared(w.devices[d], w.owner.device, grant.access, grant.key, now);
        if r.Ok? then w.(devices := w.devices[d := r.value]) else w
      else w
    case Direct(d, now) => DirectRefresh(w, d, now)
    case Published(reached) => Publish(w, reached)
    case Turned(d, now) =>
      var r := RefreshOnce(w, d, now);
      if r.Some? then r.value else w
    case Interrupted(d, now) =>
      // The update is installed, but a crash comes before its acknowledgement.
      var r := RefreshOnce(w, d, now);
      if r.Some? then r.value.(mail := w.mail) else w
    case Refreshed(d, now) => RefreshAll(w, d, now)
    case Expired(slot) => w.(mail := w.mail - {slot})
  }

  // Generated keys are new.
  predicate Fresh(w: World, e: Event) {
    e.Rotated? ==> e.key !in w.owner.keys.Values
  }

  function Run(w: World, events: seq<Event>): World
    decreases |events|
  {
    if events == [] then w else Run(React(w, events[0]), events[1..])
  }

  ghost predicate FreshRun(w: World, events: seq<Event>)
    decreases |events|
  {
    events != [] ==> Fresh(w, events[0]) && FreshRun(React(w, events[0]), events[1..])
  }

  // ---- what every run keeps ----

  ghost predicate OwnerInv(v: Vault) {
    && v.access.Some? && v.access.value.issuer == v.device && v.access.value.capability.subject == v.device
    && Consistent(v.access.value)
    && (forall e: U64 :: e in v.keys <==> 1 <= e <= Epoch(v))
    && (forall e, f :: e in v.keys && f in v.keys && v.keys[e] == v.keys[f] ==> e == f)
    && (forall d :: d in v.members ==>
          v.members[d].subject == d && v.members[d].issuer == v.device && v.members[d].epoch == Epoch(v))
    && (forall i :: i in v.offers && v.offers[i].redeemed.Some? ==>
          var c := v.offers[i].redeemed.value;
          c.issuer == v.device && c.epoch == v.offers[i].invite.epoch && c.permission == v.offers[i].invite.permission)
  }

  // A grant names an epoch the owner has reached, and conveys its key.
  ghost predicate GrantSound(owner: Vault, a: Access, key: Key) {
    && a.issuer == owner.device && Consistent(a)
    && a.epoch in owner.keys && owner.keys[a.epoch] == key
  }

  ghost predicate DeviceInv(owner: Vault, d: Device, v: Vault) {
    && v.device == d
    && (forall e :: e in v.keys ==> e in owner.keys && owner.keys[e] == v.keys[e])
    && (v.access.Some? ==>
          && v.access.value.issuer == owner.device && Consistent(v.access.value)
          && v.access.value.capability.subject == d
          && Epoch(v) in v.keys
          && forall e :: e in v.keys ==> e <= Epoch(v))
    && (v.access.None? ==> v.keys == map[])
  }

  ghost predicate MailInv(owner: Vault, rosters: map<U64, set<Device>>, slot: Slot, u: Update) {
    && u.previous in owner.keys && owner.keys[u.previous] == slot.key
    && u.access.epoch == u.previous + 1
    && u.access.capability.subject == slot.recipient
    && GrantSound(owner, u.access, u.key)
    && slot.recipient in RosterAt(rosters, u.previous + 1)
  }

  ghost predicate WorldInv(w: World) {
    && OwnerInv(w.owner)
    && w.owner.members.Keys <= RosterAt(w.rosters, Epoch(w.owner))
    && (forall d :: d in w.devices ==> DeviceInv(w.owner, d, w.devices[d]))
    && (forall slot :: slot in w.mail ==> MailInv(w.owner, w.rosters, slot, w.mail[slot]))
    && (forall g :: g in w.grants ==> GrantSound(w.owner, g.access, g.key))
  }

  // Nothing a vault holds is lost or overwritten, and it never goes back.
  ghost predicate Advances(v: Vault, next: Vault) {
    && next.device == v.device
    && (forall e :: e in v.keys ==> e in next.keys && next.keys[e] == v.keys[e])
    && (v.access.Some? ==> next.access.Some? && Epoch(v) <= Epoch(next))
  }

  ghost predicate WorldAdvances(w: World, next: World) {
    && Advances(w.owner, next.owner)
    && next.devices.Keys == w.devices.Keys
    && forall d :: d in w.devices ==> Advances(w.devices[d], next.devices[d])
  }

  // ---- the owner moves ----

  ghost predicate RostersGrow(rosters: map<U64, set<Device>>, next: map<U64, set<Device>>) {
    forall e: nat {:trigger RosterAt(next, e)} :: RosterAt(rosters, e) <= RosterAt(next, e)
  }

  lemma OwnerMoves(w: World, owner: Vault, rosters: map<U64, set<Device>>)
    requires WorldInv(w) && OwnerInv(owner) && Advances(w.owner, owner)
    requires owner.members.Keys <= RosterAt(rosters, Epoch(owner)) && RostersGrow(w.rosters, rosters)
    ensures WorldInv(w.(owner := owner, rosters := rosters))
  {
    hide OwnerInv, Consistent, RosterAt;
    forall a: Access, key | GrantSound(w.owner, a, key) ensures GrantSound(owner, a, key) {}
    forall d | d in w.devices ensures DeviceInv(owner, d, w.devices[d]) {
      assert DeviceInv(w.owner, d, w.devices[d]);
    }
    forall slot | slot in w.mail ensures MailInv(owner, rosters, slot, w.mail[slot]) {
      assert MailInv(w.owner, w.rosters, slot, w.mail[slot]);
      var u := w.mail[slot];
      assert RosterAt(w.rosters, u.previous + 1) <= RosterAt(rosters, u.previous + 1);
    }
  }

  lemma RotationKeepsOwner(v: Vault, revoked: seq<Device>, key: Key, now: U64)
    requires OwnerInv(v) && key !in v.keys.Values && Rotate(v, revoked, key, now).Ok?
    ensures var next := Rotate(v, revoked, key, now).value;
            OwnerInv(next) && Advances(v, next) && Epoch(next) == Epoch(v) + 1
  {
    hide Rotate;
    RotationKeepsExactly(v, revoked, key, now);
    var next := Rotate(v, revoked, key, now).value;
    forall e, f | e in next.keys && f in next.keys && next.keys[e] == next.keys[f] ensures e == f {
      assert e in v.keys ==> v.keys[e] in v.keys.Values;
      assert f in v.keys ==> v.keys[f] in v.keys.Values;
    }
  }

  lemma OfferKeepsOwner(v: Vault, invite: Invite)
    requires OwnerInv(v) && RecordOffer(v, invite).Ok?
    ensures OwnerInv(RecordOffer(v, invite).value) && Advances(v, RecordOffer(v, invite).value)
    ensures RecordOffer(v, invite).value.members == v.members && RecordOffer(v, invite).value.access == v.access
  {}

  lemma RedeemKeepsOwner(v: Vault, invite: Invite, subject: Device, now: U64)
    requires OwnerInv(v) && Redeem(v, invite, subject, now).Ok?
    ensures var r := Redeem(v, invite, subject, now).value;
            && OwnerInv(r.vault) && Advances(v, r.vault) && r.vault.access == v.access && r.vault.keys == v.keys
            && invite.epoch == Epoch(v)
            && r.capability.subject == subject && r.capability.issuer == v.device && r.capability.epoch == Epoch(v)
            && r.vault.members.Keys <= v.members.Keys + {subject}
  {}

  // ---- the members move ----

  lemma DeviceMoves(w: World, d: Device, next: Vault)
    requires WorldInv(w) && d in w.devices && DeviceInv(w.owner, d, next)
    ensures WorldInv(w.(devices := w.devices[d := next]))
  {
    hide OwnerInv, DeviceInv, MailInv, GrantSound, RosterAt;
  }

  lemma MailShrinks(w: World, slot: Slot)
    requires WorldInv(w)
    ensures WorldInv(w.(mail := w.mail - {slot}))
  {
    hide OwnerInv, DeviceInv, MailInv, GrantSound, RosterAt;
  }

  lemma AcceptEpochKeeps(owner: Vault, d: Device, v: Vault, a: Access, key: Key, now: U64)
    requires DeviceInv(owner, d, v) && GrantSound(owner, a, key)
    requires AcceptEpoch(v, owner.device, a, key, now).Ok?
    ensures var next := AcceptEpoch(v, owner.device, a, key, now).value;
            DeviceInv(owner, d, next) && Advances(v, next) && Epoch(next) == a.epoch
  {}

  lemma AcceptSharedKeeps(owner: Vault, d: Device, v: Vault, a: Access, key: Key, now: U64)
    requires DeviceInv(owner, d, v) && GrantSound(owner, a, key)
    requires AcceptShared(v, owner.device, a, key, now).Ok?
    ensures var next := AcceptShared(v, owner.device, a, key, now).value;
            DeviceInv(owner, d, next) && Advances(v, next)
  {}

  lemma ItselfAdvances(w: World)
    ensures WorldAdvances(w, w)
  {}

  lemma AdvancesTransitive(a: World, b: World, c: World)
    requires WorldAdvances(a, b) && WorldAdvances(b, c)
    ensures WorldAdvances(a, c)
  {
    forall d | d in a.devices ensures Advances(a.devices[d], c.devices[d]) {
      assert Advances(a.devices[d], b.devices[d]) && Advances(b.devices[d], c.devices[d]);
    }
  }

  // One turn of the refresh loop advances its device by exactly one epoch, to a
  // roster it was on.
  lemma OnceKeeps(w: World, d: Device, now: U64)
    requires WorldInv(w) && RefreshOnce(w, d, now).Some?
    ensures var next := RefreshOnce(w, d, now).value;
            && WorldInv(next) && WorldAdvances(w, next)
            && d in w.devices && w.devices[d].access.Some? && next.devices[d].access.Some?
            && Epoch(next.devices[d]) == Epoch(w.devices[d]) + 1
            && d in RosterAt(w.rosters, Epoch(w.devices[d]) + 1)
            && next.owner == w.owner && next.rosters == w.rosters
            && next.devices == w.devices[d := next.devices[d]]
            && WorldInv(next.(mail := w.mail)) && WorldAdvances(w, next.(mail := w.mail))
  {
    hide OwnerInv, GrantSound, RosterAt, Authorized, AcceptEpoch;
    var v := w.devices[d];
    var slot := Slot(v.keys[Epoch(v)], d);
    var u := w.mail[slot];
    assert MailInv(w.owner, w.rosters, slot, u) && DeviceInv(w.owner, d, v);
    AcceptEpochKeeps(w.owner, d, v, u.access, u.key, now);
    var accepted := AcceptEpoch(v, w.owner.device, u.access, u.key, now).value;
    hide DeviceInv, MailInv, Advances;
    DeviceMoves(w, d, accepted);
    MailShrinks(w.(devices := w.devices[d := accepted]), slot);
    SingleAdvances(w, d, accepted, w.mail - {slot});
    SingleAdvances(w, d, accepted, w.mail);
  }

  lemma SingleAdvances(w: World, d: Device, next: Vault, mail: map<Slot, Update>)
    requires d in w.devices && Advances(w.devices[d], next)
    ensures WorldAdvances(w, w.(devices := w.devices[d := next], mail := mail))
  {}

  lemma {:induction false} RefreshKeeps(w: World, d: Device, now: U64)
    requires WorldInv(w)
    ensures WorldInv(RefreshAll(w, d, now)) && WorldAdvances(w, RefreshAll(w, d, now))
    ensures RefreshAll(w, d, now).owner == w.owner && RefreshAll(w, d, now).rosters == w.rosters
    ensures forall x :: x in w.devices && x != d ==> RefreshAll(w, d, now).devices[x] == w.devices[x]
    decreases |w.mail|
  {
    hide WorldInv, WorldAdvances, RefreshOnce;
    match RefreshOnce(w, d, now)
    case None => ItselfAdvances(w); SameDevices(w, w);
    case Some(next) =>
      OnceShrinks(w, d, now);
      OnceKeeps(w, d, now);
      RefreshKeeps(next, d, now);
      AdvancesTransitive(w, next, RefreshAll(next, d, now));
      SameDevices(w, RefreshAll(next, d, now));
  }

  lemma SameDevices(w: World, next: World)
    requires WorldAdvances(w, next)
    ensures next.devices.Keys == w.devices.Keys
  {}

  lemma PublishKeeps(w: World, reached: set<Device>)
    requires WorldInv(w)
    ensures WorldInv(Publish(w, reached))
    ensures var next := Publish(w, reached);
            && next.owner == w.owner && next.devices == w.devices && next.rosters == w.rosters
            && forall slot :: slot in next.mail && slot !in w.mail ==>
                 Epoch(w.owner) > 1 && Epoch(w.owner) - 1 in w.owner.keys && slot.key == w.owner.keys[Epoch(w.owner) - 1]
  {
    hide DeviceInv, RosterAt, Updates, MailInv, OwnerInv;
    var next := Publish(w, reached);
    if next != w {
      var owner, epoch := w.owner, Epoch(w.owner);
      var current := Credentials(owner.access.value, owner.keys[epoch]);
      forall slot | slot in next.mail ensures MailInv(owner, w.rosters, slot, next.mail[slot]) {
        if slot !in w.mail {
          assert slot in Updates(owner.keys[epoch - 1], current, Reached(owner.members, reached));
          UpdateSound(owner, w.rosters, slot, current);
        }
      }
    }
  }

  // A publication puts exactly one update for each member reached into the
  // mailbox of the previous key: the owner's epoch, its key and the member's own
  // grant. A slot already filled, and all other mail, stays as it is.
  lemma PublishesExactly(w: World, reached: set<Device>, slot: Slot)
    requires OwnerInv(w.owner) && Epoch(w.owner) > 1
    ensures Epoch(w.owner) - 1 in w.owner.keys
    ensures slot in Publish(w, reached).mail <==>
              slot in w.mail || (slot.key == w.owner.keys[Epoch(w.owner) - 1] && slot.recipient in w.owner.members && slot.recipient in reached)
    ensures slot in w.mail ==> Publish(w, reached).mail[slot] == w.mail[slot]
    ensures slot in Publish(w, reached).mail && slot !in w.mail ==>
              Publish(w, reached).mail[slot]
              == Update(Epoch(w.owner) - 1, Access(w.owner.device, Epoch(w.owner), w.owner.members[slot.recipient]), w.owner.keys[Epoch(w.owner)])
  {
    hide Consistent;
    assert Consistent(w.owner.access.value);
  }

  lemma UpdateSound(owner: Vault, rosters: map<U64, set<Device>>, slot: Slot, current: Credentials)
    requires OwnerInv(owner) && owner.members.Keys <= RosterAt(rosters, Epoch(owner))
    requires current.access == owner.access.value && Epoch(owner) > 1
    requires Epoch(owner) in owner.keys && Epoch(owner) - 1 in owner.keys
    requires current.key == owner.keys[Epoch(owner)]
    requires slot.key == owner.keys[Epoch(owner) - 1] && slot.recipient in owner.members
    ensures MailInv(owner, rosters, slot, UpdateFor(current, owner.members[slot.recipient]))
  {
    hide RosterAt;
  }

  lemma DirectKeeps(w: World, d: Device, now: U64)
    requires WorldInv(w)
    ensures WorldInv(DirectRefresh(w, d, now)) && WorldAdvances(w, DirectRefresh(w, d, now))
  {
    hide AcceptEpoch, Authorized, MailInv, RosterAt;
    var next := DirectRefresh(w, d, now);
    if next != w {
      var a := Access(w.owner.access.value.issuer, Epoch(w.owner), w.owner.members[d]);
      AcceptEpochKeeps(w.owner, d, w.devices[d], a, w.owner.keys[Epoch(w.owner)], now);
      hide OwnerInv, DeviceInv, GrantSound, Advances;
      DeviceMoves(w, d, next.devices[d]);
      SingleAdvances(w, d, next.devices[d], w.mail);
    } else {
      ItselfAdvances(w);
    }
  }

  lemma GrantAdds(w: World, g: Grant)
    requires WorldInv(w) && GrantSound(w.owner, g.access, g.key)
    ensures WorldInv(w.(grants := w.grants + {g}))
  {
    hide OwnerInv, DeviceInv, MailInv, GrantSound, RosterAt;
  }

  lemma RotatedRosters(rosters: map<U64, set<Device>>, epoch: U64, members: set<Device>)
    requires RosterAt(rosters, epoch) <= members
    ensures RostersGrow(rosters, rosters[epoch := members])
  {}

  // ---- every step, every run ----

  lemma RotatedKeeps(w: World, revoked: seq<Device>, key: Key, now: U64)
    requires WorldInv(w) && NoLaterRoster(w) && key !in w.owner.keys.Values
    ensures var next := React(w, Rotated(revoked, key, now));
            WorldInv(next) && WorldAdvances(w, next) && NoLaterRoster(next)
  {
    var next := React(w, Rotated(revoked, key, now));
    hide Rotate;
    ItselfAdvances(w);
    if Rotate(w.owner, revoked, key, now).Ok? {
      RotationKeepsOwner(w.owner, revoked, key, now);
      var owner := Rotate(w.owner, revoked, key, now).value;
      hide OwnerInv, DeviceInv, MailInv;
      RotatedRosters(w.rosters, Epoch(owner), owner.members.Keys);
      OwnerMoves(w, owner, next.rosters);
    }
  }

  // No roster is recorded for an epoch not yet reached.
  ghost predicate NoLaterRoster(w: World) {
    w.owner.access.Some? && forall e: nat {:trigger RosterAt(w.rosters, e)} :: e > Epoch(w.owner) ==> RosterAt(w.rosters, e) == {}
  }

  lemma JoinedKeeps(w: World, invite: Invite, subject: Device, now: U64)
    requires WorldInv(w) && NoLaterRoster(w)
    ensures var next := React(w, Joined(invite, subject, now));
            WorldInv(next) && WorldAdvances(w, next) && NoLaterRoster(next)
  {
    var e := Joined(invite, subject, now);
    var next := React(w, e);
    ItselfAdvances(w);
    hide Redeem;
    if next != w {
      var r := Redeem(w.owner, invite, subject, now).value;
      RedeemKeepsOwner(w.owner, invite, subject, now);
      var g := Grant(Access(w.owner.device, invite.epoch, r.capability), w.owner.keys[invite.epoch]);
      assert GrantSound(r.vault, g.access, g.key);
      hide OwnerInv, DeviceInv, MailInv, GrantSound;
      RotatedRosters(w.rosters, invite.epoch, RosterAt(w.rosters, invite.epoch) + {subject});
      OwnerMoves(w, r.vault, next.rosters);
      GrantAdds(w.(owner := r.vault, rosters := next.rosters), g);
    }
  }

  lemma OfferedKeeps(w: World, invite: Invite)
    requires WorldInv(w) && NoLaterRoster(w)
    ensures var next := React(w, Offered(invite));
            WorldInv(next) && WorldAdvances(w, next) && NoLaterRoster(next)
  {
    ItselfAdvances(w);
    hide RecordOffer;
    if RecordOffer(w.owner, invite).Ok? {
      OfferKeepsOwner(w.owner, invite);
      hide OwnerInv, DeviceInv, MailInv, RosterAt;
      OwnerMoves(w, RecordOffer(w.owner, invite).value, w.rosters);
    }
  }

  lemma ReceivedKeeps(w: World, d: Device, grant: Grant, now: U64)
    requires WorldInv(w) && NoLaterRoster(w)
    ensures var next := React(w, Received(d, grant, now));
            WorldInv(next) && WorldAdvances(w, next) && NoLaterRoster(next)
  {
    ItselfAdvances(w);
    hide AcceptShared, OwnerInv, DeviceInv, MailInv, GrantSound, RosterAt, Advances;
    if d in w.devices && grant in w.grants && AcceptShared(w.devices[d], w.owner.device, grant.access, grant.key, now).Ok? {
      AcceptSharedKeeps(w.owner, d, w.devices[d], grant.access, grant.key, now);
      var next := AcceptShared(w.devices[d], w.owner.device, grant.access, grant.key, now).value;
      DeviceMoves(w, d, next);
      SingleAdvances(w, d, next, w.mail);
    }
  }

  lemma EventKeeps(w: World, e: Event)
    requires WorldInv(w) && NoLaterRoster(w) && Fresh(w, e)
    ensures WorldInv(React(w, e)) && WorldAdvances(w, React(w, e)) && NoLaterRoster(React(w, e))
  {
    hide WorldInv, DirectRefresh, RefreshOnce, RefreshAll, Publish, Rotate, Redeem, RecordOffer, AcceptShared;
    ItselfAdvances(w);
    match e {
      case Rotated(revoked, key, now) => RotatedKeeps(w, revoked, key, now);
      case Offered(invite) => OfferedKeeps(w, invite);
      case Joined(invite, subject, now) => JoinedKeeps(w, invite, subject, now);
      case Received(d, grant, now) => ReceivedKeeps(w, d, grant, now);
      case Direct(d, now) => DirectKeeps(w, d, now); DirectLeavesOwner(w, d, now);
      case Published(reached) => PublishKeeps(w, reached);
      case Turned(d, now) =>
        if RefreshOnce(w, d, now).Some? { OnceKeeps(w, d, now); }
      case Interrupted(d, now) =>
        if RefreshOnce(w, d, now).Some? { OnceKeeps(w, d, now); }
      case Refreshed(d, now) => RefreshKeeps(w, d, now);
      case Expired(slot) => MailShrinks(w, slot);
    }
  }

  lemma DirectLeavesOwner(w: World, d: Device, now: U64)
    ensures DirectRefresh(w, d, now).owner == w.owner && DirectRefresh(w, d, now).rosters == w.rosters
  {
    hide AcceptEpoch;
  }

  // In every run of rotations, redemptions, whole or partial publications,
  // expiries, and both kinds of refresh, interrupted or not: no vault's epoch goes back, no retained key is lost or
  // replaced, and every key a member holds for an epoch is the owner's.
  lemma {:induction false} RunKeeps(w: World, events: seq<Event>)
    requires WorldInv(w) && NoLaterRoster(w) && FreshRun(w, events)
    ensures WorldInv(Run(w, events)) && NoLaterRoster(Run(w, events)) && WorldAdvances(w, Run(w, events))
    decreases |events|
  {
    hide WorldInv, WorldAdvances, NoLaterRoster, React, Fresh;
    ItselfAdvances(w);
    if events != [] {
      EventKeeps(w, events[0]);
      RunKeeps(React(w, events[0]), events[1..]);
      AdvancesTransitive(w, React(w, events[0]), Run(w, events));
    }
  }

  lemma MemberKeysAgree(w: World, events: seq<Event>, d: Device, epoch: U64)
    requires WorldInv(w) && NoLaterRoster(w) && FreshRun(w, events)
    requires d in w.devices && d in Run(w, events).devices && epoch in Run(w, events).devices[d].keys
    ensures var end := Run(w, events);
            epoch in end.owner.keys && end.owner.keys[epoch] == end.devices[d].keys[epoch]
  {
    hide Run, FreshRun, OwnerInv, MailInv, GrantSound, NoLaterRoster, WorldAdvances, RosterAt;
    RunKeeps(w, events);
    assert DeviceInv(Run(w, events).owner, d, Run(w, events).devices[d]);
  }

  // A space just initialised, with devices that have not joined yet.
  lemma SpaceStarts(device: Device, key: Key, now: U64, devices: set<Device>)
    requires InitializeOwned(NewVault(device), key, now).Ok?
    ensures var w := World(InitializeOwned(NewVault(device), key, now).value, map d | d in devices :: NewVault(d), map[], {}, map[]);
            WorldInv(w) && NoLaterRoster(w)
  {
    var owner := InitializeOwned(NewVault(device), key, now).value;
    assert Roster([]) == map[];
    assert OwnerInv(owner);
  }

  // ---- what each step does when it takes effect ----

  // A turn of the refresh takes the update that awaits the device exactly if it is
  // for the next epoch after the device's, from its issuer and the owner, for this
  // device, and in force; whatever else the mail holds.
  lemma TurnsExactly(w: World, d: Device, now: U64)
    ensures RefreshOnce(w, d, now).Some? <==>
              && d in w.devices && w.devices[d].access.Some?
              && var v := w.devices[d]; var a := v.access.value;
              && a.capability.issuer == a.issuer && a.capability.epoch == a.epoch && a.epoch in v.keys
              && Slot(v.keys[a.epoch], d) in w.mail
              && var u := w.mail[Slot(v.keys[a.epoch], d)];
              && u.previous == a.epoch && u.access.epoch == a.epoch + 1 && u.access.epoch <= I64_MAX && u.access.epoch !in v.keys
              && u.access.issuer == a.issuer && u.access.issuer == w.owner.device
              && u.access.capability.subject == v.device
              && u.access.capability.issuer == u.access.issuer && u.access.capability.epoch == u.access.epoch
              && u.access.capability.notBefore <= now && now < u.access.capability.expiresAt
    ensures RefreshOnce(w, d, now).Some? ==>
              var v := w.devices[d]; var slot := Slot(v.keys[Epoch(v)], d); var u := w.mail[slot];
              RefreshOnce(w, d, now).value
              == w.(devices := w.devices[d := v.(access := Some(u.access), keys := v.keys[u.access.epoch := u.key])], mail := w.mail - {slot})
  {}

  // Turns, interrupted turns, offers and shares are what they are called.
  lemma StepsTakeEffect(w: World, e: Event)
    ensures e.Turned? && RefreshOnce(w, e.device, e.now).Some? ==> React(w, e) == RefreshOnce(w, e.device, e.now).value
    ensures e.Interrupted? && RefreshOnce(w, e.device, e.now).Some? ==>
              React(w, e).devices == RefreshOnce(w, e.device, e.now).value.devices && React(w, e).mail == w.mail
    ensures (e.Turned? || e.Interrupted?) && RefreshOnce(w, e.device, e.now).None? ==> React(w, e) == w
    ensures e.Offered? ==>
              React(w, e).owner.offers
              == if Current(w.owner, e.invite) && e.invite.id !in w.owner.offers then w.owner.offers[e.invite.id := Offer(e.invite, None)]
                 else w.owner.offers
    ensures e.Received? && e.device in w.devices && e.grant in w.grants
            && AcceptShared(w.devices[e.device], w.owner.device, e.grant.access, e.grant.key, e.now).Ok? ==>
              && e.device in React(w, e).devices
              && React(w, e).devices[e.device].access == Some(e.grant.access)
              && e.grant.access.epoch in React(w, e).devices[e.device].keys
              && React(w, e).devices[e.device].keys[e.grant.access.epoch] == e.grant.key
    ensures e.Expired? ==> React(w, e) == w.(mail := React(w, e).mail) && e.slot !in React(w, e).mail
                           && forall slot :: slot in w.mail && slot != e.slot ==> slot in React(w, e).mail && React(w, e).mail[slot] == w.mail[slot]
  {
    hide RefreshOnce, RefreshAll, Publish, DirectRefresh, Rotate, Redeem;
  }

  // ---- whom an invitation admits ----

  predicate Admits(w: World, e: Event) {
    e.Joined? && Redeem(w.owner, e.invite, e.subject, e.now).Ok? && e.invite.epoch in w.owner.keys
  }

  lemma AdmissionRecorded(w: World, e: Event)
    requires Admits(w, e)
    ensures var c := Redeem(w.owner, e.invite, e.subject, e.now).value.capability;
            && e.invite.id in React(w, e).owner.offers && React(w, e).owner.offers[e.invite.id] == Offer(e.invite, Some(c))
            && c.subject == e.subject
            && Grant(Access(w.owner.device, e.invite.epoch, c), w.owner.keys[e.invite.epoch]) in React(w, e).grants
    ensures w.owner.offers[e.invite.id].redeemed.None? ==>
              var c := Redeem(w.owner, e.invite, e.subject, e.now).value.capability;
              c.permission == e.invite.permission && c.epoch == e.invite.epoch && React(w, e).owner.members == w.owner.members[e.subject := c]
    ensures React(w, e).owner.keys == w.owner.keys && React(w, e).owner.access == w.owner.access
    ensures w.owner.offers[e.invite.id].redeemed.Some? ==> React(w, e).owner == w.owner
  {
    RedeemsExactly(w.owner, e.invite, e.subject, e.now);
  }

  ghost predicate Spent(w: World, id: InviteId, offer: Offer) {
    id in w.owner.offers && w.owner.offers[id] == offer && offer.redeemed.Some?
  }

  lemma SpentStays(w: World, e: Event, id: InviteId, offer: Offer)
    requires WorldInv(w) && Spent(w, id, offer)
    ensures Spent(React(w, e), id, offer)
  {
    hide WorldInv, RefreshAll, RefreshOnce, Publish, DirectRefresh, Rotate, Redeem, AcceptShared;
    match e {
      case Rotated(revoked, key, now) =>
        if Rotate(w.owner, revoked, key, now).Ok? {
          MembersNamed(w);
          RotationKeepsExactly(w.owner, revoked, key, now);
        }
      case Joined(invite, subject, now) => RedeemsExactly(w.owner, invite, subject, now);
      case Refreshed(x, now) => RefreshKeeps(w, x, now);
      case Turned(x, now) =>
        if RefreshOnce(w, x, now).Some? { OnceKeeps(w, x, now); }
      case Interrupted(x, now) =>
        if RefreshOnce(w, x, now).Some? { OnceKeeps(w, x, now); }
      case Published(reached) => PublishKeeps(w, reached);
      case Direct(x, now) => DirectLeavesOwner(w, x, now);
      case _ =>
    }
  }

  lemma MembersNamed(w: World)
    requires WorldInv(w)
    ensures forall d :: d in w.owner.members ==> w.owner.members[d].subject == d
  {
    hide DeviceInv, MailInv, GrantSound, RosterAt;
  }

  lemma {:induction false} SpentForGood(w: World, events: seq<Event>, id: InviteId, offer: Offer)
    requires WorldInv(w) && NoLaterRoster(w) && FreshRun(w, events) && Spent(w, id, offer)
    ensures Spent(Run(w, events), id, offer)
    decreases |events|
  {
    hide WorldInv, NoLaterRoster, React, Fresh, Spent;
    if events != [] {
      EventKeeps(w, events[0]);
      SpentStays(w, events[0], id, offer);
      SpentForGood(React(w, events[0]), events[1..], id, offer);
    }
  }

  // In every run an invitation admits at most one subject: whoever is admitted by
  // it later is that subject again, to the same grant, and the owner's vault stays
  // as it is.
  lemma InvitationAdmitsOne(w: World, first: Event, events: seq<Event>, again: Event)
    requires WorldInv(w) && NoLaterRoster(w) && FreshRun(w, [first] + events)
    requires Admits(w, first) && Admits(Run(w, [first] + events), again) && again.invite.id == first.invite.id
    ensures var end := Run(w, [first] + events);
            && again.invite == first.invite && again.subject == first.subject
            && Redeem(end.owner, again.invite, again.subject, again.now).value
               == Redeemed(end.owner, Redeem(w.owner, first.invite, first.subject, first.now).value.capability)
  {
    hide WorldInv, NoLaterRoster, React, Fresh, Redeem;
    assert ([first] + events)[1..] == events;
    AdmissionRecorded(w, first);
    EventKeeps(w, first);
    var next := React(w, first);
    var offer := next.owner.offers[first.invite.id];
    SpentForGood(next, events, first.invite.id, offer);
    var end := Run(w, [first] + events);
    assert end == Run(next, events);
    RedeemsExactly(end.owner, again.invite, again.subject, again.now);
  }

  // ---- who relay refresh reaches ----

  // The relay refresh loop takes a device on exactly while its mailbox holds an
  // update that it may use now.
  lemma RefreshStopsExactly(w: World, d: Device, now: U64)
    requires WorldInv(w) && d in w.devices && w.devices[d].access.Some?
    ensures var v := w.devices[d];
            RefreshOnce(w, d, now).Some? <==>
              var slot := Slot(v.keys[Epoch(v)], d);
              && slot in w.mail
              && Authorized(w.mail[slot].access.capability, w.owner.device, Epoch(v) + 1, d, now)
              && Epoch(v) + 1 <= I64_MAX
  {
    hide RosterAt;
    var v := w.devices[d];
    assert DeviceInv(w.owner, d, v);
    var slot := Slot(v.keys[Epoch(v)], d);
    if slot in w.mail {
      assert MailInv(w.owner, w.rosters, slot, w.mail[slot]);
      SameKeySameEpoch(w.owner, w.mail[slot].previous, Epoch(v));
    }
  }

  lemma SameKeySameEpoch(owner: Vault, e: U64, f: U64)
    requires OwnerInv(owner) && e in owner.keys && f in owner.keys && owner.keys[e] == owner.keys[f]
    ensures e == f
  {}

  lemma KeysApart(owner: Vault, e: nat, f: nat)
    requires OwnerInv(owner) && e in owner.keys && f in owner.keys && e != f
    ensures owner.keys[e] != owner.keys[f]
  {}

  ghost predicate AtMost(w: World, d: Device, epoch: nat) {
    d in w.devices && w.devices[d].access.Some? && Epoch(w.devices[d]) <= epoch
  }

  lemma {:induction false} RefreshStopsAtOmission(w: World, d: Device, now: U64, epoch: nat)
    requires WorldInv(w) && AtMost(w, d, epoch) && d !in RosterAt(w.rosters, epoch + 1)
    ensures AtMost(RefreshAll(w, d, now), d, epoch)
    decreases |w.mail|
  {
    hide WorldInv, WorldAdvances, RefreshOnce, RosterAt;
    match RefreshOnce(w, d, now)
    case None =>
    case Some(next) =>
      OnceShrinks(w, d, now);
      OnceKeeps(w, d, now);
      RefreshStopsAtOmission(next, d, now, epoch);
  }

  predicate ByRelayOnly(events: seq<Event>, d: Device) {
    forall e :: e in events ==> !(e.Direct? && e.device == d)
  }

  lemma OmittedStep(w: World, e: Event, d: Device, epoch: nat)
    requires WorldInv(w) && NoLaterRoster(w) && Fresh(w, e)
    requires AtMost(w, d, epoch) && !(e.Direct? && e.device == d)
    requires d !in RosterAt(React(w, e).rosters, epoch + 1)
    ensures AtMost(React(w, e), d, epoch)
  {
    hide WorldInv, RefreshOnce, RefreshAll, Publish, Rotate, Redeem, RecordOffer, RosterAt;
    match e {
      case Refreshed(x, now) =>
        RefreshKeeps(w, x, now);
        if x == d { RefreshStopsAtOmission(w, d, now, epoch); }
      case Turned(x, now) =>
        if RefreshOnce(w, x, now).Some? { OnceKeeps(w, x, now); }
      case Interrupted(x, now) =>
        if RefreshOnce(w, x, now).Some? { OnceKeeps(w, x, now); }
      case Published(reached) => PublishKeeps(w, reached);
      case Direct(x, now) => OthersDirect(w, x, now, d);
      case _ =>
    }
  }

  lemma OthersDirect(w: World, x: Device, now: U64, d: Device)
    requires x != d && d in w.devices
    ensures d in DirectRefresh(w, x, now).devices && DirectRefresh(w, x, now).devices[d] == w.devices[d]
  {
    hide AcceptEpoch;
  }

  // A member that a rotation omits, and that is not invited again during the
  // epoch it started, never gets past it through the relay.
  lemma {:induction false} OmittedMembersStay(w: World, events: seq<Event>, d: Device, epoch: nat)
    requires WorldInv(w) && NoLaterRoster(w) && FreshRun(w, events)
    requires AtMost(w, d, epoch) && ByRelayOnly(events, d)
    requires d !in RosterAt(Run(w, events).rosters, epoch + 1)
    ensures AtMost(Run(w, events), d, epoch)
    decreases |events|
  {
    hide WorldInv, NoLaterRoster, React, Fresh, AtMost, RosterAt;
    if events != [] {
      var e := events[0];
      assert e in events;
      EventKeeps(w, e);
      LaterRosters(React(w, e), events[1..], d, epoch + 1);
      OmittedStep(w, e, d, epoch);
      OmittedMembersStay(React(w, e), events[1..], d, epoch);
    }
  }

  lemma StepRosters(w: World, e: Event)
    requires WorldInv(w) && NoLaterRoster(w) && Fresh(w, e)
    ensures RostersGrow(w.rosters, React(w, e).rosters)
  {
    hide RefreshOnce, RefreshAll, Publish, Rotate, Redeem, RecordOffer, DirectRefresh, DeviceInv, MailInv, GrantSound;
    match e {
      case Rotated(revoked, key, now) =>
        if Rotate(w.owner, revoked, key, now).Ok? {
          RotationKeepsOwner(w.owner, revoked, key, now);
        }
      case Refreshed(x, now) => RefreshKeeps(w, x, now);
      case Turned(x, now) =>
        if RefreshOnce(w, x, now).Some? { OnceKeeps(w, x, now); }
      case Interrupted(x, now) =>
        if RefreshOnce(w, x, now).Some? { OnceKeeps(w, x, now); }
      case Published(reached) => PublishKeeps(w, reached);
      case Direct(x, now) => DirectLeavesOwner(w, x, now);
      case _ =>
    }
  }

  lemma {:induction false} LaterRosters(w: World, events: seq<Event>, d: Device, epoch: nat)
    requires WorldInv(w) && NoLaterRoster(w) && FreshRun(w, events)
    requires d !in RosterAt(Run(w, events).rosters, epoch)
    ensures d !in RosterAt(w.rosters, epoch)
    decreases |events|
  {
    hide WorldInv, NoLaterRoster, React, Fresh, RosterAt;
    if events != [] {
      EventKeeps(w, events[0]);
      StepRosters(w, events[0]);
      LaterRosters(React(w, events[0]), events[1..], d, epoch);
    }
  }

  // A direct session with the owner brings a retained member to the current
  // epoch, and nobody else anywhere.
  lemma DirectReachesMembers(w: World, d: Device, now: U64)
    requires WorldInv(w) && d in w.devices && w.devices[d].access.Some?
    ensures var behind := Epoch(w.devices[d]) < Epoch(w.owner);
            DirectRefresh(w, d, now) != w <==>
              behind && d in w.owner.members && Authorized(w.owner.members[d], w.owner.device, Epoch(w.owner), d, now)
              && Epoch(w.owner) <= I64_MAX
    ensures DirectRefresh(w, d, now) != w ==>
              DirectRefresh(w, d, now).devices[d].access.Some? && Epoch(DirectRefresh(w, d, now).devices[d]) == Epoch(w.owner)
  {
    hide RosterAt, MailInv, GrantSound;
    assert DeviceInv(w.owner, d, w.devices[d]);
  }

  // ---- how far relay refresh reaches ----

  // The transition from this epoch to the next awaits the device in its mailbox.
  ghost predicate Bridged(w: World, d: Device, now: U64, e: nat) {
    && e < I64_MAX && e in w.owner.keys
    && var slot := Slot(w.owner.keys[e], d);
       slot in w.mail && Authorized(w.mail[slot].access.capability, w.owner.device, e + 1, d, now)
  }

  lemma DeviceBehind(w: World, d: Device)
    requires WorldInv(w) && d in w.devices && w.devices[d].access.Some?
    ensures Epoch(w.devices[d]) in w.owner.keys && Epoch(w.devices[d]) in w.devices[d].keys
    ensures w.owner.keys[Epoch(w.devices[d])] == w.devices[d].keys[Epoch(w.devices[d])]
    ensures Epoch(w.devices[d]) <= Epoch(w.owner)
  {
    hide MailInv, GrantSound, RosterAt;
    assert DeviceInv(w.owner, d, w.devices[d]);
  }

  // A turn succeeds exactly over a bridged transition, and uses up no other.
  lemma TurnCrosses(w: World, d: Device, now: U64)
    requires WorldInv(w) && d in w.devices && w.devices[d].access.Some?
    ensures RefreshOnce(w, d, now).Some? <==> Bridged(w, d, now, Epoch(w.devices[d]))
    ensures RefreshOnce(w, d, now).Some? ==>
              forall e: nat {:trigger Bridged(w, d, now, e)} :: e > Epoch(w.devices[d]) ==>
                (Bridged(w, d, now, e) <==> Bridged(RefreshOnce(w, d, now).value, d, now, e))
  {
    hide AcceptEpoch, Authorized, MailInv, GrantSound, RosterAt;
    DeviceBehind(w, d);
    RefreshStopsExactly(w, d, now);
    if RefreshOnce(w, d, now).Some? {
      var next := RefreshOnce(w, d, now).value;
      var slot := Slot(w.owner.keys[Epoch(w.devices[d])], d);
      assert next.mail == w.mail - {slot} && next.owner == w.owner;
      forall e: nat | e > Epoch(w.devices[d]) && e in w.owner.keys ensures w.owner.keys[e] != slot.key {
        KeysApart(w.owner, e, Epoch(w.devices[d]));
      }
    }
  }

  // The refresh loop brings a device to an epoch exactly when every transition up
  // to it was published to the device and still awaits it: so to the owner's epoch
  // exactly when none of them is missing.
  lemma {:induction false} RefreshReachesExactly(w: World, d: Device, now: U64, goal: nat)
    requires WorldInv(w) && d in w.devices && w.devices[d].access.Some?
    requires Epoch(w.devices[d]) <= goal
    ensures var end := RefreshAll(w, d, now);
            && d in end.devices && end.devices[d].access.Some?
            && (Epoch(end.devices[d]) >= goal
                <==> forall e: nat {:trigger Bridged(w, d, now, e)} :: Epoch(w.devices[d]) <= e < goal ==> Bridged(w, d, now, e))
    decreases |w.mail|
  {
    hide WorldInv, WorldAdvances, RefreshOnce, Bridged;
    TurnCrosses(w, d, now);
    match RefreshOnce(w, d, now)
    case None =>
    case Some(next) =>
      OnceShrinks(w, d, now);
      OnceKeeps(w, d, now);
      if Epoch(next.devices[d]) <= goal {
        RefreshReachesExactly(next, d, now, goal);
        forall e: nat | Epoch(next.devices[d]) <= e < goal ensures Bridged(w, d, now, e) <==> Bridged(next, d, now, e) {}
      } else {
        RefreshOnwards(next, d, now);
      }
  }

  lemma RefreshOnwards(w: World, d: Device, now: U64)
    requires WorldInv(w) && d in w.devices && w.devices[d].access.Some?
    ensures d in RefreshAll(w, d, now).devices && RefreshAll(w, d, now).devices[d].access.Some?
    ensures Epoch(RefreshAll(w, d, now).devices[d]) >= Epoch(w.devices[d])
  {
    hide WorldInv, RefreshAll;
    RefreshKeeps(w, d, now);
  }

  // No mail can await anyone in the mailbox of the key in use.
  lemma PresentMailIsEmpty(w: World, slot: Slot)
    requires WorldInv(w) && Epoch(w.owner) in w.owner.keys && slot.key == w.owner.keys[Epoch(w.owner)]
    ensures slot !in w.mail
  {
    hide DeviceInv, RosterAt;
    if slot in w.mail {
      assert MailInv(w.owner, w.rosters, slot, w.mail[slot]);
      SameKeySameEpoch(w.owner, w.mail[slot].previous, Epoch(w.owner));
    }
  }

  // A retained member that is up to date follows a rotation through the relay,
  // once its update is published, to the new epoch, key and grant.
  lemma RetainedMembersFollow(w: World, revoked: seq<Device>, key: Key, now: U64, reached: set<Device>, d: Device, later: U64)
    requires WorldInv(w) && NoLaterRoster(w) && key !in w.owner.keys.Values
    requires Rotate(w.owner, revoked, key, now).Ok? && d in w.owner.members && d !in revoked && d in reached
    requires d in w.devices && w.devices[d].access.Some? && Epoch(w.devices[d]) == Epoch(w.owner)
    requires now <= later < U64_MAX
    ensures var end := React(React(React(w, Rotated(revoked, key, now)), Published(reached)), Refreshed(d, later));
            && d in end.devices && end.devices[d].access.Some? && end.owner.access.Some?
            && Epoch(end.owner) == Epoch(w.owner) + 1
            && Epoch(end.devices[d]) == Epoch(end.owner)
            && Epoch(end.owner) in end.devices[d].keys && end.devices[d].keys[Epoch(end.owner)] == key
  {
    hide WorldInv, NoLaterRoster, React, Rotate, Bridged, RosterAt, WorldAdvances;
    RotationOpens(w, revoked, key, now, d);
    var rotated := React(w, Rotated(revoked, key, now));
    PublicationBridges(rotated, reached, d, Epoch(w.owner), later);
    var published := React(rotated, Published(reached));
    RefreshedOver(published, d, later, Epoch(w.owner));
  }

  // A rotation opens an empty mailbox between the old key and the new epoch.
  lemma RotationOpens(w: World, revoked: seq<Device>, key: Key, now: U64, d: Device)
    requires WorldInv(w) && NoLaterRoster(w) && key !in w.owner.keys.Values
    requires Rotate(w.owner, revoked, key, now).Ok? && d in w.owner.members && d !in revoked
    ensures w.owner.access.Some? && 0 < Epoch(w.owner)
    ensures var next, e := React(w, Rotated(revoked, key, now)), Epoch(w.owner);
            && WorldInv(next) && NoLaterRoster(next) && next.devices == w.devices && next.mail == w.mail
            && next.owner.access.Some? && Epoch(next.owner) == e + 1 && e < I64_MAX
            && e in next.owner.keys && e + 1 in next.owner.keys && next.owner.keys[e + 1] == key
            && Slot(next.owner.keys[e], d) !in next.mail
            && d in next.owner.members && next.owner.members[d].notBefore == now && next.owner.members[d].expiresAt == U64_MAX
  {
    hide WorldInv, NoLaterRoster, Rotate, RosterAt;
    EventKeeps(w, Rotated(revoked, key, now));
    OwnerOf(w);
    RotationSucceededBelow(w.owner, revoked, key, now);
    MembersNamed(w);
    RotationKeepsExactly(w.owner, revoked, key, now);
    PresentMailIsEmpty(w, Slot(w.owner.keys[Epoch(w.owner)], d));
  }

  // Publishing then puts the member's update there.
  lemma PublicationBridges(w: World, reached: set<Device>, d: Device, e: nat, later: U64)
    requires WorldInv(w) && NoLaterRoster(w) && w.owner.access.Some? && Epoch(w.owner) == e + 1 && 0 < e < I64_MAX && e in w.owner.keys
    requires Slot(w.owner.keys[e], d) !in w.mail && d in w.owner.members && d in reached
    requires w.owner.members[d].notBefore <= later < w.owner.members[d].expiresAt
    ensures var next := React(w, Published(reached));
            WorldInv(next) && next.owner == w.owner && next.devices == w.devices && Bridged(next, d, later, e)
  {
    hide WorldInv, NoLaterRoster, Publish, RosterAt, Bridged;
    PublishKeeps(w, reached);
    OwnerOf(w);
    PublishesExactly(w, reached, Slot(w.owner.keys[e], d));
    NewlyBridged(w, React(w, Published(reached)), d, e, Slot(w.owner.keys[e], d), later);
  }

  // A refresh then carries the member over.
  lemma RefreshedOver(w: World, d: Device, now: U64, e: nat)
    requires WorldInv(w) && d in w.devices && w.devices[d].access.Some? && Epoch(w.devices[d]) == e
    requires w.owner.access.Some? && Epoch(w.owner) == e + 1 && Bridged(w, d, now, e)
    ensures var end := React(w, Refreshed(d, now));
            && d in end.devices && end.devices[d].access.Some? && end.owner == w.owner
            && Epoch(end.devices[d]) == e + 1
            && e + 1 in end.devices[d].keys && e + 1 in w.owner.keys && end.devices[d].keys[e + 1] == w.owner.keys[e + 1]
  {
    hide WorldInv, WorldAdvances, RefreshAll, Bridged, RosterAt;
    RefreshKeeps(w, d, now);
    RefreshReachesExactly(w, d, now, e + 1);
    DeviceBehind(React(w, Refreshed(d, now)), d);
  }

  lemma OwnerOf(w: World)
    requires WorldInv(w)
    ensures OwnerInv(w.owner)
  {}

  lemma RotationSucceededBelow(v: Vault, revoked: seq<Device>, key: Key, now: U64)
    requires OwnerInv(v) && Rotate(v, revoked, key, now).Ok?
    ensures Epoch(v) in v.keys && 0 < Epoch(v) < I64_MAX && now < U64_MAX
  {
    RotationSucceedsExactly(v, revoked, key, now);
  }

  lemma NewlyBridged(rotated: World, published: World, d: Device, e: nat, slot: Slot, later: U64)
    requires OwnerInv(rotated.owner) && published.owner == rotated.owner
    requires e < I64_MAX && e in rotated.owner.keys && slot == Slot(rotated.owner.keys[e], d) && Epoch(rotated.owner) == e + 1
    requires d in rotated.owner.members && rotated.owner.members[d].notBefore <= later < rotated.owner.members[d].expiresAt
    requires slot in published.mail && published.mail[slot].access == Access(rotated.owner.device, e + 1, rotated.owner.members[d])
    ensures Bridged(published, d, later, e)
  {}

  // The owner is past the transition from this epoch, and the device's update for
  // it is not in the mail.
  ghost predicate Skipped(w: World, d: Device, e: nat) {
    && w.owner.access.Some? && e + 1 < Epoch(w.owner)
    && e in w.owner.keys && Slot(w.owner.keys[e], d) !in w.mail
  }

  // A publication only ever bridges the latest transition.
  lemma SkippedStays(w: World, event: Event, d: Device, e: nat)
    requires WorldInv(w) && NoLaterRoster(w) && Fresh(w, event) && Skipped(w, d, e)
    ensures Skipped(React(w, event), d, e)
  {
    hide RefreshAll, RefreshOnce, Publish, DirectRefresh, Rotate, Redeem, RecordOffer, AcceptShared, DeviceInv, MailInv, GrantSound, RosterAt, WorldInv;
    EventKeeps(w, event);
    var next := React(w, event);
    assert Advances(w.owner, next.owner);
    hide WorldAdvances;
    match event {
      case Published(reached) =>
        PublishKeeps(w, reached);
        OldKeysDiffer(w, e);
      case Refreshed(x, now) => RefreshTakes(w, x, now);
      case Turned(x, now) =>
        if RefreshOnce(w, x, now).Some? { OnceTakes(w, x, now); }
      case Direct(x, now) => DirectLeavesMail(w, x, now);
      case _ =>
    }
  }

  lemma OldKeysDiffer(w: World, e: nat)
    requires WorldInv(w) && e in w.owner.keys && e + 1 < Epoch(w.owner)
    ensures Epoch(w.owner) - 1 in w.owner.keys ==> w.owner.keys[Epoch(w.owner) - 1] != w.owner.keys[e]
  {
    hide DeviceInv, MailInv, GrantSound, RosterAt;
  }

  lemma OnceTakes(w: World, d: Device, now: U64)
    requires RefreshOnce(w, d, now).Some?
    ensures forall slot :: slot in RefreshOnce(w, d, now).value.mail ==> slot in w.mail
  {}

  lemma {:induction false} RefreshTakes(w: World, d: Device, now: U64)
    ensures forall slot :: slot in RefreshAll(w, d, now).mail ==> slot in w.mail
    decreases |w.mail|
  {
    hide RefreshOnce;
    match RefreshOnce(w, d, now)
    case None =>
    case Some(next) =>
      OnceShrinks(w, d, now);
      OnceTakes(w, d, now);
      RefreshTakes(next, d, now);
  }

  lemma DirectLeavesMail(w: World, d: Device, now: U64)
    ensures DirectRefresh(w, d, now).mail == w.mail
  {
    hide AcceptEpoch;
  }

  // One event does not carry a device over a skipped transition.
  lemma SkippedStep(w: World, event: Event, d: Device, e: nat)
    requires WorldInv(w) && NoLaterRoster(w) && Fresh(w, event) && Skipped(w, d, e)
    requires AtMost(w, d, e) && !(event.Direct? && event.device == d)
    ensures AtMost(React(w, event), d, e)
  {
    hide WorldInv, RefreshOnce, RefreshAll, Publish, Rotate, Redeem, RecordOffer, RosterAt, Bridged;
    match event {
      case Refreshed(x, now) =>
        RefreshKeeps(w, x, now);
        if x == d {
          NotBridged(w, d, now, e);
          RefreshReachesExactly(w, d, now, e + 1);
        }
      case Turned(x, now) =>
        if RefreshOnce(w, x, now).Some? {
          OnceKeeps(w, x, now);
          NotBridged(w, d, now, e);
          if x == d { TurnCrosses(w, d, now); }
        }
      case Interrupted(x, now) =>
        if RefreshOnce(w, x, now).Some? {
          OnceKeeps(w, x, now);
          NotBridged(w, d, now, e);
          if x == d { TurnCrosses(w, d, now); }
        }
      case Published(reached) => PublishKeeps(w, reached);
      case Direct(x, now) => OthersDirect(w, x, now, d);
      case _ =>
    }
  }

  lemma NotBridged(w: World, d: Device, now: U64, e: nat)
    requires Skipped(w, d, e)
    ensures !Bridged(w, d, now, e)
  {}

  // Rotating again before an update was published to a member, or letting the
  // update expire, strands the member: no later publication or refresh brings it
  // past that epoch, only a direct session.
  lemma {:induction false} SkippedMembersAreStranded(w: World, events: seq<Event>, d: Device, e: nat)
    requires WorldInv(w) && NoLaterRoster(w) && FreshRun(w, events)
    requires Skipped(w, d, e) && AtMost(w, d, e) && ByRelayOnly(events, d)
    ensures AtMost(Run(w, events), d, e)
    decreases |events|
  {
    hide WorldInv, NoLaterRoster, React, Fresh, AtMost, Skipped;
    if events != [] {
      var event := events[0];
      assert event in events;
      EventKeeps(w, event);
      SkippedStep(w, event, d, e);
      SkippedStays(w, event, d, e);
      SkippedMembersAreStranded(React(w, event), events[1..], d, e);
    }
  }
}
