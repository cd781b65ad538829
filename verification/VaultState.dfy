// One space in a trust vault as a value: authority, epoch keys, members and
// share invitations. Signatures and sealing are ideal.
module VaultState {
  import opened Wrappers
  import opened Ids

  type Device = nat
  type Key = nat
  type InviteId = nat

  datatype Permission = ReadOnly | ReadWrite

  datatype Capability = Capability(issuer: Device, epoch: U64, subject: Device, permission: Permission,
                                   notBefore: U64, expiresAt: U64)

  datatype Access = Access(issuer: Device, epoch: U64, capability: Capability)

  datatype Invite = Invite(id: InviteId, issuer: Device, epoch: U64, permission: Permission, issuedAt: U64, expiresAt: U64)

  datatype Offer = Offer(invite: Invite, redeemed: Option<Capability>)

  datatype Vault = Vault(
    device: Device,
    access: Option<Access>,
    keys: map<U64, Key>,
    members: map<Device, Capability>,
    offers: map<InviteId, Offer>)

  datatype TrustError =
    | Inconsistent | Unauthorized | Mismatch | Rollback | Protected | KeyExists
    | AlreadyInitialized | Unavailable | Duplicated

  function NewVault(device: Device): Vault {
    Vault(device, None, map[], map[], map[])
  }

  // ---- grants ----

  predicate Consistent(a: Access) {
    a.capability.issuer == a.issuer && a.capability.epoch == a.epoch
  }

  // Authorisation to read, which both permissions allow.
  predicate Authorized(c: Capability, issuer: Device, epoch: U64, subject: Device, now: U64) {
    && c.epoch == epoch
    && c.issuer == issuer && c.subject == subject
    && c.notBefore <= now < c.expiresAt
  }

  function AccessError(a: Access, now: U64): Option<TrustError> {
    if !Consistent(a) then Some(Inconsistent)
    else if !Authorized(a.capability, a.issuer, a.epoch, a.capability.subject, now) then Some(Unauthorized)
    else None
  }

  // A grant cannot be issued at the end of time.
  function Issue(issuer: Device, epoch: U64, subject: Device, permission: Permission, now: U64): Result<Capability, TrustError> {
    if now == U64_MAX then Err(Unauthorized) else Ok(Capability(issuer, epoch, subject, permission, now, U64_MAX))
  }

  datatype Credentials = Credentials(access: Access, key: Key)

  function CredentialsOf(v: Vault): Result<Option<Credentials>, TrustError> {
    match v.access
    case None => Ok(None)
    case Some(a) =>
      if !Consistent(a) then Err(Inconsistent)
      else if a.epoch !in v.keys then Err(Protected)
      else Ok(Some(Credentials(a, v.keys[a.epoch])))
  }

  // ---- committing an epoch ----

  predicate DistinctSubjects(members: seq<Capability>) {
    forall i, j :: 0 <= i < j < |members| ==> members[i].subject != members[j].subject
  }

  function Roster(members: seq<Capability>): map<Device, Capability> {
    if members == [] then map[] else Roster(members[..|members| - 1])[members[|members| - 1].subject := members[|members| - 1]]
  }

  function CommitError(v: Vault, local: Access, members: seq<Capability>, now: U64): Option<TrustError> {
    if AccessError(local, now).Some? then AccessError(local, now)
    else if exists m :: m in members && !Authorized(m, local.issuer, local.epoch, m.subject, now) then Some(Unauthorized)
    else if v.access.Some? && local.epoch <= v.access.value.epoch then Some(Rollback)
    else if local.epoch > I64_MAX then Some(Protected)
    else if local.epoch in v.keys then Some(KeyExists)
    else if !DistinctSubjects(members) then Some(Duplicated)
    else None
  }

  function CommitEpoch(v: Vault, local: Access, key: Key, members: seq<Capability>, now: U64): Result<Vault, TrustError> {
    match CommitError(v, local, members, now)
    case Some(e) => Err(e)
    case None => Ok(v.(keys := v.keys[local.epoch := key], access := Some(local), members := Roster(members)))
  }

  function InitializeOwned(v: Vault, key: Key, now: U64): Result<Vault, TrustError> {
    if v.access.Some? then Err(AlreadyInitialized)
    else
      match Issue(v.device, 1, v.device, ReadWrite, now)
      case Err(e) => Err(e)
      case Ok(capability) => CommitEpoch(v, Access(v.device, 1, capability), key, [], now)
  }

  // ---- rotating ----

  // Fresh grants with the old permissions for whoever is not revoked.
  function Regrant(members: map<Device, Capability>, subjects: seq<Device>, revoked: seq<Device>, issuer: Device, epoch: U64, now: U64):
    (r: seq<Capability>)
    requires forall d :: d in subjects ==> d in members
  {
    if subjects == [] then []
    else
      var d := subjects[0];
      (if members[d].subject in revoked then [] else [Capability(issuer, epoch, members[d].subject, members[d].permission, now, U64_MAX)])
      + Regrant(members, subjects[1..], revoked, issuer, epoch, now)
  }

  function Rotate(v: Vault, revoked: seq<Device>, key: Key, now: U64): Result<Vault, TrustError> {
    match CredentialsOf(v)
    case Err(e) => Err(e)
    case Ok(None) => Err(Inconsistent)
    case Ok(Some(current)) =>
      var a := current.access;
      if a.issuer != v.device || a.capability.subject != v.device then Err(Mismatch)
      else if a.epoch == U64_MAX then Err(Protected)
      else
        match Issue(v.device, a.epoch + 1, v.device, a.capability.permission, now)
        case Err(e) => Err(e)
        case Ok(capability) =>
          var members := Regrant(v.members, Rising(v.members.Keys), revoked, v.device, a.epoch + 1, now);
          CommitEpoch(v, Access(v.device, a.epoch + 1, capability), key, members, now)
  }

  // ---- a member's side ----

  function AcceptShared(v: Vault, peer: Device, a: Access, key: Key, now: U64): Result<Vault, TrustError> {
    if AccessError(a, now).Some? then Err(AccessError(a, now).value)
    else if a.capability.subject != v.device || a.issuer != peer then Err(Mismatch)
    else if v.access.Some? then Err(AlreadyInitialized)
    else if a.epoch > I64_MAX then Err(Protected)
    else if a.epoch in v.keys then Err(KeyExists)
    else Ok(v.(keys := v.keys[a.epoch := key], access := Some(a)))
  }

  function AcceptEpoch(v: Vault, peer: Device, a: Access, key: Key, now: U64): Result<Vault, TrustError> {
    if AccessError(a, now).Some? then Err(AccessError(a, now).value)
    else if v.access.None? then Err(Inconsistent)
    else if a.issuer != peer || a.issuer != v.access.value.issuer || a.capability.subject != v.device
            || a.epoch <= v.access.value.epoch then Err(Mismatch)
    else if a.epoch > I64_MAX then Err(Protected)
    else if a.epoch in v.keys then Err(KeyExists)
    else Ok(v.(keys := v.keys[a.epoch := key], access := Some(a)))
  }

  // ---- share invitations ----

  predicate Current(v: Vault, invite: Invite) {
    v.access.Some? && v.access.value.issuer == invite.issuer && v.access.value.epoch == invite.epoch
  }

  function RecordOffer(v: Vault, invite: Invite): Result<Vault, TrustError> {
    if !Current(v, invite) then Err(Unavailable)
    else if invite.id in v.offers then Err(Duplicated)
    else Ok(v.(offers := v.offers[invite.id := Offer(invite, None)]))
  }

  datatype Redeemed = Redeemed(vault: Vault, capability: Capability)

  // Single use; repeating the same redemption returns the committed grant.
  function Redeem(v: Vault, invite: Invite, subject: Device, now: U64): Result<Redeemed, TrustError> {
    if !Current(v, invite) then Err(Unavailable)
    else if invite.issuer != v.device || now < invite.issuedAt || now >= invite.expiresAt || now == U64_MAX then Err(Unavailable)
    else if invite.id !in v.offers || v.offers[invite.id].invite != invite then Err(Unavailable)
    else
      match v.offers[invite.id].redeemed
      case None =>
        var capability := Capability(v.device, invite.epoch, subject, invite.permission, now, U64_MAX);
        Ok(Redeemed(v.(offers := v.offers[invite.id := Offer(invite, Some(capability))],
                       members := v.members[subject := capability]),
                    capability))
      case Some(existing) => if existing.subject == subject then Ok(Redeemed(v, existing)) else Err(Unavailable)
  }

  // ---- an invitation admits one subject ----

  // The invitation is of the space's present epoch, from this vault's device,
  // and its time has come and not passed.
  predicate Redeemable(v: Vault, invite: Invite, now: U64) {
    && v.access.Some? && v.access.value.issuer == invite.issuer == v.device && v.access.value.epoch == invite.epoch
    && invite.issuedAt <= now < invite.expiresAt && now < U64_MAX
    && invite.id in v.offers && v.offers[invite.id].invite == invite
  }

  // An invitation on offer admits its first subject, with the permission it
  // offers, and afterwards that subject only, to the grant first given.
  lemma RedeemsExactly(v: Vault, invite: Invite, subject: Device, now: U64)
    ensures Redeem(v, invite, subject, now).Ok? <==>
              && Redeemable(v, invite, now)
              && (v.offers[invite.id].redeemed.Some? ==> v.offers[invite.id].redeemed.value.subject == subject)
    ensures Redeem(v, invite, subject, now).Ok? && v.offers[invite.id].redeemed.None? ==>
              var Redeemed(next, c) := Redeem(v, invite, subject, now).value;
              && c.subject == subject && c.issuer == v.device && c.epoch == invite.epoch && c.permission == invite.permission
              && c.notBefore == now && c.expiresAt == U64_MAX
              && next.offers == v.offers[invite.id := Offer(invite, Some(c))]
              && next.members == v.members[subject := c]
              && next.access == v.access && next.keys == v.keys && next.device == v.device
    ensures Redeem(v, invite, subject, now).Ok? && v.offers[invite.id].redeemed.Some? ==>
              Redeem(v, invite, subject, now).value == Redeemed(v, v.offers[invite.id].redeemed.value)
  {}

  // After a redemption, every later one of the same invitation is the same
  // subject's; it returns the same grant and changes nothing.
  lemma RedeemedOnce(v: Vault, invite: Invite, subject: Device, now: U64, other: Device, later: U64)
    requires Redeem(v, invite, subject, now).Ok?
    ensures var Redeemed(next, c) := Redeem(v, invite, subject, now).value;
            && c.subject == subject
            && (Redeem(next, invite, other, later).Ok? <==>
                  other == subject && invite.issuedAt <= later < invite.expiresAt && later < U64_MAX)
            && (Redeem(next, invite, other, later).Ok? ==> Redeem(next, invite, other, later).value == Redeemed(next, c))
  {
    hide Redeem;
    RedeemsExactly(v, invite, subject, now);
    var next := Redeem(v, invite, subject, now).value.vault;
    RedeemsExactly(next, invite, other, later);
  }

  // ---- what one rotation does ----

  lemma {:induction false} RegrantMembers(members: map<Device, Capability>, subjects: seq<Device>, revoked: seq<Device>, issuer: Device,
                                          epoch: U64, now: U64)
    requires forall d :: d in subjects ==> d in members && members[d].subject == d
    requires forall i, j :: 0 <= i < j < |subjects| ==> subjects[i] != subjects[j]
    ensures var r := Regrant(members, subjects, revoked, issuer, epoch, now);
            && DistinctSubjects(r)
            && forall c :: c in r <==> c.subject in subjects && c.subject !in revoked
                                       && c == Capability(issuer, epoch, c.subject, members[c.subject].permission, now, U64_MAX)
  {
    if subjects != [] {
      var rest := Regrant(members, subjects[1..], revoked, issuer, epoch, now);
      RegrantMembers(members, subjects[1..], revoked, issuer, epoch, now);
      assert forall d :: d in subjects <==> d == subjects[0] || d in subjects[1..];
      forall i | 0 <= i < |rest| ensures rest[i].subject in subjects[1..] {
        assert rest[i] in rest;
      }
    }
  }

  lemma {:induction false} RosterExactly(members: seq<Capability>)
    requires DistinctSubjects(members)
    ensures forall d :: d in Roster(members) ==> Roster(members)[d] in members && Roster(members)[d].subject == d
    ensures forall c :: c in members ==> c.subject in Roster(members) && Roster(members)[c.subject] == c
  {
    if members != [] {
      var init, last := members[..|members| - 1], members[|members| - 1];
      RosterExactly(init);
      assert forall c :: c in members <==> c in init || c == last;
      forall c | c in init ensures c.subject != last.subject {
        var i :| 0 <= i < |init| && init[i] == c;
        assert members[i] == c;
      }
    }
  }

  lemma RegrantedRoster(v: Vault, revoked: seq<Device>, epoch: U64, now: U64)
    requires forall d :: d in v.members ==> v.members[d].subject == d
    ensures var granted := Regrant(v.members, Rising(v.members.Keys), revoked, v.device, epoch, now);
            && DistinctSubjects(granted)
            && (now < U64_MAX ==> forall c :: c in granted ==> Authorized(c, v.device, epoch, c.subject, now))
            && Roster(granted).Keys == (set d | d in v.members && d !in revoked)
            && forall d :: d in Roster(granted) ==>
                 Roster(granted)[d] == Capability(v.device, epoch, d, v.members[d].permission, now, U64_MAX)
  {
    hide Regrant, Roster, DistinctSubjects, Rising;
    var subjects := Rising(v.members.Keys);
    var granted := Regrant(v.members, subjects, revoked, v.device, epoch, now);
    RegrantMembers(v.members, subjects, revoked, v.device, epoch, now);
    RosterExactly(granted);
    var roster := Roster(granted);
    forall d | d in v.members && d !in revoked ensures d in roster {
      assert Capability(v.device, epoch, d, v.members[d].permission, now, U64_MAX) in granted;
    }
    forall d | d in roster
      ensures d in v.members && d !in revoked && roster[d] == Capability(v.device, epoch, d, v.members[d].permission, now, U64_MAX)
    {
      assert roster[d] in granted && roster[d].subject == d;
    }
  }

  // The members of a rotated space are exactly the members not revoked, each
  // with a fresh grant for the new epoch and the permission it had.
  lemma RotationKeepsExactly(v: Vault, revoked: seq<Device>, key: Key, now: U64)
    requires Rotate(v, revoked, key, now).Ok?
    requires forall d :: d in v.members ==> v.members[d].subject == d
    ensures var next, epoch := Rotate(v, revoked, key, now).value, v.access.value.epoch;
            && next.members.Keys == (set d | d in v.members && d !in revoked)
            && (forall d :: d in next.members ==>
                  next.members[d] == Capability(v.device, epoch + 1, d, v.members[d].permission, now, U64_MAX))
            && next.access.Some? && next.access.value.epoch == epoch + 1 && next.access.value.issuer == v.device
            && next.access.value.capability.subject == v.device && Consistent(next.access.value)
            && epoch + 1 !in v.keys && next.keys == v.keys[epoch + 1 := key]
            && next.device == v.device && next.offers == v.offers
  {
    hide Regrant, Roster, Rising, DistinctSubjects, Authorized;
    RegrantedRoster(v, revoked, v.access.value.epoch + 1, now);
  }

  // A rotation succeeds exactly for the issuer, before the epochs run out, on a
  // free key slot.
  lemma RotationSucceedsExactly(v: Vault, revoked: seq<Device>, key: Key, now: U64)
    requires forall d :: d in v.members ==> v.members[d].subject == d
    ensures Rotate(v, revoked, key, now).Ok? <==>
            && v.access.Some? && Consistent(v.access.value) && v.access.value.epoch in v.keys
            && v.access.value.issuer == v.device && v.access.value.capability.subject == v.device
            && now < U64_MAX
            && v.access.value.epoch < I64_MAX
            && v.access.value.epoch + 1 !in v.keys
    ensures Rotate(v, revoked, key, now) == Err(Mismatch) <==>
            && v.access.Some? && Consistent(v.access.value) && v.access.value.epoch in v.keys
            && !(v.access.value.issuer == v.device && v.access.value.capability.subject == v.device)
    ensures Rotate(v, revoked, key, now) == Err(Inconsistent) <==> v.access.None? || !Consistent(v.access.value)
  {
    hide Regrant, Roster, Rising, DistinctSubjects;
    if v.access.Some? && v.access.value.epoch < U64_MAX {
      RegrantedRoster(v, revoked, v.access.value.epoch + 1, now);
    }
  }
}
