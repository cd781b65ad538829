// When a vault takes a key, a grant or an invitation, condition by condition, and
// what it then holds.
module VaultRules {
  import opened Wrappers
  import opened Ids
  import opened VaultState

  // The grant in an access names the access's own issuer and epoch, and is in
  // force.
  predicate InForce(a: Access, now: U64) {
    && a.capability.issuer == a.issuer
    && a.capability.epoch == a.epoch
    && a.capability.notBefore <= now
    && now < a.capability.expiresAt
  }

  // A first share is taken exactly from the peer that issued it, for this device,
  // in force, into a vault that has neither access nor a key for the epoch.
  lemma AcceptsSharedExactly(v: Vault, peer: Device, a: Access, key: Key, now: U64)
    ensures AcceptShared(v, peer, a, key, now).Ok? <==>
              && InForce(a, now) && a.capability.subject == v.device && a.issuer == peer
              && v.access.None? && a.epoch <= I64_MAX && a.epoch !in v.keys
    ensures AcceptShared(v, peer, a, key, now).Ok? ==>
              var next := AcceptShared(v, peer, a, key, now).value;
              && next.access == Some(a) && next.keys == v.keys[a.epoch := key]
              && next.members == v.members && next.offers == v.offers && next.device == v.device
  {}

  // What a refused first share is refused for.
  lemma SharedRefusals(v: Vault, peer: Device, a: Access, key: Key, now: U64)
    ensures var r, forUs := AcceptShared(v, peer, a, key, now), a.capability.subject == v.device && a.issuer == peer;
            && (r in {Err(Inconsistent), Err(Unauthorized)} <==> !InForce(a, now))
            && (r == Err(Mismatch) <==> InForce(a, now) && !forUs)
            && (r == Err(AlreadyInitialized) <==> InForce(a, now) && forUs && v.access.Some?)
            && (r == Err(KeyExists) <==> InForce(a, now) && forUs && v.access.None? && a.epoch <= I64_MAX && a.epoch in v.keys)
  {}

  // A newer epoch is taken exactly from the issuer of the present one.
  lemma AcceptsEpochExactly(v: Vault, peer: Device, a: Access, key: Key, now: U64)
    ensures AcceptEpoch(v, peer, a, key, now).Ok? <==>
              && InForce(a, now) && a.capability.subject == v.device && a.issuer == peer
              && v.access.Some? && a.issuer == v.access.value.issuer && v.access.value.epoch < a.epoch <= I64_MAX
              && a.epoch !in v.keys
    ensures AcceptEpoch(v, peer, a, key, now).Ok? ==>
              var next := AcceptEpoch(v, peer, a, key, now).value;
              && next.access == Some(a) && next.keys == v.keys[a.epoch := key]
              && next.members == v.members && next.offers == v.offers && next.device == v.device
  {}

  // What a refused newer epoch is refused for.
  lemma EpochRefusals(v: Vault, peer: Device, a: Access, key: Key, now: U64)
    requires v.access.Some?
    ensures var r := AcceptEpoch(v, peer, a, key, now);
            var newer := a.issuer == peer && a.issuer == v.access.value.issuer && a.capability.subject == v.device && a.epoch > v.access.value.epoch;
            && (r in {Err(Inconsistent), Err(Unauthorized)} <==> !InForce(a, now))
            && (r == Err(Mismatch) <==> InForce(a, now) && !newer)
            && (r == Err(KeyExists) <==> InForce(a, now) && newer && a.epoch <= I64_MAX && a.epoch in v.keys)
  {}

  // An epoch is committed exactly if it is newer, its own grant and those of its
  // members are in force under it, its key slot is free and no member occurs twice.
  lemma CommitsExactly(v: Vault, local: Access, key: Key, members: seq<Capability>, now: U64)
    ensures CommitEpoch(v, local, key, members, now).Ok? <==>
              && InForce(local, now)
              && (forall m :: m in members ==>
                    m.issuer == local.issuer && m.epoch == local.epoch && m.notBefore <= now && now < m.expiresAt)
              && (v.access.Some? ==> v.access.value.epoch < local.epoch)
              && local.epoch <= I64_MAX && local.epoch !in v.keys
              && (forall i, j :: 0 <= i < j < |members| ==> members[i].subject != members[j].subject)
    ensures CommitEpoch(v, local, key, members, now).Ok? ==>
              var next := CommitEpoch(v, local, key, members, now).value;
              && next.access == Some(local) && next.keys == v.keys[local.epoch := key]
              && next.offers == v.offers && next.device == v.device
              && (forall c :: c in members ==> c.subject in next.members && next.members[c.subject] == c)
              && (forall d :: d in next.members ==> next.members[d] in members && next.members[d].subject == d)
  {
    hide Roster;
    if DistinctSubjects(members) {
      RosterExactly(members);
    }
  }

  // A space is initialised exactly in a vault without one, before the end of time.
  lemma InitializesExactly(v: Vault, key: Key, now: U64)
    ensures InitializeOwned(v, key, now).Ok? <==> v.access.None? && now < U64_MAX && 1 !in v.keys
    ensures InitializeOwned(v, key, now).Ok? ==>
              var next := InitializeOwned(v, key, now).value;
              && next.access == Some(Access(v.device, 1, Capability(v.device, 1, v.device, ReadWrite, now, U64_MAX)))
              && next.keys == v.keys[1 := key] && next.members == map[] && next.offers == v.offers && next.device == v.device
  {
    assert Roster([]) == map[];
  }

  // A vault yields its credentials exactly when its grant is of its own issuer and
  // epoch and the epoch's key is there.
  lemma CredentialsExactly(v: Vault)
    ensures CredentialsOf(v).Ok? && CredentialsOf(v).value.None? <==> v.access.None?
    ensures CredentialsOf(v).Ok? && CredentialsOf(v).value.Some? <==>
              && v.access.Some? && v.access.value.capability.issuer == v.access.value.issuer
              && v.access.value.capability.epoch == v.access.value.epoch && v.access.value.epoch in v.keys
    ensures CredentialsOf(v).Ok? && CredentialsOf(v).value.Some? ==>
              CredentialsOf(v).value.value == Credentials(v.access.value, v.keys[v.access.value.epoch])
    ensures CredentialsOf(v) == Err(Protected) <==> v.access.Some? && Consistent(v.access.value) && v.access.value.epoch !in v.keys
    ensures CredentialsOf(v) == Err(Inconsistent) <==> v.access.Some? && !Consistent(v.access.value)
  {}

  // An invitation is recorded exactly for the present issuer and epoch and under a
  // new name, and is then open.
  lemma OffersExactly(v: Vault, invite: Invite)
    ensures RecordOffer(v, invite).Ok? <==>
              && v.access.Some? && v.access.value.issuer == invite.issuer && v.access.value.epoch == invite.epoch
              && invite.id !in v.offers
    ensures RecordOffer(v, invite).Ok? ==>
              RecordOffer(v, invite).value == v.(offers := v.offers[invite.id := Offer(invite, None)])
    ensures RecordOffer(v, invite) == Err(Duplicated) ==> invite.id in v.offers
    ensures RecordOffer(v, invite) == Err(Unavailable) ==> !Current(v, invite)
  {}
}
