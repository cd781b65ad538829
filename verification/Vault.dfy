// The trust vault as an object: each method is one transaction on the tables
// of a space.
module Vault {
  import opened Wrappers
  import opened Ids
  import VS = VaultState
  import opened VaultState

  lemma RosterStep(members: seq<Capability>, i: nat)
    requires i < |members|
    ensures Roster(members[..i + 1]) == Roster(members[..i])[members[i].subject := members[i]]
  {
    var init := members[..i + 1];
    assert init[..|init| - 1] == members[..i];
  }

  lemma RosterHolds(members: seq<Capability>, i: nat)
    requires i < |members| && DistinctSubjects(members[..i])
    ensures members[i].subject in Roster(members[..i]) <==> exists j :: 0 <= j < i && members[j].subject == members[i].subject
  {
    RosterExactly(members[..i]);
    if members[i].subject in Roster(members[..i]) {
      var c := Roster(members[..i])[members[i].subject];
      var j :| 0 <= j < i && members[..i][j] == c;
      assert members[j].subject == members[i].subject;
    }
    forall j | 0 <= j < i && members[j].subject == members[i].subject ensures members[i].subject in Roster(members[..i]) {
      assert members[..i][j] == members[j];
      assert members[j] in members[..i];
    }
  }

  lemma RegrantStep(members: map<Device, Capability>, subjects: seq<Device>, revoked: seq<Device>, issuer: Device, epoch: U64, now: U64, i: nat)
    requires i < |subjects| && forall d :: d in subjects ==> d in members
    ensures subjects[i] in subjects
    ensures forall d :: d in subjects[i..] ==> d in members
    ensures forall d :: d in subjects[i + 1..] ==> d in members
    ensures Regrant(members, subjects[i..], revoked, issuer, epoch, now)
         == (if members[subjects[i]].subject in revoked then []
             else [Capability(issuer, epoch, members[subjects[i]].subject, members[subjects[i]].permission, now, U64_MAX)])
            + Regrant(members, subjects[i + 1..], revoked, issuer, epoch, now)
  {
    assert subjects[i..][0] == subjects[i] && subjects[i..][1..] == subjects[i + 1..];
  }

  lemma Regroup(a: seq<Capability>, b: seq<Capability>, c: seq<Capability>)
    ensures a + (b + c) == (if b == [] then a else a + b) + c
  {}

  class TrustStore {
    var tables: VS.Vault

    constructor (device: Device)
      ensures tables == NewVault(device)
    {
      tables := NewVault(device);
    }

    // The roster is replaced row by row; a failure anywhere leaves the vault
    // as it was.
    method CommitSpaceEpoch(local: Access, key: Key, members: seq<Capability>, now: U64) returns (r: Result<(), TrustError>)
      modifies this
      ensures match CommitEpoch(old(tables), local, key, members, now)
              case Ok(next) => r == Ok(()) && tables == next
              case Err(e) => r == Err(e) && tables == old(tables)
    {
      var problem := AccessError(local, now);
      if problem.Some? {
        return Err(problem.value);
      }
      var i := 0;
      while i < |members|
        invariant 0 <= i <= |members|
        invariant tables == old(tables)
        invariant forall j :: 0 <= j < i ==> Authorized(members[j], local.issuer, local.epoch, members[j].subject, now)
      {
        if !Authorized(members[i], local.issuer, local.epoch, members[i].subject, now) {
          assert members[i] in members;
          return Err(Unauthorized);
        }
        i := i + 1;
      }
      if tables.access.Some? && local.epoch <= tables.access.value.epoch {
        return Err(Rollback);
      }
      if local.epoch > I64_MAX {
        return Err(Protected);
      }
      if local.epoch in tables.keys {
        return Err(KeyExists);
      }
      assert forall m :: m in members ==> Authorized(m, local.issuer, local.epoch, m.subject, now);
      var roster: map<Device, Capability> := map[];
      i := 0;
      while i < |members|
        invariant 0 <= i <= |members|
        invariant tables == old(tables)
        invariant DistinctSubjects(members[..i])
        invariant roster == Roster(members[..i])
      {
        hide Roster, Authorized;
        RosterHolds(members, i);
        if members[i].subject in roster {
          ghost var j :| 0 <= j < i && members[j].subject == members[i].subject;
          return Err(Duplicated);
        }
        RosterStep(members, i);
        roster := roster[members[i].subject := members[i]];
        i := i + 1;
      }
      assert members[..i] == members;
      tables := tables.(keys := tables.keys[local.epoch := key], access := Some(local), members := roster);
      r := Ok(());
    }

    method RegrantEach(revoked: seq<Device>, epoch: U64, now: U64) returns (granted: seq<Capability>)
      ensures granted == Regrant(tables.members, Rising(tables.members.Keys), revoked, tables.device, epoch, now)
    {
      hide Rising;
      var subjects := Rising(tables.members.Keys);
      granted := [];
      var i := 0;
      assert subjects[0..] == subjects;
      while i < |subjects|
        invariant 0 <= i <= |subjects|
        invariant forall d :: d in subjects[i..] ==> d in tables.members
        invariant granted + Regrant(tables.members, subjects[i..], revoked, tables.device, epoch, now)
               == Regrant(tables.members, subjects, revoked, tables.device, epoch, now)
      {
        hide Regrant;
        RegrantStep(tables.members, subjects, revoked, tables.device, epoch, now, i);
        var member := tables.members[subjects[i]];
        var c := Capability(tables.device, epoch, member.subject, member.permission, now, U64_MAX);
        Regroup(granted, if member.subject in revoked then [] else [c],
                Regrant(tables.members, subjects[i + 1..], revoked, tables.device, epoch, now));
        if member.subject !in revoked {
          granted := granted + [c];
        }
        i := i + 1;
      }
      assert granted + [] == granted;
    }

    // Everyone not revoked is granted the next epoch under the permission held.
    method RotateOwnedSpace(revoked: seq<Device>, key: Key, now: U64) returns (r: Result<(), TrustError>)
      modifies this
      ensures match Rotate(old(tables), revoked, key, now)
              case Ok(next) => r == Ok(()) && tables == next
              case Err(e) => r == Err(e) && tables == old(tables)
      ensures r.Ok? && (forall d :: d in old(tables).members ==> old(tables).members[d].subject == d) ==>
                tables.members.Keys == (set d | d in old(tables).members && d !in revoked)
    {
      hide CommitEpoch, Roster, Regrant, Rising;
      ghost var before := tables;
      if Rotate(before, revoked, key, now).Ok? && forall d :: d in before.members ==> before.members[d].subject == d {
        RotationKeepsExactly(before, revoked, key, now);
      }
      var credentials := CredentialsOf(tables);
      if credentials.Err? {
        return Err(credentials.error);
      }
      if credentials.value.None? {
        return Err(Inconsistent);
      }
      var a := credentials.value.value.access;
      if a.issuer != tables.device || a.capability.subject != tables.device {
        return Err(Mismatch);
      }
      if a.epoch == U64_MAX {
        return Err(Protected);
      }
      var capability := Issue(tables.device, a.epoch + 1, tables.device, a.capability.permission, now);
      if capability.Err? {
        return Err(capability.error);
      }
      var members := RegrantEach(revoked, a.epoch + 1, now);
      r := CommitSpaceEpoch(Access(tables.device, a.epoch + 1, capability.value), key, members, now);
    }

    method AcceptSharedSpace(peer: Device, a: Access, key: Key, now: U64) returns (r: Result<(), TrustError>)
      modifies this
      ensures match AcceptShared(old(tables), peer, a, key, now)
              case Ok(next) => r == Ok(()) && tables == next
              case Err(e) => r == Err(e) && tables == old(tables)
    {
      var problem := AccessError(a, now);
      if problem.Some? {
        return Err(problem.value);
      }
      if a.capability.subject != tables.device || a.issuer != peer {
        return Err(Mismatch);
      }
      if tables.access.Some? {
        return Err(AlreadyInitialized);
      }
      if a.epoch > I64_MAX {
        return Err(Protected);
      }
      if a.epoch in tables.keys {
        return Err(KeyExists);
      }
      tables := tables.(keys := tables.keys[a.epoch := key], access := Some(a));
      r := Ok(());
    }

    // A newer epoch only, in an unused key slot.
    method AcceptSpaceEpoch(peer: Device, a: Access, key: Key, now: U64) returns (r: Result<(), TrustError>)
      modifies this
      ensures match AcceptEpoch(old(tables), peer, a, key, now)
              case Ok(next) => r == Ok(()) && tables == next
              case Err(e) => r == Err(e) && tables == old(tables)
      ensures forall e :: e in old(tables).keys ==> e in tables.keys && tables.keys[e] == old(tables).keys[e]
    {
      var problem := AccessError(a, now);
      if problem.Some? {
        return Err(problem.value);
      }
      if tables.access.None? {
        return Err(Inconsistent);
      }
      var current := tables.access.value;
      if a.issuer != peer || a.issuer != current.issuer || a.capability.subject != tables.device || a.epoch <= current.epoch {
        return Err(Mismatch);
      }
      if a.epoch > I64_MAX {
        return Err(Protected);
      }
      if a.epoch in tables.keys {
        return Err(KeyExists);
      }
      tables := tables.(keys := tables.keys[a.epoch := key], access := Some(a));
      r := Ok(());
    }

    method RedeemInvitation(invite: Invite, subject: Device, now: U64) returns (r: Result<Capability, TrustError>)
      modifies this
      ensures match Redeem(old(tables), invite, subject, now)
              case Ok(done) => r == Ok(done.capability) && tables == done.vault
              case Err(e) => r == Err(e) && tables == old(tables)
      ensures r.Ok? <==> old(Redeemable(tables, invite, now)
                             && (tables.offers[invite.id].redeemed.Some? ==> tables.offers[invite.id].redeemed.value.subject == subject))
      ensures r.Ok? ==> r.value.subject == subject && tables.offers[invite.id] == Offer(invite, Some(r.value))
      ensures r.Ok? && old(tables.offers[invite.id].redeemed.Some?) ==> tables == old(tables)
    {
      RedeemsExactly(tables, invite, subject, now);
      if !Current(tables, invite) {
        return Err(Unavailable);
      }
      if invite.issuer != tables.device || now < invite.issuedAt || now >= invite.expiresAt || now == U64_MAX {
        return Err(Unavailable);
      }
      if invite.id !in tables.offers || tables.offers[invite.id].invite != invite {
        return Err(Unavailable);
      }
      match tables.offers[invite.id].redeemed {
        case Some(existing) =>
          return if existing.subject == subject then Ok(existing) else Err(Unavailable);
        case None =>
      }
      var capability := Capability(tables.device, invite.epoch, subject, invite.permission, now, U64_MAX);
      tables := tables.(offers := tables.offers[invite.id := Offer(invite, Some(capability))],
                        members := tables.members[subject := capability]);
      r := Ok(capability);
    }
  }
}
