// Which histories a user may have, said of the events alone: who was linked when,
// and who may therefore sign the next event.
module UserAuthority {
  import opened Wrappers
  import opened Ids
  import opened UserEvents
  import opened UserChain

  // The last word of a history on a device is that it was linked.
  ghost predicate Linked(history: seq<Event>, d: Device) {
    exists j :: 0 <= j < |history| && history[j].action == Add(d)
                && forall m :: j < m < |history| ==> history[m].action != Remove(d)
  }

  // A root that its first device signed.
  predicate RootedBy(c: Crypto, e: Event) {
    && e.version == USER_VERSION && e.sequence == 0 && e.previous == NO_PREDECESSOR
    && e.action == Add(e.actor)
    && e.nonce.Some? && e.user == DeriveUserId(c, e.actor, e.nonce.value)
    && c.verify(e.actor, SigningBytes(e), e.signature)
  }

  // An event that may come next: signed by a device linked so far, it links a
  // device that is not, or removes one that is and leaves another.
  ghost predicate MayFollow(c: Crypto, history: seq<Event>, e: Event)
    requires history != []
  {
    && e.version == USER_VERSION && e.user == history[0].user && e.nonce.None?
    && e.sequence == |history| && e.previous == Digest(c, history[|history| - 1])
    && Linked(history, e.actor)
    && c.verify(e.actor, SigningBytes(e), e.signature)
    && match e.action
       case Add(d) => !Linked(history, d)
       case Remove(d) => Linked(history, d) && exists other :: other != d && Linked(history, other)
  }

  ghost predicate ValidHistory(c: Crypto, history: seq<Event>) {
    && history != [] && RootedBy(c, history[0])
    && forall k :: 0 < k < |history| ==> MayFollow(c, history[..k], history[k])
  }

  lemma LinkedStep(history: seq<Event>, e: Event, d: Device)
    ensures Linked(history + [e], d) <==> e.action == Add(d) || (Linked(history, d) && e.action != Remove(d))
  {
    var all := history + [e];
    if e.action == Add(d) {
      assert all[|history|].action == Add(d);
    } else if Linked(history, d) && e.action != Remove(d) {
      var j :| 0 <= j < |history| && history[j].action == Add(d) && forall m :: j < m < |history| ==> history[m].action != Remove(d);
      assert all[j].action == Add(d);
    }
    if Linked(all, d) && e.action != Add(d) {
      var j :| 0 <= j < |all| && all[j].action == Add(d) && forall m :: j < m < |all| ==> all[m].action != Remove(d);
      assert history[j].action == Add(d);
      assert forall m :: j < m < |history| ==> all[m] == history[m];
      assert all[|history|].action != Remove(d);
    }
  }

  lemma RootLinks(e: Event, d: Device)
    requires e.action.Add?
    ensures Linked([e], d) <==> d == e.action.device
  {
    assert [e] == [] + [e];
    LinkedStep([], e, d);
  }

  lemma LastOne(devices: set<Device>, d: Device)
    requires d in devices
    ensures |devices| == 1 <==> !exists other :: other != d && other in devices
  {
    if |devices| == 1 {
      assert |devices - {d}| == 0;
    }
    if !exists other :: other != d && other in devices {
      assert devices == {d};
    }
  }

  lemma NextExactly(c: Crypto, i: Identity, e: Event)
    requires i.events != [] && i.events[0].user == i.id
    requires forall d :: d in i.devices <==> Linked(i.events, d)
    ensures Apply(c, i, e).Ok? <==> MayFollow(c, i.events, e)
  {
    hide Linked, SigningBytes;
    if e.action.Remove? && e.action.device in i.devices {
      LastOne(i.devices, e.action.device);
    }
  }

  lemma DevicesFollow(c: Crypto, i: Identity, e: Event, d: Device)
    requires Apply(c, i, e).Ok? && (d in i.devices <==> Linked(i.events, d))
    ensures d in Apply(c, i, e).value.devices <==> Linked(Apply(c, i, e).value.events, d)
  {
    LinkedStep(i.events, e, d);
  }

  lemma ValidStep(c: Crypto, history: seq<Event>, e: Event)
    requires history != []
    ensures ValidHistory(c, history + [e]) <==> ValidHistory(c, history) && MayFollow(c, history, e)
  {
    hide MayFollow, RootedBy;
    var all := history + [e];
    assert all[..|history|] == history;
    assert forall k :: 0 < k < |history| ==> all[..k] == history[..k] && all[k] == history[k];
    if ValidHistory(c, all) {
      assert MayFollow(c, all[..|history|], all[|history|]);
      forall k | 0 < k < |history| ensures MayFollow(c, history[..k], history[k]) {
        assert MayFollow(c, all[..k], all[k]);
      }
    }
    if ValidHistory(c, history) && MayFollow(c, history, e) {
      forall k | 0 < k < |all| ensures MayFollow(c, all[..k], all[k]) {
        if k < |history| { assert MayFollow(c, history[..k], history[k]); }
      }
    }
  }

  // A history replays exactly when it is a signed root followed by events each
  // of which may come next; its devices are then exactly those last linked.
  lemma {:induction false} ReplaysExactly(c: Crypto, history: seq<Event>)
    ensures FromEvents(c, history).Ok? <==> ValidHistory(c, history)
    ensures FromEvents(c, history).Ok? ==>
              var i := FromEvents(c, history).value;
              i.events == history && i.id == history[0].user && forall d :: d in i.devices <==> Linked(history, d)
    decreases |history|
  {
    hide SigningBytes, Linked, Apply, MayFollow;
    if |history| == 1 {
      OneRoot(c, history);
    } else if |history| > 1 {
      var init, e := history[..|history| - 1], history[|history| - 1];
      assert history == init + [e];
      ReplaysExactly(c, init);
      ReplayExtends(c, init, [e]);
      ValidStep(c, init, e);
      hide FromEvents, ValidHistory;
      if FromEvents(c, init).Ok? {
        var i := FromEvents(c, init).value;
        OneEvent(c, i, e);
        NextExactly(c, i, e);
        if Apply(c, i, e).Ok? {
          Appended(c, i, e);
          forall d { DevicesFollow(c, i, e, d); }
        }
      }
    }
  }

  lemma Appended(c: Crypto, i: Identity, e: Event)
    requires Apply(c, i, e).Ok?
    ensures Apply(c, i, e).value.events == i.events + [e] && Apply(c, i, e).value.id == i.id
  {}

  lemma OneRoot(c: Crypto, history: seq<Event>)
    requires |history| == 1
    ensures FromEvents(c, history).Ok? <==> ValidHistory(c, history)
    ensures FromEvents(c, history).Ok? ==>
              var i := FromEvents(c, history).value;
              i.events == history && i.id == history[0].user && forall d :: d in i.devices <==> Linked(history, d)
  {
    hide SigningBytes, Linked;
    var e := history[0];
    assert history == [e] && history[1..] == [];
    if e.action.Add? {
      forall d ensures Linked([e], d) <==> d == e.action.device { RootLinks(e, d); }
    }
  }

  // In a verified identity every event after the root was signed by a device
  // linked before it.
  lemma ActorsWereLinked(c: Crypto, i: Identity, k: nat)
    requires Verified(c, i) && 0 < k < |i.events|
    ensures var e := i.events[k];
            && FromEvents(c, i.events[..k]).Ok?
            && e.actor in FromEvents(c, i.events[..k]).value.devices
            && Linked(i.events[..k], e.actor)
            && c.verify(e.actor, SigningBytes(e), e.signature)
  {
    hide SigningBytes, Linked, FromEvents;
    ReplaysExactly(c, i.events);
    PrefixValid(c, i.events, k);
    ReplaysExactly(c, i.events[..k]);
    assert MayFollow(c, i.events[..k], i.events[k]);
  }

  lemma PrefixValid(c: Crypto, history: seq<Event>, k: nat)
    requires ValidHistory(c, history) && 0 < k <= |history|
    ensures ValidHistory(c, history[..k])
  {
    hide MayFollow, RootedBy;
    forall j | 0 < j < k ensures MayFollow(c, history[..k][..j], history[..k][j]) {
      assert history[..k][..j] == history[..j];
    }
  }

  // A verified identity takes an event exactly when it may come next.
  lemma AppliesExactly(c: Crypto, i: Identity, e: Event)
    requires Verified(c, i)
    ensures i.events != []
    ensures Apply(c, i, e).Ok? <==> MayFollow(c, i.events, e)
    ensures forall d :: d in i.devices <==> Linked(i.events, d)
    ensures Apply(c, i, e).Ok? ==>
              Apply(c, i, e).value.events == i.events + [e] && forall d :: d in Apply(c, i, e).value.devices <==> Linked(i.events + [e], d)
  {
    hide SigningBytes, Linked, FromEvents, Apply, MayFollow;
    ReplaysExactly(c, i.events);
    NextExactly(c, i, e);
    if Apply(c, i, e).Ok? {
      Appended(c, i, e);
      forall d { DevicesFollow(c, i, e, d); }
    }
  }

  // Once removed, a device signs nothing until it is linked again.
  lemma RemovedDevicesAreSilent(c: Crypto, i: Identity, k: nat, j: nat)
    requires Verified(c, i) && k < j < |i.events|
    requires i.events[k].action == Remove(i.events[j].actor)
    ensures exists m :: k < m < j && i.events[m].action == Add(i.events[j].actor)
  {
    hide SigningBytes, FromEvents;
    ActorsWereLinked(c, i, j);
    var before, d := i.events[..j], i.events[j].actor;
    var m :| 0 <= m < |before| && before[m].action == Add(d) && forall x :: m < x < |before| ==> before[x].action != Remove(d);
    assert before[k].action == Remove(d);
  }

  // A device that was never linked, or was removed since, adds nothing.
  lemma OutsidersAreRefused(c: Crypto, i: Identity, e: Event)
    requires Verified(c, i)
    requires forall j :: 0 <= j < |i.events| && i.events[j].action == Add(e.actor) ==>
               exists m :: j < m < |i.events| && i.events[m].action == Remove(e.actor)
    ensures Apply(c, i, e).Err?
  {
    AppliesExactly(c, i, e);
  }

  // What is refused, and as what, of an event addressed to this user.
  lemma RefusalsExactly(c: Crypto, i: Identity, e: Event)
    requires Verified(c, i) && e.version == USER_VERSION && e.user == i.id && e.nonce.None?
    ensures i.events != []
    ensures ApplyError(c, i, e) == Some(Duplicate) <==> e in i.events
    ensures ApplyError(c, i, e) == Some(Fork) <==>
              || (e.sequence < |i.events| && e !in i.events)
              || (e.sequence == |i.events| && e.previous != Digest(c, i.events[|i.events| - 1]))
    ensures ApplyError(c, i, e) == Some(InvalidSequence) <==> e.sequence > |i.events|
    ensures ApplyError(c, i, e) == Some(UnauthorizedActor) <==>
              e.sequence == |i.events| && e.previous == Digest(c, i.events[|i.events| - 1]) && !Linked(i.events, e.actor)
  {
    hide SigningBytes, FromEvents, Linked, Digest;
    AppliesExactly(c, i, e);
    ReplaySound(c, i.events);
    if e in i.events {
      var k :| 0 <= k < |i.events| && i.events[k] == e;
      assert e.sequence == k;
    }
  }

  // ---- the vault ----

  // An event is stored exactly when it may come next in the stored history.
  lemma StoresExactly(c: Crypto, v: UserVault, e: Event)
    requires VaultInv(c, v)
    ensures v.user.Some? ==> v.rows != []
    ensures ApplyUserEvent(c, v, e).Ok? <==> v.user.Some? && MayFollow(c, v.rows, e)
    ensures ApplyUserEvent(c, v, e).Ok? ==> ApplyUserEvent(c, v, e).value.vault == v.(rows := v.rows + [e])
  {
    hide FromEvents, Apply, MayFollow;
    LoadsReplay(c, v);
    if v.user.Some? {
      AppliesExactly(c, Load(c, v).value.value, e);
    }
  }

  // A complete chain is installed exactly into a vault without a user, on a
  // device that the chain has linked; an import into such a vault is that.
  lemma InstallsExactly(c: Crypto, v: UserVault, i: Identity)
    requires VaultInv(c, v) && Verified(c, i)
    ensures Install(c, v, i).Ok? <==> v.user.None? && Linked(i.events, v.device)
    ensures Install(c, v, i).Ok? ==> Install(c, v, i).value == v.(user := Some(i.id), rows := i.events) && VaultInv(c, Install(c, v, i).value)
    ensures Install(c, v, i) == Err(UserAlreadyInitialized) <==> v.user.Some?
    ensures Install(c, v, i) == Err(SharePrincipalMismatch) <==> v.user.None? && !Linked(i.events, v.device)
    ensures v.user.None? ==> (ImportUser(c, v, i).Ok? <==> Linked(i.events, v.device))
    ensures v.user.None? && ImportUser(c, v, i).Ok? ==> ImportUser(c, v, i).value == Updated(Install(c, v, i).value, i)
  {
    hide FromEvents, Linked;
    LoadsReplay(c, v);
    ReplaysExactly(c, i.events);
  }

  // Whatever the tables hold: an identity is loaded exactly from a valid history
  // whose every event is of the vault's user.
  lemma LoadsExactly(c: Crypto, v: UserVault)
    ensures Load(c, v).Ok? && Load(c, v).value.None? <==> v.user.None?
    ensures Load(c, v).Ok? && Load(c, v).value.Some? <==>
              v.user.Some? && ValidHistory(c, v.rows) && forall e :: e in v.rows ==> e.user == v.user.value
    ensures Load(c, v).Ok? && Load(c, v).value.Some? ==>
              Load(c, v).value.value.events == v.rows && Load(c, v).value.value.id == v.user.value
  {
    hide ValidHistory, FromEvents, Linked;
    ReplaysExactly(c, v.rows);
    if ValidHistory(c, v.rows) {
      NonEmpty(c, v.rows);
      assert v.rows[0] in v.rows;
    }
  }

  lemma NonEmpty(c: Crypto, history: seq<Event>)
    requires ValidHistory(c, history)
    ensures history != []
  {}
}
