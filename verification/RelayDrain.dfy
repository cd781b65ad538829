// Draining a mailbox: pull a page, import it, acknowledge it, until a page
// comes back short.
module RelayDrain {
  import opened Wrappers
  import opened Ids
  import opened Changes
  import opened AppState
  import RD = RelayDelivery
  import opened RelayDelivery
  import opened RelayTurns
  import MS = MailboxState
  import MP = MailboxProof

  // Requests by others: genuine pushes and pulls.
  ghost predicate Foreign(events: seq<Event>, route: MS.Route, k: Keying) {
    forall e :: e in events ==>
      && e.Request?
      && (e.request.route == route ==>
            && !e.request.operation.Acknowledge?
            && (e.request.operation.Push? ==> forall x :: x in e.request.operation.envelopes ==> Genuine(k, x.id, x.ciphertext)))
  }

  predicate Timed(events: seq<Event>, since: U64, until: U64)
    decreases |events|
  {
    if events == [] then since <= until else since <= events[0].now && Timed(events[1..], events[0].now, until)
  }

  // The clock never runs backwards, and others are honest.
  ghost predicate Steady(ticks: seq<Tick>, since: U64, route: MS.Route, k: Keying)
    decreases |ticks|
  {
    ticks != [] ==>
      && Foreign(ticks[0].before, route, k) && Foreign(ticks[0].between, route, k)
      && Timed(ticks[0].before, since, ticks[0].now) && Timed(ticks[0].between, ticks[0].now, ticks[0].later)
      && Steady(ticks[1..], ticks[0].later, route, k)
  }

  lemma {:induction false} TimedInOrder(events: seq<Event>, since: U64, until: U64)
    requires Timed(events, since, until)
    ensures since <= until && LastTime(events, since) <= until
    decreases |events|
  {
    if events != [] {
      TimedInOrder(events[1..], events[0].now, until);
    }
  }

  // Others neither touch the recipient nor remove anything but the expired.
  lemma {:induction false} OthersKeep(w: World, limits: MS.Limits, route: MS.Route, k: Keying, events: seq<Event>, at: U64, until: U64)
    requires WorldInv(w, limits, route, k, at) && Distinguishes(k)
    requires Foreign(events, route, k) && Timed(events, at, until)
    ensures var next := RD.Run(w, limits, route, k, events);
            && WorldInv(next, limits, route, k, until)
            && next.client == w.client
            && MP.Follows(next.relay, w.relay)
    decreases |events|
  {
    hide WorldInv, Distinguishes, MS.After, Genuine;
    if events == [] {
      LaterKeepsWorld(w, limits, route, k, at, until);
    } else {
      var e := events[0];
      assert e in events;
      EventKeepsWorld(w, limits, route, k, e, at);
      MP.RequestFollows(w.relay, limits, e.request, e.now);
      OthersKeep(React(w, limits, route, k, e), limits, route, k, events[1..], e.now, until);
    }
  }

  // Nothing of the mailbox is left up to the cursor.
  predicate Cleared(objects: seq<MS.Object>, route: MS.Route, cursor: nat) {
    forall o :: o in objects && o.route == route ==> o.sequence > cursor
  }

  predicate Emptied(objects: seq<MS.Object>, route: MS.Route) {
    forall o :: o in objects ==> o.route != route
  }

  // What an answered pull did.
  lemma PullAnswers(r: MS.Relay, limits: MS.Limits, route: MS.Route, e: Event, at: U64)
    requires e.PullPage? && MS.RelayInv(r, limits, at)
    requires var step := MS.Handle(r, limits, PullOf(route, e), e.now); step.Step? && step.response.Deliveries?
    ensures e.limit > 0
    ensures var items := MS.Handle(r, limits, PullOf(route, e), e.now).response.items;
            var next := MS.After(r, limits, PullOf(route, e), e.now);
            && items == MS.Delivered(MS.FirstOf(MS.Waiting(next.objects, route, e.after, e.now), e.limit))
            && MS.Ordered(next.objects)
            && (forall o :: o in next.objects ==> o in r.objects && o.expires > e.now)
            && |next.objects| <= |r.objects| && next.sequence == r.sequence
  {
    hide MS.Waiting, MS.ValidEnvelope, MS.Purge, MS.FirstOf, MS.Delivered, MS.RelayInv;
    MP.AdmittedFollows(r, PullOf(route, e), e.now);
    MP.PurgedOrdered(r, limits, at, e.now);
    PurgeShortens(r, e.now);
  }

  lemma PurgeShortens(r: MS.Relay, now: U64)
    ensures MS.Purge(r, now).objects == MS.Unexpired(r.objects, now)
    ensures |MS.Purge(r, now).objects| <= |r.objects| && MS.Purge(r, now).sequence == r.sequence
  {
    MS.SelectShortens(r.objects, (o: MS.Object) => o.expires > now);
  }

  // What an answered acknowledgement did.
  lemma AckAnswers(r: MS.Relay, limits: MS.Limits, route: MS.Route, e: Event, items: seq<MS.Delivery>)
    requires e.AckPage?
    requires var step := MS.Handle(r, limits, AckOf(route, e, items), e.now); step.Step? && step.response.Changed?
    ensures var next := MS.After(r, limits, AckOf(route, e, items), e.now);
            && (forall o :: o in next.objects ==> o in r.objects && (o.route == route ==> o.id !in ItemIds(items)))
            && |next.objects| + MS.Handle(r, limits, AckOf(route, e, items), e.now).response.count <= |r.objects|
            && next.sequence == r.sequence
  {
    hide MS.Purge, MS.DropAll;
    var request := AckOf(route, e, items);
    MP.AdmittedFollows(r, request, e.now);
    PurgeShortens(r, e.now);
    var next := MS.After(r, limits, request, e.now);
    forall o | o in next.objects ensures o in r.objects && (o.route == route ==> o.id !in ItemIds(items)) {
      MP.DropAllMembers(MP.Admitted(r, request, e.now).objects, route, ItemIds(items), o);
    }
  }

  // A page of a mailbox already cleared up to the cursor.
  ghost predicate Fetched(objects: seq<MS.Object>, route: MS.Route, cursor: U64, now: U64, items: seq<MS.Delivery>) {
    && MS.Ordered(objects) && Cleared(objects, route, cursor)
    && (forall o :: o in objects ==> o.expires > now)
    && items == MS.Delivered(MS.FirstOf(MS.Waiting(objects, route, cursor, now), PAGE))
  }

  // Acknowledging a page clears the mailbox up to its last object, and, if the
  // page was short, of everything that was there when it was read.
  lemma PageCleared(before: MS.Relay, after: seq<MS.Object>, route: MS.Route, cursor: U64, now: U64, items: seq<MS.Delivery>)
    requires Fetched(before.objects, route, cursor, now, items) && MP.LastCursor(items, cursor) <= before.sequence
    requires forall o :: o in after && o.route == route ==> (o in before.objects || o.sequence > before.sequence) && o.id !in ItemIds(items)
    ensures Cleared(after, route, MP.LastCursor(items, cursor))
    ensures |items| < PAGE ==> Cleared(after, route, before.sequence)
  {
    hide MS.Delivered, MS.FirstOf, MS.Waiting, MS.Ordered, MP.LastCursor;
    forall o | o in after && o.route == route
      ensures o.sequence > MP.LastCursor(items, cursor) && (|items| < PAGE ==> o.sequence > before.sequence)
    {
      if o in before.objects {
        MP.PageExtends(before, route, cursor, PAGE, now, o);
        if o.sequence <= MP.LastCursor(items, cursor) {
          NamedByPage(items, MS.Delivery(o.sequence, MS.EnvelopeOf(o)));
        }
      }
    }
  }

  lemma NamedByPage(items: seq<MS.Delivery>, d: MS.Delivery)
    requires d in items
    ensures d.envelope.id in ItemIds(items)
  {
    var i :| 0 <= i < |items| && items[i] == d;
    assert ItemIds(items)[i] == d.envelope.id;
  }

  // Of a mailbox cleared up to a sequence, everything up to it is durable or has
  // expired.
  lemma ClearedIsSafe(w: World, limits: MS.Limits, route: MS.Route, k: Keying, at: U64, mark: nat)
    requires WorldInv(w, limits, route, k, at) && Cleared(w.relay.objects, route, mark)
    ensures forall o :: o in w.stored && o.sequence <= mark ==>
              o.expires <= at || (k.open(o.ciphertext).Some? && Durable(w.app, k.open(o.ciphertext).value))
  {
    hide MS.RelayInv, Genuine, Durable;
  }

  lemma OwnEventsAreHonest(w: World, route: MS.Route, k: Keying, e: Event)
    requires e.PullPage? || e.ImportPage? || e.AckPage?
    ensures Honest(w, route, k, e)
  {}

  // What each event of the loop leaves behind.
  lemma PullStands(w: World, limits: MS.Limits, route: MS.Route, k: Keying, e: Event)
    requires e.PullPage?
    ensures React(w, limits, route, k, e).relay == MS.After(w.relay, limits, PullOf(route, e), e.now)
    ensures var step := MS.Handle(w.relay, limits, PullOf(route, e), e.now);
            step.Step? && step.response.Deliveries? ==> React(w, limits, route, k, e).client == Pulled(step.response.items)
  {
    hide MS.Handle, MS.After;
  }

  lemma ImportStands(w: World, limits: MS.Limits, route: MS.Route, k: Keying, e: Event)
    requires e.ImportPage? && w.client.Pulled?
    ensures var next := React(w, limits, route, k, e);
            next.relay == w.relay && (next.client.Imported? ==> next.client.items == w.client.items)
  {
    hide Import, OpenAll;
  }

  lemma AckStands(w: World, limits: MS.Limits, route: MS.Route, k: Keying, e: Event)
    requires e.AckPage? && w.client.Imported?
    ensures React(w, limits, route, k, e).relay == MS.After(w.relay, limits, AckOf(route, e, w.client.items), e.now)
  {
    hide MS.After;
  }

  lemma Sequenced(w: World, limits: MS.Limits, route: MS.Route, k: Keying, at: U64)
    requires WorldInv(w, limits, route, k, at)
    ensures MS.RelayInv(w.relay, limits, at) && Cleared(w.relay.objects, route, 0)
    ensures forall o :: o in w.relay.objects ==> o.sequence <= w.relay.sequence
  {}

  lemma FollowsCleared(r: MS.Relay, next: MS.Relay, route: MS.Route, cursor: nat)
    requires MP.Follows(next, r) && Cleared(r.objects, route, cursor) && cursor <= r.sequence
    ensures Cleared(next.objects, route, cursor) && cursor <= next.sequence
  {}

  // The next page, or none if the relay did not answer with one.
  method Fetch(w: World, limits: MS.Limits, route: MS.Route, k: Keying, cursor: U64, tick: Tick, ghost at: U64)
    returns (next: World, page: Option<seq<MS.Delivery>>)
    requires WorldInv(w, limits, route, k, at) && Distinguishes(k) && at <= tick.now
    requires Cleared(w.relay.objects, route, cursor) && cursor <= w.relay.sequence
    ensures WorldInv(next, limits, route, k, tick.now)
    ensures next == React(w, limits, route, k, PullEvent(cursor, tick))
    ensures page.Some? <==> Answered(w.relay, limits, route, cursor, tick)
    ensures page.Some? ==>
              && page.value == PageOf(w.relay, limits, route, cursor, tick)
              && next.client == Pulled(page.value)
              && Fetched(next.relay.objects, route, cursor, tick.now, page.value)
              && cursor <= MP.LastCursor(page.value, cursor) <= next.relay.sequence == w.relay.sequence
              && |next.relay.objects| <= |w.relay.objects|
  {
    hide WorldInv, Distinguishes, React, MS.Handle, MS.After, MS.RelayInv, MS.Waiting, MS.Delivered, MS.FirstOf, MS.Ordered, Honest, Cleared, PullOf,
         MP.LastCursor;
    var e := PullEvent(cursor, tick);
    OwnEventsAreHonest(w, route, k, e);
    EventKeepsWorld(w, limits, route, k, e, at);
    PullStands(w, limits, route, k, e);
    Sequenced(w, limits, route, k, at);
    next := React(w, limits, route, k, e);
    var step := MS.Handle(w.relay, limits, PullOf(route, e), tick.now);
    if !step.Step? || !step.response.Deliveries? {
      return next, None;
    }
    PullAnswers(w.relay, limits, route, e, at);
    ClearedLess(w.relay.objects, next.relay.objects, route, cursor);
    Sequenced(next, limits, route, k, tick.now);
    MP.CursorAdvances(next.relay, route, cursor, PAGE, tick.now);
    page := Some(step.response.items);
  }

  // Imports the page, which was read from `read`, and then acknowledges it; a
  // failed import leaves it in the mailbox.
  method Settle(w: World, limits: MS.Limits, route: MS.Route, k: Keying, cursor: U64, tick: Tick, items: seq<MS.Delivery>,
                ghost read: MS.Relay)
    returns (next: World, ok: bool)
    requires WorldInv(w, limits, route, k, tick.later) && Distinguishes(k)
    requires w.client == Pulled(items) && Fetched(read.objects, route, cursor, tick.now, items)
    requires MP.Follows(w.relay, read) && MP.LastCursor(items, cursor) <= read.sequence
    ensures WorldInv(next, limits, route, k, tick.later)
    ensures ok <==> Imports(w.app, k, items, tick) && Acknowledged(w.relay, limits, route, items, tick)
    ensures var imported := React(w, limits, route, k, TakeEvent(tick));
            next == if imported.client.Imported? then React(imported, limits, route, k, AckEvent(tick)) else imported
    ensures ok ==>
              && Cleared(next.relay.objects, route, MP.LastCursor(items, cursor))
              && (|items| < PAGE ==> Cleared(next.relay.objects, route, read.sequence))
              && |next.relay.objects| + |items| <= |w.relay.objects| && next.relay.sequence == w.relay.sequence
  {
    hide WorldInv, Distinguishes, React, MS.Handle, MS.After, Fetched, Honest, Cleared, AckOf, ItemIds, MP.LastCursor;
    ImportedWorld(w, limits, route, k, items, tick);
    hide Imports;
    var take := TakeEvent(tick);
    OwnEventsAreHonest(w, route, k, take);
    EventKeepsWorld(w, limits, route, k, take, tick.later);
    ImportStands(w, limits, route, k, take);
    var imported := React(w, limits, route, k, take);
    if !imported.client.Imported? {
      return imported, false;
    }
    var e := AckEvent(tick);
    OwnEventsAreHonest(imported, route, k, e);
    EventKeepsWorld(imported, limits, route, k, e, tick.later);
    AckStands(imported, limits, route, k, e);
    next := React(imported, limits, route, k, e);
    var step := MS.Handle(imported.relay, limits, AckOf(route, e, items), tick.later);
    ok := step.Step? && step.response.Changed? && step.response.count == |items|;
    if ok {
      AckAnswers(imported.relay, limits, route, e, items);
      PageCleared(read, next.relay.objects, route, cursor, tick.now, items);
    }
  }

  // One turn of the loop, with whatever others request meanwhile; none when
  // something stopped it. `mark` is the last sequence given out when the page was
  // read.
  method TakePage(w: World, limits: MS.Limits, route: MS.Route, k: Keying, cursor: U64, tick: Tick, ghost at: U64)
    returns (next: World, taken: Option<seq<MS.Delivery>>, ghost mark: nat)
    requires WorldInv(w, limits, route, k, at) && Distinguishes(k)
    requires Foreign(tick.before, route, k) && Foreign(tick.between, route, k)
    requires Timed(tick.before, at, tick.now) && Timed(tick.between, tick.now, tick.later)
    requires Cleared(w.relay.objects, route, cursor) && cursor <= w.relay.sequence
    ensures WorldInv(next, limits, route, k, tick.later)
    ensures next == Turned(w, limits, route, k, cursor, tick)
    ensures taken.None? <==> TurnFails(w, limits, route, k, cursor, tick)
    ensures taken.Some? ==>
              && Answered(RD.Run(w, limits, route, k, tick.before).relay, limits, route, cursor, tick)
              && taken.value == PageOf(RD.Run(w, limits, route, k, tick.before).relay, limits, route, cursor, tick)
              && Cleared(next.relay.objects, route, MP.LastCursor(taken.value, cursor))
              && MP.LastCursor(taken.value, cursor) <= next.relay.sequence
              && w.relay.sequence <= mark <= next.relay.sequence
              && (|taken.value| < PAGE ==> Cleared(next.relay.objects, route, mark))
              && (Quiet(tick) ==> mark == next.relay.sequence == w.relay.sequence
                                  && |next.relay.objects| + |taken.value| <= |w.relay.objects|)
  {
    hide WorldInv, Distinguishes, Cleared, Fetched, Foreign, Timed, MP.LastCursor, ItemIds, Imports, Acknowledged, Answered, React;
    TimedInOrder(tick.between, tick.now, tick.later);
    OthersKeep(w, limits, route, k, tick.before, at, tick.now);
    var ready := RD.Run(w, limits, route, k, tick.before);
    FollowsCleared(w.relay, ready.relay, route, cursor);
    var fetched, page := Fetch(ready, limits, route, k, cursor, tick, tick.now);
    mark := fetched.relay.sequence;
    if page.None? {
      LaterKeepsWorld(fetched, limits, route, k, tick.now, tick.later);
      return fetched, None, mark;
    }
    if page.value == [] {
      NothingNamed(fetched.relay.objects, route);
      PageCleared(fetched.relay, fetched.relay.objects, route, cursor, tick.now, []);
      LaterKeepsWorld(fetched, limits, route, k, tick.now, tick.later);
      return fetched, page, mark;
    }
    OthersKeep(fetched, limits, route, k, tick.between, tick.now, tick.later);
    var meanwhile := RD.Run(fetched, limits, route, k, tick.between);
    var ok;
    next, ok := Settle(meanwhile, limits, route, k, cursor, tick, page.value, fetched.relay);
    taken := if ok then page else None;
  }

  datatype Ending = Drained | Stopped | OutOfTurns

  // Whatever others push and pull between its steps, a pull that reports success
  // has taken everything that had been stored when its last page was read, so in
  // particular before it began: all of that is now durable with the recipient or
  // has expired, and if nobody else was active the mailbox is empty. It is stopped
  // exactly when some pull is not answered, or its page is not imported or not
  // acknowledged, and then nothing is lost. Left alone it takes no more turns than
  // the relay holds objects; and if moreover its nonces are new and the mailbox is
  // welcome, it succeeds and everything in the mailbox is durable.
  method PullAll(w: World, limits: MS.Limits, route: MS.Route, k: Keying, ticks: seq<Tick>, ghost since: U64, ghost until: U64)
    returns (end: World, ending: Ending, ghost at: U64, ghost mark: nat)
    requires WorldInv(w, limits, route, k, since) && Distinguishes(k) && Steady(ticks, since, route, k)
    ensures WorldInv(end, limits, route, k, at)
    ensures ending.Drained? ==>
              && w.relay.sequence <= mark
              && Cleared(end.relay.objects, route, mark)
              && forall o :: o in end.stored && o.sequence <= mark ==>
                   o.expires <= at || (k.open(o.ciphertext).Some? && Durable(end.app, k.open(o.ciphertext).value))
    ensures (forall t :: t in ticks ==> Quiet(t)) ==>
              && (ending.Drained? ==> Emptied(end.relay.objects, route))
              && (|ticks| > |w.relay.objects| ==> !ending.OutOfTurns?)
    ensures ending.Stopped? <==> Stops(w, limits, route, k, 0, ticks)
    ensures |ticks| > |w.relay.objects| && Favourable(w, route, k, ticks, until) ==>
              && ending.Drained?
              && forall o :: o in w.relay.objects && o.route == route ==>
                   k.open(o.ciphertext).Some? && Durable(end.app, k.open(o.ciphertext).value)
  {
    hide WorldInv, Distinguishes, Durable, Cleared, Foreign, Timed, MP.LastCursor, MS.RelayInv, Quiet, TurnFails, Turned, Answered, PageOf,
         Favourable, Steady, Stops;
    end, ending, at, mark := w, OutOfTurns, since, w.relay.sequence;
    var cursor: nat, turn: nat := 0, 0;
    Sequenced(end, limits, route, k, at);
    assert ticks[0..] == ticks;
    if Favourable(w, route, k, ticks, until) {
      FavourableIsQuiet(w, route, k, ticks, until);
    }
    while turn < |ticks| && ending.OutOfTurns?
      invariant turn <= |ticks|
      invariant WorldInv(end, limits, route, k, at)
      invariant Cleared(end.relay.objects, route, cursor) && cursor <= end.relay.sequence
      invariant w.relay.sequence <= mark && w.relay.sequence <= end.relay.sequence
      invariant Steady(ticks[turn..], at, route, k)
      invariant ending.Drained? ==> Cleared(end.relay.objects, route, mark)
      invariant !ending.Stopped? && w.stored <= end.stored
      invariant if ending.Drained? then !Stops(w, limits, route, k, 0, ticks)
                else Stops(w, limits, route, k, 0, ticks) <==> Stops(end, limits, route, k, cursor, ticks[turn..])
      invariant Favourable(w, route, k, ticks, until) ==>
                  Favourable(end, route, k, ticks[turn..], until) && end.relay.sequence == w.relay.sequence && (turn > 0 ==> at <= until)
      invariant ending.Drained? ==> turn > 0
      invariant (forall t :: t in ticks ==> Quiet(t)) ==>
                  && (ending.Drained? ==> mark == end.relay.sequence)
                  && (ending.OutOfTurns? ==> |end.relay.objects| + turn <= |w.relay.objects|)
      decreases |ticks| - turn, ending.OutOfTurns?
    {
      StopsStep(end, limits, route, k, cursor, ticks[turn..]);
      if cursor > U64_MAX {
        return end, Stopped, at, mark;
      }
      var tick := ticks[turn];
      assert ticks[turn..][0] == tick && ticks[turn..][1..] == ticks[turn + 1..] && tick in ticks;
      SteadyStep(ticks[turn..], at, route, k);
      TimedInOrder(tick.before, at, tick.now);
      TurnKeepsStored(end, limits, route, k, cursor, tick);
      if Favourable(w, route, k, ticks, until) {
        FavourableTurn(end, limits, route, k, cursor, ticks[turn..], until, at);
      }
      var taken;
      end, taken, mark := TakePage(end, limits, route, k, cursor, tick, at);
      at := tick.later;
      if taken.None? {
        return end, Stopped, at, mark;
      }
      cursor, turn := MP.LastCursor(taken.value, cursor), turn + 1;
      ending := if |taken.value| < PAGE then Drained else OutOfTurns;
    }
    if ending.OutOfTurns? {
      assert ticks[turn..] == [];
      StopsStep(end, limits, route, k, cursor, []);
    }
    if ending.Drained? {
      ClearedIsSafe(end, limits, route, k, at, mark);
      Sequenced(end, limits, route, k, at);
      if forall t :: t in ticks ==> Quiet(t) {
        ClearedWholly(end.relay, route, mark);
      }
      if Favourable(w, route, k, ticks, until) {
        DrainedIsDurable(w, end, limits, route, k, ticks, since, at, mark, until);
      }
    }
  }

  lemma SteadyStep(ticks: seq<Tick>, since: U64, route: MS.Route, k: Keying)
    requires ticks != [] && Steady(ticks, since, route, k)
    ensures Foreign(ticks[0].before, route, k) && Foreign(ticks[0].between, route, k)
    ensures Timed(ticks[0].before, since, ticks[0].now) && Timed(ticks[0].between, ticks[0].now, ticks[0].later)
    ensures Steady(ticks[1..], ticks[0].later, route, k)
  {
    hide Foreign, Timed;
  }

  lemma StopsStep(w: World, limits: MS.Limits, route: MS.Route, k: Keying, cursor: nat, ticks: seq<Tick>)
    ensures ticks == [] ==> !Stops(w, limits, route, k, cursor, ticks)
    ensures ticks != [] && (cursor > U64_MAX || TurnFails(w, limits, route, k, cursor, ticks[0])) ==> Stops(w, limits, route, k, cursor, ticks)
    ensures ticks != [] && cursor <= U64_MAX && !TurnFails(w, limits, route, k, cursor, ticks[0]) ==>
              var ready := RD.Run(w, limits, route, k, ticks[0].before);
              && Answered(ready.relay, limits, route, cursor, ticks[0])
              && var items := PageOf(ready.relay, limits, route, cursor, ticks[0]);
              (Stops(w, limits, route, k, cursor, ticks)
               <==> |items| >= PAGE
                    && Stops(Turned(w, limits, route, k, cursor, ticks[0]), limits, route, k, MP.LastCursor(items, cursor), ticks[1..]))
  {
    hide Answered, PageOf, Turned, Imports, Acknowledged, BeforeImport, MP.LastCursor;
  }

  lemma FavourableIsQuiet(w: World, route: MS.Route, k: Keying, ticks: seq<Tick>, until: U64)
    requires Favourable(w, route, k, ticks, until)
    ensures w.relay.sequence <= I64_MAX && forall t :: t in ticks ==> Quiet(t) && t.later <= until
  {
    hide Quiet, NewNonces, MailboxWelcome;
  }

  // Everything welcome that was in the mailbox at the start is durable at the end.
  lemma DrainedIsDurable(w: World, end: World, limits: MS.Limits, route: MS.Route, k: Keying, ticks: seq<Tick>, since: U64, at: U64, mark: nat, until: U64)
    requires WorldInv(w, limits, route, k, since) && Favourable(w, route, k, ticks, until)
    requires w.stored <= end.stored && w.relay.sequence <= mark && at <= until
    requires forall o :: o in end.stored && o.sequence <= mark ==>
               o.expires <= at || (k.open(o.ciphertext).Some? && Durable(end.app, k.open(o.ciphertext).value))
    ensures forall o :: o in w.relay.objects && o.route == route ==>
              k.open(o.ciphertext).Some? && Durable(end.app, k.open(o.ciphertext).value)
  {
    hide Durable, Genuine, Welcome, MergesAlways;
  }

  lemma ClearedWholly(r: MS.Relay, route: MS.Route, mark: nat)
    requires Cleared(r.objects, route, mark) && forall o :: o in r.objects ==> o.sequence <= mark
    ensures Emptied(r.objects, route)
  {}

  lemma ClearedLess(objects: seq<MS.Object>, fewer: seq<MS.Object>, route: MS.Route, cursor: nat)
    requires Cleared(objects, route, cursor) && forall o :: o in fewer ==> o in objects
    ensures Cleared(fewer, route, cursor)
  {}

  lemma NothingNamed(objects: seq<MS.Object>, route: MS.Route)
    ensures forall o :: o in objects && o.route == route ==> o.id !in ItemIds([])
  {}
}
