// What each party of a session makes of a message, whoever sent it, and what its
// totals count.
module ReconcileRules {
  import opened Wrappers
  import opened Ids
  import opened Changes
  import opened ReplicaState
  import opened Gaps
  import opened Reconcile
  import opened ReconcileProof

  // The initiator takes a message for its page exactly if it is one, of its space,
  // of at most 4096 changes, toward the target named before, and importable.
  lemma PageTakenExactly(s: Session, page: Message, at: Attempt)
    requires s.initiator.AwaitingPage?
    ensures var AwaitingPage(target, remoteTarget, totals) := s.initiator; var next := ReceivePage(s, page, at);
            && (next.initiator.Replying? <==>
                  && page.SyncPage? && page.space == s.a.replica.space && |page.changes| <= 4096
                  && (remoteTarget.Some? ==> remoteTarget.value == page.senderTarget)
                  && ApplyChanges(s.a, page.changes, at).Some?)
            && (!next.initiator.Replying? ==> next.initiator.Failed? && next == s.(initiator := next.initiator))
            && (next.initiator.Replying? ==>
                  var a := ApplyChanges(s.a, page.changes, at).value;
                  && next == s.(a := a, initiator := next.initiator)
                  && next.initiator == Replying(target, Some(page.senderTarget), next.initiator.totals, page.receiverFrontier, page.done)
                  && next.initiator.totals
                     == Totals(totals.received + |page.changes|, totals.sent, totals.retained + NewlyHeld(s.a, a), totals.rounds))
            && (next.initiator == Failed(IncompatiblePeer) <==> page.SyncPage? && page.space != s.a.replica.space)
  {
    hide ApplyChanges, NewlyHeld;
  }

  // The initiator goes on after an acknowledgement exactly if it is one, of its
  // space, and agrees on whether both are done.
  lemma AckTakenExactly(s: Session, ack: Message)
    requires s.initiator.AwaitingAck?
    ensures var AwaitingAck(target, remoteTarget, totals, _, expected) := s.initiator; var next := ReceiveAck(s, ack);
            && (next.initiator.Failed? <==> !(ack.Acknowledgement? && ack.space == s.a.replica.space && ack.done == expected))
            && next == s.(initiator := next.initiator)
            && (!next.initiator.Failed? ==>
                  var counted := totals.(rounds := totals.rounds + 1);
                  next.initiator == if expected then Finished(counted) else AwaitingPage(target, remoteTarget, counted))
            && (next.initiator == Failed(IncompatiblePeer) <==> ack.Acknowledgement? && ack.space != s.a.replica.space)
  {}

  // The responder answers a greeting exactly if it is one of its space.
  lemma HelloTakenExactly(s: Session, hello: Message)
    ensures var next := ReceiveHello(s, hello);
            && (next.responder.Aborted? <==> !(hello.Hello? && hello.space == s.b.replica.space))
            && next == s.(responder := next.responder)
            && (!next.responder.Aborted? ==>
                  next.responder == Sending(s.b.replica.frontier, hello.target, hello.receiverFrontier, Totals(0, 0, 0, 0)))
            && (next.responder == Aborted(IncompatiblePeer) <==> hello.Hello? && hello.space != s.b.replica.space)
  {}

  // The responder takes a reply exactly if it is a page, of its space, of at most
  // 4096 changes, toward the target of the greeting, and importable; it then
  // acknowledges whether both are done.
  lemma ReplyTakenExactly(s: Session, reply: Message, at: Attempt)
    requires s.responder.AwaitingReply?
    ensures var AwaitingReply(target, helloTarget, initiatorFrontier, totals, localDone) := s.responder; var next := ReceiveReply(s, reply, at);
            && (!next.responder.Aborted? <==>
                  && reply.SyncPage? && reply.space == s.b.replica.space && |reply.changes| <= 4096
                  && reply.senderTarget == helloTarget
                  && ApplyChanges(s.b, reply.changes, at).Some?)
            && (next.responder.Aborted? ==> next == s.(responder := next.responder))
            && (!next.responder.Aborted? ==>
                  var b := ApplyChanges(s.b, reply.changes, at).value; var done := localDone && reply.done;
                  var counted := Totals(totals.received + |reply.changes|, totals.sent, totals.retained + NewlyHeld(s.b, b), totals.rounds + 1);
                  && next == s.(b := b, responder := next.responder, toA := next.toA)
                  && next.toA == s.toA + [Acknowledgement(b.replica.space, done)]
                  && next.responder == if done then Completed(counted) else Sending(target, helloTarget, reply.receiverFrontier, counted))
            && (next.responder == Aborted(IncompatiblePeer) <==> reply.SyncPage? && reply.space != s.b.replica.space)
  {
    hide ApplyChanges, NewlyHeld;
  }

  // ---- what a party retained ----

  // With no local work, what either party counts as retained is what its log grew
  // by since the session began.
  ghost predicate CountsGrowth(s: Session, a: Peer, b: Peer) {
    && |s.a.replica.changes| == |a.replica.changes| + InitiatorTotals(s.initiator).retained
    && |s.b.replica.changes| == |b.replica.changes| + ResponderTotals(s.responder).retained
  }

  lemma ImportNeverShrinks(p: Peer, batch: seq<Change>, at: Attempt)
    requires Inv(p.replica) && ApplyChanges(p, batch, at).Some?
    ensures var next := ApplyChanges(p, batch, at).value;
            Inv(next.replica) && |next.replica.changes| == |p.replica.changes| + NewlyHeld(p, next)
  {
    hide Inv, Import, CollisionFree, AllAcceptable;
    if batch != [] {
      ImportIsUnion(p.replica, batch, at.now);
      var next := ApplyChanges(p, batch, at).value;
      assert p.replica.changes.Keys <= next.replica.changes.Keys;
      FewerInSubset(p.replica.changes.Keys, next.replica.changes.Keys);
    }
  }

  lemma TurnCountsGrowth(s: Session, e: Event, a: Peer, b: Peer)
    requires (e.TurnA? || e.TurnB?) && Inv(s.a.replica) && Inv(s.b.replica)
    requires CountsGrowth(s, a, b) && !Broken(s) && !Broken(React(s, e))
    ensures CountsGrowth(React(s, e), a, b) && Inv(React(s, e).a.replica) && Inv(React(s, e).b.replica)
  {
    hide Inv, ApplyChanges, MissingForTarget, NewlyHeld;
    if e.TurnA? && s.initiator.AwaitingPage? && s.toA != [] && s.toA[0].SyncPage? {
      if ApplyChanges(s.a, s.toA[0].changes, e.at).Some? { ImportNeverShrinks(s.a, s.toA[0].changes, e.at); }
    }
    if e.TurnB? && s.responder.AwaitingReply? && s.toB != [] && s.toB[0].SyncPage? {
      if ApplyChanges(s.b, s.toB[0].changes, e.at).Some? { ImportNeverShrinks(s.b, s.toB[0].changes, e.at); }
    }
  }

  lemma {:induction false} RunCountsGrowth(s: Session, events: seq<Event>, a: Peer, b: Peer)
    requires OnlyTurns(events) && Inv(s.a.replica) && Inv(s.b.replica) && CountsGrowth(s, a, b)
    requires !Broken(s) && !Broken(After(s, events))
    ensures CountsGrowth(After(s, events), a, b)
    decreases |events|
  {
    hide Inv, React, CountsGrowth;
    if events != [] {
      assert events[0] in events;
      if Broken(React(s, events[0])) {
        BrokenStays(React(s, events[0]), events[1..]);
      }
      TurnCountsGrowth(s, events[0], a, b);
      RunCountsGrowth(React(s, events[0]), events[1..], a, b);
    }
  }

  // So at the end of a completed session left to itself both receipts are true.
  lemma RetainedIsGrowth(a: Peer, b: Peer, events: seq<Event>)
    requires Together(a, b) && OnlyTurns(events) && Over(After(Start(a, b), events))
    ensures var s := After(Start(a, b), events);
            && |s.a.replica.changes| == |a.replica.changes| + s.initiator.totals.retained
            && |s.b.replica.changes| == |b.replica.changes| + s.responder.totals.retained
  {
    hide Together, After, Inv;
    TogetherInv(a, b);
    RunCountsGrowth(Start(a, b), events, a, b);
  }

  // The bound on rounds is the greater number of pages of 4096, and at least one.
  lemma RoundBound(n: nat, m: nat)
    ensures MaxRounds(n, m) >= 1
    ensures MaxRounds(n, m) * 4096 >= n && MaxRounds(n, m) * 4096 >= m
    ensures MaxRounds(n, m) > 1 ==> (MaxRounds(n, m) - 1) * 4096 < n || (MaxRounds(n, m) - 1) * 4096 < m
  {}
}
