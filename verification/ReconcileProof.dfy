// Every run of a reconciliation session: it breaks exactly when a party reads a
// page it does not take; otherwise both parties agree when to stop, they stop
// within the pages of the larger initial gap, and then each holds everything up
// to the other's target.
module ReconcileProof {
  import opened Wrappers
  import opened Ids
  import opened Changes
  import opened ReplicaState
  import opened Gaps
  import opened Reconcile

  // ---- growth of either log disturbs nothing ----

  lemma PerformExtends(st: State, step: Step)
    requires Inv(st)
    ensures Inv(Perform(st, step)) && Extends(Perform(st, step), st)
  {
    hide LogSound, DocumentsExact, Contiguous, CounterExact, ClockDominates, Author, Receive;
    match step {
      case Register(name, schema) =>
        if RegisterSchema(st, name, schema).Ok? { RegisterInv(st, name, schema); }
      case Write(op, at) =>
        if Author(st, op, at).Ok? { AuthorInv(st, op, at); }
      case Deliver(change, at) =>
        if Receive(st, change, at).Ok? {
          ReceiveInv(st, change, at);
          ReceiveExactly(st, change, at);
        }
    }
  }

  lemma LackingFixed(later: State, st: State, f: Frontier, target: Frontier)
    requires Inv(st) && Inv(later) && Extends(later, st) && Covers(st.frontier, target)
    ensures Lacking(later, f, target) == Lacking(st, f, target)
  {
    hide Inv, Extends, Gap, Covers;
    GapFixed(later, st, f, target);
  }

  lemma ProgressKept(sender: State, sender': State, owner: State, owner': State,
                     f: Frontier, target: Frontier, from: Frontier, rounds: nat)
    requires Inv(sender) && Inv(sender') && Inv(owner) && Inv(owner')
    requires Extends(sender', sender) && Extends(owner', owner)
    requires Progress(sender, owner, f, target, from, rounds)
    ensures Progress(sender', owner', f, target, from, rounds)
  {
    hide Inv, Extends, Lacking, Left, Covers;
    ExtendsFrontier(sender', sender);
    ExtendsFrontier(owner', owner);
    CoversTransitive(sender'.frontier, sender.frontier, target);
    CoversTransitive(owner'.frontier, owner.frontier, f);
    LackingFixed(sender', sender, f, target);
    LackingFixed(sender', sender, from, target);
  }

  lemma RefreshedFrontier(sender: State, sender': State, owner: State, owner': State,
                          target: Frontier, from: Frontier, rounds: nat)
    requires Inv(sender) && Inv(sender') && Inv(owner) && Inv(owner')
    requires Extends(sender', sender) && Extends(owner', owner)
    requires Progress(sender, owner, owner.frontier, target, from, rounds)
    ensures Progress(sender', owner', owner'.frontier, target, from, rounds)
  {
    hide Inv, Extends, Left, Gap, Covers;
    ProgressKept(sender, sender', owner, owner', owner.frontier, target, from, rounds);
    ExtendsFrontier(owner', owner);
    GapShrinks(sender'.changes.Keys, owner.frontier, owner'.frontier, target);
    CoversTransitive(owner'.frontier, owner.frontier, from);
    CoversItself(owner'.frontier);
  }

  lemma CoversItself(f: Frontier)
    ensures Covers(f, f)
  {}

  lemma UnfinishedKept(a: State, a': State, b: State, b': State, ta: Frontier, tb: Frontier, rounds: nat)
    requires Inv(a) && Inv(a') && Inv(b) && Inv(b')
    requires Extends(a', a) && Extends(b', b)
    requires Covers(a.frontier, ta) && Covers(b.frontier, tb)
    requires Unfinished(a, b, ta, tb, rounds)
    ensures Unfinished(a', b', ta, tb, rounds)
  {
    hide Inv, Extends, Lacking, Left, Covers;
    LackingFixed(a', a, tb, ta);
    LackingFixed(b', b, ta, tb);
  }

  // Both logs grown.
  ghost predicate Grown(a: State, b: State, a': State, b': State) {
    && Inv(a) && Inv(b) && Inv(a') && Inv(b')
    && Extends(a', a) && Extends(b', b)
  }

  lemma StandingKept(a: State, b: State, a': State, b': State, ta: Frontier, tb: Frontier,
                     fa: Frontier, fb: Frontier, i: nat, j: nat, k: nat)
    requires Grown(a, b, a', b')
    requires Standing(a, b, ta, tb, fa, fb, i, j) && Unfinished(a, b, ta, tb, k)
    ensures Standing(a', b', ta, tb, fa, fb, i, j) && Unfinished(a', b', ta, tb, k)
    ensures fa == a.frontier ==> Standing(a', b', ta, tb, a'.frontier, fb, i, j)
    ensures fb == b.frontier ==> Standing(a', b', ta, tb, fa, b'.frontier, i, j)
  {
    hide Inv, Extends, Progress, Unfinished, Covers;
    ProgressKept(b, b', a, a', fa, tb, ta, i);
    ProgressKept(a, a', b, b', fb, ta, tb, j);
    TargetsCovered(a, b, ta, tb, fa, fb, i, j);
    UnfinishedKept(a, a', b, b', ta, tb, k);
    if fa == a.frontier { RefreshedFrontier(b, b', a, a', tb, ta, i); }
    if fb == b.frontier { RefreshedFrontier(a, a', b, b', ta, tb, j); }
  }

  lemma TargetsCovered(a: State, b: State, ta: Frontier, tb: Frontier, fa: Frontier, fb: Frontier, i: nat, j: nat)
    requires Standing(a, b, ta, tb, fa, fb, i, j)
    ensures Covers(a.frontier, ta) && Covers(b.frontier, tb)
    ensures Covers(a.frontier, fa) && Covers(b.frontier, fb)
  {}

  lemma IsPageKept(sender: State, sender': State, f: Frontier, target: Frontier, changes: seq<Change>, done: bool)
    requires Inv(sender) && Inv(sender') && Extends(sender', sender) && Covers(sender.frontier, target)
    requires IsPage(sender, f, target, changes, done)
    ensures IsPage(sender', f, target, changes, done)
  {
    hide Inv, Extends, MissingForTarget, Covers;
    PageFixed(sender', sender, f, target, MAX_CHANGES_PER_EXCHANGE);
  }

  lemma RoundStartKept(a: State, b: State, a': State, b': State, ta: Frontier, r: Responder)
    requires Grown(a, b, a', b') && RoundStart(a, b, ta, r)
    ensures RoundStart(a', b', ta, r)
  {
    hide Grown, Standing, Unfinished;
    StandingKept(a, b, a', b', ta, r.target, r.initiatorFrontier, b.frontier, r.totals.rounds, r.totals.rounds, r.totals.rounds);
  }

  lemma PageSentKept(a: State, b: State, a': State, b': State, ta: Frontier, r: Responder, m: Message)
    requires Grown(a, b, a', b') && PageSent(a, b, ta, r, m)
    ensures PageSent(a', b', ta, r, m)
  {
    hide Inv, Extends, Standing, Unfinished, IsPage, Covers;
    var k := r.totals.rounds;
    SameSpace(b', b);
    TargetsCovered(a, b, ta, r.target, r.initiatorFrontier, m.receiverFrontier, k, k);
    StandingKept(a, b, a', b', ta, r.target, r.initiatorFrontier, m.receiverFrontier, k, k, k);
    IsPageKept(b, b', r.initiatorFrontier, r.target, m.changes, m.done);
  }

  lemma SameSpace(later: State, st: State)
    requires Extends(later, st)
    ensures later.space == st.space
  {}

  lemma FirstHalfKept(b: State, b': State, ta: Frontier, f: Frontier, r: Responder)
    requires Inv(b) && Inv(b') && Extends(b', b) && FirstHalf(b, ta, f, r) && Covers(b.frontier, r.target)
    ensures FirstHalf(b', ta, f, r)
  {
    hide Inv, Extends, Covers, Lacking;
    LackingFixed(b', b, ta, r.target);
  }

  lemma PageTakenKept(a: State, b: State, a': State, b': State, ta: Frontier, i: Initiator, r: Responder)
    requires Grown(a, b, a', b') && PageTaken(a, b, ta, i, r)
    ensures PageTaken(a', b', ta, i, r)
  {
    hide Inv, Extends, Standing, Unfinished, Covers, Left, Lacking;
    var k := r.totals.rounds;
    TargetsCovered(a, b, ta, r.target, a.frontier, i.peerFrontier, k + 1, k);
    StandingKept(a, b, a', b', ta, r.target, a.frontier, i.peerFrontier, k + 1, k, k);
    FirstHalfKept(b, b', ta, a.frontier, r);
    ExtendsFrontier(a', a);
    if r.localDone { CoversTransitive(a'.frontier, a.frontier, r.target); }
  }

  lemma ReplySentKept(a: State, b: State, a': State, b': State, ta: Frontier, i: Initiator, r: Responder, m: Message)
    requires Grown(a, b, a', b') && ReplySent(a, b, ta, i, r, m)
    ensures ReplySent(a', b', ta, i, r, m)
  {
    hide Inv, Extends, Standing, Unfinished, IsPage, Covers, FirstHalf;
    var k := r.totals.rounds;
    SameSpace(a', a);
    TargetsCovered(a, b, ta, r.target, m.receiverFrontier, i.peerFrontier, k + 1, k);
    StandingKept(a, b, a', b', ta, r.target, m.receiverFrontier, i.peerFrontier, k + 1, k, k);
    IsPageKept(a, a', i.peerFrontier, ta, m.changes, m.done);
    FirstHalfKept(b, b', ta, m.receiverFrontier, r);
  }

  lemma ClosedKept(a: State, b: State, a': State, b': State, ta: Frontier, tb: Frontier, rounds: nat)
    requires Grown(a, b, a', b') && Closed(a, b, ta, tb, rounds)
    ensures Closed(a', b', ta, tb, rounds)
  {
    hide Inv, Extends, Covers, Lacking, MaxRounds;
    ExtendsFrontier(a', a);
    ExtendsFrontier(b', b);
    CoversTransitive(a'.frontier, a.frontier, tb);
    CoversTransitive(a'.frontier, a.frontier, ta);
    CoversTransitive(b'.frontier, b.frontier, ta);
    CoversTransitive(b'.frontier, b.frontier, tb);
    LackingFixed(a', a, tb, ta);
    LackingFixed(b', b, ta, tb);
  }

  lemma HelloKept(a: State, a': State, ta: Frontier)
    requires Inv(a) && Inv(a') && Extends(a', a) && Covers(a.frontier, ta)
    ensures Covers(a'.frontier, ta)
  {
    hide Inv, Extends, Covers;
    ExtendsFrontier(a', a);
    CoversTransitive(a'.frontier, a.frontier, ta);
  }

  // The same session with both logs grown.
  lemma GrowthKeepsPhase(s: Session, s': Session, ta: Frontier, tb: Frontier)
    requires Grown(s.a.replica, s.b.replica, s'.a.replica, s'.b.replica)
    requires s'.initiator == s.initiator && s'.responder == s.responder && s'.toA == s.toA && s'.toB == s.toB
    requires Phase(s, ta, tb)
    ensures Phase(s', ta, tb)
  {
    hide Inv, Extends, Covers, RoundStart, PageSent, PageTaken, ReplySent, Closed;
    var a, b, a', b' := s.a.replica, s.b.replica, s'.a.replica, s'.b.replica;
    SameSpace(a', a);
    match (s.initiator, s.responder) {
      case (Opening, _) =>
      case (AwaitingPage(_, _, _), AwaitingHello) => HelloKept(a, a', ta);
      case (_, Sending(_, _, _, _)) => RoundStartKept(a, b, a', b', ta, s.responder);
      case (AwaitingPage(_, _, _), AwaitingReply(_, _, _, _, _)) => PageSentKept(a, b, a', b', ta, s.responder, s.toA[0]);
      case (Replying(_, _, _, _, _), AwaitingReply(_, _, _, _, _)) => PageTakenKept(a, b, a', b', ta, s.initiator, s.responder);
      case (AwaitingAck(_, _, _, _, _), AwaitingReply(_, _, _, _, _)) =>
        if s.toA == [] { ReplySentKept(a, b, a', b', ta, s.initiator, s.responder, s.toB[0]); }
        else { PageSentKept(a, b, a', b', ta, s.responder, s.toA[1]); }
      case (_, Completed(done)) => ClosedKept(a, b, a', b', ta, tb, done.rounds);
      case _ =>
    }
  }

  // ---- a page is importable exactly when its reader accepts each change ----

  lemma TogetherSwaps(a: Peer, b: Peer)
    ensures Together(a, b) <==> Together(b, a)
  {}

  lemma PageHolds(from: State, f: Frontier, target: Frontier, batch: seq<Change>, done: bool)
    requires LogSound(from) && IsPage(from, f, target, batch, done)
    ensures |batch| <= MAX_CHANGES_PER_EXCHANGE
    ensures forall c :: c in batch ==> Holds(from, c) && c.id in Gap(from.changes.Keys, f, target)
  {
    hide MissingForTarget, LogSound, Gap;
    PageShape(from, f, target, MAX_CHANGES_PER_EXCHANGE);
    forall c | c in batch ensures Holds(from, c) && c.id in Gap(from.changes.Keys, f, target) {
      PageHeld(from, f, target, MAX_CHANGES_PER_EXCHANGE, c);
      PageGap(from, f, target, c);
    }
  }

  lemma PageGap(from: State, f: Frontier, target: Frontier, c: Change)
    requires LogSound(from) && c in MissingForTarget(from, f, target, MAX_CHANGES_PER_EXCHANGE).changes
    ensures c.id in Gap(from.changes.Keys, f, target)
  {
    hide MissingForTarget, Gap;
    CarriedSize(from, f, target, MAX_CHANGES_PER_EXCHANGE);
  }

  lemma HeldDoNotCollide(from: Peer, to: Peer, batch: seq<Change>)
    requires Together(from, to) && forall c :: c in batch ==> Holds(from.replica, c)
    ensures CollisionFree(to.replica.changes, batch)
  {
    hide Inv;
  }

  lemma PageImportable(from: Peer, to: Peer, f: Frontier, target: Frontier, batch: seq<Change>, done: bool, at: Attempt)
    requires Together(from, to) && IsPage(from.replica, f, target, batch, done)
    ensures |batch| <= MAX_CHANGES_PER_EXCHANGE
    ensures ApplyChanges(to, batch, at).Some? <==> Takes(to, batch, at)
    ensures ApplyChanges(to, batch, at).Some? ==>
              var next := ApplyChanges(to, batch, at).value;
              && Together(from, next) && next.current == to.current
              && Extends(next.replica, to.replica) && SameFrame(to.replica, next.replica)
              && (forall c :: c in batch ==> c.id in next.replica.changes)
  {
    hide Inv, CollisionFree, Consistent, IsPage, Import, Acceptable, Union;
    TogetherInv(from, to);
    PageHolds(from.replica, f, target, batch, done);
    HeldDoNotCollide(from, to, batch);
    ImportIsUnion(to.replica, batch, at.now);
    if batch == [] {
      NothingAdded(to.replica.changes);
    }
    if ApplyChanges(to, batch, at).Some? {
      GrownByPage(from, to, ApplyChanges(to, batch, at).value, batch);
    }
  }

  lemma GrownByPage(from: Peer, to: Peer, next: Peer, batch: seq<Change>)
    requires Together(from, to)
    requires Inv(next.replica) && SameFrame(to.replica, next.replica) && next.current == to.current
    requires forall c :: c in batch ==> Holds(from.replica, c)
    requires Union(to.replica.changes, batch, next.replica.changes)
    ensures Together(from, next)
    ensures Extends(next.replica, to.replica)
    ensures forall c :: c in batch ==> c.id in next.replica.changes
  {
    hide Inv;
    forall id | id in next.replica.changes && id !in to.replica.changes
      ensures id in from.replica.changes && next.replica.changes[id] == from.replica.changes[id]
    {
      var c :| c in batch && c.id == id;
    }
  }

  lemma BudgetTwice(n: nat, k: nat, m: nat)
    requires m <= Left(n, k)
    ensures Budget(m, MAX_CHANGES_PER_EXCHANGE) <= Left(n, k + 1)
    ensures m > MAX_CHANGES_PER_EXCHANGE ==> Left(n, k + 1) > 0
  {}

  lemma ImportedPageProgress(sender: State, owner: State, owner': State,
                             f: Frontier, target: Frontier, from: Frontier, k: nat, batch: seq<Change>, done: bool)
    requires Inv(sender) && Inv(owner) && Inv(owner') && Extends(owner', owner)
    requires Progress(sender, owner, f, target, from, k)
    requires IsPage(sender, f, target, batch, done)
    requires forall c :: c in batch ==> c.id in owner'.changes
    ensures Progress(sender, owner', owner'.frontier, target, from, k + 1)
    ensures done ==> Covers(owner'.frontier, target)
    ensures !done ==> Left(Lacking(sender, from, target), k + 1) > 0
  {
    hide Inv, Extends, Covers, Left, Gap, MissingForTarget;
    ExtendsFrontier(owner', owner);
    CoversTransitive(owner'.frontier, owner.frontier, f);
    CoversTransitive(owner'.frontier, f, from);
    CoversItself(owner'.frontier);
    PageClosesGap(sender, owner', f, target, MAX_CHANGES_PER_EXCHANGE);
    BudgetTwice(Lacking(sender, from, target), k, Lacking(sender, f, target));
    if done {
      EmptyGapCovers(sender, owner'.frontier, target);
    }
  }

  // ---- the turns ----

  lemma TogetherInv(a: Peer, b: Peer)
    requires Together(a, b)
    ensures Inv(a.replica) && Inv(b.replica) && a.replica.space == b.replica.space
  {}

  lemma ExtendsItself(st: State)
    ensures Extends(st, st)
  {}

  // The initiator imports the page.
  lemma PageTakenFollows(s: Session, ta: Frontier, r: Responder, m: Message, at: Attempt)
    requires Together(s.a, s.b) && PageSent(s.a.replica, s.b.replica, ta, r, m)
    ensures |m.changes| <= MAX_CHANGES_PER_EXCHANGE
    ensures ApplyChanges(s.a, m.changes, at).Some? <==> Takes(s.a, m.changes, at)
    ensures Takes(s.a, m.changes, at) ==>
              var p := ApplyChanges(s.a, m.changes, at).value;
              && Together(p, s.b) && p.replica.space == s.a.replica.space
              && forall target: Frontier, remote: Option<Frontier>, totals: Totals ::
                   PageTaken(p.replica, s.b.replica, ta, Replying(target, remote, totals, m.receiverFrontier, m.done), r)
  {
    hide Together, Takes, Inv, Extends, ApplyChanges, Progress, Unfinished, IsPage, Covers, Lacking, Left;
    var a, b, k := s.a.replica, s.b.replica, r.totals.rounds;
    TogetherInv(s.a, s.b);
    TogetherSwaps(s.a, s.b);
    PageImportable(s.b, s.a, r.initiatorFrontier, r.target, m.changes, m.done, at);
    if Takes(s.a, m.changes, at) {
      var p := ApplyChanges(s.a, m.changes, at).value;
      TogetherSwaps(s.b, p);
      TogetherInv(p, s.b);
      SameSpace(p.replica, a);
      ExtendsItself(b);
      ImportedPageProgress(b, a, p.replica, r.initiatorFrontier, r.target, ta, k, m.changes, m.done);
      StandingKept(a, b, p.replica, b, ta, r.target, r.initiatorFrontier, m.receiverFrontier, k, k, k);
    }
  }

  lemma InitiatorReceives(s: Session, ta: Frontier, tb: Frontier, at: Attempt)
    requires SessionInv(s, ta, tb)
    requires s.initiator.AwaitingPage? && s.responder.AwaitingReply?
    ensures s.toA != [] && s.toA[0].SyncPage?
    ensures if Takes(s.a, s.toA[0].changes, at) then SessionInv(InitiatorTurn(s, at), ta, tb)
            else InitiatorTurn(s, at).initiator == Failed(Local)
  {
    hide Together, Takes, PageTaken, ApplyChanges, RoundStart, ReplySent, Closed, Standing, Unfinished, IsPage, Covers;
    TogetherInv(s.a, s.b);
    PageTakenFollows(s, ta, s.responder, s.toA[0], at);
    assert InitiatorTurn(s, at).toA == [];
  }

  lemma InitiatorReplies(s: Session, ta: Frontier, tb: Frontier, at: Attempt)
    requires SessionInv(s, ta, tb) && s.initiator.Replying?
    ensures SessionInv(InitiatorTurn(s, at), ta, tb)
  {
    hide Together, RoundStart, PageSent, Closed, Standing, Unfinished, FirstHalf, Covers, MissingForTarget;
    var s' := InitiatorTurn(s, at);
    assert |s'.toB| == 1;
    assert ReplySent(s'.a.replica, s'.b.replica, ta, s'.initiator, s'.responder, s'.toB[0]);
  }

  lemma CeilingReached(n: nat, m: nat, k: nat)
    requires k > 0 ==> Left(n, k) > 0 || Left(m, k) > 0
    ensures k + 1 <= MaxRounds(n, m)
  {}

  // The responder imports the reply: either both are done, or a further round
  // is due.
  lemma RoundFollows(s: Session, ta: Frontier, i: Initiator, r: Responder, m: Message, at: Attempt)
    requires Together(s.a, s.b) && ReplySent(s.a.replica, s.b.replica, ta, i, r, m)
    ensures |m.changes| <= MAX_CHANGES_PER_EXCHANGE
    ensures ApplyChanges(s.b, m.changes, at).Some? <==> Takes(s.b, m.changes, at)
    ensures Takes(s.b, m.changes, at) ==>
              var p := ApplyChanges(s.b, m.changes, at).value;
              && Together(s.a, p) && p.replica.space == s.b.replica.space
              && (i.expected ==> Closed(s.a.replica, p.replica, ta, r.target, r.totals.rounds + 1))
              && (!i.expected ==> forall totals: Totals | totals.rounds == r.totals.rounds + 1 ::
                    RoundStart(s.a.replica, p.replica, ta, Sending(r.target, r.helloTarget, m.receiverFrontier, totals)))
  {
    hide Together, Takes, Inv, Extends, ApplyChanges, IsPage, Standing, Unfinished, FirstHalf, Closed, RoundStart;
    TogetherInv(s.a, s.b);
    PageImportable(s.a, s.b, i.peerFrontier, ta, m.changes, m.done, at);
    if Takes(s.b, m.changes, at) {
      var p := ApplyChanges(s.b, m.changes, at).value;
      SameSpace(p.replica, s.b.replica);
      RoundCloses(s, p, ta, i, r, m);
    }
  }

  lemma RoundCloses(s: Session, p: Peer, ta: Frontier, i: Initiator, r: Responder, m: Message)
    requires Together(s.a, s.b) && ReplySent(s.a.replica, s.b.replica, ta, i, r, m)
    requires Together(s.a, p) && Extends(p.replica, s.b.replica)
    requires forall c :: c in m.changes ==> c.id in p.replica.changes
    ensures i.expected ==> Closed(s.a.replica, p.replica, ta, r.target, r.totals.rounds + 1)
    ensures !i.expected ==> forall totals: Totals | totals.rounds == r.totals.rounds + 1 ::
              RoundStart(s.a.replica, p.replica, ta, Sending(r.target, r.helloTarget, m.receiverFrontier, totals))
  {
    hide Together, Inv, Extends, ApplyChanges, IsPage, Covers, Lacking, Left, MaxRounds;
    var a, b, k := s.a.replica, s.b.replica, r.totals.rounds;
    TogetherInv(s.a, s.b);
    TogetherInv(s.a, p);
    ExtendsItself(a);
    ImportedPageProgress(a, b, p.replica, i.peerFrontier, ta, r.target, k, m.changes, m.done);
    StandingKept(a, b, a, p.replica, ta, r.target, m.receiverFrontier, i.peerFrontier, k + 1, k, k);
    FirstHalfKept(b, p.replica, ta, m.receiverFrontier, r);
    if i.expected {
      CoversTransitive(a.frontier, m.receiverFrontier, r.target);
      CeilingReached(Lacking(p.replica, ta, r.target), Lacking(a, r.target, ta), k);
    } else {
      forall totals: Totals | totals.rounds == k + 1
        ensures RoundStart(a, p.replica, ta, Sending(r.target, r.helloTarget, m.receiverFrontier, totals))
      {
        assert Standing(a, p.replica, ta, r.target, m.receiverFrontier, p.replica.frontier, k + 1, k + 1);
        assert Unfinished(a, p.replica, ta, r.target, k + 1);
      }
    }
  }

  lemma ResponderReceives(s: Session, ta: Frontier, tb: Frontier, at: Attempt)
    requires SessionInv(s, ta, tb)
    requires s.initiator.AwaitingAck? && s.responder.AwaitingReply? && s.toA == []
    ensures s.toB != [] && s.toB[0].SyncPage?
    ensures if Takes(s.b, s.toB[0].changes, at) then SessionInv(ResponderTurn(s, at), ta, tb)
            else ResponderTurn(s, at).responder == Aborted(Local)
  {
    hide Together, Takes, RoundStart, ApplyChanges, PageTaken, Closed, Standing, Unfinished, IsPage, Covers, FirstHalf;
    TogetherInv(s.a, s.b);
    RoundFollows(s, ta, s.initiator, s.responder, s.toB[0], at);
    assert ResponderTurn(s, at).toB == [];
  }

  lemma InitiatorKeeps(s: Session, ta: Frontier, tb: Frontier, at: Attempt)
    requires SessionInv(s, ta, tb)
    ensures if Stumbles(s, TurnA(at)) then InitiatorTurn(s, at).initiator.Failed?
            else SessionInv(InitiatorTurn(s, at), if s.initiator.Opening? then s.a.replica.frontier else ta, tb)
  {
    hide Together, Takes, RoundStart, PageSent, PageTaken, ReplySent, Closed, ReceivePage;
    TogetherInv(s.a, s.b);
    match (s.initiator, s.responder) {
      case (Opening, _) => CoversItself(s.a.replica.frontier);
      case (AwaitingPage(_, _, _), AwaitingReply(_, _, _, _, _)) => InitiatorReceives(s, ta, tb, at);
      case (Replying(_, _, _, _, _), _) => InitiatorReplies(s, ta, tb, at);
      case (AwaitingAck(_, _, _, _, _), _) =>
        assert s.toA != [] ==> s.toA[1..] == if |s.toA| == 1 then [] else [s.toA[1]];
      case _ =>
    }
  }

  lemma HelloStartsRounds(s: Session, ta: Frontier, tb: Frontier, at: Attempt)
    requires SessionInv(s, ta, tb)
    requires s.initiator.AwaitingPage? && s.responder.AwaitingHello?
    ensures SessionInv(ResponderTurn(s, at), ta, s.b.replica.frontier)
  {
    hide Together, PageSent, PageTaken, ReplySent, Closed, Covers, Gap;
    TogetherInv(s.a, s.b);
    CoversItself(s.b.replica.frontier);
    CoversItself(ta);
    var s', tb' := ResponderTurn(s, at), s.b.replica.frontier;
    assert s'.toB == [];
    assert RoundStart(s'.a.replica, s'.b.replica, ta, s'.responder);
  }

  lemma SendingStarts(s: Session, ta: Frontier, tb: Frontier, at: Attempt)
    requires SessionInv(s, ta, tb) && s.responder.Sending?
    ensures SessionInv(ResponderTurn(s, at), ta, tb)
  {
    hide Together, PageTaken, ReplySent, Closed, Standing, Unfinished, MissingForTarget;
    TogetherInv(s.a, s.b);
    var s' := ResponderTurn(s, at);
    var m := s'.toA[|s'.toA| - 1];
    assert PageSent(s'.a.replica, s'.b.replica, ta, s'.responder, m);
  }

  lemma ResponderKeeps(s: Session, ta: Frontier, tb: Frontier, at: Attempt)
    requires SessionInv(s, ta, tb)
    ensures if Stumbles(s, TurnB(at)) then ResponderTurn(s, at).responder.Aborted?
            else SessionInv(ResponderTurn(s, at), ta,
                            if s.responder.AwaitingHello? && s.toB != [] then s.b.replica.frontier else tb)
  {
    hide Together, Takes, RoundStart, PageSent, PageTaken, ReplySent, Closed, ReceiveHello, ReceiveReply;
    match (s.initiator, s.responder) {
      case (AwaitingPage(_, _, _), AwaitingHello) => HelloStartsRounds(s, ta, tb, at);
      case (_, Sending(_, _, _, _)) => SendingStarts(s, ta, tb, at);
      case (AwaitingAck(_, _, _, _, _), AwaitingReply(_, _, _, _, _)) =>
        if s.toA == [] { ResponderReceives(s, ta, tb, at); }
      case _ =>
    }
  }

  lemma WorkedExtends(p: Peer, work: Labour)
    requires Inv(p.replica)
    ensures Inv(Worked(p, work).replica) && Extends(Worked(p, work).replica, p.replica)
  {
    hide Inv, Perform, Extends;
    match work {
      case OnLog(step) => PerformExtends(p.replica, step);
      case Adopt(name, schema) => PerformExtends(p.replica, Register(name, schema));
    }
  }

  lemma WorkKeeps(s: Session, e: Event, ta: Frontier, tb: Frontier)
    requires SessionInv(s, ta, tb) && (e.WorkA? || e.WorkB?) && Undisturbed(s, e)
    ensures SessionInv(React(s, e), ta, tb)
  {
    hide Phase, Worked, Inv, Extends, Consistent;
    var s' := React(s, e);
    ExtendsItself(s.a.replica);
    ExtendsItself(s.b.replica);
    if e.WorkA? {
      WorkedExtends(s.a, e.work);
      SameSpace(s'.a.replica, s.a.replica);
    } else {
      WorkedExtends(s.b, e.work);
      SameSpace(s'.b.replica, s.b.replica);
    }
    GrowthKeepsPhase(s, s', ta, tb);
  }

  // ---- whole runs ----

  ghost predicate Sound(s: Session, ta: Frontier, tb: Frontier) {
    SessionInv(s, ta, tb) && Balanced(s)
  }

  lemma {:induction false} InFlightAppend(queue: seq<Message>, m: Message)
    ensures InFlight(queue + [m]) == InFlight(queue) + Moved(m)
  {
    if queue != [] {
      assert (queue + [m])[1..] == queue[1..] + [m];
      InFlightAppend(queue[1..], m);
    }
  }

  lemma InitiatorBalances(s: Session, at: Attempt)
    requires Balanced(s) && !InitiatorTurn(s, at).initiator.Failed? && !s.initiator.Failed?
    ensures Balanced(InitiatorTurn(s, at))
  {
    hide ApplyChanges, MissingForTarget, NewlyHeld;
    var s' := InitiatorTurn(s, at);
    if |s'.toB| > |s.toB| {
      InFlightAppend(s.toB, s'.toB[|s.toB|]);
    }
  }

  lemma ResponderBalances(s: Session, at: Attempt)
    requires Balanced(s) && !ResponderTurn(s, at).responder.Aborted? && !s.responder.Aborted?
    ensures Balanced(ResponderTurn(s, at))
  {
    hide ApplyChanges, MissingForTarget, NewlyHeld;
    var s' := ResponderTurn(s, at);
    if |s'.toA| > |s.toA| {
      InFlightAppend(s.toA, s'.toA[|s.toA|]);
    }
  }

  lemma NobodyFails(s: Session, ta: Frontier, tb: Frontier)
    requires SessionInv(s, ta, tb)
    ensures !Broken(s)
  {
    hide Together, RoundStart, PageSent, PageTaken, ReplySent, Closed;
  }

  // A turn breaks the session exactly when it reads a page that its reader does
  // not take; any other event keeps the session sound.
  lemma EventKeeps(s: Session, e: Event, ta: Frontier, tb: Frontier)
    requires Sound(s, ta, tb) && Undisturbed(s, e)
    ensures Broken(React(s, e)) <==> Stumbles(s, e)
    ensures !Stumbles(s, e) ==>
              Sound(React(s, e),
                    if s.initiator.Opening? && e.TurnA? then s.a.replica.frontier else ta,
                    if s.responder.AwaitingHello? && s.toB != [] && e.TurnB? then s.b.replica.frontier else tb)
  {
    hide SessionInv, InitiatorTurn, ResponderTurn, Balanced, Worked, Takes;
    NobodyFails(s, ta, tb);
    match e {
      case TurnA(at) =>
        var ta' := if s.initiator.Opening? then s.a.replica.frontier else ta;
        InitiatorKeeps(s, ta, tb, at);
        if !Stumbles(s, e) {
          NobodyFails(React(s, e), ta', tb);
          InitiatorBalances(s, at);
        }
      case TurnB(at) =>
        var tb' := if s.responder.AwaitingHello? && s.toB != [] then s.b.replica.frontier else tb;
        ResponderKeeps(s, ta, tb, at);
        if !Stumbles(s, e) {
          NobodyFails(React(s, e), ta, tb');
          ResponderBalances(s, at);
        }
      case _ =>
        WorkKeeps(s, e, ta, tb);
        WorkBalances(s, e);
        NobodyFails(React(s, e), ta, tb);
    }
  }

  lemma WorkBalances(s: Session, e: Event)
    requires Balanced(s) && (e.WorkA? || e.WorkB?)
    ensures Balanced(React(s, e))
  {
    hide InFlight, InitiatorTotals, ResponderTotals, Worked;
  }

  // Until a target is captured, any frontier may stand for it.
  lemma Uncaptured(s: Session, ta: Frontier, tb: Frontier, ta': Frontier, tb': Frontier)
    requires Sound(s, ta, tb)
    ensures Sound(s, if s.initiator.Opening? then ta' else ta, if s.responder.AwaitingHello? then tb' else tb)
  {
    hide Together, RoundStart, PageSent, PageTaken, ReplySent, Closed, Balanced, Covers;
  }

  lemma CapturedOnce(s: Session, e: Event, ta: Frontier, tb: Frontier)
    requires Sound(s, ta, tb) && !Stumbles(s, e)
    ensures React(s, e).initiator.Opening? <==> s.initiator.Opening? && !e.TurnA?
    ensures React(s, e).responder.AwaitingHello? <==> s.responder.AwaitingHello? && !(s.toB != [] && e.TurnB?)
  {
    hide Together, RoundStart, PageSent, PageTaken, ReplySent, Closed, Balanced, Covers, ApplyChanges, Worked, Takes;
  }

  lemma {:induction false} RunKeeps(s: Session, events: seq<Event>, ta: Frontier, tb: Frontier)
    requires Sound(s, ta, tb) && Unrolls(s, events) && Smooth(s, events)
    ensures Sound(After(s, events),
                  if s.initiator.Opening? then OpeningTarget(s, events) else ta,
                  if s.responder.AwaitingHello? then AnsweringTarget(s, events) else tb)
    decreases |events|
  {
    hide Sound, React, Undisturbed, Stumbles;
    if events == [] {
      Uncaptured(s, ta, tb, OpeningTarget(s, events), AnsweringTarget(s, events));
    } else {
      var e := events[0];
      var ta' := if s.initiator.Opening? && e.TurnA? then s.a.replica.frontier else ta;
      var tb' := if s.responder.AwaitingHello? && s.toB != [] && e.TurnB? then s.b.replica.frontier else tb;
      EventKeeps(s, e, ta, tb);
      CapturedOnce(s, e, ta, tb);
      RunKeeps(React(s, e), events[1..], ta', tb');
    }
  }

  lemma {:induction false} BrokenStays(s: Session, events: seq<Event>)
    requires Broken(s)
    ensures Broken(After(s, events))
    decreases |events|
  {
    hide ApplyChanges, MissingForTarget, Worked;
    if events != [] {
      BrokenStays(React(s, events[0]), events[1..]);
    }
  }

  lemma {:induction false} BreaksExactly(s: Session, events: seq<Event>, ta: Frontier, tb: Frontier)
    requires Sound(s, ta, tb) && Unrolls(s, events)
    ensures Broken(After(s, events)) <==> !Smooth(s, events)
    decreases |events|
  {
    hide Sound, React, Undisturbed, Stumbles, Broken;
    if events == [] {
      SoundIsWhole(s, ta, tb);
    } else {
      var e := events[0];
      EventKeeps(s, e, ta, tb);
      if Stumbles(s, e) {
        BrokenStays(React(s, e), events[1..]);
      } else {
        BreaksExactly(React(s, e), events[1..],
                      if s.initiator.Opening? && e.TurnA? then s.a.replica.frontier else ta,
                      if s.responder.AwaitingHello? && s.toB != [] && e.TurnB? then s.b.replica.frontier else tb);
      }
    }
  }

  lemma SoundIsWhole(s: Session, ta: Frontier, tb: Frontier)
    requires Sound(s, ta, tb)
    ensures !Broken(s)
  {
    hide SessionInv, Balanced;
    NobodyFails(s, ta, tb);
  }

  // A session that breaks stops on both sides.
  lemma StumbleStopsBoth(s: Session, e: Event, ta: Frontier, tb: Frontier, at: Attempt)
    requires Sound(s, ta, tb) && Stumbles(s, e)
    ensures InitiatorTurn(React(s, e), at) == React(s, e) == ResponderTurn(React(s, e), at)
  {
    hide Together, RoundStart, PageSent, PageTaken, ReplySent, Closed, Balanced, ApplyChanges, Takes, SessionInv, Broken;
    EventKeeps(s, e, ta, tb);
    SoundIsWhole(s, ta, tb);
    WhoReads(s, ta, tb);
    ReadingTouchesOneSide(s, e);
  }

  lemma WhoReads(s: Session, ta: Frontier, tb: Frontier)
    requires Sound(s, ta, tb)
    ensures s.initiator.AwaitingPage? && s.toA != [] ==> s.responder.AwaitingReply? && s.toB == []
    ensures s.responder.AwaitingReply? && s.toB != [] ==> s.initiator.AwaitingAck? && s.toA == []
  {
    hide Together, RoundStart, PageSent, PageTaken, ReplySent, Closed, Balanced;
  }

  lemma ReadingTouchesOneSide(s: Session, e: Event)
    requires Stumbles(s, e) && Broken(React(s, e)) && !Broken(s)
    ensures e.TurnA? ==> React(s, e).initiator.Failed? && React(s, e).responder == s.responder && React(s, e).toB == s.toB
    ensures e.TurnB? ==> React(s, e).responder.Aborted? && React(s, e).initiator == s.initiator && React(s, e).toA == s.toA
  {
    hide ApplyChanges, Takes;
  }

  lemma StartIsSound(a: Peer, b: Peer)
    requires Together(a, b)
    ensures Sound(Start(a, b), a.replica.frontier, b.replica.frontier)
  {
    hide Together;
  }

  // The other side holds nothing under this peer's name that the peer does not.
  predicate NothingForged(p: Peer, other: Peer) {
    forall id :: id in other.replica.changes && id.replica == p.replica.id ==> id in p.replica.changes
  }

  // A peer's own writes, registrations, openings and migrations.
  predicate Own(work: Labour) {
    work.OnLog? ==> work.step.Write? || work.step.Register?
  }

  // They never disturb a session.
  lemma OwnWorkDisturbsNothing(p: Peer, other: Peer, work: Labour)
    requires Together(p, other) && NothingForged(p, other) && Own(work)
    ensures Consistent(Worked(p, work).replica.changes, other.replica.changes)
    ensures NothingForged(Worked(p, work), other)
  {
    hide Inv, Author;
    if work.OnLog? && work.step.Write? && Author(p.replica, work.step.op, work.step.now).Ok? {
      AuthorInv(p.replica, work.step.op, work.step.now);
    }
  }

  // Beside the session both sides do only their own work.
  predicate OwnWork(e: Event) {
    e.WorkA? || e.WorkB? ==> Own(e.work)
  }

  // The pages on their way hold changes of their sender's log.
  predicate Carries(queue: seq<Message>, sender: State) {
    forall m, c :: m in queue && m.SyncPage? && c in m.changes ==> Holds(sender, c)
  }

  // Two replicas that hold nothing forged under the other's name.
  ghost predicate Honest(a: Peer, b: Peer) {
    Together(a, b) && a.replica.id != b.replica.id && NothingForged(a, b) && NothingForged(b, a)
  }

  ghost predicate HonestSession(s: Session) {
    Honest(s.a, s.b) && Carries(s.toA, s.b.replica) && Carries(s.toB, s.a.replica)
  }

  // Peers new to a space meet what a session needs.
  lemma NewPeersMeet(a: ReplicaId, b: ReplicaId, space: SpaceId, current: Current, other: Current)
    ensures Together(Peer(Fresh(a, space), current), Peer(Fresh(b, space), other))
    ensures a != b ==> Honest(Peer(Fresh(a, space), current), Peer(Fresh(b, space), other))
  {
    FreshInv(a, space);
    FreshInv(b, space);
  }

  lemma HonestSwaps(a: Peer, b: Peer)
    requires Honest(a, b)
    ensures Honest(b, a)
  {
    hide Inv;
  }

  lemma WorkKeepsHonest(p: Peer, other: Peer, work: Labour)
    requires Honest(p, other) && Own(work)
    ensures Honest(Worked(p, work), other)
    ensures Extends(Worked(p, work).replica, p.replica)
  {
    hide Inv, Author;
    OwnWorkDisturbsNothing(p, other, work);
    WorkedExtends(p, work);
    if work.OnLog? && work.step.Write? && Author(p.replica, work.step.op, work.step.now).Ok? {
      AuthorInv(p.replica, work.step.op, work.step.now);
    }
  }

  lemma StillCarries(queue: seq<Message>, sender: State, later: State)
    requires Carries(queue, sender) && Extends(later, sender)
    ensures Carries(queue, later)
  {
    forall m, c | m in queue && m.SyncPage? && c in m.changes ensures Holds(later, c) {
      assert Holds(sender, c);
    }
  }

  // An import from the other's log forges nothing.
  lemma TakenPageKeepsHonest(from: Peer, to: Peer, batch: seq<Change>, at: Attempt)
    requires Honest(from, to) && (forall c :: c in batch ==> Holds(from.replica, c))
    requires ApplyChanges(to, batch, at).Some?
    ensures var next := ApplyChanges(to, batch, at).value;
            Honest(from, next) && Extends(next.replica, to.replica)
  {
    hide Inv, CollisionFree, Consistent, Import, AllAcceptable, Union;
    ImportIsUnion(to.replica, batch, at.now);
    if batch == [] {
      NothingAdded(to.replica.changes);
    }
    var next := ApplyChanges(to, batch, at).value;
    GrownByPage(from, to, next, batch);
    PageForgesNothing(from, to, next, batch);
  }

  lemma PageForgesNothing(from: Peer, to: Peer, next: Peer, batch: seq<Change>)
    requires NothingForged(from, to) && NothingForged(to, from)
    requires forall c :: c in batch ==> Holds(from.replica, c)
    requires Union(to.replica.changes, batch, next.replica.changes) && next.replica.id == to.replica.id
    ensures NothingForged(from, next) && NothingForged(next, from)
  {}

  lemma SentPageCarries(queue: seq<Message>, sender: State, f: Frontier, target: Frontier, m: Message)
    requires LogSound(sender) && Carries(queue, sender)
    requires m.SyncPage? ==> m.changes == MissingForTarget(sender, f, target, MAX_CHANGES_PER_EXCHANGE).changes
    ensures Carries(queue + [m], sender)
  {
    hide MissingForTarget, LogSound;
    if m.SyncPage? {
      PageHolds(sender, f, target, m.changes, !MissingForTarget(sender, f, target, MAX_CHANGES_PER_EXCHANGE).hasMore);
    }
  }

  lemma InitiatorStaysHonest(s: Session, at: Attempt)
    requires HonestSession(s)
    ensures HonestSession(InitiatorTurn(s, at))
  {
    hide Honest, ApplyChanges, MissingForTarget, LogSound, Extends;
    HonestLogs(s);
    match s.initiator {
      case Opening => SentPageCarries(s.toB, s.a.replica, s.a.replica.frontier, s.a.replica.frontier, InitiatorTurn(s, at).toB[|s.toB|]);
      case Replying(target, _, _, peerFrontier, _) =>
        SentPageCarries(s.toB, s.a.replica, peerFrontier, target, InitiatorTurn(s, at).toB[|s.toB|]);
      case AwaitingPage(_, _, _) =>
        if s.toA != [] && s.toA[0].SyncPage? && ApplyChanges(s.a, s.toA[0].changes, at).Some? {
          HonestSwaps(s.a, s.b);
          TakenPageKeepsHonest(s.b, s.a, s.toA[0].changes, at);
          var next := ApplyChanges(s.a, s.toA[0].changes, at).value;
          HonestSwaps(s.b, next);
          StillCarries(s.toB, s.a.replica, next.replica);
        }
      case _ =>
    }
  }

  lemma HonestLogs(s: Session)
    requires HonestSession(s)
    ensures LogSound(s.a.replica) && LogSound(s.b.replica)
  {}

  lemma ResponderStaysHonest(s: Session, at: Attempt)
    requires HonestSession(s)
    ensures HonestSession(ResponderTurn(s, at))
  {
    hide Honest, ApplyChanges, MissingForTarget, LogSound, Extends;
    HonestLogs(s);
    match s.responder {
      case Sending(target, _, initiatorFrontier, _) =>
        SentPageCarries(s.toA, s.b.replica, initiatorFrontier, target, ResponderTurn(s, at).toA[|s.toA|]);
      case AwaitingReply(_, _, _, _, _) =>
        if s.toB != [] && s.toB[0].SyncPage? && ApplyChanges(s.b, s.toB[0].changes, at).Some? {
          TakenPageKeepsHonest(s.a, s.b, s.toB[0].changes, at);
          StillCarries(s.toA, s.b.replica, ApplyChanges(s.b, s.toB[0].changes, at).value.replica);
        }
      case _ =>
    }
  }

  lemma OwnEventKeepsHonest(s: Session, e: Event)
    requires HonestSession(s) && OwnWork(e)
    ensures HonestSession(React(s, e)) && Undisturbed(s, e)
  {
    hide Inv, NothingForged, Carries, Consistent, Worked, InitiatorTurn, ResponderTurn, Extends;
    match e {
      case TurnA(at) => InitiatorStaysHonest(s, at);
      case TurnB(at) => ResponderStaysHonest(s, at);
      case WorkA(work) =>
        WorkKeepsHonest(s.a, s.b, work);
        StillCarries(s.toB, s.a.replica, Worked(s.a, work).replica);
      case WorkB(work) =>
        HonestSwaps(s.a, s.b);
        WorkKeepsHonest(s.b, s.a, work);
        HonestSwaps(Worked(s.b, work), s.a);
        StillCarries(s.toA, s.b.replica, Worked(s.b, work).replica);
    }
  }

  lemma {:induction false} HonestRunsUnroll(s: Session, events: seq<Event>)
    requires HonestSession(s) && forall e :: e in events ==> OwnWork(e)
    ensures Unrolls(s, events)
    decreases |events|
  {
    hide HonestSession, React, Undisturbed, OwnWork;
    if events != [] {
      OwnEventKeepsHonest(s, events[0]);
      HonestRunsUnroll(React(s, events[0]), events[1..]);
    }
  }

  // So whatever two honest peers write, register, open and migrate beside any
  // turns of a session, no identity becomes ambiguous.
  lemma OwnWorkUnrolls(a: Peer, b: Peer, events: seq<Event>)
    requires Honest(a, b) && forall e :: e in events ==> OwnWork(e)
    ensures Unrolls(Start(a, b), events)
  {
    hide Honest, OwnWork, Unrolls;
    HonestRunsUnroll(Start(a, b), events);
  }

  // Whatever both sides write, import, open and migrate meanwhile: a session
  // breaks exactly when a party reads a page it does not take. Otherwise, once
  // either party stops, both agree that nothing is left, each holds everything
  // up to both captured targets, and the rounds taken are within the pages of
  // the larger gap; all traffic is accounted for.
  lemma ReconciliationIsComplete(a: Peer, b: Peer, events: seq<Event>)
    requires Together(a, b) && Unrolls(Start(a, b), events)
    ensures var s := After(Start(a, b), events);
            var ta, tb := OpeningTarget(Start(a, b), events), AnsweringTarget(Start(a, b), events);
            && (Broken(s) <==> !Smooth(Start(a, b), events))
            && (!Broken(s) ==>
                  && Balanced(s)
                  && (s.initiator.Finished? ==> s.responder.Completed? && s.initiator.totals.rounds == s.responder.totals.rounds)
                  && (s.responder.Completed? ==> Closed(s.a.replica, s.b.replica, ta, tb, s.responder.totals.rounds)))
  {
    hide Together, RoundStart, PageSent, PageTaken, ReplySent, Closed, Balanced, Unrolls, Smooth, After, OpeningTarget, AnsweringTarget;
    StartIsSound(a, b);
    BreaksExactly(Start(a, b), events, a.replica.frontier, b.replica.frontier);
    if Smooth(Start(a, b), events) {
      RunKeeps(Start(a, b), events, a.replica.frontier, b.replica.frontier);
    }
  }

  // The same of two honest peers with nothing but their own work beside the
  // session: the hypothesis is about the start and the kind of events alone.
  lemma OwnSessionsAreComplete(a: Peer, b: Peer, events: seq<Event>)
    requires Honest(a, b) && forall e :: e in events ==> OwnWork(e)
    ensures var s := After(Start(a, b), events);
            var ta, tb := OpeningTarget(Start(a, b), events), AnsweringTarget(Start(a, b), events);
            && (Broken(s) <==> !Smooth(Start(a, b), events))
            && (!Broken(s) ==>
                  && Balanced(s)
                  && (s.initiator.Finished? ==> s.responder.Completed? && s.initiator.totals.rounds == s.responder.totals.rounds)
                  && (s.responder.Completed? ==> Closed(s.a.replica, s.b.replica, ta, tb, s.responder.totals.rounds)))
  {
    hide Together, Closed, Balanced, Unrolls, Smooth, After, OpeningTarget, AnsweringTarget, OwnWork, Broken;
    OwnWorkUnrolls(a, b, events);
    ReconciliationIsComplete(a, b, events);
  }

  // At the end what one side sent is what the other received.
  lemma TotalsAgree(a: Peer, b: Peer, events: seq<Event>)
    requires Together(a, b) && Unrolls(Start(a, b), events) && Over(After(Start(a, b), events))
    ensures var s := After(Start(a, b), events);
            && s.initiator.totals.sent == s.responder.totals.received
            && s.responder.totals.sent == s.initiator.totals.received
  {
    hide Together, Closed, Unrolls, Smooth, After, OpeningTarget, AnsweringTarget, Start;
    var start := Start(a, b);
    StartIsSound(a, b);
    BreaksExactly(start, events, a.replica.frontier, b.replica.frontier);
    RunKeeps(start, events, a.replica.frontier, b.replica.frontier);
  }

  // ---- what the captured gaps decide ----

  // The peer can import every change of the log between the two frontiers.
  ghost predicate GapFits(p: Peer, log: State, from: Frontier, target: Frontier) {
    forall id :: id in Gap(log.changes.Keys, from, target) ==> Fits(p, log.changes[id])
  }

  // A peer that accepts no less than before.
  ghost predicate Accepts(p: Peer, next: Peer) {
    && Extends(next.replica, p.replica)
    && forall name :: name in p.current ==> name in next.current && next.current[name] == p.current[name]
  }

  lemma AcceptsItself(p: Peer)
    ensures Accepts(p, p)
  {
    ExtendsItself(p.replica);
  }

  lemma GapFitsKept(p: Peer, next: Peer, log: State, from: Frontier, target: Frontier)
    requires Accepts(p, next) && GapFits(p, log, from, target)
    ensures GapFits(next, log, from, target)
  {}

  lemma ImportGrows(p: Peer, batch: seq<Change>, at: Attempt)
    requires Inv(p.replica) && ApplyChanges(p, batch, at).Some?
    ensures var next := ApplyChanges(p, batch, at).value;
            Accepts(p, next) && SameFrame(p.replica, next.replica)
  {
    hide Inv, Import, CollisionFree, AllAcceptable;
    if batch != [] {
      ImportIsUnion(p.replica, batch, at.now);
    }
  }

  lemma WorkedAccepts(s: Session, e: Event)
    requires Inv(s.a.replica) && Inv(s.b.replica) && KeepsCurrent(s, e) && (e.WorkA? || e.WorkB?)
    ensures Accepts(s.a, React(s, e).a) && Accepts(s.b, React(s, e).b)
  {
    hide Inv, Perform, Extends;
    AcceptsItself(s.a);
    AcceptsItself(s.b);
    if e.WorkA? { WorkedExtends(s.a, e.work); } else { WorkedExtends(s.b, e.work); }
  }

  lemma TurnAccepts(s: Session, e: Event)
    requires Inv(s.a.replica) && Inv(s.b.replica) && (e.TurnA? || e.TurnB?)
    ensures Accepts(s.a, React(s, e).a) && Accepts(s.b, React(s, e).b)
    ensures SameFrame(s.a.replica, React(s, e).a.replica) && SameFrame(s.b.replica, React(s, e).b.replica)
  {
    hide Inv, Accepts, ApplyChanges, MissingForTarget;
    AcceptsItself(s.a);
    AcceptsItself(s.b);
    if e.TurnA? && s.initiator.AwaitingPage? && s.toA != [] && s.toA[0].SyncPage? && ApplyChanges(s.a, s.toA[0].changes, e.at).Some? {
      ImportGrows(s.a, s.toA[0].changes, e.at);
    }
    if e.TurnB? && s.responder.AwaitingReply? && s.toB != [] && s.toB[0].SyncPage? && ApplyChanges(s.b, s.toB[0].changes, e.at).Some? {
      ImportGrows(s.b, s.toB[0].changes, e.at);
    }
  }

  lemma PageFromGap(from: State, log: State, reader: Peer, f: Frontier, initial: Frontier, batch: seq<Change>, done: bool)
    requires Inv(from) && Inv(log) && Extends(from, log) && Covers(f, initial)
    requires IsPage(from, f, log.frontier, batch, done)
    requires GapFits(reader, log, initial, log.frontier)
    ensures AllFit(reader, batch)
  {
    hide Covers, IsPage, Fits, DocumentsExact, Contiguous, CounterExact, ClockDominates;
    CoversItself(log.frontier);
    GapFixed(from, log, f, log.frontier);
    GapShrinks(log.changes.Keys, initial, f, log.frontier);
    PageHolds(from, f, log.frontier, batch, done);
    GapHeld(log.changes.Keys, initial, log.frontier);
    hide Gap;
  }

  // The logs at capture, as far as they are captured.
  ghost predicate Captured(s: Session, la: State, lb: State) {
    && Inv(la) && Inv(lb)
    && (!s.initiator.Opening? ==> Extends(s.a.replica, la))
    && (!s.responder.AwaitingHello? ==> Extends(s.b.replica, lb))
  }

  // Every page read on the way reaches its reader's tables.
  predicate Stored(e: Event) {
    e.TurnA? || e.TurnB? ==> e.at.stores
  }

  lemma NothingStumbles(s: Session, e: Event, la: State, lb: State)
    requires Sound(s, la.frontier, lb.frontier) && Captured(s, la, lb) && Stored(e)
    requires !s.initiator.Opening? && !s.responder.AwaitingHello? ==>
               GapFits(s.a, lb, la.frontier, lb.frontier) && GapFits(s.b, la, lb.frontier, la.frontier)
    ensures !Stumbles(s, e)
  {
    hide Inv, Extends, GapFits, Unfinished, FirstHalf, Covers, IsPage, Lacking, Left, AllFit, Closed, Balanced, Consistent, RoundStart, PageTaken;
    WhoReads(s, la.frontier, lb.frontier);
    if s.initiator.AwaitingPage? && s.toA != [] {
      var m := s.toA[0];
      PageFromGap(s.b.replica, lb, s.a, s.responder.initiatorFrontier, la.frontier, m.changes, m.done);
    }
    if s.responder.AwaitingReply? && s.toB != [] {
      var m := s.toB[0];
      PageFromGap(s.a.replica, la, s.b, s.initiator.peerFrontier, lb.frontier, m.changes, m.done);
    }
  }

  // The log a target is, or will be, captured from.
  function OpenedFrom(s: Session, events: seq<Event>, la: State): State {
    if s.initiator.Opening? then OpeningLog(s, events) else la
  }

  function AnsweredFrom(s: Session, events: seq<Event>, lb: State): State {
    if s.responder.AwaitingHello? then AnsweringLog(s, events) else lb
  }

  lemma SoundPeers(s: Session, ta: Frontier, tb: Frontier)
    requires Sound(s, ta, tb)
    ensures Inv(s.a.replica) && Inv(s.b.replica)
  {
    hide Phase, Balanced;
  }

  lemma ExtendsOn(last: State, later: State, st: State)
    requires Extends(last, later) && Extends(later, st)
    ensures Extends(last, st)
  {}

  lemma EventAccepts(s: Session, e: Event)
    requires Inv(s.a.replica) && Inv(s.b.replica) && KeepsCurrent(s, e)
    ensures Accepts(s.a, React(s, e).a) && Accepts(s.b, React(s, e).b)
  {
    hide Inv, Accepts, React, KeepsCurrent;
    if e.WorkA? || e.WorkB? { WorkedAccepts(s, e); } else { TurnAccepts(s, e); }
  }

  lemma CapturedNext(s: Session, e: Event, la: State, lb: State, ta: Frontier, tb: Frontier)
    requires Sound(s, ta, tb) && Captured(s, la, lb) && !Stumbles(s, e)
    requires Accepts(s.a, React(s, e).a) && Accepts(s.b, React(s, e).b)
    ensures Captured(React(s, e),
                     if s.initiator.Opening? && e.TurnA? then s.a.replica else la,
                     if s.responder.AwaitingHello? && s.toB != [] && e.TurnB? then s.b.replica else lb)
  {
    hide Inv, Extends, React, Stumbles, Sound;
    SoundPeers(s, ta, tb);
    CapturedOnce(s, e, ta, tb);
    if !s.initiator.Opening? { ExtendsOn(React(s, e).a.replica, s.a.replica, la); }
    if !s.responder.AwaitingHello? { ExtendsOn(React(s, e).b.replica, s.b.replica, lb); }
  }

  lemma {:induction false} FittingGapsRunSmoothly(s: Session, events: seq<Event>, la: State, lb: State)
    requires Sound(s, la.frontier, lb.frontier) && Captured(s, la, lb)
    requires Unrolls(s, events) && NeverMigrates(s, events) && forall e :: e in events ==> Stored(e)
    requires GapFits(s.a, AnsweredFrom(s, events, lb), OpenedFrom(s, events, la).frontier, AnsweredFrom(s, events, lb).frontier)
    requires GapFits(s.b, OpenedFrom(s, events, la), AnsweredFrom(s, events, lb).frontier, OpenedFrom(s, events, la).frontier)
    ensures Smooth(s, events)
    decreases |events|
  {
    hide Sound, React, Undisturbed, Stumbles, Captured, GapFits, KeepsCurrent, Accepts;
    if events != [] {
      var e := events[0];
      SoundPeers(s, la.frontier, lb.frontier);
      NothingStumbles(s, e, la, lb);
      EventKeeps(s, e, la.frontier, lb.frontier);
      CapturedOnce(s, e, la.frontier, lb.frontier);
      EventAccepts(s, e);
      CapturedNext(s, e, la, lb, la.frontier, lb.frontier);
      var la' := if s.initiator.Opening? && e.TurnA? then s.a.replica else la;
      var lb' := if s.responder.AwaitingHello? && s.toB != [] && e.TurnB? then s.b.replica else lb;
      var first, second := OpenedFrom(s, events, la), AnsweredFrom(s, events, lb);
      GapFitsKept(s.a, React(s, e).a, second, first.frontier, second.frontier);
      GapFitsKept(s.b, React(s, e).b, first, second.frontier, first.frontier);
      FittingGapsRunSmoothly(React(s, e), events[1..], la', lb');
    }
  }

  // If either can import what the other held, beyond its own target, when the
  // targets were captured, and its tables take it, the session does not break:
  // whatever else their logs hold, and whatever is written, imported or newly
  // opened meanwhile.
  lemma FittingGapsNeverBreak(a: Peer, b: Peer, events: seq<Event>)
    requires Together(a, b) && Unrolls(Start(a, b), events) && NeverMigrates(Start(a, b), events)
    requires forall e :: e in events ==> Stored(e)
    requires var la, lb := OpeningLog(Start(a, b), events), AnsweringLog(Start(a, b), events);
             GapFits(a, lb, la.frontier, lb.frontier) && GapFits(b, la, lb.frontier, la.frontier)
    ensures !Broken(After(Start(a, b), events))
  {
    hide Together, Unrolls, NeverMigrates, Smooth, After, OpeningLog, AnsweringLog, GapFits, Broken, Inv;
    StartIsSound(a, b);
    TogetherInv(a, b);
    FittingGapsRunSmoothly(Start(a, b), events, a.replica, b.replica);
    BreaksExactly(Start(a, b), events, a.replica.frontier, b.replica.frontier);
  }

  // A completed session has handed over both gaps, so each receiver accepts
  // everything in its own.
  lemma CompletionTransfersGaps(s: Session, ta: Frontier, tb: Frontier)
    requires SessionInv(s, ta, tb) && Over(s)
    ensures forall id :: id in Gap(s.b.replica.changes.Keys, ta, tb) ==>
              Holds(s.a.replica, s.b.replica.changes[id]) && Acceptable(s.a.replica.space, s.a.replica.schemas, s.b.replica.changes[id])
    ensures forall id :: id in Gap(s.a.replica.changes.Keys, tb, ta) ==>
              Holds(s.b.replica, s.a.replica.changes[id]) && Acceptable(s.b.replica.space, s.b.replica.schemas, s.a.replica.changes[id])
  {
    hide Together;
    TogetherSwaps(s.a, s.b);
    GapTransferred(s.b, s.a, ta, tb);
    GapTransferred(s.a, s.b, tb, ta);
  }

  lemma GapTransferred(from: Peer, to: Peer, f: Frontier, target: Frontier)
    requires Together(from, to) && Covers(to.replica.frontier, target)
    ensures forall id :: id in Gap(from.replica.changes.Keys, f, target) ==>
              Holds(to.replica, from.replica.changes[id]) && Acceptable(to.replica.space, to.replica.schemas, from.replica.changes[id])
  {
    hide DocumentsExact, CounterExact, ClockDominates, Acceptable;
    forall id | id in Gap(from.replica.changes.Keys, f, target)
      ensures id in to.replica.changes && from.replica.changes[id].id == id
    {
      assert Get(target, id.replica) <= Get(to.replica.frontier, id.replica);
      assert id.counter != 0;
      HeldWithinFrontier(to.replica, id);
    }
  }

  // ---- progress ----

  // While the session is not over, one of the parties can move.
  lemma SomeTurnMoves(s: Session, ta: Frontier, tb: Frontier, at: Attempt)
    requires SessionInv(s, ta, tb) && !Over(s)
    ensures Stumbles(s, TurnA(at)) || Stumbles(s, TurnB(at))
            || Taken(InitiatorTurn(s, at)) == Taken(s) + 1 || Taken(ResponderTurn(s, at)) == Taken(s) + 1
  {
    hide Together, RoundStart, PageSent, PageTaken, ReplySent, Closed, ApplyChanges, Taken, Stumbles;
    if !Stumbles(s, TurnA(at)) && !Stumbles(s, TurnB(at)) {
      InitiatorKeeps(s, ta, tb, at);
      ResponderKeeps(s, ta, tb, at);
      NobodyFails(InitiatorTurn(s, at), if s.initiator.Opening? then s.a.replica.frontier else ta, tb);
      NobodyFails(ResponderTurn(s, at), ta, if s.responder.AwaitingHello? && s.toB != [] then s.b.replica.frontier else tb);
      InitiatorCounts(s, at);
      ResponderCounts(s, at);
    }
  }

  lemma InitiatorCounts(s: Session, at: Attempt)
    requires !s.initiator.Failed? && !InitiatorTurn(s, at).initiator.Failed?
    ensures InitiatorTurn(s, at) == s || Taken(InitiatorTurn(s, at)) == Taken(s) + 1
    ensures s.initiator.Opening? || s.initiator.Replying? || (s.toA != [] && !s.initiator.Finished?) ==>
              InitiatorTurn(s, at) != s
  {
    hide ApplyChanges, MissingForTarget;
  }

  lemma ResponderCounts(s: Session, at: Attempt)
    requires !s.responder.Aborted? && !ResponderTurn(s, at).responder.Aborted?
    ensures ResponderTurn(s, at) == s || Taken(ResponderTurn(s, at)) == Taken(s) + 1
    ensures s.responder.Sending? || (s.toB != [] && !s.responder.Completed?) ==> ResponderTurn(s, at) != s
  {
    hide ApplyChanges, MissingForTarget;
  }

  lemma TakenBounded(s: Session, ta: Frontier, tb: Frontier)
    requires SessionInv(s, ta, tb)
    ensures Taken(s) <= 2 + 5 * MaxRounds(Lacking(s.b.replica, ta, tb), Lacking(s.a.replica, tb, ta))
  {
    hide Together, Standing, IsPage, FirstHalf, Covers, Lacking, MaxRounds, Left;
    var n, m := Lacking(s.b.replica, ta, tb), Lacking(s.a.replica, tb, ta);
    AtLeastOneRound(n, m);
    if s.responder.Sending? || s.responder.AwaitingReply? {
      CeilingReached(n, m, s.responder.totals.rounds);
    }
  }

  lemma AtLeastOneRound(n: nat, m: nat)
    ensures MaxRounds(n, m) >= 1
  {}

  lemma {:induction false} TurnsCounted(s: Session, events: seq<Event>, ta: Frontier, tb: Frontier)
    requires Sound(s, ta, tb) && Unrolls(s, events) && Smooth(s, events)
    ensures EffectiveTurns(s, events) == Taken(After(s, events)) - Taken(s)
    decreases |events|
  {
    hide SessionInv, InitiatorTurn, ResponderTurn, Balanced, Taken, Undisturbed, Worked, Stumbles;
    if events != [] {
      var e := events[0];
      var ta' := if s.initiator.Opening? && e.TurnA? then s.a.replica.frontier else ta;
      var tb' := if s.responder.AwaitingHello? && s.toB != [] && e.TurnB? then s.b.replica.frontier else tb;
      EventKeeps(s, e, ta, tb);
      NobodyFails(s, ta, tb);
      NobodyFails(React(s, e), ta', tb');
      match e {
        case TurnA(at) => InitiatorCounts(s, at);
        case TurnB(at) => ResponderCounts(s, at);
        case _ => WorkTakesNoTurn(s, e);
      }
      TurnsCounted(React(s, e), events[1..], ta', tb');
    }
  }

  lemma WorkTakesNoTurn(s: Session, e: Event)
    requires e.WorkA? || e.WorkB?
    ensures Taken(React(s, e)) == Taken(s)
  {
    hide Worked;
  }

  // However much local work is interleaved, a session that does not break takes
  // at most two turns and five per round, and is stuck only when over.
  lemma ReconciliationEnds(a: Peer, b: Peer, events: seq<Event>, at: Attempt)
    requires Together(a, b) && Unrolls(Start(a, b), events)
    ensures var s := After(Start(a, b), events);
            var ta, tb := OpeningTarget(Start(a, b), events), AnsweringTarget(Start(a, b), events);
            || Broken(s)
            || (&& EffectiveTurns(Start(a, b), events)
                   <= 2 + 5 * MaxRounds(Lacking(s.b.replica, ta, tb), Lacking(s.a.replica, tb, ta))
                && (Over(s) || InitiatorTurn(s, at) != s || ResponderTurn(s, at) != s))
  {
    hide Together, Phase, Balanced, Unrolls, Smooth, After, OpeningTarget, AnsweringTarget, InitiatorTurn, ResponderTurn, EffectiveTurns, Broken, Stumbles, Taken;
    StartIsSound(a, b);
    BreaksExactly(Start(a, b), events, a.replica.frontier, b.replica.frontier);
    var s := After(Start(a, b), events);
    if !Broken(s) {
      RunKeeps(Start(a, b), events, a.replica.frontier, b.replica.frontier);
      TurnsCounted(Start(a, b), events, a.replica.frontier, b.replica.frontier);
      var ta, tb := OpeningTarget(Start(a, b), events), AnsweringTarget(Start(a, b), events);
      TakenBounded(s, ta, tb);
      NothingTaken(a, b);
      if !Over(s) {
        CanMove(s, ta, tb, at);
      }
    }
  }

  lemma NothingTaken(a: Peer, b: Peer)
    ensures Taken(Start(a, b)) == 0
  {}

  lemma CanMove(s: Session, ta: Frontier, tb: Frontier, at: Attempt)
    requires Sound(s, ta, tb) && !Over(s)
    ensures InitiatorTurn(s, at) != s || ResponderTurn(s, at) != s
  {
    hide SessionInv, Balanced, InitiatorTurn, ResponderTurn, Stumbles, Broken;
    SoundIsWhole(s, ta, tb);
    SomeTurnMoves(s, ta, tb, at);
    EventKeeps(s, TurnA(at), ta, tb);
    EventKeeps(s, TurnB(at), ta, tb);
  }

  // ---- a session left to itself ----

  predicate OnlyTurns(events: seq<Event>) {
    forall e :: e in events ==> e.TurnA? || e.TurnB?
  }

  lemma CapturedCovers(s: Session, ta: Frontier, tb: Frontier)
    requires SessionInv(s, ta, tb) && !s.initiator.Opening? && !s.responder.AwaitingHello?
    ensures Covers(s.a.replica.frontier, ta) && Covers(s.b.replica.frontier, tb)
  {
    hide Together, Unfinished, FirstHalf, IsPage, Covers, Lacking, Left;
  }

  ghost function Remaining(s: Session, ta: Frontier, tb: Frontier): nat
    requires SessionInv(s, ta, tb)
  {
    TakenBounded(s, ta, tb);
    2 + 5 * MaxRounds(Lacking(s.b.replica, ta, tb), Lacking(s.a.replica, tb, ta)) - Taken(s)
  }

  // An effective turn after both captures leaves one turn less.
  lemma TurnLeavesLess(s: Session, e: Event, ta: Frontier, tb: Frontier)
    requires SessionInv(s, ta, tb) && !s.initiator.Opening? && !s.responder.AwaitingHello?
    requires (e.TurnA? || e.TurnB?) && SessionInv(React(s, e), ta, tb) && Taken(React(s, e)) == Taken(s) + 1
    ensures Remaining(React(s, e), ta, tb) < Remaining(s, ta, tb)
  {
    hide Phase, Together, Taken, React, Lacking, MaxRounds, Inv, Extends, Covers;
    var s' := React(s, e);
    CapturedCovers(s, ta, tb);
    TogetherInv(s.a, s.b);
    TogetherInv(s'.a, s'.b);
    TurnAccepts(s, e);
    LackingFixed(s'.a.replica, s.a.replica, tb, ta);
    LackingFixed(s'.b.replica, s.b.replica, ta, tb);
  }

  // With no local work, turns alone bring a session to its end.
  lemma {:induction false} Drive(s: Session, ta: Frontier, tb: Frontier, at: Attempt) returns (events: seq<Event>)
    requires Sound(s, ta, tb) && !s.initiator.Opening? && !s.responder.AwaitingHello?
    ensures OnlyTurns(events) && Unrolls(s, events)
    ensures Over(After(s, events)) || Broken(After(s, events))
    decreases Remaining(s, ta, tb)
  {
    hide SessionInv, Balanced, InitiatorTurn, ResponderTurn, Stumbles, Broken, Taken, Over;
    if Over(s) {
      events := [];
    } else {
      SomeTurnMoves(s, ta, tb, at);
      var e := if Stumbles(s, TurnA(at)) || (!Stumbles(s, TurnB(at)) && Taken(InitiatorTurn(s, at)) == Taken(s) + 1)
               then TurnA(at) else TurnB(at);
      EventKeeps(s, e, ta, tb);
      if Stumbles(s, e) {
        events := [e];
        assert After(s, [e]) == After(React(s, e), []);
      } else {
        CapturedOnce(s, e, ta, tb);
        TurnLeavesLess(s, e, ta, tb);
        var rest := Drive(React(s, e), ta, tb, at);
        events := [e] + rest;
        assert events[1..] == rest;
      }
    }
  }

  lemma {:induction false} TurnsKeepFrame(s: Session, events: seq<Event>)
    requires Inv(s.a.replica) && Inv(s.b.replica) && OnlyTurns(events)
    ensures var end := After(s, events);
            && SameFrame(s.a.replica, end.a.replica) && SameFrame(s.b.replica, end.b.replica)
            && Extends(end.a.replica, s.a.replica) && Extends(end.b.replica, s.b.replica)
    decreases |events|
  {
    hide Inv, React, Extends;
    if events == [] {
      ExtendsItself(s.a.replica);
      ExtendsItself(s.b.replica);
    } else {
      var next := React(s, events[0]);
      TurnAccepts(s, events[0]);
      TurnKeepsInv(s, events[0]);
      TurnsKeepFrame(next, events[1..]);
      var end := After(next, events[1..]);
      ExtendsOn(end.a.replica, next.a.replica, s.a.replica);
      ExtendsOn(end.b.replica, next.b.replica, s.b.replica);
    }
  }

  lemma TurnKeepsInv(s: Session, e: Event)
    requires Inv(s.a.replica) && Inv(s.b.replica) && (e.TurnA? || e.TurnB?)
    ensures Inv(React(s, e).a.replica) && Inv(React(s, e).b.replica)
  {
    hide Inv, Import, MissingForTarget;
    if e.TurnA? && s.initiator.AwaitingPage? && s.toA != [] && s.toA[0].SyncPage? && s.toA[0].changes != [] {
      ImportIsUnion(s.a.replica, s.toA[0].changes, e.at.now);
    }
    if e.TurnB? && s.responder.AwaitingReply? && s.toB != [] && s.toB[0].SyncPage? && s.toB[0].changes != [] {
      ImportIsUnion(s.b.replica, s.toB[0].changes, e.at.now);
    }
  }

  // The greetings capture both targets and move nothing else.
  lemma Greeted(a: Peer, b: Peer, at: Attempt) returns (s: Session)
    requires Together(a, b)
    ensures s == React(React(Start(a, b), TurnA(at)), TurnB(at))
    ensures s.a == a && s.b == b && !s.initiator.Opening? && !s.responder.AwaitingHello?
    ensures Sound(s, a.replica.frontier, b.replica.frontier)
  {
    hide Together, Phase, Balanced;
    StartIsSound(a, b);
    var first := React(Start(a, b), TurnA(at));
    EventKeeps(Start(a, b), TurnA(at), a.replica.frontier, b.replica.frontier);
    EventKeeps(first, TurnB(at), a.replica.frontier, b.replica.frontier);
    s := React(first, TurnB(at));
  }

  lemma EventExtends(s: Session, e: Event)
    requires Inv(s.a.replica) && Inv(s.b.replica)
    ensures Inv(React(s, e).a.replica) && Inv(React(s, e).b.replica)
    ensures Extends(React(s, e).a.replica, s.a.replica) && Extends(React(s, e).b.replica, s.b.replica)
  {
    hide Inv, Extends, InitiatorTurn, ResponderTurn;
    ExtendsItself(s.a.replica);
    ExtendsItself(s.b.replica);
    match e {
      case WorkA(work) => WorkedExtends(s.a, work);
      case WorkB(work) => WorkedExtends(s.b, work);
      case _ =>
        TurnAccepts(s, e);
        TurnKeepsInv(s, e);
    }
  }

  // Each log only grows from where its target was captured.
  lemma {:induction false} LogsExtend(s: Session, events: seq<Event>)
    requires Inv(s.a.replica) && Inv(s.b.replica)
    ensures var end := After(s, events);
            && Extends(end.a.replica, s.a.replica) && Extends(end.b.replica, s.b.replica)
            && Extends(end.a.replica, OpeningLog(s, events)) && Extends(end.b.replica, AnsweringLog(s, events))
    decreases |events|
  {
    hide Inv, React, Extends;
    if events == [] {
      ExtendsItself(s.a.replica);
      ExtendsItself(s.b.replica);
    } else {
      var next := React(s, events[0]);
      EventExtends(s, events[0]);
      LogsExtend(next, events[1..]);
      var end := After(next, events[1..]);
      ExtendsOn(end.a.replica, next.a.replica, s.a.replica);
      ExtendsOn(end.b.replica, next.b.replica, s.b.replica);
    }
  }

  // In a completed session each side holds, and accepts, all that the other held
  // beyond its own target when the targets were captured.
  lemma CompletedSessionsAccept(a: Peer, b: Peer, events: seq<Event>)
    requires Together(a, b) && Unrolls(Start(a, b), events) && Over(After(Start(a, b), events))
    ensures var la, lb, end := OpeningLog(Start(a, b), events), AnsweringLog(Start(a, b), events), After(Start(a, b), events);
            && (forall id :: id in Gap(la.changes.Keys, lb.frontier, la.frontier) ==>
                  Holds(end.b.replica, la.changes[id]) && Acceptable(end.b.replica.space, end.b.replica.schemas, la.changes[id]))
            && (forall id :: id in Gap(lb.changes.Keys, la.frontier, lb.frontier) ==>
                  Holds(end.a.replica, lb.changes[id]) && Acceptable(end.a.replica.space, end.a.replica.schemas, lb.changes[id]))
  {
    hide Together, Inv, SessionInv, Acceptable, Unrolls, Smooth, After, OpeningLog, AnsweringLog, Balanced, Phase;
    StartIsSound(a, b);
    TogetherInv(a, b);
    BreaksExactly(Start(a, b), events, a.replica.frontier, b.replica.frontier);
    RunKeeps(Start(a, b), events, a.replica.frontier, b.replica.frontier);
    LogsExtend(Start(a, b), events);
    CompletionTransfersGaps(After(Start(a, b), events), OpeningTarget(Start(a, b), events), AnsweringTarget(Start(a, b), events));
  }

  lemma UnrollsBy(s: Session, events: seq<Event>)
    requires events != [] && (events[0].TurnA? || events[0].TurnB?)
    ensures Unrolls(s, events) <==> Unrolls(React(s, events[0]), events[1..])
    ensures After(s, events) == After(React(s, events[0]), events[1..])
  {
    hide React;
  }

  lemma {:induction false} TurnsUnroll(s: Session, events: seq<Event>)
    requires OnlyTurns(events)
    ensures Unrolls(s, events)
    decreases |events|
  {
    hide React;
    if events != [] {
      assert events[0] in events;
      TurnsUnroll(React(s, events[0]), events[1..]);
    }
  }

  // Turns alone capture the logs as they were at the start.
  lemma {:induction false} TurnsCaptureFirst(s: Session, events: seq<Event>)
    requires OnlyTurns(events)
    ensures s.initiator.Opening? ==> OpeningLog(s, events) == s.a.replica
    ensures s.responder.AwaitingHello? ==> AnsweringLog(s, events) == s.b.replica
    decreases |events|
  {
    hide ApplyChanges, MissingForTarget;
    if events != [] {
      TurnsCaptureFirst(React(s, events[0]), events[1..]);
    }
  }

  // Beyond the other's frontier, the peer holds a change that the other does not
  // accept at all, say of a collection it never opened.
  ghost predicate Refused(from: Peer, to: Peer) {
    exists id :: id in Gap(from.replica.changes.Keys, to.replica.frontier, from.replica.frontier)
                 && !Acceptable(to.replica.space, to.replica.schemas, from.replica.changes[id])
  }

  // Then no run of turns completes a session between the two.
  lemma RefusedHistoryNeverCompletes(a: Peer, b: Peer, events: seq<Event>)
    requires Together(a, b) && OnlyTurns(events)
    requires Refused(a, b) || Refused(b, a)
    ensures !Over(After(Start(a, b), events))
  {
    hide Together, Acceptable, OnlyTurns, Unrolls, After, OpeningLog, AnsweringLog, Over, Inv, Gap;
    TogetherInv(a, b);
    TurnsUnroll(Start(a, b), events);
    TurnsCaptureFirst(Start(a, b), events);
    TurnsKeepFrame(Start(a, b), events);
    if Over(After(Start(a, b), events)) {
      CompletedSessionsAccept(a, b, events);
    }
  }

  // And left to itself it breaks.
  lemma RefusedHistoryBreaks(a: Peer, b: Peer, at: Attempt) returns (events: seq<Event>)
    requires Together(a, b)
    requires Refused(a, b) || Refused(b, a)
    ensures OnlyTurns(events) && Broken(After(Start(a, b), events))
  {
    hide Together, React, Sound, Unrolls, After, Inv, Broken, Over, Refused;
    var s := Greeted(a, b, at);
    var rest := Drive(s, a.replica.frontier, b.replica.frontier, at);
    events := [TurnA(at), TurnB(at)] + rest;
    assert events[1..] == [TurnB(at)] + rest && events[1..][1..] == rest;
    UnrollsBy(Start(a, b), events);
    UnrollsBy(React(Start(a, b), TurnA(at)), events[1..]);
    RefusedHistoryNeverCompletes(a, b, events);
  }
}
