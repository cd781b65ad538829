// A reconciliation session: two peers paging their logs toward each other's
// fixed target frontier over an ordered stream, while local writes continue.
module Reconcile {
  import opened Wrappers
  import opened Ids
  import opened Changes
  import opened ReplicaState
  import opened Gaps

  const MAX_CHANGES_PER_EXCHANGE: U64 := 4096
  const MAX_IMPORT_CHANGES := 4096

  datatype SyncError = IncompatiblePeer | InvalidPage | Local

  // The schema under which each opened collection is currently written.
  type Current = map<Name, U64>

  datatype Peer = Peer(replica: State, current: Current)

  datatype Totals = Totals(received: nat, sent: nat, retained: nat, rounds: nat)

  datatype Message =
    | Hello(space: SpaceId, target: Frontier, receiverFrontier: Frontier)
    | SyncPage(space: SpaceId, senderTarget: Frontier, receiverFrontier: Frontier, changes: seq<Change>, done: bool)
    | Acknowledgement(space: SpaceId, done: bool)

  // Where the initiator's loop stands, with its live local variables.
  datatype Initiator =
    | Opening
    | AwaitingPage(target: Frontier, remoteTarget: Option<Frontier>, totals: Totals)
    | Replying(target: Frontier, remoteTarget: Option<Frontier>, totals: Totals, peerFrontier: Frontier, remoteDone: bool)
    | AwaitingAck(target: Frontier, remoteTarget: Option<Frontier>, totals: Totals, peerFrontier: Frontier, expected: bool)
    | Finished(totals: Totals)
    | Failed(error: SyncError)

  datatype Responder =
    | AwaitingHello
    | Sending(target: Frontier, helloTarget: Frontier, initiatorFrontier: Frontier, totals: Totals)
    | AwaitingReply(target: Frontier, helloTarget: Frontier, initiatorFrontier: Frontier, totals: Totals, localDone: bool)
    | Completed(totals: Totals)
    | Aborted(error: SyncError)

  datatype Session = Session(
    a: Peer, b: Peer,
    initiator: Initiator, responder: Responder,
    toA: seq<Message>, toB: seq<Message>)

  // ---- atomic import of a page ----

  predicate UsesCurrent(current: Current, c: Change) {
    c.operation.collection in current && current[c.operation.collection] == c.operation.schema
  }

  // The instant of a turn, and whether what it imports reaches the tables: the
  // affected documents merge, the durable schemas and counters fit, and the
  // commit succeeds.
  datatype Attempt = Attempt(now: U64, stores: bool)

  function ApplyChanges(p: Peer, batch: seq<Change>, at: Attempt): Option<Peer> {
    if |batch| > MAX_IMPORT_CHANGES then None
    else if batch == [] then Some(p)
    else if exists c :: c in batch && !UsesCurrent(p.current, c) then None
    else
      match Import(p.replica, batch, at.now)
      case Ok(next) => if at.stores then Some(p.(replica := next)) else None
      case Err(_) => None
  }

  function NewlyHeld(before: Peer, after: Peer): nat {
    if |after.replica.changes| >= |before.replica.changes| then |after.replica.changes| - |before.replica.changes| else 0
  }

  // ---- one turn of each party ----

  function InitiatorTurn(s: Session, at: Attempt): Session {
    match s.initiator
    case Opening =>
      var target := s.a.replica.frontier;
      s.(initiator := AwaitingPage(target, None, Totals(0, 0, 0, 0)),
         toB := s.toB + [Hello(s.a.replica.space, target, target)])
    case AwaitingPage(target, remoteTarget, totals) =>
      if s.toA == [] then s else ReceivePage(s.(toA := s.toA[1..]), s.toA[0], at)
    case Replying(target, remoteTarget, totals, peerFrontier, remoteDone) =>
      var outgoing := MissingForTarget(s.a.replica, peerFrontier, target, MAX_CHANGES_PER_EXCHANGE);
      s.(initiator := AwaitingAck(target, remoteTarget, totals.(sent := totals.sent + |outgoing.changes|),
                                  peerFrontier, !outgoing.hasMore && remoteDone),
         toB := s.toB + [SyncPage(s.a.replica.space, target, s.a.replica.frontier, outgoing.changes, !outgoing.hasMore)])
    case AwaitingAck(_, _, _, _, _) =>
      if s.toA == [] then s else ReceiveAck(s.(toA := s.toA[1..]), s.toA[0])
    case Finished(_) => s
    case Failed(_) => s
  }

  function ReceivePage(s: Session, page: Message, at: Attempt): Session
    requires s.initiator.AwaitingPage?
  {
    var AwaitingPage(target, remoteTarget, totals) := s.initiator;
    if !page.SyncPage? then s.(initiator := Failed(InvalidPage))
    else if page.space != s.a.replica.space then s.(initiator := Failed(IncompatiblePeer))
    else if |page.changes| > MAX_CHANGES_PER_EXCHANGE then s.(initiator := Failed(InvalidPage))
    else if remoteTarget.Some? && remoteTarget.value != page.senderTarget then s.(initiator := Failed(InvalidPage))
    else
      match ApplyChanges(s.a, page.changes, at)
      case None => s.(initiator := Failed(Local))
      case Some(a) =>
        var counted := totals.(received := totals.received + |page.changes|,
                               retained := totals.retained + NewlyHeld(s.a, a));
        s.(a := a, initiator := Replying(target, Some(page.senderTarget), counted, page.receiverFrontier, page.done))
  }

  function ReceiveAck(s: Session, ack: Message): Session
    requires s.initiator.AwaitingAck?
  {
    var AwaitingAck(target, remoteTarget, totals, _, expected) := s.initiator;
    var counted := totals.(rounds := totals.rounds + 1);
    if !ack.Acknowledgement? then s.(initiator := Failed(InvalidPage))
    else if ack.space != s.a.replica.space then s.(initiator := Failed(IncompatiblePeer))
    else if ack.done != expected then s.(initiator := Failed(InvalidPage))
    else if expected then s.(initiator := Finished(counted))
    else s.(initiator := AwaitingPage(target, remoteTarget, counted))
  }

  function ResponderTurn(s: Session, at: Attempt): Session {
    match s.responder
    case AwaitingHello =>
      if s.toB == [] then s else ReceiveHello(s.(toB := s.toB[1..]), s.toB[0])
    case Sending(target, helloTarget, initiatorFrontier, totals) =>
      var outgoing := MissingForTarget(s.b.replica, initiatorFrontier, target, MAX_CHANGES_PER_EXCHANGE);
      s.(responder := AwaitingReply(target, helloTarget, initiatorFrontier,
                                    totals.(sent := totals.sent + |outgoing.changes|), !outgoing.hasMore),
         toA := s.toA + [SyncPage(s.b.replica.space, target, s.b.replica.frontier, outgoing.changes, !outgoing.hasMore)])
    case AwaitingReply(_, _, _, _, _) =>
      if s.toB == [] then s else ReceiveReply(s.(toB := s.toB[1..]), s.toB[0], at)
    case Completed(_) => s
    case Aborted(_) => s
  }

  function ReceiveHello(s: Session, hello: Message): Session {
    if !hello.Hello? then s.(responder := Aborted(InvalidPage))
    else if hello.space != s.b.replica.space then s.(responder := Aborted(IncompatiblePeer))
    else s.(responder := Sending(s.b.replica.frontier, hello.target, hello.receiverFrontier, Totals(0, 0, 0, 0)))
  }

  function ReceiveReply(s: Session, reply: Message, at: Attempt): Session
    requires s.responder.AwaitingReply?
  {
    var AwaitingReply(target, helloTarget, initiatorFrontier, totals, localDone) := s.responder;
    if !reply.SyncPage? then s.(responder := Aborted(InvalidPage))
    else if reply.space != s.b.replica.space then s.(responder := Aborted(IncompatiblePeer))
    else if |reply.changes| > MAX_CHANGES_PER_EXCHANGE then s.(responder := Aborted(InvalidPage))
    else if reply.senderTarget != helloTarget then s.(responder := Aborted(InvalidPage))
    else
      match ApplyChanges(s.b, reply.changes, at)
      case None => s.(responder := Aborted(Local))
      case Some(b) =>
        var counted := Totals(totals.received + |reply.changes|, totals.sent,
                              totals.retained + NewlyHeld(s.b, b), totals.rounds + 1);
        var done := localDone && reply.done;
        s.(b := b,
           responder := if done then Completed(counted)
                        else Sending(target, helloTarget, reply.receiverFrontier, counted),
           toA := s.toA + [Acknowledgement(b.replica.space, done)])
  }

  // ---- runs ----

  // Local work beside a session: a step of the replica, or the opening or
  // migration of a collection, which makes a schema the current one.
  datatype Labour =
    | OnLog(step: Step)
    | Adopt(name: Name, schema: U64)

  function Worked(p: Peer, work: Labour): Peer {
    match work
    case OnLog(step) => p.(replica := Perform(p.replica, step))
    case Adopt(name, schema) => Peer(Perform(p.replica, Register(name, schema)), p.current[name := schema])
  }

  // A turn of either party, or local work on either side.
  datatype Event =
    | TurnA(at: Attempt)
    | TurnB(at: Attempt)
    | WorkA(work: Labour)
    | WorkB(work: Labour)

  function React(s: Session, e: Event): Session {
    match e
    case TurnA(at) => InitiatorTurn(s, at)
    case TurnB(at) => ResponderTurn(s, at)
    case WorkA(work) => s.(a := Worked(s.a, work))
    case WorkB(work) => s.(b := Worked(s.b, work))
  }

  function Start(a: Peer, b: Peer): Session {
    Session(a, b, Opening, AwaitingHello, [], [])
  }

  // Two sound replicas of one space in which no change identity names two
  // different changes: all that a session needs of its surroundings.
  ghost predicate Together(a: Peer, b: Peer) {
    && Inv(a.replica) && Inv(b.replica)
    && a.replica.space == b.replica.space
    && Consistent(a.replica.changes, b.replica.changes)
  }

  // Local work keeps identities unambiguous; the turns need no such condition.
  ghost predicate Undisturbed(s: Session, e: Event) {
    e.WorkA? || e.WorkB? ==> Consistent(React(s, e).a.replica.changes, React(s, e).b.replica.changes)
  }

  ghost predicate Unrolls(s: Session, events: seq<Event>)
    decreases |events|
  {
    events != [] ==> Undisturbed(s, events[0]) && Unrolls(React(s, events[0]), events[1..])
  }

  function After(s: Session, events: seq<Event>): Session
    decreases |events|
  {
    if events == [] then s else After(React(s, events[0]), events[1..])
  }

  // ---- when a session breaks ----

  // The peer would import this change now: it is valid in its space, under a
  // schema it has registered and currently writes.
  predicate Fits(p: Peer, c: Change) {
    Acceptable(p.replica.space, p.replica.schemas, c) && UsesCurrent(p.current, c)
  }

  predicate AllFit(p: Peer, batch: seq<Change>) {
    forall c :: c in batch ==> Fits(p, c)
  }

  // The reader imports the page: it can, and its tables take what is new.
  predicate Takes(p: Peer, batch: seq<Change>, at: Attempt) {
    AllFit(p, batch) && (batch != [] ==> at.stores)
  }

  // The next turn reads a page that its reader does not take.
  predicate Stumbles(s: Session, e: Event) {
    || (e.TurnA? && s.initiator.AwaitingPage? && s.toA != [] && s.toA[0].SyncPage? && !Takes(s.a, s.toA[0].changes, e.at))
    || (e.TurnB? && s.responder.AwaitingReply? && s.toB != [] && s.toB[0].SyncPage? && !Takes(s.b, s.toB[0].changes, e.at))
  }

  predicate Smooth(s: Session, events: seq<Event>)
    decreases |events|
  {
    events != [] ==> !Stumbles(s, events[0]) && Smooth(React(s, events[0]), events[1..])
  }

  predicate Broken(s: Session) {
    s.initiator.Failed? || s.responder.Aborted?
  }

  // Collections opened before keep their schema; new ones may be opened.
  predicate KeepsCurrent(s: Session, e: Event) {
    match e
    case WorkA(Adopt(name, schema)) => name in s.a.current ==> s.a.current[name] == schema
    case WorkB(Adopt(name, schema)) => name in s.b.current ==> s.b.current[name] == schema
    case _ => true
  }

  predicate NeverMigrates(s: Session, events: seq<Event>)
    decreases |events|
  {
    events != [] ==> KeepsCurrent(s, events[0]) && NeverMigrates(React(s, events[0]), events[1..])
  }

  // ---- what each phase guarantees ----

  // How many changes of one log lie between a frontier and a target.
  ghost function Lacking(sender: State, f: Frontier, target: Frontier): nat {
    |Gap(sender.changes.Keys, f, target)|
  }

  function Left(n: nat, rounds: nat): nat {
    Budget(n, rounds * MAX_CHANGES_PER_EXCHANGE)
  }

  // The frontier `f` is known to lie between `from` and the owner's, and lacks
  // at most what `rounds` full pages leave of the initial gap.
  ghost predicate Progress(sender: State, owner: State, f: Frontier, target: Frontier, from: Frontier, rounds: nat) {
    && Covers(sender.frontier, target)
    && Covers(owner.frontier, f) && Covers(f, from)
    && Lacking(sender, f, target) <= Left(Lacking(sender, from, target), rounds)
  }

  ghost predicate IsPage(sender: State, f: Frontier, target: Frontier, changes: seq<Change>, done: bool) {
    var page := MissingForTarget(sender, f, target, MAX_CHANGES_PER_EXCHANGE);
    changes == page.changes && done == !page.hasMore
  }

  // Before every round after the first, some page was still to come.
  ghost predicate Unfinished(a: State, b: State, ta: Frontier, tb: Frontier, rounds: nat) {
    rounds > 0 ==> Left(Lacking(b, ta, tb), rounds) > 0 || Left(Lacking(a, tb, ta), rounds) > 0
  }

  // What both gaps have come to after `rounds` full rounds.
  ghost predicate Standing(a: State, b: State, ta: Frontier, tb: Frontier, fa: Frontier, fb: Frontier, i: nat, j: nat) {
    Progress(b, a, fa, tb, ta, i) && Progress(a, b, fb, ta, tb, j)
  }

  // Between rounds: the responder knows the initiator's frontier.
  ghost predicate RoundStart(a: State, b: State, ta: Frontier, r: Responder) {
    && r.Sending? && r.helloTarget == ta
    && Standing(a, b, ta, r.target, r.initiatorFrontier, b.frontier, r.totals.rounds, r.totals.rounds)
    && Unfinished(a, b, ta, r.target, r.totals.rounds)
  }

  // The responder's page `m` is on its way.
  ghost predicate PageSent(a: State, b: State, ta: Frontier, r: Responder, m: Message) {
    && r.AwaitingReply? && r.helloTarget == ta
    && m.SyncPage? && m.space == b.space && m.senderTarget == r.target
    && Standing(a, b, ta, r.target, r.initiatorFrontier, m.receiverFrontier, r.totals.rounds, r.totals.rounds)
    && Unfinished(a, b, ta, r.target, r.totals.rounds)
    && IsPage(b, r.initiatorFrontier, r.target, m.changes, m.done)
    && r.localDone == m.done
  }

  // The responder's page closed its share of the initiator's gap.
  ghost predicate FirstHalf(b: State, ta: Frontier, f: Frontier, r: Responder) {
    && r.AwaitingReply?
    && (r.localDone ==> Covers(f, r.target))
    && (!r.localDone ==> Left(Lacking(b, ta, r.target), r.totals.rounds + 1) > 0)
  }

  // The page is imported; the initiator is about to answer it.
  ghost predicate PageTaken(a: State, b: State, ta: Frontier, i: Initiator, r: Responder) {
    && i.Replying? && r.AwaitingReply? && r.helloTarget == ta
    && Standing(a, b, ta, r.target, a.frontier, i.peerFrontier, r.totals.rounds + 1, r.totals.rounds)
    && Unfinished(a, b, ta, r.target, r.totals.rounds)
    && FirstHalf(b, ta, a.frontier, r)
    && i.remoteDone == r.localDone
  }

  // The initiator's page `m` is on its way.
  ghost predicate ReplySent(a: State, b: State, ta: Frontier, i: Initiator, r: Responder, m: Message) {
    && i.AwaitingAck? && r.AwaitingReply? && r.helloTarget == ta
    && m.SyncPage? && m.space == a.space && m.senderTarget == ta
    && Standing(a, b, ta, r.target, m.receiverFrontier, i.peerFrontier, r.totals.rounds + 1, r.totals.rounds)
    && Unfinished(a, b, ta, r.target, r.totals.rounds)
    && FirstHalf(b, ta, m.receiverFrontier, r)
    && IsPage(a, i.peerFrontier, ta, m.changes, m.done)
    && i.expected == (m.done && r.localDone)
  }

  predicate SameTarget(remote: Option<Frontier>, target: Frontier) {
    remote.Some? ==> remote.value == target
  }

  function Pages(n: nat): nat {
    (n + MAX_CHANGES_PER_EXCHANGE - 1) / MAX_CHANGES_PER_EXCHANGE
  }

  // The rounds a session may take: one per page of the larger gap, and at
  // least one.
  function MaxRounds(n: nat, m: nat): nat {
    if Pages(n) <= 1 && Pages(m) <= 1 then 1 else if Pages(n) >= Pages(m) then Pages(n) else Pages(m)
  }

  // Each holds everything up to both targets, within the bound on rounds.
  ghost predicate Closed(a: State, b: State, ta: Frontier, tb: Frontier, rounds: nat) {
    && Covers(a.frontier, tb) && Covers(b.frontier, ta)
    && Covers(a.frontier, ta) && Covers(b.frontier, tb)
    && 0 < rounds <= MaxRounds(Lacking(b, ta, tb), Lacking(a, tb, ta))
  }

  // The joint phases of a session that is not broken. No other combination is
  // reachable.
  ghost predicate Phase(s: Session, ta: Frontier, tb: Frontier) {
    var a, b := s.a.replica, s.b.replica;
    match (s.initiator, s.responder)
    case (Opening, AwaitingHello) => s.toA == [] && s.toB == []
    case (AwaitingPage(target, remote, totals), AwaitingHello) =>
      && target == ta && remote == None && totals.rounds == 0
      && s.toA == [] && s.toB == [Hello(a.space, ta, ta)]
      && Covers(a.frontier, ta)
    case (AwaitingPage(target, remote, totals), Sending(_, _, _, _)) =>
      && target == ta && s.responder.target == tb && SameTarget(remote, tb)
      && totals.rounds == s.responder.totals.rounds
      && s.toA == [] && s.toB == []
      && RoundStart(a, b, ta, s.responder)
    case (AwaitingPage(target, remote, totals), AwaitingReply(_, _, _, _, _)) =>
      && target == ta && s.responder.target == tb && SameTarget(remote, tb)
      && totals.rounds == s.responder.totals.rounds
      && s.toB == [] && |s.toA| == 1
      && PageSent(a, b, ta, s.responder, s.toA[0])
    case (Replying(target, remote, totals, _, _), AwaitingReply(_, _, _, _, _)) =>
      && target == ta && s.responder.target == tb && remote == Some(tb)
      && totals.rounds == s.responder.totals.rounds
      && s.toA == [] && s.toB == []
      && PageTaken(a, b, ta, s.initiator, s.responder)
    case (AwaitingAck(target, remote, totals, _, expected), AwaitingReply(_, _, _, _, _)) =>
      && target == ta && s.responder.target == tb && remote == Some(tb)
      && if s.toA == [] then
           && totals.rounds == s.responder.totals.rounds
           && |s.toB| == 1 && ReplySent(a, b, ta, s.initiator, s.responder, s.toB[0])
         else
           && totals.rounds + 1 == s.responder.totals.rounds && !expected
           && s.toB == [] && |s.toA| == 2 && s.toA[0] == Acknowledgement(a.space, false)
           && PageSent(a, b, ta, s.responder, s.toA[1])
    case (AwaitingAck(target, remote, totals, _, expected), Sending(_, _, _, _)) =>
      && target == ta && s.responder.target == tb && remote == Some(tb) && !expected
      && totals.rounds + 1 == s.responder.totals.rounds
      && s.toB == [] && s.toA == [Acknowledgement(a.space, false)]
      && RoundStart(a, b, ta, s.responder)
    case (AwaitingAck(_, _, totals, _, expected), Completed(done)) =>
      && expected && totals.rounds + 1 == done.rounds
      && s.toB == [] && s.toA == [Acknowledgement(a.space, true)]
      && Closed(a, b, ta, tb, done.rounds)
    case (Finished(first), Completed(second)) =>
      && s.toA == [] && s.toB == []
      && first.rounds == second.rounds
      && Closed(a, b, ta, tb, second.rounds)
    case _ => false
  }

  ghost predicate SessionInv(s: Session, ta: Frontier, tb: Frontier) {
    Together(s.a, s.b) && Phase(s, ta, tb)
  }

  // ---- the targets a run captures ----

  // The initiator's replica when it opened the session.
  function OpeningLog(s: Session, events: seq<Event>): State
    decreases |events|
  {
    if events == [] || (s.initiator.Opening? && events[0].TurnA?) then s.a.replica
    else OpeningLog(React(s, events[0]), events[1..])
  }

  // The responder's replica when it read the greeting.
  function AnsweringLog(s: Session, events: seq<Event>): State
    decreases |events|
  {
    if events == [] || (s.responder.AwaitingHello? && s.toB != [] && events[0].TurnB?) then s.b.replica
    else AnsweringLog(React(s, events[0]), events[1..])
  }

  function OpeningTarget(s: Session, events: seq<Event>): Frontier {
    OpeningLog(s, events).frontier
  }

  function AnsweringTarget(s: Session, events: seq<Event>): Frontier {
    AnsweringLog(s, events).frontier
  }

  // ---- progress ----

  predicate Over(s: Session) {
    s.initiator.Finished? && s.responder.Completed?
  }

  // How many effective turns each party has taken.
  function Taken(s: Session): nat {
    (match s.initiator
     case AwaitingPage(_, _, totals) => 1 + 3 * totals.rounds
     case Replying(_, _, totals, _, _) => 2 + 3 * totals.rounds
     case AwaitingAck(_, _, totals, _, _) => 3 + 3 * totals.rounds
     case Finished(totals) => 1 + 3 * totals.rounds
     case _ => 0)
    +
    (match s.responder
     case Sending(_, _, _, totals) => 1 + 2 * totals.rounds
     case AwaitingReply(_, _, _, totals, _) => 2 + 2 * totals.rounds
     case Completed(totals) => 1 + 2 * totals.rounds
     case _ => 0)
  }

  function Moved(m: Message): nat {
    if m.SyncPage? then |m.changes| else 0
  }

  function InFlight(queue: seq<Message>): nat {
    if queue == [] then 0 else Moved(queue[0]) + InFlight(queue[1..])
  }

  function InitiatorTotals(i: Initiator): Totals {
    match i
    case AwaitingPage(_, _, totals) => totals
    case Replying(_, _, totals, _, _) => totals
    case AwaitingAck(_, _, totals, _, _) => totals
    case Finished(totals) => totals
    case _ => Totals(0, 0, 0, 0)
  }

  function ResponderTotals(r: Responder): Totals {
    match r
    case Sending(_, _, _, totals) => totals
    case AwaitingReply(_, _, _, totals, _) => totals
    case Completed(totals) => totals
    case _ => Totals(0, 0, 0, 0)
  }

  // Every change counted as sent is counted as received or still on its way.
  ghost predicate Balanced(s: Session) {
    && InitiatorTotals(s.initiator).sent == ResponderTotals(s.responder).received + InFlight(s.toB)
    && ResponderTotals(s.responder).sent == InitiatorTotals(s.initiator).received + InFlight(s.toA)
  }

  // The turns of a run that did something.
  function EffectiveTurns(s: Session, events: seq<Event>): nat
    decreases |events|
  {
    if events == [] then 0
    else
      var next := React(s, events[0]);
      (if (events[0].TurnA? || events[0].TurnB?) && next != s then 1 else 0) + EffectiveTurns(next, events[1..])
  }
}
