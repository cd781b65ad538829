// Paging toward a fixed target frontier: what one page does to the set of
// changes a peer still lacks.
module Gaps {
  import opened Wrappers
  import opened Ids
  import opened Changes
  import opened ReplicaState

  // A log that only grew.
  ghost predicate Extends(later: State, st: State) {
    && later.id == st.id && later.space == st.space
    && (forall id :: id in st.changes ==> id in later.changes && later.changes[id] == st.changes[id])
    && (forall name, schema: U64 :: Registered(st.schemas, name, schema) ==> Registered(later.schemas, name, schema))
  }

  lemma ExtendsFrontier(later: State, st: State)
    requires Inv(st) && Inv(later) && Extends(later, st)
    ensures Covers(later.frontier, st.frontier)
  {
    FrontierGrows(st.frontier, st.changes.Keys, later.frontier, later.changes.Keys);
  }

  lemma CoversTransitive(f: Frontier, g: Frontier, h: Frontier)
    requires Covers(f, g) && Covers(g, h)
    ensures Covers(f, h)
  {
    forall r: ReplicaId ensures Get(h, r) <= Get(f, r) {
      assert Get(h, r) <= Get(g, r) <= Get(f, r);
    }
  }

  // Everything up to a captured frontier is held, so later growth adds nothing
  // to a gap toward it.
  lemma GapFixed(later: State, st: State, peer: Frontier, target: Frontier)
    requires Inv(st) && Inv(later) && Extends(later, st)
    requires Covers(st.frontier, target)
    ensures Gap(later.changes.Keys, peer, target) == Gap(st.changes.Keys, peer, target)
  {
    hide LogSound, DocumentsExact, CounterExact, ClockDominates;
    forall id | id in Gap(later.changes.Keys, peer, target) ensures id in st.changes {
      assert Get(target, id.replica) <= Get(st.frontier, id.replica);
      assert ContiguousAt(st.frontier, st.changes.Keys, id.replica);
    }
  }

  lemma GapHeld(ids: set<ChangeId>, peer: Frontier, target: Frontier)
    ensures Gap(ids, peer, target) <= ids
  {}

  lemma KeptBy(later: State, st: State)
    requires Extends(later, st)
    ensures forall id :: id in st.changes ==> id in later.changes && later.changes[id] == st.changes[id]
  {}

  lemma PageFixed(later: State, st: State, peer: Frontier, target: Frontier, limit: U64)
    requires Inv(st) && Inv(later) && Extends(later, st)
    requires Covers(st.frontier, target)
    ensures MissingForTarget(later, peer, target, limit) == MissingForTarget(st, peer, target, limit)
  {
    hide Inv, Extends, Gap, PageOf;
    GapFixed(later, st, peer, target);
    var ids := Ascending(Gap(st.changes.Keys, peer, target));
    assert forall x :: x in ids ==> x in st.changes by {
      GapHeld(st.changes.Keys, peer, target);
    }
    KeptBy(later, st);
    SameChangesAt(later.changes, st.changes, ids);
  }

  lemma SameChangesAt(more: map<ChangeId, Change>, changes: map<ChangeId, Change>, ids: seq<ChangeId>)
    requires forall x :: x in ids ==> x in changes && x in more && more[x] == changes[x]
    ensures forall i :: 0 <= i < |ids| ==> ids[i] in more && ids[i] in changes
    ensures ChangesAt(more, ids) == ChangesAt(changes, ids)
  {
    assert forall i :: 0 <= i < |ids| ==> ids[i] in ids;
  }

  // A page is the least missing changes, at most `limit` of them.
  lemma PageShape(st: State, peer: Frontier, target: Frontier, limit: U64)
    requires limit < U64_MAX
    ensures var page, ids := MissingForTarget(st, peer, target, limit), Ascending(Gap(st.changes.Keys, peer, target));
            && |ids| == |Gap(st.changes.Keys, peer, target)|
            && |page.changes| == (if |ids| <= limit then |ids| else limit)
            && (page.hasMore <==> |ids| > limit)
            && (forall i :: 0 <= i < |ids| ==> ids[i] in Gap(st.changes.Keys, peer, target))
            && (forall i :: 0 <= i < |page.changes| ==> page.changes[i] == st.changes[ids[i]])
  {
    var ids := Ascending(Gap(st.changes.Keys, peer, target));
    assert forall i :: 0 <= i < |ids| ==> ids[i] in ids;
  }

  lemma PageHeld(st: State, peer: Frontier, target: Frontier, limit: U64, c: Change)
    requires LogSound(st) && limit < U64_MAX
    requires c in MissingForTarget(st, peer, target, limit).changes
    ensures Holds(st, c)
  {
    PageShape(st, peer, target, limit);
  }

  // The identities a page carries.
  ghost function Carried(page: Page): set<ChangeId> {
    set c | c in page.changes :: c.id
  }

  lemma CarriedIsPrefix(st: State, page: Page, ids: seq<ChangeId>, x: ChangeId)
    requires LogSound(st) && |page.changes| <= |ids|
    requires forall i :: 0 <= i < |page.changes| ==> ids[i] in st.changes && page.changes[i] == st.changes[ids[i]]
    ensures x in Carried(page) <==> x in ids[..|page.changes|]
  {
    var n := |page.changes|;
    if x in ids[..n] {
      var i :| 0 <= i < n && ids[i] == x;
      assert page.changes[i] in page.changes && page.changes[i].id == x;
    }
    if x in Carried(page) {
      var c :| c in page.changes && c.id == x;
      var i :| 0 <= i < n && page.changes[i] == c;
      assert ids[..n][i] == x;
    }
  }

  lemma CarriedSize(st: State, peer: Frontier, target: Frontier, limit: U64)
    requires LogSound(st) && limit < U64_MAX
    ensures var page := MissingForTarget(st, peer, target, limit);
            Carried(page) <= Gap(st.changes.Keys, peer, target) && |Carried(page)| == |page.changes|
  {
    PageShape(st, peer, target, limit);
    var page, ids := MissingForTarget(st, peer, target, limit), Ascending(Gap(st.changes.Keys, peer, target));
    var sent := ids[..|page.changes|];
    forall x ensures x in Carried(page) <==> x in sent {
      CarriedIsPrefix(st, page, ids, x);
    }
    SortedSize(sent, Carried(page));
    forall x | x in Carried(page) ensures x in Gap(st.changes.Keys, peer, target) {
      assert x in sent;
    }
  }

  lemma {:induction false} SortedSize(s: seq<ChangeId>, members: set<ChangeId>)
    requires Sorted(s)
    requires forall x :: x in members <==> x in s
    ensures |members| == |s|
  {
    AscendingUnique(s, Ascending(members));
  }

  // A page is contiguous with the peer's frontier: an identity on it has every
  // earlier missing one of its author on it too.
  lemma PageIsInitial(st: State, peer: Frontier, target: Frontier, limit: U64, id: ChangeId, k: U64)
    requires LogSound(st) && limit < U64_MAX
    requires id in Carried(MissingForTarget(st, peer, target, limit))
    requires Id(id.replica, k) in Gap(st.changes.Keys, peer, target) && k <= id.counter
    ensures Id(id.replica, k) in Carried(MissingForTarget(st, peer, target, limit))
  {
    PageShape(st, peer, target, limit);
    var page, ids := MissingForTarget(st, peer, target, limit), Ascending(Gap(st.changes.Keys, peer, target));
    var c :| c in page.changes && c.id == id;
    var i :| 0 <= i < |page.changes| && page.changes[i] == c;
    assert ids[i] == id;
    var j := NoLaterThan(ids, i, Id(id.replica, k));
    assert page.changes[j] in page.changes && page.changes[j].id == Id(id.replica, k);
  }

  lemma NoLaterThan(ids: seq<ChangeId>, i: nat, x: ChangeId) returns (j: nat)
    requires Sorted(ids) && i < |ids| && x in ids && !Before(ids[i], x)
    ensures j <= i && ids[j] == x
  {
    j :| 0 <= j < |ids| && ids[j] == x;
  }

  lemma RunReached(sender: State, receiver: State, peer: Frontier, target: Frontier, limit: U64, id: ChangeId, k: U64)
    requires LogSound(sender) && limit < U64_MAX
    requires ContiguousAt(sender.frontier, sender.changes.Keys, id.replica)
    requires ContiguousAt(receiver.frontier, receiver.changes.Keys, id.replica)
    requires Get(target, id.replica) <= Get(sender.frontier, id.replica)
    requires Get(peer, id.replica) <= Get(receiver.frontier, id.replica)
    requires Carried(MissingForTarget(sender, peer, target, limit)) <= receiver.changes.Keys
    requires id in Carried(MissingForTarget(sender, peer, target, limit))
    requires 1 <= k <= id.counter
    ensures Id(id.replica, k) in receiver.changes.Keys
  {
    hide MissingForTarget;
    if k > Get(peer, id.replica) {
      CarriedSize(sender, peer, target, limit);
      assert id in Gap(sender.changes.Keys, peer, target);
      assert Id(id.replica, k) in Gap(sender.changes.Keys, peer, target);
      PageIsInitial(sender, peer, target, limit, id, k);
    }
  }

  // After retaining a page, the receiver's frontier covers all of it.
  lemma PageAdvancesFrontier(sender: State, receiver: State, peer: Frontier, target: Frontier, limit: U64, id: ChangeId)
    requires Inv(sender) && Inv(receiver) && limit < U64_MAX
    requires Covers(sender.frontier, target)
    requires Covers(receiver.frontier, peer)
    requires Carried(MissingForTarget(sender, peer, target, limit)) <= receiver.changes.Keys
    requires id in Carried(MissingForTarget(sender, peer, target, limit))
    ensures !Missing(id, receiver.frontier)
  {
    var r := id.replica;
    assert ContiguousAt(sender.frontier, sender.changes.Keys, r);
    assert ContiguousAt(receiver.frontier, receiver.changes.Keys, r);
    assert Get(peer, r) <= Get(receiver.frontier, r);
    assert Get(target, r) <= Get(sender.frontier, r);
    forall k: U64 | 1 <= k <= id.counter ensures Id(r, k) in receiver.changes.Keys {
      RunReached(sender, receiver, peer, target, limit, id, k);
    }
    ReadingIsLargest(receiver.frontier, receiver.changes.Keys, r, id.counter);
  }

  function Budget(n: nat, limit: nat): nat {
    if n <= limit then 0 else n - limit
  }

  lemma GapShrinks(ids: set<ChangeId>, f: Frontier, g: Frontier, target: Frontier)
    requires Covers(g, f)
    ensures Gap(ids, g, target) <= Gap(ids, f, target)
    ensures |Gap(ids, g, target)| <= |Gap(ids, f, target)|
  {
    forall id | id in Gap(ids, g, target) ensures id in Gap(ids, f, target) {
      assert Get(f, id.replica) <= Get(g, id.replica);
    }
    FewerInSubset(Gap(ids, g, target), Gap(ids, f, target));
  }

  lemma Difference(after: set<ChangeId>, before: set<ChangeId>, carried: set<ChangeId>)
    requires after <= before - carried && carried <= before
    ensures |after| <= |before| - |carried|
  {
    FewerInSubset(after, before - carried);
  }

  // One page takes up to `limit` off the gap, and the page without a successor
  // closes it.
  lemma PageClosesGap(sender: State, receiver: State, peer: Frontier, target: Frontier, limit: U64)
    requires Inv(sender) && Inv(receiver) && limit < U64_MAX
    requires Covers(sender.frontier, target)
    requires Covers(receiver.frontier, peer)
    requires Carried(MissingForTarget(sender, peer, target, limit)) <= receiver.changes.Keys
    ensures var before := Gap(sender.changes.Keys, peer, target);
            var after := Gap(sender.changes.Keys, receiver.frontier, target);
            && |after| <= Budget(|before|, limit)
            && (MissingForTarget(sender, peer, target, limit).hasMore <==> |before| > limit)
  {
    hide MissingForTarget, Contiguous, DocumentsExact, CounterExact, ClockDominates, Covers, Missing;
    var page := MissingForTarget(sender, peer, target, limit);
    var before := Gap(sender.changes.Keys, peer, target);
    var after := Gap(sender.changes.Keys, receiver.frontier, target);
    PageShape(sender, peer, target, limit);
    CarriedSize(sender, peer, target, limit);
    GapShrinks(sender.changes.Keys, peer, receiver.frontier, target);
    forall id | id in after ensures id in before - Carried(page) {
      if id in Carried(page) {
        PageAdvancesFrontier(sender, receiver, peer, target, limit, id);
      }
    }
    Difference(after, before, Carried(page));
  }

  lemma EmptyGapCovers(sender: State, f: Frontier, target: Frontier)
    requires Inv(sender) && Covers(sender.frontier, target)
    requires Gap(sender.changes.Keys, f, target) == {}
    ensures Covers(f, target)
  {
    forall r: ReplicaId ensures Get(target, r) <= Get(f, r) {
      assert Get(target, r) <= Get(sender.frontier, r);
      assert ContiguousAt(sender.frontier, sender.changes.Keys, r);
      if Get(target, r) != 0 {
        assert Id(r, Get(target, r)) in sender.changes;
        assert Id(r, Get(target, r)) !in Gap(sender.changes.Keys, f, target);
      }
    }
  }
}
