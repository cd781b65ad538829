// Replicated changes, their total order, and contiguous frontiers.
module Changes {
  import opened Ids
  import opened Clock

  type Bytes = seq<bv8>
  type Name = Bytes
  type SpaceId = nat
  type DocumentId = nat
  type ChangeId = Id

  datatype Operation =
    | Put(collection: Name, document: DocumentId, schema: U64, payload: Bytes)
    | Delete(collection: Name, document: DocumentId, schema: U64)

  datatype Change = Change(id: ChangeId, space: SpaceId, timestamp: Timestamp, operation: Operation)

  datatype DocumentKey = DocumentKey(collection: Name, document: DocumentId)

  function KeyOf(op: Operation): DocumentKey {
    DocumentKey(op.collection, op.document)
  }

  // ---- the order that decides the winner: timestamp, then change identity ----

  predicate TimestampLess(a: Timestamp, b: Timestamp) {
    || PairLess(a.physical, a.logical, b.physical, b.logical)
    || (a.physical == b.physical && a.logical == b.logical && a.replica < b.replica)
  }

  predicate Later(t: Timestamp, id: ChangeId, u: Timestamp, other: ChangeId) {
    TimestampLess(u, t) || (u == t && Before(other, id))
  }

  // ---- frontiers ----

  type Frontier = map<ReplicaId, U64>

  function Get(f: Frontier, r: ReplicaId): U64 {
    if r in f then f[r] else 0
  }

  // Zero is represented by absence.
  function Set(f: Frontier, r: ReplicaId, n: U64): Frontier {
    if n == 0 then f - {r} else f[r := n]
  }

  ghost predicate Covers(f: Frontier, g: Frontier) {
    forall r: ReplicaId :: Get(g, r) <= Get(f, r)
  }

  ghost predicate Canonical(f: Frontier) {
    forall r :: r in f ==> f[r] != 0
  }

  lemma SameReadings(f: Frontier, g: Frontier)
    requires Canonical(f) && Canonical(g)
    requires forall r: ReplicaId :: Get(f, r) == Get(g, r)
    ensures f == g
  {
    forall r: ReplicaId ensures r in f <==> r in g {
      assert Get(f, r) == Get(g, r);
    }
    forall r | r in f ensures f[r] == g[r] {
      assert Get(f, r) == Get(g, r);
    }
  }

  ghost predicate Run(ids: set<ChangeId>, r: ReplicaId, n: U64) {
    forall k: U64 :: 1 <= k <= n ==> Id(r, k) in ids
  }

  // The reading at an author is exactly the largest n with 1..n all present.
  ghost predicate ContiguousAt(f: Frontier, ids: set<ChangeId>, r: ReplicaId) {
    && Run(ids, r, Get(f, r))
    && (Get(f, r) < U64_MAX ==> Id(r, Get(f, r) + 1) !in ids)
  }

  ghost predicate Contiguous(f: Frontier, ids: set<ChangeId>) {
    && Canonical(f)
    && forall r: ReplicaId :: ContiguousAt(f, ids, r)
  }

  lemma ReadingIsLargest(f: Frontier, ids: set<ChangeId>, r: ReplicaId, n: U64)
    requires ContiguousAt(f, ids, r)
    requires Run(ids, r, n)
    ensures n <= Get(f, r)
  {
    if Get(f, r) < U64_MAX {
      var next: U64 := Get(f, r) + 1;
      assert Id(r, next) !in ids;
    }
  }

  lemma FrontierUnique(f: Frontier, g: Frontier, ids: set<ChangeId>)
    requires Contiguous(f, ids) && Contiguous(g, ids)
    ensures f == g
  {
    forall r: ReplicaId ensures Get(f, r) == Get(g, r) {
      assert ContiguousAt(f, ids, r) && ContiguousAt(g, ids, r);
      ReadingIsLargest(f, ids, r, Get(g, r));
      ReadingIsLargest(g, ids, r, Get(f, r));
    }
    SameReadings(f, g);
  }

  lemma FrontierGrows(f: Frontier, ids: set<ChangeId>, g: Frontier, more: set<ChangeId>)
    requires Contiguous(f, ids) && Contiguous(g, more) && ids <= more
    ensures Covers(g, f)
  {
    forall r: ReplicaId ensures Get(f, r) <= Get(g, r) {
      assert ContiguousAt(f, ids, r) && ContiguousAt(g, more, r);
      ReadingIsLargest(g, more, r, Get(f, r));
    }
  }

  // The first counter after `from` that breaks the run.
  function RunEnd(ids: set<ChangeId>, r: ReplicaId, from: U64): (n: U64)
    ensures from <= n
    ensures forall k: U64 :: from < k <= n ==> Id(r, k) in ids
    ensures n < U64_MAX ==> Id(r, n + 1) !in ids
    decreases U64_MAX - from
  {
    if from < U64_MAX && Id(r, from + 1) in ids then
      var n := RunEnd(ids, r, from + 1);
      n
    else from
  }
}
