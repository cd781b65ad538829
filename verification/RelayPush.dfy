// Publishing history to a mailbox in bounded batches.
module RelayPush {
  import opened Ids
  import opened Changes
  import opened MailboxState

  function Flatten(batches: seq<seq<Envelope>>): seq<Envelope> {
    if batches == [] then [] else batches[0] + Flatten(batches[1..])
  }

  lemma {:induction false} FlattenAppend(batches: seq<seq<Envelope>>, last: seq<Envelope>)
    ensures Flatten(batches + [last]) == Flatten(batches) + last
  {
    if batches == [] {
      assert [last][1..] == [];
      assert Flatten([last]) == last + [];
    } else {
      assert (batches + [last])[1..] == batches[1..] + [last];
      FlattenAppend(batches[1..], last);
      assert batches[0] + (Flatten(batches[1..]) + last) == batches[0] + Flatten(batches[1..]) + last;
    }
  }

  lemma {:induction false} SizeAppend(batch: seq<Envelope>, e: Envelope)
    ensures Size(batch + [e]) == Size(batch) + |e.ciphertext|
  {
    if batch == [] {
      assert batch + [e] == [e];
    } else {
      assert (batch + [e])[1..] == batch[1..] + [e];
      SizeAppend(batch[1..], e);
    }
  }

  // The next envelope does not fit beside what the batch holds.
  predicate Full(batch: seq<Envelope>, e: Envelope) {
    |batch| == MAX_RELAY_BATCH || Size(batch) + |e.ciphertext| > MAX_RELAY_BATCH_BYTES
  }

  predicate AllAccepted(batches: seq<seq<Envelope>>, now: U64) {
    forall b :: b in batches ==> WithinBounds(Push(b), now)
  }

  predicate FullBefore(batch: seq<Envelope>, next: seq<Envelope>) {
    next != [] && Full(batch, next[0])
  }

  // No batch ends before it is full.
  predicate Greedy(batches: seq<seq<Envelope>>) {
    |batches| >= 2 ==> FullBefore(batches[0], batches[1]) && Greedy(batches[1..])
  }

  lemma {:induction false} GreedyAppend(batches: seq<seq<Envelope>>, last: seq<Envelope>)
    requires Greedy(batches) && (batches != [] ==> FullBefore(batches[|batches| - 1], last))
    ensures Greedy(batches + [last])
  {
    hide FullBefore;
    if |batches| == 1 {
      assert (batches + [last])[1..] == [last];
    } else if batches != [] {
      assert (batches + [last])[1..] == batches[1..] + [last];
      GreedyAppend(batches[1..], last);
    }
  }

  // One batch being filled.
  ghost predicate Filling(batch: seq<Envelope>, now: U64) {
    && |batch| <= MAX_RELAY_BATCH && Size(batch) <= MAX_RELAY_BATCH_BYTES
    && forall e :: e in batch ==> ValidEnvelope(e, now)
  }

  lemma FillStep(batch: seq<Envelope>, e: Envelope, now: U64)
    requires Filling(batch, now) && ValidEnvelope(e, now) && (batch == [] || !Full(batch, e))
    ensures Filling(batch + [e], now) && Size(batch + [e]) == Size(batch) + |e.ciphertext|
  {
    SizeAppend(batch, e);
  }

  lemma CloseBatch(batches: seq<seq<Envelope>>, batch: seq<Envelope>, now: U64)
    requires AllAccepted(batches, now) && Greedy(batches) && Filling(batch, now) && batch != []
    requires batches != [] ==> FullBefore(batches[|batches| - 1], batch)
    ensures AllAccepted(batches + [batch], now) && Greedy(batches + [batch])
    ensures Flatten(batches + [batch]) == Flatten(batches) + batch
  {
    hide ValidEnvelope, FullBefore;
    FlattenAppend(batches, batch);
    GreedyAppend(batches, batch);
  }

  // The batches carry exactly the history in order, and each is a request that
  // the relay's bounds admit.
  method Batches(envelopes: seq<Envelope>, now: U64) returns (batches: seq<seq<Envelope>>)
    requires forall e :: e in envelopes ==> ValidEnvelope(e, now)
    ensures Flatten(batches) == envelopes
    ensures AllAccepted(batches, now) && Greedy(batches)
  {
    hide ValidEnvelope, Filling, AllAccepted, Greedy, Size;
    batches := [];
    var batch, bytes, i := [], 0, 0;
    Beginning(now);
    while i < |envelopes|
      invariant 0 <= i <= |envelopes|
      invariant bytes == Size(batch) && Filling(batch, now)
      invariant Flatten(batches) + batch == envelopes[..i]
      invariant AllAccepted(batches, now) && Greedy(batches)
      invariant batches != [] ==> batch != [] && FullBefore(batches[|batches| - 1], batch)
    {
      hide Flatten, FullBefore, Full;
      var e := envelopes[i];
      assert e in envelopes;
      if batch != [] && (|batch| == MAX_RELAY_BATCH || bytes + |e.ciphertext| > MAX_RELAY_BATCH_BYTES) {
        CloseBatch(batches, batch, now);
        OverflowIsFull(batch, e);
        batches := batches + [batch];
        batch, bytes := [], 0;
        Beginning(now);
      } else {
        FitsBeside(batches, batch, e);
      }
      FillStep(batch, e, now);
      TakeOneMore(envelopes, i, Flatten(batches), batch);
      bytes := bytes + |e.ciphertext|;
      batch := batch + [e];
      i := i + 1;
    }
    assert envelopes[..i] == envelopes;
    if batch != [] {
      CloseBatch(batches, batch, now);
      batches := batches + [batch];
    } else {
      assert Flatten(batches) + [] == Flatten(batches);
    }
  }

  lemma Beginning(now: U64)
    ensures Filling([], now) && Size([]) == 0 && AllAccepted([], now) && Greedy([])
  {}

  lemma OverflowIsFull(batch: seq<Envelope>, e: Envelope)
    requires |batch| == MAX_RELAY_BATCH || Size(batch) + |e.ciphertext| > MAX_RELAY_BATCH_BYTES
    ensures FullBefore(batch, [] + [e])
  {}

  lemma FitsBeside(batches: seq<seq<Envelope>>, batch: seq<Envelope>, e: Envelope)
    requires batch == [] || !(|batch| == MAX_RELAY_BATCH || Size(batch) + |e.ciphertext| > MAX_RELAY_BATCH_BYTES)
    ensures batch == [] || !Full(batch, e)
    ensures batches != [] && batch != [] && FullBefore(batches[|batches| - 1], batch) ==> FullBefore(batches[|batches| - 1], batch + [e])
  {}

  lemma TakeOneMore(all: seq<Envelope>, i: nat, before: seq<Envelope>, batch: seq<Envelope>)
    requires i < |all| && before + batch == all[..i]
    ensures before + (batch + [all[i]]) == all[..i + 1]
  {
    assert before + (batch + [all[i]]) == (before + batch) + [all[i]];
  }
}
