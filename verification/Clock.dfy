// The hybrid logical clock.
module Clock {
  import opened Ids

  datatype Timestamp = Timestamp(physical: U64, logical: U32, replica: ReplicaId)

  datatype ClockState = ClockState(replica: ReplicaId, physical: U64, logical: U32)

  predicate PairLess(p: U64, l: U32, q: U64, m: U32) {
    p < q || (p == q && l < m)
  }

  predicate PairAtMost(p: U64, l: U32, q: U64, m: U32) {
    p < q || (p == q && l <= m)
  }

  function Saturate(l: U32): U32 {
    if l == U32_MAX then l else l + 1
  }

  function Larger(a: nat, b: nat): nat {
    if a >= b then a else b
  }

  function Stamp(clock: ClockState): Timestamp {
    Timestamp(clock.physical, clock.logical, clock.replica)
  }

  function Tick(clock: ClockState, now: U64): ClockState {
    if now > clock.physical then clock.(physical := now, logical := 0)
    else clock.(logical := Saturate(clock.logical))
  }

  function Observe(clock: ClockState, remote: Timestamp, now: U64): ClockState {
    var physical: U64 := Larger(Larger(clock.physical, remote.physical), now);
    var logical: U32 :=
      if physical == clock.physical && physical == remote.physical then
        Saturate(Larger(clock.logical, remote.logical))
      else if physical == clock.physical then Saturate(clock.logical)
      else if physical == remote.physical then Saturate(remote.logical)
      else 0;
    clock.(physical := physical, logical := logical)
  }

  // A saturated clock whose physical time is not behind the given instant.
  predicate Stuck(clock: ClockState, now: U64) {
    clock.logical == U32_MAX && now <= clock.physical
  }

  // Dominance is unconditional; a local event is strictly later than all
  // before it exactly when the clock is not stuck.
  lemma TickDominates(clock: ClockState, now: U64)
    ensures var t := Tick(clock, now);
            && PairAtMost(clock.physical, clock.logical, t.physical, t.logical)
            && now <= t.physical
            && t.replica == clock.replica
            && (PairLess(clock.physical, clock.logical, t.physical, t.logical) <==> !Stuck(clock, now))
  {}

  lemma ObserveDominates(clock: ClockState, remote: Timestamp, now: U64)
    ensures var t := Observe(clock, remote, now);
            && PairAtMost(clock.physical, clock.logical, t.physical, t.logical)
            && PairAtMost(remote.physical, remote.logical, t.physical, t.logical)
            && now <= t.physical
            && t.replica == clock.replica
            && (t.logical < U32_MAX ==>
                  && PairLess(clock.physical, clock.logical, t.physical, t.logical)
                  && PairLess(remote.physical, remote.logical, t.physical, t.logical))
  {}

  // A tick reads the greatest physical time it knows, starts the logical part over
  // when that advances, and otherwise is the least reading after the clock's, so
  // none is wasted; a stuck clock stays.
  lemma TickIsLeast(clock: ClockState, now: U64, p: U64, l: U32)
    ensures Tick(clock, now).physical == Larger(clock.physical, now)
    ensures now > clock.physical ==> Tick(clock, now).logical == 0
    ensures now <= p && PairLess(clock.physical, clock.logical, p, l) ==>
              PairAtMost(Tick(clock, now).physical, Tick(clock, now).logical, p, l)
    ensures Stuck(clock, now) ==> Tick(clock, now) == clock
  {}

  // So does an observation, of the least reading after both.
  lemma ObserveIsLeast(clock: ClockState, remote: Timestamp, now: U64, p: U64, l: U32)
    ensures var t := Observe(clock, remote, now);
            && t.physical == Larger(Larger(clock.physical, remote.physical), now)
            && (now > clock.physical && now > remote.physical ==> t.logical == 0)
            && (now <= p && PairLess(clock.physical, clock.logical, p, l) && PairLess(remote.physical, remote.logical, p, l) ==>
                  PairAtMost(t.physical, t.logical, p, l))
  {}

  class Clock {
    const replica: ReplicaId
    var physical: U64
    var logical: U32

    constructor (replica: ReplicaId)
      ensures View() == ClockState(replica, 0, 0)
    {
      this.replica, physical, logical := replica, 0, 0;
    }

    constructor Copy(clock: ClockState)
      ensures View() == clock
    {
      replica, physical, logical := clock.replica, clock.physical, clock.logical;
    }

    function View(): ClockState
      reads this
    {
      ClockState(replica, physical, logical)
    }

    // A local event: never earlier than the clock, strictly later unless stuck.
    method TickAt(now: U64) returns (t: Timestamp)
      modifies this
      ensures View() == Tick(old(View()), now) && t == Stamp(View())
      ensures PairAtMost(old(physical), old(logical), t.physical, t.logical)
      ensures PairLess(old(physical), old(logical), t.physical, t.logical) <==> !old(Stuck(View(), now))
      ensures t.physical == Larger(old(physical), now) && (now > old(physical) ==> t.logical == 0) && t.replica == replica
    {
      if now > physical {
        physical := now;
        logical := 0;
      } else {
        logical := Saturate(logical);
      }
      t := Timestamp(physical, logical, replica);
    }

    method ObserveAt(remote: Timestamp, now: U64)
      modifies this
      ensures View() == Observe(old(View()), remote, now)
      ensures PairAtMost(remote.physical, remote.logical, physical, logical)
      ensures PairAtMost(old(physical), old(logical), physical, logical)
      ensures physical == Larger(Larger(old(physical), remote.physical), now)
      ensures now > old(physical) && now > remote.physical ==> logical == 0
    {
      var p: U64 := Larger(Larger(physical, remote.physical), now);
      var l: U32 := 0;
      if p == physical && p == remote.physical {
        l := Saturate(Larger(logical, remote.logical));
      } else if p == physical {
        l := Saturate(logical);
      } else if p == remote.physical {
        l := Saturate(remote.logical);
      }
      physical := p;
      logical := l;
    }
  }
}
