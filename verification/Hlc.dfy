/** The hybrid logical clock and the total order on write stamps. */
module Clock {
  import opened Bytes

  const PEER_ID_LEN := 32
  const U32_MAX := 0xFFFF_FFFF

  type PeerId = p: seq<byte> | |p| == 32
    witness [0, 0, 0, 0, 0, 0, 0, 0, 0, 0, 0, 0, 0, 0, 0, 0, 0, 0, 0, 0, 0, 0, 0, 0, 0, 0, 0, 0, 0, 0, 0, 0]

  type u32 = n: int | 0 <= n <= 0xFFFF_FFFF

  datatype Hlc = Hlc(physical: nat, logical: u32)

  datatype Stamp = Stamp(hlc: Hlc, peer: PeerId)

  function Max(a: nat, b: nat): nat {
    if a >= b then a else b
  }

  /** `logical + 1` as the hardware adds it. */
  function Bump(logical: u32): u32 {
    if logical == U32_MAX then 0 else logical + 1
  }

  predicate HlcLess(a: Hlc, b: Hlc) {
    a.physical < b.physical || (a.physical == b.physical && a.logical < b.logical)
  }

  predicate HlcAtMost(a: Hlc, b: Hlc) {
    a == b || HlcLess(a, b)
  }

  /** The number a peer id spells; `PeerOrder` ties it to the derived array order. */
  function Rank(p: PeerId): nat {
    FromBE(p)
  }

  lemma PeerOrder(a: PeerId, b: PeerId)
    ensures LexLess(a, b) <==> Rank(a) < Rank(b)
    ensures a == b <==> Rank(a) == Rank(b)
  {
    LexIsNumeric(a, b);
  }

  predicate StampLess(a: Stamp, b: Stamp) {
    HlcLess(a.hlc, b.hlc) || (a.hlc == b.hlc && Rank(a.peer) < Rank(b.peer))
  }

  predicate StampAtMost(a: Stamp, b: Stamp) {
    a == b || StampLess(a, b)
  }

  /** Stamps are totally ordered. */
  lemma StampTotal(a: Stamp, b: Stamp)
    ensures StampLess(a, b) || a == b || StampLess(b, a)
    ensures !(StampLess(a, b) && StampLess(b, a))
  {
    PeerOrder(a.peer, b.peer);
  }

  /** The derived order, written out: physical time, then the counter, then the bytes of the peer id. */
  lemma StampOrder(a: Stamp, b: Stamp)
    ensures StampLess(a, b) <==>
      || a.hlc.physical < b.hlc.physical
      || (a.hlc.physical == b.hlc.physical && a.hlc.logical < b.hlc.logical)
      || (a.hlc.physical == b.hlc.physical && a.hlc.logical == b.hlc.logical && LexLess(a.peer, b.peer))
  {
    PeerOrder(a.peer, b.peer);
  }

  function Ticked(prev: Hlc, wall: nat): Hlc {
    var physical := Max(prev.physical, wall);
    Hlc(physical, if physical == prev.physical then Bump(prev.logical) else 0)
  }

  function Observed(prev: Hlc, remote: Hlc, wall: nat): Hlc {
    var physical := Max(Max(prev.physical, remote.physical), wall);
    Hlc(physical,
        if physical == prev.physical && physical == remote.physical then
          Bump(Max(prev.logical, remote.logical))
        else if physical == prev.physical then Bump(prev.logical)
        else if physical == remote.physical then Bump(remote.logical)
        else 0)
  }

  /** The counter of the reading that the next tick continues is exhausted. */
  predicate TickOverflows(prev: Hlc, wall: nat) {
    wall <= prev.physical && prev.logical == U32_MAX
  }

  predicate ObserveOverflows(prev: Hlc, remote: Hlc, wall: nat) {
    var physical := Max(Max(prev.physical, remote.physical), wall);
    || (physical == prev.physical && prev.logical == U32_MAX)
    || (physical == remote.physical && remote.logical == U32_MAX)
  }

  /** A tick moves the clock strictly forward exactly when the 32-bit counter has room. */
  lemma TickAdvances(prev: Hlc, wall: nat)
    ensures HlcLess(prev, Ticked(prev, wall)) <==> !TickOverflows(prev, wall)
    ensures wall <= Ticked(prev, wall).physical
  {
  }

  /** Observing moves the clock past both readings exactly when the counter has room. */
  lemma ObserveAdvances(prev: Hlc, remote: Hlc, wall: nat)
    ensures HlcLess(prev, Observed(prev, remote, wall)) && HlcLess(remote, Observed(prev, remote, wall))
       <==> !ObserveOverflows(prev, remote, wall)
    ensures wall <= Observed(prev, remote, wall).physical
  {
  }

  /**
   * A tick gives the lowest reading that is above the last one and not behind the wall clock; if the counter is
   * exhausted it starts again at zero without moving the physical part.
   */
  lemma TickIsLeast(prev: Hlc, wall: nat, h: Hlc)
    ensures !TickOverflows(prev, wall) && HlcLess(prev, h) && wall <= h.physical ==> HlcAtMost(Ticked(prev, wall), h)
    ensures TickOverflows(prev, wall) ==> Ticked(prev, wall) == Hlc(prev.physical, 0)
  {
  }

  /** Likewise for a remote stamp: the lowest reading above both clocks and not behind the wall clock. */
  lemma ObserveIsLeast(prev: Hlc, remote: Hlc, wall: nat, h: Hlc)
    ensures !ObserveOverflows(prev, remote, wall) && HlcLess(prev, h) && HlcLess(remote, h) && wall <= h.physical ==>
      HlcAtMost(Observed(prev, remote, wall), h)
    ensures ObserveOverflows(prev, remote, wall) ==>
      Observed(prev, remote, wall) == Hlc(Max(prev.physical, remote.physical), 0)
  {
  }

  class HybridClock {
    var physical: nat
    var logical: u32

    function Now(): Hlc
      reads this
    {
      Hlc(physical, logical)
    }

    constructor ()
      ensures Now() == Hlc(0, 0)
    {
      physical, logical := 0, 0;
    }

    method Tick(wall: nat) returns (now: Hlc)
      modifies this
      ensures now == Now() == Ticked(old(Now()), wall)
    {
      var before := physical;
      physical := Max(before, wall);
      logical := if physical == before then Bump(logical) else 0;
      now := Now();
    }

    method Observe(remote: Hlc, wall: nat) returns (now: Hlc)
      modifies this
      ensures now == Now() == Observed(old(Now()), remote, wall)
    {
      var before := Now();
      physical := Max(Max(before.physical, remote.physical), wall);
      if physical == before.physical && physical == remote.physical {
        logical := Bump(Max(before.logical, remote.logical));
      } else if physical == before.physical {
        logical := Bump(before.logical);
      } else if physical == remote.physical {
        logical := Bump(remote.logical);
      } else {
        logical := 0;
      }
      now := Now();
    }
  }
}
