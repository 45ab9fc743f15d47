/** How a cluster's checksum picks one peer out of the sorted peer list:
    pkg/api/controllers/usercontrollers/usercontroller.go. */
module Sharding {
  import opened GoInt

  const MAX_UINT32: int := 0xFFFF_FFFF

  type uint32 = x: int | 0 <= x <= MAX_UINT32

  /** The largest checksum is folded onto its neighbour, so that the quotient stays below the peer count. */
  function Adjusted(checksum: uint32): int {
    if checksum == MAX_UINT32 then checksum - 1 else checksum
  }

  /** `int(ck) * len(peers.IDs) / math.MaxUint32`, in 64-bit arithmetic. */
  function Scaled(checksum: uint32, peers: nat): int {
    TruncDiv(Wrap64(Adjusted(checksum) * peers), MAX_UINT32)
  }

  lemma DivIs(x: int, d: int, q: int)
    requires d > 0 && q * d <= x < (q + 1) * d
    ensures x / d == q
  {
    var r := x / d;
    assert r * d <= x < (r + 1) * d;
    if r < q {
      MulMonotone(r + 1, q, d);
    } else if q < r {
      MulMonotone(q + 1, r, d);
    }
  }

  /** The product never leaves the 64-bit range, so the quotient is the mathematical one. */
  lemma ProductFits(checksum: uint32, peers: nat)
    requires peers < 0x8000_0000
    ensures 0 <= Adjusted(checksum) * peers < TWO_POW_63
    ensures Scaled(checksum, peers) == Adjusted(checksum) * peers / MAX_UINT32
  {
    var product := Adjusted(checksum) * peers;
    MulMonotone(0, Adjusted(checksum), peers);
    MulMonotone(Adjusted(checksum), MAX_UINT32 - 1, peers);
    assert product <= (MAX_UINT32 - 1) * 0x7FFF_FFFF;
    DivIs(product + TWO_POW_63, 2 * TWO_POW_63, 0);
  }

  /** The quotient is always a valid index into the peer list. */
  lemma ScaledInRange(checksum: uint32, peers: nat)
    requires 0 < peers < 0x8000_0000
    ensures 0 <= Scaled(checksum, peers) < peers
  {
    ProductFits(checksum, peers);
    MulMonotone(Adjusted(checksum), MAX_UINT32 - 1, peers);
    var q := Adjusted(checksum) * peers / MAX_UINT32;
    if peers <= q {
      MulMonotone(peers, q, MAX_UINT32);
    }
  }

  /** A peer's share is an interval of checksums: the quotient never falls as the checksum grows. */
  lemma ScaledMonotone(low: uint32, high: uint32, peers: nat)
    requires low <= high && peers < 0x8000_0000
    ensures Scaled(low, peers) <= Scaled(high, peers)
  {
    ProductFits(low, peers);
    ProductFits(high, peers);
    MulMonotone(Adjusted(low), Adjusted(high), peers);
    var a, b := Adjusted(low) * peers, Adjusted(high) * peers;
    assert a / MAX_UINT32 <= b / MAX_UINT32;
  }

  /** The checksums the peer at `index` answers for. */
  ghost function Share(index: int, peers: nat): set<int> {
    set c | 0 <= c <= MAX_UINT32 && Scaled(c, peers) == index
  }

  /** The integers from `low` up to, not including, `high`. */
  ghost function Interval(low: int, high: int): set<int>
    decreases high - low
  {
    if high <= low then {} else Interval(low, high - 1) + {high - 1}
  }

  lemma {:induction false} IntervalSize(low: int, high: int)
    requires low <= high
    ensures |Interval(low, high)| == high - low
    ensures forall c :: c in Interval(low, high) <==> low <= c < high
    decreases high - low
  {
    if low < high {
      IntervalSize(low, high - 1);
    }
  }

  /** The first checksum that falls to the peer at `index`: the smallest `c` with `c * peers >= index * MAX_UINT32`. */
  function Start(index: int, peers: nat): int
    requires peers > 0
  {
    (index * MAX_UINT32 + peers - 1) / peers
  }

  lemma StartBounds(index: int, peers: nat)
    requires peers > 0
    ensures index * MAX_UINT32 <= Start(index, peers) * peers < index * MAX_UINT32 + peers
  {
    var x := index * MAX_UINT32 + peers - 1;
    assert x / peers * peers <= x < x / peers * peers + peers;
  }

  lemma QuotientIs(product: int, index: int)
    ensures product / MAX_UINT32 == index <==> index * MAX_UINT32 <= product < (index + 1) * MAX_UINT32
  {
  }

  /** `Start` is the threshold it is described as. */
  lemma StartThreshold(c: int, index: int, peers: nat)
    requires peers > 0
    ensures Start(index, peers) <= c <==> index * MAX_UINT32 <= c * peers
  {
    StartBounds(index, peers);
    if Start(index, peers) <= c {
      MulMonotone(Start(index, peers), c, peers);
    } else {
      MulMonotone(c + 1, Start(index, peers), peers);
    }
  }

  /** Below the largest checksum, a peer's share is exactly one interval. */
  lemma ScaledInterval(c: int, index: int, peers: nat)
    requires 0 < peers < 0x8000_0000 && 0 <= c < MAX_UINT32
    ensures Scaled(c, peers) == index <==> Start(index, peers) <= c < Start(index + 1, peers)
  {
    ProductFits(c, peers);
    QuotientIs(c * peers, index);
    StartThreshold(c, index, peers);
    StartThreshold(c, index + 1, peers);
  }

  lemma LastStartIsTotal(peers: nat)
    requires 0 < peers
    ensures Start(peers, peers) == MAX_UINT32
  {
    assert peers * MAX_UINT32 + peers - 1 == MAX_UINT32 * peers + (peers - 1);
    DivIs(peers * MAX_UINT32 + peers - 1, peers, MAX_UINT32);
  }

  /** Consecutive starts are `MAX_UINT32 / peers` apart, or one more; the last stretch is the short one. */
  lemma Stride(index: int, peers: nat)
    requires 0 < peers && 0 <= index < peers
    ensures MAX_UINT32 / peers <= Start(index + 1, peers) - Start(index, peers) <= MAX_UINT32 / peers + 1
    ensures index == peers - 1 ==> Start(index + 1, peers) - Start(index, peers) == MAX_UINT32 / peers
  {
    StartBounds(index, peers);
    StartBounds(index + 1, peers);
    var q := MAX_UINT32 / peers;
    var d := Start(index + 1, peers) - Start(index, peers);
    assert q * peers <= MAX_UINT32 < (q + 1) * peers;
    assert d * peers == Start(index + 1, peers) * peers - Start(index, peers) * peers;
    assert MAX_UINT32 - peers < d * peers < MAX_UINT32 + peers;
    if d < q {
      MulMonotone(d + 1, q, peers);
    } else if d > q + 1 {
      MulMonotone(q + 2, d, peers);
    }
    if index == peers - 1 && d == q + 1 {
      LastStartIsTotal(peers);
      assert false;
    }
  }

  lemma StartRange(index: int, peers: nat)
    requires 0 < peers && 0 <= index <= peers
    ensures 0 <= Start(index, peers) <= MAX_UINT32
  {
    StartBounds(index, peers);
    LastStartIsTotal(peers);
    StartBounds(peers, peers);
    MulMonotone(index, peers, MAX_UINT32);
    if Start(index, peers) < 0 {
      MulMonotone(Start(index, peers), -1, peers);
    } else if Start(index, peers) > MAX_UINT32 {
      MulMonotone(MAX_UINT32 + 1, Start(index, peers), peers);
    }
  }

  /** The folded largest checksum falls to the last peer. */
  lemma TopChecksum(index: int, peers: nat)
    requires 0 < peers < 0x8000_0000 && 0 <= index < peers
    ensures MAX_UINT32 in Share(index, peers) <==> index == peers - 1
  {
    ProductFits(MAX_UINT32, peers);
    var product := (MAX_UINT32 - 1) * peers;
    assert product == (peers - 1) * MAX_UINT32 + (MAX_UINT32 - peers);
    DivIs(product, MAX_UINT32, peers - 1);
  }

  /** Every peer answers for `MAX_UINT32 / peers` or one more of the 2^32 checksums. */
  lemma ShareSize(index: int, peers: nat)
    requires 0 < peers < 0x8000_0000 && 0 <= index < peers
    ensures MAX_UINT32 / peers <= |Share(index, peers)| <= MAX_UINT32 / peers + 1
  {
    var low, high := Start(index, peers), Start(index + 1, peers);
    Stride(index, peers);
    StartRange(index, peers);
    StartRange(index + 1, peers);
    IntervalSize(low, high);
    forall c | 0 <= c < MAX_UINT32 ensures c in Share(index, peers) <==> c in Interval(low, high) {
      ScaledInterval(c, index, peers);
    }
    TopChecksum(index, peers);
    if index == peers - 1 {
      assert Share(index, peers) == Interval(low, high) + {MAX_UINT32};
    } else {
      assert Share(index, peers) == Interval(low, high);
    }
  }

  /** No peer answers for more than one checksum more than another. */
  lemma SharesBalanced(i: int, j: int, peers: nat)
    requires 0 < peers < 0x8000_0000 && 0 <= i < peers && 0 <= j < peers
    ensures -1 <= |Share(i, peers)| - |Share(j, peers)| <= 1
  {
    ShareSize(i, peers);
    ShareSize(j, peers);
  }
}
