/**
 * The search for a free passive port (net_create_listening_socket_range in server/src/network.c), in 16-bit arithmetic.
 */
module PassivePorts {
  import opened Common

  /** Assignment to a uint16_t. */
  function U16(n: int): (r: int)
    ensures 0 <= r < 0x1_0000
  {
    n % 0x1_0000
  }

  /** The port tried in round i. */
  function PortAt(portMin: int, rangeSize: int, startOffset: int, i: int): int
    requires rangeSize > 0
  {
    portMin + (startOffset + i) % rangeSize
  }

  /**
   * The size computed in 16 bits is the true size for every range but the full one, for which it is zero and the
   * remainder undefined.
   */
  lemma RangeSizeExactIff(portMin: int, portMax: int)
    requires 0 <= portMin <= portMax < 0x1_0000
    ensures U16(portMax - portMin + 1) == portMax - portMin + 1 <==> !(portMin == 0 && portMax == 0xFFFF)
    ensures U16(portMax - portMin + 1) == 0 <==> portMin == 0 && portMax == 0xFFFF
  {
    if portMin == 0 && portMax == 0xFFFF { assert 0x1_0000 % 0x1_0000 == 0; }
  }

  lemma Wraps(n: int, startOffset: int, i: int)
    requires 0 <= startOffset < n && 0 <= i < n
    ensures (startOffset + i) % n == if startOffset + i < n then startOffset + i else startOffset + i - n
  {
    if startOffset + i >= n {
      assert startOffset + i == n + (startOffset + i - n);
      Shifted(n, startOffset + i - n);
    } else {
      Small(n, startOffset + i);
    }
  }

  lemma Small(n: int, k: int)
    requires 0 <= k < n
    ensures k % n == k
  {
  }

  lemma Shifted(n: int, k: int)
    requires 0 <= k < n
    ensures (n + k) % n == k
  {
    var q := (n + k) / n;
    assert n + k == q * n + (n + k) % n;
    Multiple(q - 1, n);
    assert (q - 1) * n == q * n - n;
  }

  lemma Multiple(a: int, n: int)
    requires n > 0
    ensures a >= 1 ==> a * n >= n
    ensures a <= -1 ==> a * n <= -n
    ensures a == 0 ==> a * n == 0
  {
    if a >= 1 { assert (a - 1) * n >= 0; }
    if a <= -1 { assert (-a - 1) * n >= 0; }
  }

  /** Different rounds try different ports. */
  lemma RoundsDiffer(portMin: int, n: int, startOffset: int, i: int, j: int)
    requires 0 <= startOffset < n && 0 <= i < j < n
    ensures PortAt(portMin, n, startOffset, i) != PortAt(portMin, n, startOffset, j)
  {
    Wraps(n, startOffset, i);
    Wraps(n, startOffset, j);
  }

  /** Every port of the range has its round. */
  lemma EveryPortHasARound(portMin: int, n: int, startOffset: int, port: int)
    requires 0 <= startOffset < n && portMin <= port < portMin + n
    ensures exists i | 0 <= i < n :: PortAt(portMin, n, startOffset, i) == port
  {
    var k := port - portMin;
    var i := if k >= startOffset then k - startOffset else k - startOffset + n;
    Wraps(n, startOffset, i);
    assert PortAt(portMin, n, startOffset, i) == port;
  }

  ghost predicate Distinct(tried: seq<int>) { forall i, j | 0 <= i < j < |tried| :: tried[i] != tried[j] }

  /**
   * A port that can be bound, searching the range from a random offset; `tried` are the ports it asked for, in order.
   */
  method CreateListeningSocketRange(portMin: int, portMax: int, random: nat, canBind: int -> bool)
    returns (found: Option<int>, ghost tried: seq<int>)
    requires 0 <= portMin < 0x1_0000 && 0 <= portMax < 0x1_0000 && !(portMin == 0 && portMax == 0xFFFF)
    ensures Distinct(tried) && forall p | p in tried :: portMin <= p <= portMax
    ensures found.Some? <==> exists p :: portMin <= p <= portMax && canBind(p)
    ensures found.Some? ==> portMin <= found.value <= portMax && canBind(found.value)
    ensures found.Some? ==>
              tried != [] && found.value == tried[|tried| - 1] && forall i | 0 <= i < |tried| - 1 :: !canBind(tried[i])
    ensures found.None? ==> forall p | portMin <= p <= portMax :: p in tried
    ensures |tried| <= if portMin <= portMax then portMax - portMin + 1 else 0
  {
    tried := [];
    if portMin > portMax { return None, tried; }
    RangeSizeExactIff(portMin, portMax);
    var rangeSize := U16(portMax - portMin + 1);
    Small(0x1_0000, random % rangeSize);
    var startOffset := U16(random % rangeSize);
    var i := 0;
    while i < rangeSize
      invariant 0 <= i <= rangeSize && |tried| == i
      invariant forall k | 0 <= k < i :: tried[k] == PortAt(portMin, rangeSize, startOffset, k) && !canBind(tried[k])
    {
      Wraps(rangeSize, startOffset, i);
      var candidate := U16(PortAt(portMin, rangeSize, startOffset, i));
      Small(0x1_0000, PortAt(portMin, rangeSize, startOffset, i));
      tried := tried + [candidate];
      if canBind(candidate) {
        TriedAreRounds(portMin, rangeSize, startOffset, tried);
        return Some(candidate), tried;
      }
      Small(0x1_0000, i + 1);
      i := U16(i + 1);
    }
    TriedAreRounds(portMin, rangeSize, startOffset, tried);
    forall p | portMin <= p <= portMax ensures p in tried && !canBind(p) {
      EveryPortHasARound(portMin, rangeSize, startOffset, p);
      var k :| 0 <= k < rangeSize && PortAt(portMin, rangeSize, startOffset, k) == p;
      assert tried[k] == p;
    }
    return None, tried;
  }

  lemma TriedAreRounds(portMin: int, n: int, startOffset: int, tried: seq<int>)
    requires 0 <= startOffset < n && |tried| <= n
    requires forall k | 0 <= k < |tried| :: tried[k] == PortAt(portMin, n, startOffset, k)
    ensures Distinct(tried) && forall p | p in tried :: portMin <= p < portMin + n
  {
    forall i, j | 0 <= i < j < |tried| ensures tried[i] != tried[j] { RoundsDiffer(portMin, n, startOffset, i, j); }
    forall i | 0 <= i < |tried| ensures portMin <= tried[i] < portMin + n { Wraps(n, startOffset, i); }
  }
}
