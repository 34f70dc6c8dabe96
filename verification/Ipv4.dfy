// IPv4 networks as Python's `ipaddress` module represents them: a base address and a prefix
// length, in the notation of section 3.1 of RFC 4632.  The endpoint test of `overlaps` means "some
// address is in both", and two networks are either disjoint or nested.

module Ipv4 {
  import opened Seqs

  const ADDRESS_BITS := 32
  const ADDRESS_SPACE := 0x1_0000_0000

  function Pow2(n: nat): (r: nat)
    ensures r > 0
  {
    if n == 0 then 1 else 2 * Pow2(n - 1)
  }

  lemma {:induction false} Pow2Sum(m: nat, n: nat)
    ensures Pow2(m + n) == Pow2(m) * Pow2(n)
  {
    if m == 0 {
    } else {
      Pow2Sum(m - 1, n);
    }
  }

  lemma Pow2Values()
    ensures Pow2(8) == 256 && Pow2(16) == 0x1_0000 && Pow2(24) == 0x100_0000 && Pow2(32) == ADDRESS_SPACE
  {
    assert Pow2(4) == 16;
    Pow2Sum(4, 4);
    Pow2Sum(8, 8);
    Pow2Sum(8, 16);
    Pow2Sum(16, 16);
  }

  /** The number of addresses under a prefix length. */
  function BlockSize(len: int): (r: nat)
    ensures r > 0
  {
    if 0 <= len <= ADDRESS_BITS then Pow2(ADDRESS_BITS - len) else 1
  }

  /** The lowest n bits of `a` are zero. */
  predicate LowBitsClear(a: int, n: nat)
    decreases n
  {
    n == 0 || (a % 2 == 0 && LowBitsClear(a / 2, n - 1))
  }

  /** `a` with its lowest n bits set to zero. */
  function ClearLowBits(a: int, n: nat): int
    decreases n
  {
    if n == 0 then a else 2 * ClearLowBits(a / 2, n - 1)
  }

  lemma Halved(a: int)
    ensures (2 * a) % 2 == 0 && (2 * a) / 2 == a
  {
  }

  lemma {:induction false} ClearedAreClear(a: int, n: nat)
    ensures LowBitsClear(ClearLowBits(a, n), n)
    ensures a >= 0 ==> 0 <= ClearLowBits(a, n) <= a
    decreases n
  {
    if n == 0 {
    } else {
      ClearedAreClear(a / 2, n - 1);
      Halved(ClearLowBits(a / 2, n - 1));
    }
  }

  datatype Network = Network(base: int, len: int) {
    /** The length is in range and no host bit is set. */
    predicate Valid() {
      && 0 <= len <= ADDRESS_BITS
      && 0 <= base < ADDRESS_SPACE
      && LowBitsClear(base, ADDRESS_BITS - len)
    }

    function Last(): int {
      base + BlockSize(len) - 1
    }

    predicate Contains(a: int) {
      base <= a <= Last()
    }
  }

  const DEFAULT_ROUTE := Network(0, 0)

  function Host(a: int): (p: Network)
    requires 0 <= a < ADDRESS_SPACE
    ensures p.Valid() && forall b :: p.Contains(b) <==> b == a
  {
    assert BlockSize(32) == 1;
    Network(a, 32)
  }

  /** `overlaps` of Python's `ipaddress`: one endpoint of one network lies in the other. */
  predicate Overlaps(p: Network, q: Network) {
    || q.Contains(p.base)
    || q.Contains(p.Last())
    || p.Contains(q.base)
    || p.Contains(q.Last())
  }

  ghost predicate ShareAddress(p: Network, q: Network) {
    exists a :: p.Contains(a) && q.Contains(a)
  }

  lemma OverlapsMeansShared(p: Network, q: Network)
    ensures Overlaps(p, q) <==> ShareAddress(p, q)
  {
    if Overlaps(p, q) {
      var a := if p.base <= q.base then q.base else p.base;
      assert p.Contains(a) && q.Contains(a);
    }
  }

  lemma OverlapsSymmetric(p: Network, q: Network)
    ensures Overlaps(p, q) == Overlaps(q, p)
  {
  }

  lemma DisjointShareNothing(p: Network, q: Network, a: int)
    requires !Overlaps(p, q) && p.Contains(a)
    ensures !q.Contains(a)
  {
  }

  /** The network of `a` with its host bits cleared, as `ip_network(…, strict=False)` does. */
  function Mask(a: int, len: int): (p: Network)
    requires 0 <= a < ADDRESS_SPACE && 0 <= len <= ADDRESS_BITS
    ensures p.Valid() && p.len == len && p.Contains(a)
  {
    ClearedAreClear(a, ADDRESS_BITS - len);
    ClearingFloors(a, ADDRESS_BITS - len);
    Network(ClearLowBits(a, ADDRESS_BITS - len), len)
  }

  // ----- multiples of powers of two

  lemma MulMonotone(x: int, y: int, d: int)
    requires d > 0
    ensures x <= y ==> x * d <= y * d
  {
    if x <= y {
      assert (y - x) * d >= 0;
    }
  }

  lemma QuotientIsUnique(a: int, d: int, q: int, r: int)
    requires d > 0 && a == q * d + r && 0 <= r < d
    ensures a / d == q && a % d == r
  {
    var q', r' := a / d, a % d;
    assert a == q' * d + r';
    MulMonotone(q + 1, q', d);
    MulMonotone(q' + 1, q, d);
    assert (q + 1) * d == q * d + d && (q' + 1) * d == q' * d + d;
  }

  lemma MultipleIsAligned(k: int, size: int)
    requires size > 0
    ensures (k * size) % size == 0
  {
    QuotientIsUnique(k * size, size, k, 0);
  }

  lemma FloorIsAligned(a: int, size: int)
    requires size > 0
    ensures (a - a % size) % size == 0
    ensures a >= 0 ==> 0 <= a - a % size
  {
    var k := a / size;
    assert a == k * size + a % size;
    MultipleIsAligned(k, size);
    MulMonotone(0, k, size);
  }

  lemma DoubleRemainder(a: int, size: int)
    requires size > 0
    ensures a % (2 * size) == 2 * ((a / 2) % size) + a % 2
  {
    var q := a / 2;
    var k, r := q / size, q % size;
    assert q == k * size + r && a == 2 * q + a % 2;
    assert k * (2 * size) == 2 * (k * size);
    QuotientIsUnique(a, 2 * size, k, 2 * r + a % 2);
  }

  /** Clearing n bits rounds down to a multiple of 2^n. */
  lemma {:induction false} ClearingFloors(a: int, n: nat)
    ensures ClearLowBits(a, n) == a - a % Pow2(n)
    decreases n
  {
    if n == 0 {
    } else {
      ClearingFloors(a / 2, n - 1);
      DoubleRemainder(a, Pow2(n - 1));
    }
  }

  lemma {:induction false} ClearBitsStay(a: int, n: nat)
    ensures LowBitsClear(a, n) <==> ClearLowBits(a, n) == a
    decreases n
  {
    if n == 0 {
    } else {
      ClearBitsStay(a / 2, n - 1);
    }
  }

  /** The lowest n bits are zero exactly in the multiples of 2^n. */
  lemma ClearMeansMultiple(a: int, n: nat)
    ensures LowBitsClear(a, n) <==> a % Pow2(n) == 0
  {
    ClearBitsStay(a, n);
    ClearingFloors(a, n);
  }

  lemma BaseIsMultiple(p: Network)
    requires p.Valid()
    ensures p.base % BlockSize(p.len) == 0
  {
    ClearMeansMultiple(p.base, ADDRESS_BITS - p.len);
  }

  lemma MaskBase(a: int, len: int)
    requires 0 <= a < ADDRESS_SPACE && 0 <= len <= ADDRESS_BITS
    ensures Mask(a, len) == Network(a - a % BlockSize(len), len)
  {
    ClearingFloors(a, ADDRESS_BITS - len);
  }

  lemma MaskOfNetwork(p: Network)
    requires p.Valid()
    ensures Mask(p.base, p.len) == p
  {
    ClearBitsStay(p.base, ADDRESS_BITS - p.len);
  }

  /** A multiple of `size` lies at or below the block of `a`, or beyond it. */
  lemma MultipleBelow(m: int, a: int, size: int)
    requires size > 0 && m % size == 0
    ensures m <= a ==> m <= a - a % size
    ensures m > a ==> m >= a - a % size + size
  {
    var k, j := m / size, a / size;
    assert m == k * size && a == j * size + a % size;
    MulMonotone(k, j, size);
    MulMonotone(j + 1, k, size);
    assert (j + 1) * size == j * size + size;
  }

  lemma LargerBlockIsMultiple(coarse: int, fine: int, m: int)
    requires 0 <= coarse <= fine <= ADDRESS_BITS
    requires m % BlockSize(coarse) == 0
    ensures m % BlockSize(fine) == 0
  {
    Pow2Sum(fine - coarse, ADDRESS_BITS - fine);
    MultipleOfMultiple(m, Pow2(fine - coarse), BlockSize(fine));
  }

  lemma MultipleOfMultiple(m: int, factor: int, small: int)
    requires factor > 0 && small > 0 && factor * small > 0 && m % (factor * small) == 0
    ensures m % small == 0
  {
    var k := m / (factor * small);
    assert m == k * (factor * small) == (k * factor) * small;
    MultipleIsAligned(k * factor, small);
  }

  lemma NetworkFits(p: Network)
    requires p.Valid()
    ensures p.Last() < ADDRESS_SPACE
  {
    Pow2Values();
    BaseIsMultiple(p);
    assert ADDRESS_SPACE == BlockSize(0) && ADDRESS_SPACE % BlockSize(0) == 0;
    LargerBlockIsMultiple(0, p.len, ADDRESS_SPACE);
    MultipleBelow(ADDRESS_SPACE, p.base, BlockSize(p.len));
  }

  /** Two networks that share an address are nested: the longer prefix lies in the shorter. */
  lemma OverlapIsNesting(p: Network, q: Network)
    requires p.Valid() && q.Valid() && p.len <= q.len && Overlaps(p, q)
    ensures p.base <= q.base && q.Last() <= p.Last()
  {
    OverlapsMeansShared(p, q);
    var a :| p.Contains(a) && q.Contains(a);
    var small := BlockSize(q.len);
    BaseIsMultiple(p);
    BlockOf(q, a);
    LargerBlockIsMultiple(p.len, q.len, p.base);
    MultipleBelow(p.base, a, small);
    var end := p.base + BlockSize(p.len);
    AlignedEnd(p);
    LargerBlockIsMultiple(p.len, q.len, end);
    MultipleBelow(end, a, small);
  }

  lemma BlockOf(p: Network, a: int)
    requires p.Valid() && p.Contains(a)
    ensures a - a % BlockSize(p.len) == p.base
  {
    var size := BlockSize(p.len);
    BaseIsMultiple(p);
    MultipleBelow(p.base, a, size);
    AlignedEnd(p);
    FloorIsAligned(a, size);
    MultipleBelow(a - a % size, p.base, size);
  }

  /** One network of a given length is around an address. */
  lemma NetworkAround(p: Network, q: Network, a: int)
    requires p.Valid() && q.Valid() && p.len == q.len && p.Contains(a) && q.Contains(a)
    ensures p == q
  {
    BlockOf(p, a);
    BlockOf(q, a);
  }

  lemma AlignedEnd(p: Network)
    requires p.Valid()
    ensures (p.base + BlockSize(p.len)) % BlockSize(p.len) == 0
  {
    var size := BlockSize(p.len);
    BaseIsMultiple(p);
    var k := p.base / size;
    assert p.base + size == (k + 1) * size;
    MultipleIsAligned(k + 1, size);
  }

  lemma DisjointOrNested(p: Network, q: Network)
    requires p.Valid() && q.Valid()
    ensures || (forall a :: p.Contains(a) ==> !q.Contains(a))
            || (forall a :: q.Contains(a) ==> p.Contains(a))
            || (forall a :: p.Contains(a) ==> q.Contains(a))
  {
    if Overlaps(p, q) {
      if p.len <= q.len {
        OverlapIsNesting(p, q);
      } else {
        OverlapIsNesting(q, p);
      }
    }
  }

  /** Every network meets the default route. */
  lemma DefaultMeetsAll(p: Network)
    requires p.Valid()
    ensures Overlaps(DEFAULT_ROUTE, p)
  {
    Pow2Values();
  }

  // ----- families of networks

  predicate PairwiseDisjoint(s: seq<Network>) {
    forall i, j :: 0 <= i < j < |s| ==> !Overlaps(s[i], s[j])
  }

  /** The same condition without positions; a network always overlaps itself. */
  lemma DisjointByMembers(s: seq<Network>)
    ensures PairwiseDisjoint(s) <==>
            Distinct(s) && forall p, q :: p in s && q in s && p != q ==> !Overlaps(p, q)
  {
    if PairwiseDisjoint(s) {
      forall i, j | 0 <= i < j < |s| ensures s[i] != s[j] {
        assert !Overlaps(s[i], s[j]);
      }
    }
  }

  predicate Covers(s: seq<Network>, a: int) {
    exists p :: p in s && p.Contains(a)
  }

  // ----- text

  /** What a textual network or interface address denotes to the parser. */
  datatype Text = Unparsable | Ipv6 | Ipv4(addr: int, len: int)

  /** An interface address keeps its host bits. */
  datatype Interface = Interface(ip: int, len: int) {
    predicate Valid() {
      0 <= ip < ADDRESS_SPACE && 0 <= len <= ADDRESS_BITS
    }

    function Net(): Network
      requires Valid()
    {
      Mask(ip, len)
    }
  }

  predicate Parses(t: Text) {
    t.Ipv4? && 0 <= t.addr < ADDRESS_SPACE && 0 <= t.len <= ADDRESS_BITS
  }

  function ParseNetwork(t: Text): (p: Network)
    requires Parses(t)
    ensures p.Valid()
  {
    Mask(t.addr, t.len)
  }

  function ParseInterface(t: Text): (i: Interface)
    requires Parses(t)
    ensures i.Valid()
  {
    Interface(t.addr, t.len)
  }

  function Show(p: Network): Text {
    Ipv4(p.base, p.len)
  }

  function ShowInterface(i: Interface): Text {
    Ipv4(i.ip, i.len)
  }

  /** Writing a network out and reading it back changes nothing; so does a second reading. */
  lemma ShowRoundTrip(p: Network)
    requires p.Valid()
    ensures Parses(Show(p)) && ParseNetwork(Show(p)) == p
  {
    MaskOfNetwork(p);
  }
}
