// Address allocation (vpnhub/ipam.py): a pool is cut into /24 blocks, the first for the server
// and the Admin Peers, the others for Sites; inside a block hosts are handed out from .10.

module Ipam {
  import opened Seqs
  import opened Ipv4

  const FIRST_HOST := 10

  function SubnetCount(pool: Network): nat {
    if 0 <= pool.len <= 24 then Pow2(24 - pool.len) else 0
  }

  /** The k-th /24 of a pool. */
  function Subnet(pool: Network, k: nat): Network {
    Network(pool.base + 256 * k, 24)
  }

  lemma Slash24(n: Network)
    requires n.len == 24
    ensures n.Last() == n.base + 255
  {
    Pow2Values();
  }

  lemma PoolSize(pool: Network)
    requires 0 <= pool.len <= 24
    ensures pool.Last() == pool.base + 256 * SubnetCount(pool) - 1 && SubnetCount(pool) >= 1
  {
    Pow2Values();
    Pow2Sum(24 - pool.len, 8);
  }

  lemma PoolIsAligned(pool: Network)
    requires pool.Valid() && pool.len <= 24
    ensures pool.base % 256 == 0 && pool.Last() < ADDRESS_SPACE
  {
    Pow2Values();
    NetworkFits(pool);
    BaseIsMultiple(pool);
    LargerBlockIsMultiple(pool.len, 24, pool.base);
  }

  lemma Slash24Valid(base: int)
    requires 0 <= base < ADDRESS_SPACE && base % 256 == 0
    ensures Network(base, 24).Valid()
  {
    Pow2Values();
    ClearMeansMultiple(base, 8);
  }

  lemma BlockAligned(base: int, k: nat)
    requires base % 256 == 0
    ensures (base + 256 * k) % 256 == 0
  {
  }

  /** The /24 blocks are networks inside the pool. */
  lemma SubnetInPool(pool: Network, k: nat)
    requires pool.Valid() && pool.len <= 24 && k < SubnetCount(pool)
    ensures var n := Subnet(pool, k);
            n.Valid() && pool.base <= n.base && n.Last() == n.base + 255 && n.Last() <= pool.Last()
  {
    PoolSize(pool);
    PoolIsAligned(pool);
    Slash24(Subnet(pool, k));
    BlockAligned(pool.base, k);
    Slash24Valid(pool.base + 256 * k);
  }

  /** Different blocks share no address. */
  lemma SubnetsDisjoint(pool: Network, j: nat, k: nat)
    requires j != k
    ensures !Overlaps(Subnet(pool, j), Subnet(pool, k))
  {
    Slash24(Subnet(pool, j));
    Slash24(Subnet(pool, k));
  }

  predicate IsSiteBlock(pool: Network, n: Network) {
    exists k :: 1 <= k < SubnetCount(pool) && n == Subnet(pool, k)
  }

  predicate IsHostOf(n: Network, ip: int) {
    n.base + FIRST_HOST <= ip <= n.Last() - 1
  }

  // ----- Site blocks

  function SiteBlockFrom(pool: Network, used: set<Network>, k: nat): Option<Network>
    decreases SubnetCount(pool) - k
  {
    if k >= SubnetCount(pool) then None
    else if Subnet(pool, k) !in used then Some(Subnet(pool, k))
    else SiteBlockFrom(pool, used, k + 1)
  }

  function SiteBlock(pool: Network, used: set<Network>): Option<Network> {
    SiteBlockFrom(pool, used, 1)
  }

  /** allocate_site_cidr: the first block is skipped, the rest are tried in order.  A pool longer
      than /24 is refused like an exhausted one. */
  method AllocateSiteCidr(pool: Network, used: set<Network>) returns (r: Option<Network>)
    ensures r == SiteBlock(pool, used)
  {
    var k := 1;
    while k < SubnetCount(pool)
      invariant SiteBlock(pool, used) == SiteBlockFrom(pool, used, k)
    {
      if Subnet(pool, k) !in used {
        return Some(Subnet(pool, k));
      }
      k := k + 1;
    }
    return None;
  }

  lemma {:induction false} NoBlockFrom(pool: Network, used: set<Network>, k: nat)
    ensures SiteBlockFrom(pool, used, k).None? <==> forall j :: k <= j < SubnetCount(pool) ==> Subnet(pool, j) in used
    decreases SubnetCount(pool) - k
  {
    if k >= SubnetCount(pool) {
    } else {
      NoBlockFrom(pool, used, k + 1);
    }
  }

  lemma {:induction false} FirstBlockFrom(pool: Network, used: set<Network>, k: nat) returns (i: nat)
    requires SiteBlockFrom(pool, used, k).Some?
    ensures k <= i < SubnetCount(pool) && SiteBlockFrom(pool, used, k).value == Subnet(pool, i)
    ensures Subnet(pool, i) !in used && forall j :: k <= j < i ==> Subnet(pool, j) in used
    decreases SubnetCount(pool) - k
  {
    if Subnet(pool, k) !in used {
      i := k;
    } else {
      i := FirstBlockFrom(pool, used, k + 1);
    }
  }

  lemma SiteBlockFromIsFirst(pool: Network, used: set<Network>, k: nat)
    ensures var r := SiteBlockFrom(pool, used, k);
            && (r.None? <==> forall j :: k <= j < SubnetCount(pool) ==> Subnet(pool, j) in used)
            && (r.Some? ==> exists i :: && k <= i < SubnetCount(pool) && r.value == Subnet(pool, i)
                                        && r.value !in used
                                        && forall j :: k <= j < i ==> Subnet(pool, j) in used)
  {
    NoBlockFrom(pool, used, k);
    if SiteBlockFrom(pool, used, k).Some? {
      var i := FirstBlockFrom(pool, used, k);
    }
  }

  function BlocksFrom(pool: Network, k: nat): (s: set<Network>)
    ensures forall j :: k <= j < SubnetCount(pool) ==> Subnet(pool, j) in s
    ensures forall n :: n in s ==> exists j :: k <= j < SubnetCount(pool) && n == Subnet(pool, j)
    ensures |s| == if k < SubnetCount(pool) then SubnetCount(pool) - k else 0
    decreases SubnetCount(pool) - k
  {
    if k >= SubnetCount(pool) then {}
    else
      var rest := BlocksFrom(pool, k + 1);
      assert Subnet(pool, k) !in rest;
      {Subnet(pool, k)} + rest
  }

  lemma SubsetSize<T>(a: set<T>, b: set<T>)
    requires a <= b
    ensures |a| <= |b| && (|a| == |b| <==> a == b)
  {
    assert b == a + (b - a);
    assert |b| == |a| + |b - a|;
    if |a| == |b| {
      assert b - a == {};
    }
  }

  /** The lowest free block is allocated, and allocation fails exactly when all
      2^(24-p) - 1 Site blocks of the /p pool are taken. */
  lemma SiteBlockIsLowestFree(pool: Network, used: set<Network>)
    requires forall n :: n in used ==> IsSiteBlock(pool, n)
    ensures SiteBlock(pool, used).Some? ==>
              exists i :: && 1 <= i < SubnetCount(pool) && SiteBlock(pool, used).value == Subnet(pool, i)
                          && SiteBlock(pool, used).value !in used
                          && forall j :: 1 <= j < i ==> Subnet(pool, j) in used
    ensures SubnetCount(pool) >= 1 ==>
              (SiteBlock(pool, used).None? <==> |used| == SubnetCount(pool) - 1)
  {
    SiteBlockFromIsFirst(pool, used, 1);
    var all := BlocksFrom(pool, 1);
    SubsetSize(used, all);
    if SiteBlock(pool, used).None? {
      SubsetSize(all, used);
    }
  }

  // ----- hosts

  function HostFrom(n: Network, used: set<int>, h: nat): Option<int>
    decreases BlockSize(n.len) - h
  {
    if h > BlockSize(n.len) - 2 then None
    else if n.base + h !in used then Some(n.base + h)
    else HostFrom(n, used, h + 1)
  }

  function HostIn(n: Network, used: set<int>): Option<int> {
    HostFrom(n, used, FIRST_HOST)
  }

  /** The search of allocate_peer_ip and allocate_admin_ip: hosts are numbered from 1, and those
      below 10 are passed over. */
  method AllocateHost(n: Network, used: set<int>) returns (r: Option<int>)
    ensures r == HostIn(n, used)
  {
    var index := 1;
    while index <= BlockSize(n.len) - 2
      invariant 1 <= index
      invariant index <= FIRST_HOST || HostIn(n, used) == HostFrom(n, used, index)
    {
      if index >= FIRST_HOST {
        if n.base + index !in used {
          return Some(n.base + index);
        }
      }
      index := index + 1;
    }
    return None;
  }

  /** allocate_admin_ip searches the first block of the pool. */
  method AllocateAdminIp(pool: Network, used: set<int>) returns (r: Option<int>)
    ensures r == HostIn(Subnet(pool, 0), used)
  {
    r := AllocateHost(Subnet(pool, 0), used);
  }

  lemma {:induction false} HostFromIsFirst(n: Network, used: set<int>, h: nat)
    ensures var r := HostFrom(n, used, h);
            && (r.None? <==> forall a :: n.base + h <= a <= n.Last() - 1 ==> a in used)
            && (r.Some? ==> && n.base + h <= r.value <= n.Last() - 1 && r.value !in used
                            && forall a :: n.base + h <= a < r.value ==> a in used)
    decreases BlockSize(n.len) - h
  {
    if h > BlockSize(n.len) - 2 {
    } else {
      HostFromIsFirst(n, used, h + 1);
    }
  }

  function HostsFrom(lo: int, hi: int): (s: set<int>)
    requires lo <= hi
    ensures forall a :: a in s <==> lo <= a < hi
    ensures |s| == hi - lo
    decreases hi - lo
  {
    if lo == hi then {} else {lo} + HostsFrom(lo + 1, hi)
  }

  /** In a /24 the lowest free address from .10 to .254 is allocated, and allocation fails
      exactly when all 245 are taken. */
  lemma HostIsLowestFree(n: Network, used: set<int>)
    requires n.len == 24 && forall a :: a in used ==> IsHostOf(n, a)
    ensures HostIn(n, used).Some? ==>
              && IsHostOf(n, HostIn(n, used).value) && HostIn(n, used).value !in used
              && forall a :: n.base + FIRST_HOST <= a < HostIn(n, used).value ==> a in used
    ensures HostIn(n, used).None? <==> |used| == 245
  {
    Slash24(n);
    HostFromIsFirst(n, used, FIRST_HOST);
    var all := HostsFrom(n.base + FIRST_HOST, n.base + 255);
    assert used <= all && |all| == 245;
    SubsetSize(used, all);
  }
}
