/** Addresses: the queries that allocate a server's range and a VM's address. */
module IpAllocator {

  datatype Option<+T> = None | Some(value: T)

  /** An IPv4 address as a number. */
  type Address = int

  const ADDRESSES: int := 0x1_0000_0000
  const PRIVATE_TEN: Address := 0x0A00_0000
  const PRIVATE_TEN_SIZE: int := 0x0100_0000
  const FIRST_BASE: Address := 0x0A01_0000
  const SERVER_MASKLEN: nat := 20
  const INT4_MAX: int := 0x7FFF_FFFF

  function Pow2(n: nat): (p: int)
    ensures p >= 1
  {
    if n == 0 then 1 else 2 * Pow2(n - 1)
  }

  /** A value of type cidr: no bits to the right of the mask, within IPv4. */
  datatype Range = Range(base: Address, masklen: nat)

  function Size(masklen: nat): int {
    if masklen <= 32 then Pow2(32 - masklen) else 1
  }

  ghost predicate ValidRange(r: Range) {
    && r.masklen <= 32
    && 0 <= r.base
    && r.base % Size(r.masklen) == 0
    && r.base + Size(r.masklen) <= ADDRESSES
  }

  predicate InRange(a: Address, r: Range) {
    r.base <= a < r.base + Size(r.masklen)
  }

  // ---------------------------------------------------------------------
  // VMNextIPAddress
  // ---------------------------------------------------------------------

  datatype Allocation = Free(ip: Address) | NoRows | OutOfRange

  /** The first row of generate_series(gs, last, 2), in order, that no live VM
      of the server holds. */
  function FirstFree(taken: set<Address>, base: Address, gs: int, last: int): Allocation
    decreases last - gs
  {
    if gs > last then NoRows
    else if base + gs !in taken then Free(base + gs)
    else FirstFree(taken, base, gs + 2, last)
  }

  /** `taken` are the addresses of the server's live VMs. The series bound is
      cast to a four-byte integer, which fails for the two widest masks. */
  function NextIp(taken: set<Address>, r: Range): Allocation {
    if Size(r.masklen) > INT4_MAX then OutOfRange
    else FirstFree(taken, r.base, 1, Size(r.masklen) - 2)
  }

  /** What a range can give to a VM: the odd offsets below the last one. */
  predicate Candidate(a: Address, r: Range) {
    && 1 <= a - r.base <= Size(r.masklen) - 2
    && (a - r.base) % 2 == 1
  }

  lemma {:induction false} FirstFreeLeast(taken: set<Address>, base: Address, gs: int, last: int)
    requires gs % 2 == 1
    ensures var f := FirstFree(taken, base, gs, last);
            && !f.OutOfRange?
            && (f.Free? ==>
                  && gs <= f.ip - base <= last && (f.ip - base) % 2 == 1 && f.ip !in taken
                  && forall a :: gs <= a - base && a < f.ip && (a - base) % 2 == 1 ==> a in taken)
            && (f.NoRows? ==> forall a :: gs <= a - base <= last && (a - base) % 2 == 1 ==> a in taken)
    decreases last - gs
  {
    if gs <= last && base + gs in taken {
      FirstFreeLeast(taken, base, gs + 2, last);
    }
  }

  /** The query returns the least free candidate, and none exactly when all are taken. */
  lemma NextIpLeast(taken: set<Address>, r: Range)
    requires 2 <= r.masklen <= 32
    ensures var n := NextIp(taken, r);
            && (n.Free? ==>
                  && Candidate(n.ip, r) && n.ip !in taken
                  && forall a :: Candidate(a, r) && a < n.ip ==> a in taken)
            && (!n.Free? ==> n.NoRows? && forall a :: Candidate(a, r) ==> a in taken)
  {
    SizeFits(r.masklen);
    FirstFreeLeast(taken, r.base, 1, Size(r.masklen) - 2);
  }

  lemma {:induction false} Pow2Monotone(m: nat, n: nat)
    requires m <= n
    ensures Pow2(m) <= Pow2(n)
  {
    if m < n { Pow2Monotone(m, n - 1); }
  }

  lemma SizeFits(masklen: nat)
    ensures 2 <= masklen <= 32 ==> Size(masklen) <= INT4_MAX
    ensures masklen < 2 ==> Size(masklen) > INT4_MAX
  {
    assert Pow2(30) == 0x4000_0000 by { Pow2Thirty(); }
    if 2 <= masklen <= 32 {
      Pow2Monotone(32 - masklen, 30);
    } else if masklen < 2 {
      Pow2Monotone(31, 32 - masklen);
    }
  }

  /** An address that is found is the least odd offset that is not taken. */
  lemma FoundIsLeast(taken: set<Address>, r: Range)
    requires NextIp(taken, r).Free?
    ensures var ip := NextIp(taken, r).ip;
            && 1 <= ip - r.base <= Size(r.masklen) - 2 && (ip - r.base) % 2 == 1 && ip !in taken
            && forall a :: Candidate(a, r) && a < ip ==> a in taken
  {
    FirstFreeLeast(taken, r.base, 1, Size(r.masklen) - 2);
  }

  /** None is found only if all are taken; beyond IPv4's widest mask a range has none. */
  lemma AllTaken(taken: set<Address>, r: Range)
    requires r.masklen >= 2 && !NextIp(taken, r).Free?
    ensures forall a :: Candidate(a, r) ==> a in taken
  {
    if r.masklen <= 32 { NextIpLeast(taken, r); }
  }

  lemma Pow2Thirty()
    ensures Pow2(10) == 0x400 && Pow2(12) == 0x1000 && Pow2(20) == 0x10_0000 && Pow2(30) == 0x4000_0000
  {
    assert Pow2(5) == 32;
    assert Pow2(10) == 0x400;
    assert Pow2(15) == 0x8000;
    assert Pow2(20) == 0x10_0000;
    assert Pow2(25) == 0x200_0000;
  }

  // ---------------------------------------------------------------------
  // Capacity
  // ---------------------------------------------------------------------

  /** The first n candidates of a range. */
  ghost function FirstCandidates(base: Address, n: nat): set<Address> {
    set j | 0 <= j < n :: base + 2 * j + 1
  }

  lemma {:induction false} CandidateCount(base: Address, n: nat)
    ensures |FirstCandidates(base, n)| == n
  {
    if n > 0 {
      CandidateCount(base, n - 1);
      assert FirstCandidates(base, n) == FirstCandidates(base, n - 1) + {base + 2 * (n - 1) + 1};
    }
  }

  function Capacity(masklen: nat): int
    requires masklen <= 31
  {
    Pow2(31 - masklen) - 1
  }

  lemma CandidatesAre(r: Range)
    requires r.masklen <= 31
    ensures forall a :: Candidate(a, r) <==> a in FirstCandidates(r.base, Capacity(r.masklen))
  {
    assert Size(r.masklen) == 2 * Pow2(31 - r.masklen);
    forall a | Candidate(a, r) ensures a in FirstCandidates(r.base, Capacity(r.masklen)) {
      var j := (a - r.base) / 2;
      assert a == r.base + 2 * j + 1;
    }
  }

  lemma SubsetOfSameSize(s: set<Address>, t: set<Address>)
    requires s <= t && |s| == |t|
    ensures s == t
  {
    assert t == s + (t - s);
  }

  lemma SubsetSize<T>(s: set<T>, t: set<T>)
    requires s <= t
    ensures |s| <= |t|
  {
    assert t == s + (t - s);
  }

  /** The query finds no row exactly when as many candidates are taken as the
      range has, 2047 for a /20. */
  lemma ExactCapacity(taken: set<Address>, r: Range)
    requires 2 <= r.masklen <= 31
    requires forall a :: a in taken ==> Candidate(a, r)
    ensures |taken| <= Capacity(r.masklen)
    ensures NextIp(taken, r).NoRows? <==> |taken| == Capacity(r.masklen)
    ensures Capacity(SERVER_MASKLEN) == 2047
  {
    var all := FirstCandidates(r.base, Capacity(r.masklen));
    CandidatesAre(r);
    CandidateCount(r.base, Capacity(r.masklen));
    NextIpLeast(taken, r);
    forall a | a in taken ensures a in all { assert Candidate(a, r); }
    SubsetSize(taken, all);
    if |taken| == |all| { SubsetOfSameSize(taken, all); }
    if NextIp(taken, r).NoRows? { assert taken == all; }
    Pow2Thirty();
  }

  // ---------------------------------------------------------------------
  // The /31 of a VM
  // ---------------------------------------------------------------------

  function Gateway(ip: Address): Address {
    ip - 1
  }

  /** set_masklen(ip, 31): the pair of addresses that share all but the last bit. */
  function Block(ip: Address): set<Address> {
    {ip - ip % 2, ip - ip % 2 + 1}
  }

  lemma MultipleOfEven(k: int, half: int)
    ensures (k * (2 * half)) % 2 == 0
  {
    assert k * (2 * half) == 2 * (k * half);
  }

  lemma DivisibleByEven(a: int, half: int)
    requires half > 0 && a % (2 * half) == 0
    ensures a % 2 == 0
  {
    assert a == (a / (2 * half)) * (2 * half);
    MultipleOfEven(a / (2 * half), half);
  }

  lemma EvenBase(r: Range)
    requires ValidRange(r) && Size(r.masklen) >= 2
    ensures r.base % 2 == 0
  {
    assert r.masklen < 32;
    assert Size(r.masklen) == 2 * Pow2(31 - r.masklen);
    DivisibleByEven(r.base, Pow2(31 - r.masklen));
  }

  lemma CandidateOdd(ip: Address, r: Range)
    requires ValidRange(r) && Candidate(ip, r)
    ensures ip % 2 == 1
  {
    hide ValidRange;
    EvenBase(r);
  }

  /** The gateway is the other half of the VM's own /31 and in the same range;
      no VM of any server has it as its address. */
  lemma GatewayIsOtherHalf(ip: Address, r: Range, other: Address, q: Range)
    requires ValidRange(r) && Candidate(ip, r)
    requires ValidRange(q) && Candidate(other, q)
    ensures Block(ip) == {Gateway(ip), ip}
    ensures InRange(ip, r) && InRange(Gateway(ip), r)
    ensures other != Gateway(ip)
  {
    hide ValidRange;
    CandidateOdd(ip, r);
    CandidateOdd(other, q);
  }

  lemma BlocksDisjoint(a: Address, r: Range, b: Address, q: Range)
    requires ValidRange(r) && Candidate(a, r) && ValidRange(q) && Candidate(b, q) && a != b
    ensures Block(a) !! Block(b)
  {
    hide ValidRange;
    CandidateOdd(a, r);
    CandidateOdd(b, q);
  }
}
