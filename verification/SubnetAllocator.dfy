/**
 The address allocator: 100.64.0.0/10 (section 7 of RFC 6598) is cut into equal subnets, and user
 number `i` gets the first usable address of subnet `i`.  The program adds an offset to the base
 address byte by byte, without carrying from one byte to the next.
 */
module SubnetAllocator {
  import opened Wrappers

  const BASE_BYTES: seq<int> := [100, 64, 0, 0]
  const BASE: nat := 0x6440_0000
  const PREFIX_LENGTH: nat := 10
  /** The number of addresses of a /10 block. */
  const BLOCK: nat := 0x40_0000

  predicate IsAddress(ip: seq<int>) {
    |ip| == 4 && forall j :: 0 <= j < 4 ==> 0 <= ip[j] < 256
  }

  /** The address as a 32-bit number. */
  function Number(ip: seq<int>): (n: nat)
    requires IsAddress(ip)
    ensures n < 0x1_0000_0000
  {
    ((ip[0] * 256 + ip[1]) * 256 + ip[2]) * 256 + ip[3]
  }

  function Pow2(k: nat): (p: nat)
    ensures p >= 1
  {
    if k == 0 then 1 else 2 * Pow2(k - 1)
  }

  lemma {:induction false} Pow2Split(j: nat, k: nat)
    ensures Pow2(j + k) == Pow2(j) * Pow2(k)
  {
    if j > 0 {
      Pow2Split(j - 1, k);
    }
  }

  lemma {:induction false} Pow2Grows(j: nat, k: nat)
    requires j <= k
    ensures Pow2(j) <= Pow2(k)
  {
    if j < k {
      Pow2Grows(j, k - 1);
    }
  }

  /** The least exponent whose power reaches `n`: the rounded-up binary logarithm. */
  function Log2Ceil(n: nat): (k: nat)
    requires n >= 1
    ensures Pow2(k) >= n && forall j: nat :: Pow2(j) >= n ==> k <= j
  {
    Log2From(n, 0)
  }

  function Log2From(n: nat, k: nat): (r: nat)
    requires n >= 1 && (k == 0 || Pow2(k - 1) < n)
    ensures Pow2(r) >= n && forall j: nat :: Pow2(j) >= n ==> r <= j
    decreases n - Pow2(k)
  {
    if Pow2(k) >= n then
      assert forall j: nat :: Pow2(j) >= n ==> k <= j by {
        forall j: nat | Pow2(j) >= n ensures k <= j {
          if j < k {
            Pow2Grows(j, k - 1);
          }
        }
      }
      k
    else Log2From(n, k + 1)
  }

  /** The addresses per subnet when the block is cut for `n` users. */
  function SubnetSize(n: nat): nat
    requires 1 <= n <= BLOCK
  {
    SizeIsPositive(n);
    Pow2(32 - (PREFIX_LENGTH + Log2Ceil(n)))
  }

  lemma SizeIsPositive(n: nat)
    requires 1 <= n <= BLOCK
    ensures Log2Ceil(n) <= 22
    ensures Pow2(22 - Log2Ceil(n)) * Pow2(Log2Ceil(n)) == BLOCK
  {
    assert Pow2(22) == BLOCK by {
      assert Pow2(5) == 32;
      Pow2Split(5, 5);
      Pow2Split(10, 10);
      Pow2Split(20, 2);
    }
    Pow2Split(22 - Log2Ceil(n), Log2Ceil(n));
  }

  /** `x` shifted right by `k` bytes. */
  function Shifted(x: nat, k: nat): nat {
    if k == 0 then x else Shifted(x, k - 1) / 256
  }

  /** The byte at position `j` of a 32-bit number, most significant first. */
  function ByteAt(x: nat, j: nat): int
    requires j < 4
  {
    Shifted(x, 3 - j) % 256
  }

  /** What the byte loop computes: each byte on its own, modulo 256, and no carry. */
  function AddBytes(ip: seq<int>, x: nat): (r: seq<int>)
    requires IsAddress(ip)
    ensures IsAddress(r)
  {
    [(ip[0] + ByteAt(x, 0)) % 256, (ip[1] + ByteAt(x, 1)) % 256,
     (ip[2] + ByteAt(x, 2)) % 256, (ip[3] + ByteAt(x, 3)) % 256]
  }

  lemma BytesOf(x: nat)
    requires x < 0x1_0000_0000
    ensures x == ((ByteAt(x, 0) * 256 + ByteAt(x, 1)) * 256 + ByteAt(x, 2)) * 256 + ByteAt(x, 3)
    ensures forall j: nat :: j < 4 ==> 0 <= ByteAt(x, j) < 256
  {
    var a := x / 256;
    var b := a / 256;
    var c := b / 256;
    assert Shifted(x, 0) == x && Shifted(x, 1) == a && Shifted(x, 2) == b && Shifted(x, 3) == c;
    assert x == 256 * a + x % 256 && a == 256 * b + a % 256 && b == 256 * c + b % 256;
  }

  /** The carry out of one byte. */
  lemma OneByte(a: int, b: int) returns (carry: int)
    requires 0 <= a < 256 && 0 <= b < 256
    ensures (a + b) % 256 == a + b - 256 * carry && (carry == 0 || carry == 1) && (carry == 0 <==> a + b < 256)
  {
    carry := if a + b < 256 then 0 else 1;
  }

  /** The bytewise sum is the sum exactly when no byte overflows. */
  lemma BytewiseSumIsSum(ip: seq<int>, x: nat)
    requires IsAddress(ip) && x < 0x1_0000_0000
    ensures Number(AddBytes(ip, x)) == Number(ip) + x <==> forall j :: 0 <= j < 4 ==> ip[j] + ByteAt(x, j) < 256
  {
    BytesOf(x);
    hide ByteAt;
    var c0 := OneByte(ip[0], ByteAt(x, 0));
    var c1 := OneByte(ip[1], ByteAt(x, 1));
    var c2 := OneByte(ip[2], ByteAt(x, 2));
    var c3 := OneByte(ip[3], ByteAt(x, 3));
    assert Number(AddBytes(ip, x)) == Number(ip) + x
      - 256 * (c3 + 256 * (c2 + 256 * (c1 + 256 * c0)));
  }

  /** Adding an offset inside the block to the base never needs a carry. */
  lemma NoCarryNeeded(offset: nat)
    requires offset < BLOCK
    ensures Number(AddBytes(BASE_BYTES, offset)) == BASE + offset
  {
    BytesOf(offset);
    BytewiseSumIsSum(BASE_BYTES, offset);
  }

  lemma {:induction false} ZeroStays(x: nat, k: nat, m: nat)
    requires k <= m && Shifted(x, k) == 0
    ensures Shifted(x, m) == 0
  {
    if k < m {
      ZeroStays(x, k, m - 1);
    }
  }

  lemma NextByte(x: nat, j: nat)
    requires j < 4
    ensures ByteAt(x, j) == Shifted(x, 3 - j) % 256 && Shifted(x, 4 - j) == Shifted(x, 3 - j) / 256
  {
  }

  lemma NoByteLeft(x: nat, j: nat, ip: seq<int>)
    requires j < 4 && Shifted(x, 3 - j) == 0 && IsAddress(ip)
    ensures forall k :: 0 <= k <= j ==> (ip[k] + ByteAt(x, k)) % 256 == ip[k]
  {
    forall k | 0 <= k <= j ensures (ip[k] + ByteAt(x, k)) % 256 == ip[k] {
      ZeroStays(x, 3 - j, 3 - k);
    }
  }

  /** `subnetIP[j] += byte(offset)` from the last byte up while offset bits are left. */
  method AddOffset(ip: array<int>, offset: nat)
    requires ip.Length == 4 && IsAddress(ip[..])
    modifies ip
    ensures ip[..] == AddBytes(old(ip[..]), offset)
  {
    hide Shifted, ByteAt;
    ghost var ip0 := ip[..];
    NextByte(offset, 3);
    ShiftedByZero(offset);
    var j, rest := 3, offset;
    while j >= 0 && rest > 0
      invariant -1 <= j <= 3 && rest == Shifted(offset, 3 - j)
      invariant forall k :: 0 <= k <= j ==> ip[k] == ip0[k]
      invariant forall k :: j < k < 4 ==> ip[k] == (ip0[k] + ByteAt(offset, k)) % 256
      decreases j
    {
      NextByte(offset, j);
      ip[j] := (ip[j] + rest % 256) % 256;
      rest := rest / 256;
      j := j - 1;
    }
    if j >= 0 {
      NoByteLeft(offset, j, ip0);
    }
    assert forall k :: 0 <= k < 4 ==> ip[k] == (ip0[k] + ByteAt(offset, k)) % 256;
  }

  lemma ShiftedByZero(x: nat)
    ensures Shifted(x, 0) == x
  {
  }

  // ---- Decimal keys ----

  function Digit(d: nat): char
    requires d < 10
  {
    "0123456789"[d]
  }

  function Decimal(n: nat): (s: string)
    ensures s != ""
  {
    if n < 10 then [Digit(n)] else Decimal(n / 10) + [Digit(n % 10)]
  }

  /** Different numbers have different decimal notations. */
  lemma {:induction false} DecimalInjective(m: nat, n: nat)
    requires Decimal(m) == Decimal(n)
    ensures m == n
    decreases m
  {
    var s := Decimal(m);
    assert s[|s| - 1] == Digit(m % 10) == Digit(n % 10);
    assert m % 10 == n % 10;
    if m >= 10 && n >= 10 {
      assert Decimal(m / 10) == s[..|s| - 1] == Decimal(n / 10);
      DecimalInjective(m / 10, n / 10);
    }
  }

  /** The number a decimal notation stands for, read digit by digit. */
  function ReadDecimal(s: string): int {
    if s == [] then 0 else 10 * ReadDecimal(s[..|s| - 1]) + (s[|s| - 1] as int - '0' as int)
  }

  /** Decimal notation: it reads back, consists of digits and has no leading zero. */
  lemma {:induction false} DecimalReadsBack(n: nat)
    ensures ReadDecimal(Decimal(n)) == n
    ensures forall k :: 0 <= k < |Decimal(n)| ==> '0' <= Decimal(n)[k] <= '9'
    ensures Decimal(n)[0] == '0' ==> n == 0
  {
    var s := Decimal(n);
    assert s[|s| - 1] as int - '0' as int == n % 10;
    if n >= 10 {
      DecimalReadsBack(n / 10);
      assert s[..|s| - 1] == Decimal(n / 10);
    } else {
      assert s[..|s| - 1] == [];
    }
  }

  // ---- The allocation ----

  /** The number of subnets. */
  function Count(n: nat): (c: nat)
    requires n >= 1
    ensures c >= n
  {
    Pow2(Log2Ceil(n))
  }

  lemma SizeTimesCount(n: nat)
    requires 1 <= n <= BLOCK
    ensures SubnetSize(n) >= 1 && Count(n) * SubnetSize(n) == BLOCK
  {
    SizeIsPositive(n);
    hide Pow2, Log2Ceil;
    assert 32 - (PREFIX_LENGTH + Log2Ceil(n)) == 22 - Log2Ceil(n);
    assert Count(n) * SubnetSize(n) == SubnetSize(n) * Count(n);
  }

  /** The table has the least power of two subnets that is enough, and they fill the 2^22 addresses of
      the block. */
  lemma TableSizes(n: nat)
    requires 1 <= n <= BLOCK
    ensures Count(n) * SubnetSize(n) == 0x40_0000
    ensures n <= Count(n) && (Count(n) == 1 || Count(n) < 2 * n)
  {
    hide SubnetSize;
    SizeTimesCount(n);
    var k := Log2Ceil(n);
    if k > 0 {
      assert Pow2(k - 1) < n;
    }
  }

  lemma Fits(i: nat, count: nat, size: nat)
    requires i < count
    ensures i * size + size <= count * size
  {
    MulMonotone(i + 1, count, size);
    assert (i + 1) * size == i * size + size;
  }

  lemma MulMonotone(a: nat, b: nat, c: nat)
    requires a <= b
    ensures a * c <= b * c
  {
  }

  /** The first byte string after the subnet's own address, computed on the last byte alone. */
  function NextAddress(ip: seq<int>): (r: seq<int>)
    requires IsAddress(ip)
    ensures IsAddress(r)
  {
    ip[3 := (ip[3] + 1) % 256]
  }

  /** The address handed to user `i`. */
  function FirstUsable(n: nat, i: nat): (ip: seq<int>)
    requires 1 <= n <= BLOCK && i < Count(n)
    ensures IsAddress(ip)
  {
    NextAddress(AddBytes(BASE_BYTES, i * SubnetSize(n)))
  }

  method FirstUsableOf(offset: nat) returns (ip: seq<int>)
    ensures ip == NextAddress(AddBytes(BASE_BYTES, offset))
  {
    var subnet := new int[4](k requires 0 <= k < 4 => BASE_BYTES[k]);
    assert subnet[..] == BASE_BYTES;
    AddOffset(subnet, offset);
    var first := new int[4](k requires 0 <= k < 4 reads subnet => subnet[k]);
    assert first[..] == subnet[..];
    first[3] := (first[3] + 1) % 256;
    ip := first[..];
  }

  ghost predicate KeyBelow(key: string, n: nat) {
    exists i: nat :: i < n && Decimal(i) == key
  }

  lemma OneMoreKey(table: map<string, seq<int>>, table': map<string, seq<int>>, i: nat, ip: seq<int>)
    requires forall key :: key in table <==> KeyBelow(key, i)
    requires table' == table[Decimal(i) := ip]
    ensures forall key :: key in table' <==> KeyBelow(key, i + 1)
  {
    forall key ensures key in table' <==> KeyBelow(key, i + 1) {
      if KeyBelow(key, i + 1) {
        var m: nat :| m < i + 1 && Decimal(m) == key;
        assert m < i ==> KeyBelow(key, i);
      } else {
        assert key != Decimal(i) && !KeyBelow(key, i);
      }
    }
  }

  lemma NoKeyYet()
    ensures forall key :: !KeyBelow(key, 0)
  {
  }

  /** The table for `n` users: one entry for every subnet, under its decimal index. */
  method SubDNSSplit(n: nat) returns (table: map<string, seq<int>>)
    requires 1 <= n <= BLOCK
    ensures forall key :: key in table <==> KeyBelow(key, Count(n))
    ensures forall i: nat :: i < Count(n) ==> Decimal(i) in table && table[Decimal(i)] == FirstUsable(n, i)
  {
    hide AddBytes, NextAddress, SubnetSize, Decimal, KeyBelow;
    NoKeyYet();
    table := map[];
    var count, size := Count(n), SubnetSize(n);
    var i := 0;
    while i < count
      invariant 0 <= i <= count
      invariant forall key :: key in table <==> KeyBelow(key, i)
      invariant forall m: nat :: m < i ==> Decimal(m) in table && table[Decimal(m)] == FirstUsable(n, m)
    {
      var first := FirstUsableOf(i * size);
      forall m: nat | m < i ensures Decimal(m) != Decimal(i) {
        if Decimal(m) == Decimal(i) {
          DecimalInjective(m, i);
        }
      }
      OneMoreKey(table, table[Decimal(i) := first], i, first);
      table := table[Decimal(i) := first];
      i := i + 1;
    }
  }

  lemma LastByte(x: nat)
    ensures ByteAt(x, 3) == x % 256
  {
  }

  lemma NextOfEven(offset: nat)
    requires offset < BLOCK && offset % 2 == 0
    ensures Number(NextAddress(AddBytes(BASE_BYTES, offset))) == BASE + offset + 1
  {
    hide ByteAt;
    NoCarryNeeded(offset);
    LastByte(offset);
    assert offset == 256 * (offset / 256) + offset % 256;
    assert AddBytes(BASE_BYTES, offset)[3] == offset % 256;
  }

  lemma EvenMultiple(i: nat, size: nat)
    requires size % 2 == 0
    ensures i * size % 2 == 0
  {
    assert size == 2 * (size / 2);
    assert i * size == 2 * (i * (size / 2));
  }

  /** Up to 2^21 users the address for index `i` is 100.64.0.0 + i * size + 1. */
  lemma AddressOf(n: nat, i: nat)
    requires 1 <= n <= BLOCK / 2 && i < Count(n)
    ensures Number(FirstUsable(n, i)) == 0x6440_0000 + i * SubnetSize(n) + 1
  {
    hide Count, SubnetSize, NextAddress, AddBytes;
    SubnetSizeIsEven(n);
    SizeTimesCount(n);
    Fits(i, Count(n), SubnetSize(n));
    EvenMultiple(i, SubnetSize(n));
    NextOfEven(i * SubnetSize(n));
  }

  lemma Pow2Of21()
    ensures Pow2(21) == BLOCK / 2
  {
    hide Pow2;
    SmallPowers();
    Pow2Split(5, 5);
    Pow2Split(10, 10);
    Pow2Split(20, 1);
  }

  lemma SmallPowers()
    ensures Pow2(1) == 2 && Pow2(4) == 16 && Pow2(5) == 32
  {
    assert Pow2(2) == 4 && Pow2(3) == 8 && Pow2(4) == 16;
  }

  lemma SubnetSizeIsEven(n: nat)
    requires 1 <= n <= BLOCK / 2
    ensures SubnetSize(n) % 2 == 0 && SubnetSize(n) >= 2
  {
    Pow2Of21();
    assert Log2Ceil(n) <= 21;
    var k := 32 - (PREFIX_LENGTH + Log2Ceil(n));
    assert Pow2(k) == 2 * Pow2(k - 1);
  }

  predicate InSubnet(a: nat, n: nat, i: nat)
    requires 1 <= n <= BLOCK
  {
    BASE + i * SubnetSize(n) <= a < BASE + (i + 1) * SubnetSize(n)
  }

  lemma SubnetsDisjoint(a: nat, n: nat, i: nat, j: nat)
    requires 1 <= n <= BLOCK && i < j && InSubnet(a, n, i)
    ensures !InSubnet(a, n, j)
  {
    hide SubnetSize;
    MulMonotone(i + 1, j, SubnetSize(n));
  }

  lemma FindSubnet(x: nat, size: nat, count: nat) returns (i: nat)
    requires size >= 1 && x < count * size
    ensures i < count && i * size <= x < (i + 1) * size
  {
    i := x / size;
    assert x == size * i + x % size;
    assert i * size == size * i && (i + 1) * size == i * size + size;
    if count <= i {
      MulMonotone(count, i, size);
    }
  }

  /** The subnets partition the block: every address of it is in exactly one of them. */
  lemma SubnetsPartition(n: nat, a: nat)
    requires 1 <= n <= BLOCK && BASE <= a < BASE + BLOCK
    ensures exists i: nat :: i < Count(n) && InSubnet(a, n, i)
    ensures forall i: nat, j: nat :: InSubnet(a, n, i) && InSubnet(a, n, j) ==> i == j
  {
    hide SubnetSize, Count;
    SizeTimesCount(n);
    var k := FindSubnet(a - BASE, SubnetSize(n), Count(n));
    assert InSubnet(a, n, k);
    forall i: nat, j: nat | InSubnet(a, n, i) && InSubnet(a, n, j) ensures i == j {
      if i < j {
        SubnetsDisjoint(a, n, i, j);
      } else if j < i {
        SubnetsDisjoint(a, n, j, i);
      }
    }
  }

  /** Different indices get different addresses, for every size of the table. */
  lemma AddressesAreDistinct(n: nat, i: nat, j: nat)
    requires 1 <= n <= BLOCK && i < Count(n) && j < Count(n)
    requires FirstUsable(n, i) == FirstUsable(n, j)
    ensures i == j
  {
    hide Count, SubnetSize, AddBytes;
    SizeTimesCount(n);
    var size := SubnetSize(n);
    Fits(i, Count(n), size);
    Fits(j, Count(n), size);
    var a, b := AddBytes(BASE_BYTES, i * size), AddBytes(BASE_BYTES, j * size);
    NextIsInjective(a, b);
    NoCarryNeeded(i * size);
    NoCarryNeeded(j * size);
    if i < j {
      Fits(i, j, size);
    } else if j < i {
      Fits(j, i, size);
    }
  }

  lemma NextIsInjective(a: seq<int>, b: seq<int>)
    requires IsAddress(a) && IsAddress(b) && NextAddress(a) == NextAddress(b)
    ensures a == b
  {
    assert forall k :: 0 <= k < 4 && k != 3 ==> a[k] == NextAddress(a)[k] == NextAddress(b)[k] == b[k];
    assert NextAddress(a)[3] == NextAddress(b)[3];
    assert a[3] == b[3];
  }

  /** Every index gets an address of its own subnet, other than the subnet's own address. */
  ghost predicate AllocatesWell(n: nat)
    requires 1 <= n <= BLOCK
  {
    forall i: nat :: i < Count(n) ==>
      InSubnet(Number(FirstUsable(n, i)), n, i) && Number(FirstUsable(n, i)) != BASE + i * SubnetSize(n)
  }

  /** The allocation is sound exactly for up to 2^21 users.  Beyond that a subnet is a single
      address, and stepping to its "first usable" one leaves it. */
  lemma SoundUpToHalfTheBlock(n: nat)
    requires 1 <= n <= BLOCK
    ensures AllocatesWell(n) <==> n <= BLOCK / 2
  {
    if n <= BLOCK / 2 {
      forall i: nat | i < Count(n)
        ensures InSubnet(Number(FirstUsable(n, i)), n, i) && Number(FirstUsable(n, i)) != BASE + i * SubnetSize(n)
      {
        GoodAddress(n, i);
      }
    } else {
      SingleAddressSubnets(n);
    }
  }

  lemma GoodAddress(n: nat, i: nat)
    requires 1 <= n <= BLOCK / 2 && i < Count(n)
    ensures InSubnet(Number(FirstUsable(n, i)), n, i) && Number(FirstUsable(n, i)) != BASE + i * SubnetSize(n)
  {
    hide SubnetSize, Count, FirstUsable;
    AddressOf(n, i);
    SubnetSizeIsEven(n);
    assert (i + 1) * SubnetSize(n) == i * SubnetSize(n) + SubnetSize(n);
  }

  lemma SizeOne(n: nat)
    requires BLOCK / 2 < n <= BLOCK
    ensures SubnetSize(n) == 1
  {
    SizeIsPositive(n);
    Pow2Of21();
    if Log2Ceil(n) <= 21 {
      Pow2Grows(Log2Ceil(n), 21);
    }
    assert Log2Ceil(n) == 22;
    assert Pow2(0) == 1;
  }

  lemma NoOffset()
    ensures AddBytes(BASE_BYTES, 0) == BASE_BYTES
  {
    NoByteLeft(0, 3, BASE_BYTES);
  }

  lemma SingleAddressSubnets(n: nat)
    requires BLOCK / 2 < n <= BLOCK
    ensures SubnetSize(n) == 1 && FirstUsable(n, 0) == [100, 64, 0, 1] && !InSubnet(Number(FirstUsable(n, 0)), n, 0)
  {
    hide SubnetSize, AddBytes, Count;
    SizeOne(n);
    NoOffset();
    SizeTimesCount(n);
    assert 0 * SubnetSize(n) == 0;
  }

  // ---- The view of the VPN server ----

  /** The addresses of 100.64.0.0/16, the network the VPN view admits clients from. */
  const VIEW: nat := 0x1_0000

  predicate InView(a: nat) {
    BASE <= a < BASE + VIEW
  }

  /** The view admits a whole subnet exactly when the subnet ends within the first 2^16 addresses. */
  lemma ViewCoversSubnet(n: nat, i: nat)
    requires 1 <= n <= BLOCK && i < Count(n)
    ensures (forall a: nat :: InSubnet(a, n, i) ==> InView(a)) <==> (i + 1) * SubnetSize(n) <= VIEW
  {
    hide SubnetSize, Count;
    SizeTimesCount(n);
    var size := SubnetSize(n);
    assert (i + 1) * size == i * size + size;
    var last: nat := BASE + i * size + size - 1;
    assert InSubnet(last, n, i);
  }

  /** It admits the address handed to an index, up to 2^21 users, exactly under this bound. */
  lemma ViewAdmitsAddress(n: nat, i: nat)
    requires 1 <= n <= BLOCK / 2 && i < Count(n)
    ensures InView(Number(FirstUsable(n, i))) <==> i * SubnetSize(n) + 1 < VIEW
  {
    hide SubnetSize, Count, FirstUsable;
    AddressOf(n, i);
  }

  /** With the default of 1024 users the first 16 indices are inside the view and no other is. */
  lemma DefaultUsersInView(i: nat)
    requires i < Count(1024)
    ensures Count(1024) == 1024 && SubnetSize(1024) == 4096
    ensures (forall a: nat :: InSubnet(a, 1024, i) ==> InView(a)) <==> i < 16
    ensures InView(Number(FirstUsable(1024, i))) <==> i < 16
  {
    DefaultSizes();
    hide SubnetSize, Count, FirstUsable, InSubnet;
    ViewCoversSubnet(1024, i);
    ViewAdmitsAddress(1024, i);
  }

  lemma DefaultSizes()
    ensures Count(1024) == 1024 && SubnetSize(1024) == 4096
  {
    hide Pow2;
    SmallPowers();
    Pow2Split(5, 5);
    Pow2Split(10, 1);
    Pow2Split(11, 1);
    var k := Log2Ceil(1024);
    if k < 10 {
      Pow2Of9();
      Pow2Grows(k, 9);
    }
    assert k == 10;
  }

  lemma Pow2Of9()
    ensures Pow2(9) == 512
  {
    hide Pow2;
    SmallPowers();
    Pow2Split(5, 4);
  }

  // ---- Looking an address up for a user ----

  ghost function LocalIp(userIndex: string, maxUsers: Option<nat>): Result<Option<seq<int>>, string>
    requires maxUsers.Some? ==> 1 <= maxUsers.value <= BLOCK
  {
    if userIndex == "" then Success(None)
    else
      match maxUsers
      case None => Failure("parse user index failed")
      case Some(n) =>
        if i: nat :| i < Count(n) && Decimal(i) == userIndex then Success(Some(FirstUsable(n, i)))
        else Failure("invalid ip address")
  }

  /** What the lookup comes to, by the annotation and the maximum: no annotation, no address; with
      one, an error if the maximum does not parse or the annotation is not the number of a subnet in
      decimal notation, and otherwise the address of that subnet. */
  lemma LocalIpMeans(userIndex: string, maxUsers: Option<nat>)
    requires maxUsers.Some? ==> 1 <= maxUsers.value <= BLOCK
    ensures LocalIp(userIndex, maxUsers) == Success(None) <==> userIndex == ""
    ensures LocalIp(userIndex, maxUsers).Failure? <==>
            userIndex != ""
            && (maxUsers.None? || !KeyBelow(userIndex, Count(maxUsers.value)))
    ensures forall i: nat :: maxUsers.Some? && i < Count(maxUsers.value) && Decimal(i) == userIndex ==>
              LocalIp(userIndex, maxUsers) == Success(Some(FirstUsable(maxUsers.value, i)))
  {
    forall i: nat | maxUsers.Some? && i < Count(maxUsers.value) && Decimal(i) == userIndex
      ensures LocalIp(userIndex, maxUsers) == Success(Some(FirstUsable(maxUsers.value, i)))
    {
      LocalIpAt(maxUsers.value, i);
    }
  }

  lemma LocalIpAt(n: nat, i: nat)
    requires 1 <= n <= BLOCK && i < Count(n)
    ensures LocalIp(Decimal(i), Some(n)) == Success(Some(FirstUsable(n, i)))
  {
    forall j: nat | Decimal(j) == Decimal(i) ensures j == i {
      DecimalInjective(j, i);
    }
  }

  /** `getUserLocalIp`: no index means no address, an index outside the table is an error, and so
      is a maximum that does not parse. */
  method GetUserLocalIp(userIndex: string, maxUsers: Option<nat>) returns (r: Result<Option<seq<int>>, string>)
    requires maxUsers.Some? ==> 1 <= maxUsers.value <= BLOCK
    ensures r == LocalIp(userIndex, maxUsers)
    ensures r == Success(None) <==> userIndex == ""
    ensures r.Failure? <==>
            userIndex != ""
            && (maxUsers.None? || !KeyBelow(userIndex, Count(maxUsers.value)))
    ensures forall i: nat :: maxUsers.Some? && i < Count(maxUsers.value) && Decimal(i) == userIndex ==>
              r == Success(Some(FirstUsable(maxUsers.value, i)))
  {
    hide Count, FirstUsable, Decimal;
    LocalIpMeans(userIndex, maxUsers);
    if userIndex == "" {
      return Success(None);
    }
    match maxUsers
    case None => return Failure("parse user index failed");
    case Some(n) =>
      var table := SubDNSSplit(n);
      if userIndex !in table {
        return Failure("invalid ip address");
      }
      ghost var i: nat :| i < Count(n) && Decimal(i) == userIndex;
      return Success(Some(table[userIndex]));
  }
}
