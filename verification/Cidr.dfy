/** IPv4 blocks in prefix notation (section 3.1 of RFC 4632), as `net.ParseCIDR` and `IPNet.Contains` treat them. */
module Cidr {
  const ADDRESS_SPACE := 0x1_0000_0000

  /** A parsed block: the address as written, the length of its IPv4 prefix, and the width of its mask
      (128 for an IPv4 address written as an IPv6 one, otherwise 32). */
  datatype Block = Block(ip: nat, prefix: nat, bits: nat)

  predicate WellFormed(b: Block) {
    b.ip < ADDRESS_SPACE && b.prefix <= 32 && (b.bits == 32 || b.bits == 128)
  }

  type Ipv4Block = b: Block | WellFormed(b) witness Block(0, 0, 32)

  function Pow2(n: nat): (p: nat)
    ensures p > 0
  {
    if n == 0 then 1 else 2 * Pow2(n - 1)
  }

  function Size(b: Block): (size: nat)
    requires b.prefix <= 32
    ensures size > 0
  {
    Pow2(32 - b.prefix)
  }

  /** The prefix bits of an address, as a number. */
  function Masked(ip: nat, b: Block): nat
    requires b.prefix <= 32
  {
    Quotient(ip, Size(b))
  }

  function Quotient(ip: nat, size: nat): nat
    requires size > 0
  {
    ip / size
  }

  /** The address as written is the first one of the block. */
  predicate Canonical(b: Block)
    requires b.prefix <= 32
  {
    b.ip == Masked(b.ip, b) * Size(b)
  }

  predicate Contains(b: Block, ip: nat)
    requires b.prefix <= 32
  {
    Masked(ip, b) == Masked(b.ip, b)
  }

  predicate InRange(ip: nat, start: nat, size: nat) {
    start <= ip < start + size
  }

  ghost function Range(start: nat, size: nat): set<nat> {
    set ip: nat | start <= ip < start + size && InRange(ip, start, size)
  }

  ghost function Addresses(b: Block): set<nat>
    requires b.prefix <= 32
  {
    Range(Masked(b.ip, b) * Size(b), Size(b))
  }

  lemma DivRange(ip: nat, size: nat, q: nat)
    requires size > 0
    ensures ip / size == q <==> q * size <= ip < q * size + size
  {
    assert ip == (ip / size) * size + ip % size;
    if ip / size < q {
      MulMono(ip / size + 1, q, size);
    } else if ip / size > q {
      MulMono(q + 1, ip / size, size);
    }
  }

  lemma MulMono(a: int, b: int, size: nat)
    requires a <= b
    ensures a * size <= b * size && (a + 1) * size == a * size + size
  {
  }

  lemma ContainsMeansAddress(b: Block, ip: nat)
    requires b.prefix <= 32
    ensures Contains(b, ip) <==> ip in Addresses(b)
  {
    DivRange(ip, Size(b), Masked(b.ip, b));
  }

  lemma {:induction false} PowersDivide(a: nat, b: nat)
    requires a <= b
    ensures exists k: nat :: k > 0 && Pow2(b) == k * Pow2(a)
    decreases b - a
  {
    if a == b {
      assert Pow2(b) == 1 * Pow2(a);
    } else {
      PowersDivide(a, b - 1);
      var k: nat :| k > 0 && Pow2(b - 1) == k * Pow2(a);
      assert Pow2(b) == (2 * k) * Pow2(a);
    }
  }

  /** Two aligned blocks, the larger one `k` times the smaller: a common address puts the smaller inside. */
  lemma AlignedInside(qx: nat, qy: nat, sx: nat, sy: nat, k: nat, ip: nat)
    requires sy > 0 && k > 0 && sx == k * sy
    requires qx * sx <= ip < qx * sx + sx
    requires qy * sy <= ip < qy * sy + sy
    ensures qx * sx <= qy * sy && qy * sy + sy <= qx * sx + sx
  {
    var start := qx * k;
    assert qx * sx == start * sy by { assert qx * (k * sy) == (qx * k) * sy; }
    assert qx * sx + sx == (start + k) * sy;
    if qy < start {
      MulMono(qy + 1, start, sy);
    }
    if start + k < qy + 1 {
      MulMono(start + k, qy, sy);
    }
    MulMono(start, qy, sy);
    MulMono(qy + 1, start + k, sy);
  }

  lemma SharedAddressNests(x: Block, y: Block, ip: nat)
    requires WellFormed(x) && WellFormed(y) && Canonical(x) && Canonical(y) && x.prefix <= y.prefix
    requires ip in Addresses(x) && ip in Addresses(y)
    ensures Addresses(y) <= Addresses(x) && y.ip in Addresses(x)
  {
    PowersDivide(32 - y.prefix, 32 - x.prefix);
    var k: nat :| k > 0 && Size(x) == k * Size(y);
    AlignedInside(Masked(x.ip, x), Masked(y.ip, y), Size(x), Size(y), k, ip);
  }

  /** Two canonical blocks share an address exactly when one contains the other's first address. */
  lemma OverlapIsBaseContainment(x: Block, y: Block)
    requires WellFormed(x) && WellFormed(y) && Canonical(x) && Canonical(y)
    ensures Contains(x, y.ip) || Contains(y, x.ip) <==> Addresses(x) * Addresses(y) != {}
  {
    ContainsMeansAddress(x, y.ip);
    ContainsMeansAddress(y, x.ip);
    if Contains(x, y.ip) {
      assert y.ip in Addresses(x) * Addresses(y);
    } else if Contains(y, x.ip) {
      assert x.ip in Addresses(x) * Addresses(y);
    } else if Addresses(x) * Addresses(y) != {} {
      var ip :| ip in Addresses(x) * Addresses(y);
      if x.prefix <= y.prefix { SharedAddressNests(x, y, ip); } else { SharedAddressNests(y, x, ip); }
    }
  }

  lemma {:induction false} RangeCardinality(start: nat, size: nat)
    ensures |Range(start, size)| == size
    decreases size
  {
    if size > 0 {
      var last := start + size - 1;
      assert InRange(last, start, size);
      assert forall ip: nat :: InRange(ip, start, size) <==> InRange(ip, start, size - 1) || ip == last;
      assert Range(start, size) == Range(start, size - 1) + {last};
      RangeCardinality(start, size - 1);
    } else {
      assert Range(start, size) == {};
    }
  }

  lemma SizeIsCardinality(b: Block)
    requires b.prefix <= 32
    ensures |Addresses(b)| == Size(b)
  {
    RangeCardinality(Masked(b.ip, b) * Size(b), Size(b));
  }

  lemma {:induction false} PowMono(a: nat, b: nat)
    requires a < b
    ensures Pow2(a) < Pow2(b)
    decreases b
  {
    if a < b - 1 {
      PowMono(a, b - 1);
    }
  }

  /** A canonical block lies inside another exactly when its first address does and its prefix is no shorter. */
  lemma InsideIsBaseAndPrefix(x: Block, y: Block)
    requires WellFormed(x) && WellFormed(y) && Canonical(x) && Canonical(y)
    ensures Contains(x, y.ip) && y.prefix >= x.prefix <==> Addresses(y) <= Addresses(x)
  {
    ContainsMeansAddress(x, y.ip);
    if Contains(x, y.ip) && y.prefix >= x.prefix {
      SharedAddressNests(x, y, y.ip);
    }
    SizeIsCardinality(x);
    SizeIsCardinality(y);
    SubsetSize(Addresses(y), Addresses(x));
    if y.prefix < x.prefix {
      PowMono(32 - x.prefix, 32 - y.prefix);
    }
  }

  lemma {:induction false} PowersMultiply(a: nat, b: nat)
    ensures Pow2(a) * Pow2(b) == Pow2(a + b)
  {
    if a > 0 {
      PowersMultiply(a - 1, b);
      assert Pow2(a) * Pow2(b) == 2 * (Pow2(a - 1) * Pow2(b));
    }
  }

  lemma PowersOfTwo()
    ensures Pow2(8) == 256 && Pow2(16) == 65536 && Pow2(32) == 4294967296
  {
    assert Pow2(8) == 256;
    PowersMultiply(8, 8);
    PowersMultiply(16, 16);
  }

  /** The blocks of one prefix share out the 32-bit address space: 2 to the prefix of them, of equal size. Two addresses
      are in one block exactly if their first `prefix` bits agree. */
  lemma PrefixSharesOut(b: Block, ip: nat)
    requires b.prefix <= 32
    ensures |Addresses(b)| * Pow2(b.prefix) == 4294967296
    ensures ip in Addresses(b) <==> ip / Pow2(32 - b.prefix) == b.ip / Pow2(32 - b.prefix)
  {
    SizeIsCardinality(b);
    PowersMultiply(32 - b.prefix, b.prefix);
    PowersOfTwo();
    ContainsMeansAddress(b, ip);
  }

  /** A block is canonical exactly if no address of it is below the one written. */
  lemma CanonicalIsFirst(b: Block)
    requires b.prefix <= 32
    ensures Canonical(b) <==> forall ip | ip in Addresses(b) :: b.ip <= ip
  {
    ContainsMeansAddress(b, b.ip);
    var start := Masked(b.ip, b) * Size(b);
    assert InRange(start, start, Size(b)) && start in Addresses(b);
  }

  lemma SubsetSize(a: set<nat>, b: set<nat>)
    ensures a <= b ==> |a| <= |b|
  {
    if a <= b {
      assert b == a + (b - a);
    }
  }

  // ---------------------------------------------------------------- many blocks

  function TotalSize(blocks: seq<Block>): nat
    requires forall b | b in blocks :: b.prefix <= 32
  {
    if blocks == [] then 0 else Size(blocks[0]) + TotalSize(blocks[1..])
  }

  ghost predicate PairwiseDisjoint(blocks: seq<Block>)
    requires forall b | b in blocks :: b.prefix <= 32
  {
    forall i, j | 0 <= i < j < |blocks| :: Addresses(blocks[i]) * Addresses(blocks[j]) == {}
  }

  ghost function AllAddresses(blocks: seq<Block>): set<nat>
    requires forall b | b in blocks :: b.prefix <= 32
  {
    if blocks == [] then {} else Addresses(blocks[0]) + AllAddresses(blocks[1..])
  }

  lemma {:induction false} AllAddressesOf(blocks: seq<Block>, ip: nat)
    requires forall b | b in blocks :: b.prefix <= 32
    ensures ip in AllAddresses(blocks) <==> exists b :: b in blocks && ip in Addresses(b)
    decreases |blocks|
  {
    if blocks != [] {
      AllAddressesOf(blocks[1..], ip);
      assert blocks == [blocks[0]] + blocks[1..];
    }
  }

  lemma {:induction false} DisjointSizesAdd(blocks: seq<Block>)
    requires forall b | b in blocks :: b.prefix <= 32
    requires PairwiseDisjoint(blocks)
    ensures |AllAddresses(blocks)| == TotalSize(blocks)
    decreases |blocks|
  {
    if blocks != [] {
      var rest := blocks[1..];
      forall i, j | 0 <= i < j < |rest| ensures Addresses(rest[i]) * Addresses(rest[j]) == {} {
        assert rest[i] == blocks[i + 1] && rest[j] == blocks[j + 1];
      }
      DisjointSizesAdd(rest);
      SizeIsCardinality(blocks[0]);
      forall b | b in rest ensures Addresses(blocks[0]) * Addresses(b) == {} {
        var j :| 0 <= j < |rest| && rest[j] == b;
        assert blocks[j + 1] == b && Addresses(blocks[0]) * Addresses(blocks[j + 1]) == {};
      }
      forall ip | ip in Addresses(blocks[0]) ensures ip !in AllAddresses(rest) {
        AllAddressesOf(rest, ip);
        assert forall b | b in rest :: ip !in Addresses(blocks[0]) * Addresses(b);
      }
      assert Addresses(blocks[0]) !! AllAddresses(rest);
    }
  }

  /** Disjoint blocks inside a block cannot be larger than it together. */
  lemma DisjointBlocksFit(outer: Block, blocks: seq<Block>)
    requires outer.prefix <= 32 && forall b | b in blocks :: b.prefix <= 32
    requires PairwiseDisjoint(blocks)
    requires forall b | b in blocks :: Addresses(b) <= Addresses(outer)
    ensures TotalSize(blocks) <= Size(outer)
  {
    DisjointSizesAdd(blocks);
    SizeIsCardinality(outer);
    forall ip | ip in AllAddresses(blocks) ensures ip in Addresses(outer) {
      AllAddressesOf(blocks, ip);
    }
    SubsetSize(AllAddresses(blocks), Addresses(outer));
  }
}
