/** Enumeration of the hosts of an IPv4 network: an address is a big-endian byte
    array that is stepped in place with a carry, and the loop runs while the
    network still contains it. */
module Scan {
  import opened Common

  // --------------------------------------------------------- byte arithmetic

  /** The byte string of a given length that stands for `v`. */
  function Bytes(v: nat, n: nat): (bs: seq<Byte>)
    ensures |bs| == n
  {
    if n == 0 then [] else Bytes(v / 256, n - 1) + [(v % 256) as Byte]
  }

  lemma {:induction false} ValueOfBytes(v: nat, n: nat)
    requires v < Pow(256, n)
    ensures Value(Bytes(v, n)) == v
  {
    if n > 0 {
      ValueOfBytes(v / 256, n - 1);
      assert Bytes(v, n)[..n - 1] == Bytes(v / 256, n - 1);
    }
  }

  lemma {:induction false} ValueIsInjective(a: seq<Byte>, b: seq<Byte>)
    requires |a| == |b| && Value(a) == Value(b)
    ensures a == b
  {
    if a != [] {
      var n := |a| - 1;
      assert a[n] == b[n] && Value(a[..n]) == Value(b[..n]);
      ValueIsInjective(a[..n], b[..n]);
      assert a == a[..n] + [a[n]] && b == b[..n] + [b[n]];
    }
  }

  function Repeat(b: Byte, n: nat): (bs: seq<Byte>) { seq(n, _ => b) }

  lemma {:induction false} ValueOfZeros(n: nat)
    ensures Value(Repeat(0, n)) == 0
  {
    if n > 0 {
      ValueOfZeros(n - 1);
      assert Repeat(0, n)[..n - 1] == Repeat(0, n - 1);
    }
  }

  lemma {:induction false} ValueOfOnes(n: nat)
    ensures Value(Repeat(255, n)) == Pow(256, n) - 1
  {
    if n > 0 {
      ValueOfOnes(n - 1);
      assert Repeat(255, n)[..n - 1] == Repeat(255, n - 1);
    }
  }

  /** A carry that stops at byte `j` adds one. */
  lemma {:induction false} CarryStops(before: seq<Byte>, after: seq<Byte>, j: nat)
    requires |before| == |after| && j < |before|
    requires before[..j] == after[..j] && before[j] < 255 && after[j] == before[j] + 1
    requires forall i :: j < i < |before| ==> before[i] == 255 && after[i] == 0
    ensures Value(after) == Value(before) + 1
  {
    var n := |before| - 1;
    if j < n {
      assert before[..n][..j] == before[..j] && after[..n][..j] == after[..j];
      CarryStops(before[..n], after[..n], j);
    } else {
      assert before[..n] == after[..n];
    }
  }

  lemma SmallMod(a: nat, m: nat)
    requires a < m
    ensures a % m == a
  {
  }

  /** A carry that runs off the front wraps all ones to zero. */
  lemma CarryWraps(n: nat)
    ensures Value(Repeat(0, n)) == (Value(Repeat(255, n)) + 1) % Pow(256, n)
  {
    ValueOfOnes(n);
    ValueOfZeros(n);
    ModSelf(Value(Repeat(255, n)) + 1);
  }

  lemma ModSelf(m: nat)
    requires m > 0
    ensures m % m == 0
  {
  }

  /** The bytes from `j` on were all ones and are now all zeros. */
  ghost predicate Carried(before: seq<Byte>, now: seq<Byte>, j: nat) {
    && |now| == |before| && j <= |before|
    && now[..j] == before[..j]
    && before[j..] == Repeat(255, |before| - j)
    && now[j..] == Repeat(0, |before| - j)
  }

  lemma CarriedOnce(before: seq<Byte>, now: seq<Byte>, j: nat, next: seq<Byte>)
    requires j < |before| && Carried(before, now, j + 1) && next == now[j := if now[j] == 255 then 0 else now[j] + 1]
    ensures next[j] == 0 ==> Carried(before, next, j)
    ensures next[j] != 0 ==> Value(next) == (Value(before) + 1) % Pow(256, |before|)
  {
    assert now[j] == before[j] by { assert now[..j + 1][j] == before[..j + 1][j]; }
    assert now[..j] == before[..j] by { assert now[..j + 1][..j] == before[..j + 1][..j]; }
    assert next[..j] == now[..j] && next[j + 1..] == now[j + 1..];
    if next[j] == 0 {
      assert next[j..] == [0] + next[j + 1..];
      assert before[j..] == [255] + before[j + 1..];
    } else {
      forall i | j < i < |before| ensures before[i] == 255 && next[i] == 0 {
        assert before[i] == before[j + 1..][i - j - 1] && next[i] == next[j + 1..][i - j - 1];
      }
      CarryStops(before, next, j);
      SmallMod(Value(next), Pow(256, |before|));
    }
  }

  /** One step of the enumeration: plus one modulo 2^(8 * length). */
  method IncIP(ip: array<Byte>)
    modifies ip
    ensures Value(ip[..]) == (Value(old(ip[..])) + 1) % Pow(256, ip.Length)
  {
    ghost var before := ip[..];
    var j := ip.Length - 1;
    while j >= 0
      invariant -1 <= j < ip.Length
      invariant Carried(before, ip[..], j + 1)
    {
      ghost var now := ip[..];
      ip[j] := if ip[j] == 255 then 0 else ip[j] + 1;
      CarriedOnce(before, now, j, ip[..]);
      if ip[j] > 0 {
        return;
      }
      j := j - 1;
    }
    assert before == before[0..] && ip[..] == ip[..][0..];
    CarryWraps(ip.Length);
  }

  // ------------------------------------------------------------ enumeration

  const IPV4_BITS: nat := 32

  type Quad = q: seq<Byte> | |q| == 4 witness [0, 0, 0, 0]

  /** What parsing the CIDR text gives. */
  datatype Cidr = Malformed | V6 | V4(ip: Quad, ones: nat)

  /** Number of addresses that share a prefix of `ones` bits. */
  function Size(ones: nat): (n: nat)
    requires ones <= IPV4_BITS
    ensures n > 0
  {
    Pow(2, IPV4_BITS - ones)
  }

  function Times(a: nat, b: nat): (p: nat) { a * b }

  function Quotient(a: nat, b: nat): (q: nat)
    requires b > 0
  {
    a / b
  }

  /** The address with all bits after the prefix cleared. */
  function Base(ip: Quad, ones: nat): (lo: nat)
    requires ones <= IPV4_BITS
  {
    Times(Quotient(Value(ip), Size(ones)), Size(ones))
  }

  /** The two addresses agree on the prefix. */
  predicate Contains(ip: Quad, ones: nat, a: Quad)
    requires ones <= IPV4_BITS
  {
    Value(a) / Size(ones) == Value(ip) / Size(ones)
  }

  lemma {:induction false} PowAdd(m: nat, n: nat)
    ensures Pow(2, m + n) == Pow(2, m) * Pow(2, n)
  {
    if m > 0 {
      PowAdd(m - 1, n);
      assert m - 1 + n == m + n - 1;
      Double(Pow(2, m - 1), Pow(2, n));
    }
  }

  lemma Double(p: nat, q: nat)
    ensures 2 * (p * q) == (2 * p) * q
  {
  }

  lemma AllAddresses()
    ensures Pow(256, 4) == 0x1_0000_0000
    ensures Pow(2, IPV4_BITS) == 0x1_0000_0000
  {
    assert Pow(2, 8) == 256;
    assert Pow(2, 16) == 65536;
    assert Pow(2, 24) == 0x100_0000;
  }

  lemma MulMonotone(a: nat, b: nat, c: nat)
    requires a <= b
    ensures a * c <= b * c
  {
  }

  lemma DivRange(a: nat, q: nat, size: nat)
    requires size > 0
    ensures a / size == q <==> q * size <= a < q * size + size
  {
    var k := a / size;
    assert a == k * size + a % size;
    if k < q {
      MulMonotone(k + 1, q, size);
    } else if k > q {
      MulMonotone(q + 1, k, size);
    }
  }

  lemma BlockInside(v: nat, size: nat, p: nat)
    requires size > 0 && v < p * size
    ensures v / size * size + size <= p * size
  {
    var q := v / size;
    DivRange(v, q, size);
    if q >= p {
      MulMonotone(p, q, size);
    } else {
      MulMonotone(q + 1, p, size);
    }
  }

  /** A network is a block of consecutive addresses that ends inside the address
      space, and it starts past the first address of the space when it ends at
      its end. */
  lemma NetworkIsBlock(ip: Quad, ones: nat)
    requires ones <= IPV4_BITS
    ensures forall a: Quad :: Contains(ip, ones, a) <==> Base(ip, ones) <= Value(a) < Base(ip, ones) + Size(ones)
    ensures Base(ip, ones) + Size(ones) <= 0x1_0000_0000
    ensures ones > 0 ==> 2 * Size(ones) <= 0x1_0000_0000
  {
    var size, q := Size(ones), Value(ip) / Size(ones);
    forall a: Quad ensures Contains(ip, ones, a) <==> q * size <= Value(a) < q * size + size {
      DivRange(Value(a), q, size);
    }
    AllAddresses();
    PowAdd(ones, IPV4_BITS - ones);
    BlockInside(Value(ip), size, Pow(2, ones));
    if ones > 0 {
      assert Pow(2, ones) >= 2;
      MulMonotone(2, Pow(2, ones), size);
    }
  }

  lemma SizeOfPair(ones: nat)
    requires ones < 31
    ensures Size(ones) >= 4
  {
    var n := IPV4_BITS - ones;
    assert Pow(2, n) == 2 * Pow(2, n - 1);
    assert Pow(2, n - 1) == 2 * Pow(2, n - 2);
  }

  /** The loop guard, `k` steps into the enumeration, says that the block is not
      used up: past its end lies another block, or the first address again. */
  lemma GuardCounts(ip: Quad, ones: nat, k: nat, a: Quad)
    requires 1 <= ones <= IPV4_BITS && k <= Size(ones)
    requires Value(a) == (Base(ip, ones) + k) % 0x1_0000_0000
    ensures Contains(ip, ones, a) <==> k < Size(ones)
    ensures k < Size(ones) ==> Value(a) == Base(ip, ones) + k
    ensures k < Size(ones) ==> (Value(a) + 1) % 0x1_0000_0000 == (Base(ip, ones) + (k + 1)) % 0x1_0000_0000
  {
    NetworkIsBlock(ip, ones);
  }

  /** `list` counts up through the block of `n` addresses from `first`. */
  ghost predicate CountsUp(list: seq<Quad>, first: nat, n: nat) {
    |list| == n && forall i :: 0 <= i < n ==> Value(list[i]) == first + i
  }

  /** The address with its host bits cleared, in an array of its own. */
  method Masked(ip: Quad, ones: nat) returns (a: array<Byte>)
    requires 1 <= ones <= IPV4_BITS
    ensures fresh(a) && a.Length == 4 && Value(a[..]) == Base(ip, ones) == Base(ip, ones) % 0x1_0000_0000
  {
    NetworkIsBlock(ip, ones);
    AllAddresses();
    var bytes := Bytes(Base(ip, ones), 4);
    ValueOfBytes(Base(ip, ones), 4);
    a := new Byte[4];
    forall i | 0 <= i < 4 { a[i] := bytes[i]; }
    assert a[..] == bytes;
  }

  /** The loop: every address of the network in ascending order. */
  method Enumerate(ip: Quad, ones: nat) returns (ips: seq<Quad>)
    requires 1 <= ones <= IPV4_BITS
    ensures CountsUp(ips, Base(ip, ones), Size(ones))
  {
    ips := [];
    var hostIP := Masked(ip, ones);
    GuardCounts(ip, ones, 0, hostIP[..]);
    while Contains(ip, ones, hostIP[..])
      invariant |ips| <= Size(ones) && CountsUp(ips, Base(ip, ones), |ips|)
      invariant Value(hostIP[..]) == (Base(ip, ones) + |ips|) % 0x1_0000_0000
      invariant fresh(hostIP) && hostIP.Length == 4
      decreases Size(ones) - |ips|
    {
      GuardCounts(ip, ones, |ips|, hostIP[..]);
      ips := ips + [hostIP[..]];
      AllAddresses();
      IncIP(hostIP);
    }
    GuardCounts(ip, ones, |ips|, hostIP[..]);
  }

  /** Every address of the network in ascending order, without the network and
      broadcast addresses when the prefix is shorter than 31 bits. A prefix of
      zero bits is excluded: see `ZeroPrefixNeverLeaves`. */
  method Hosts(cidr: Cidr) returns (r: Result<seq<Quad>, string>)
    requires cidr.V4? ==> 1 <= cidr.ones <= IPV4_BITS
    ensures r.Err? <==> cidr.Malformed?
    ensures cidr.V6? ==> r == Ok([])
    ensures cidr.V4? && cidr.ones >= 31 ==> CountsUp(r.value, Base(cidr.ip, cidr.ones), Size(cidr.ones))
    ensures cidr.V4? && cidr.ones < 31 ==>
      Size(cidr.ones) >= 4 && CountsUp(r.value, Base(cidr.ip, cidr.ones) + 1, Size(cidr.ones) - 2)
  {
    if cidr.Malformed? {
      return Err("parse cidr");
    }
    if cidr.V6? {
      return Ok([]);
    }
    var ips := Enumerate(cidr.ip, cidr.ones);
    if cidr.ones < 31 {
      SizeOfPair(cidr.ones);
      if |ips| > 2 {
        return Ok(ips[1..|ips| - 1]);
      }
    }
    return Ok(ips);
  }

  /** The enumeration leaves out nothing and adds nothing. */
  lemma CountsUpIsExact(ip: Quad, ones: nat, list: seq<Quad>, first: nat, n: nat, a: Quad)
    requires 1 <= ones <= IPV4_BITS && CountsUp(list, first, n)
    ensures a in list <==> first <= Value(a) < first + n
    ensures first == Base(ip, ones) && n == Size(ones) ==> (a in list <==> Contains(ip, ones, a))
    ensures first == Base(ip, ones) + 1 && n == Size(ones) - 2 ==>
      (a in list <==>
         Contains(ip, ones, a) && Value(a) != Base(ip, ones) && Value(a) != Base(ip, ones) + Size(ones) - 1)
  {
    NetworkIsBlock(ip, ones);
    if first <= Value(a) < first + n {
      ValueIsInjective(list[Value(a) - first], a);
    }
  }

  /** With a prefix of zero bits the loop guard holds of every address. */
  lemma ZeroPrefixNeverLeaves(ip: Quad, a: Quad)
    ensures Contains(ip, 0, a)
  {
    AllAddresses();
    assert Value(ip) < 0x1_0000_0000 && Value(a) < 0x1_0000_0000;
  }
}
