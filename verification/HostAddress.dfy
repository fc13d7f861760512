/** Host addresses inside a prefix, in the notation of section 3.1 of RFC 4632 and section 2.3 of RFC 4291:
    the arithmetic on big integers and the way from addresses to integers and back. */
module HostAddress {
  import opened Wrappers

  type Byte = b: int | 0 <= b < 256

  /** The bytes of an address, first byte first: 4 of them or 16. */
  type Address = seq<Byte>

  datatype Prefix = Prefix(addr: Address, bits: nat) {
    predicate Valid() {
      (|addr| == 4 || |addr| == 16) && bits <= 8 * |addr|
    }

    function HostBits(): nat
      requires Valid()
    {
      8 * |addr| - bits
    }
  }

  function Pow2(n: nat): (p: int)
    ensures p > 0
  {
    if n == 0 then 1 else 2 * Pow2(n - 1)
  }

  lemma {:induction false} Pow2Sum(a: nat, b: nat)
    ensures Pow2(a + b) == Pow2(a) * Pow2(b)
  {
    if a > 0 {
      Pow2Sum(a - 1, b);
      TwiceProduct(Pow2(a - 1), Pow2(b));
    }
  }

  lemma TwiceProduct(x: int, y: int)
    ensures 2 * (x * y) == (2 * x) * y
  {
  }

  // Addresses and integers.

  /** The big-endian value of the bytes. */
  function ValueOf(bytes: seq<Byte>): nat {
    if bytes == [] then 0 else 256 * ValueOf(bytes[..|bytes| - 1]) + bytes[|bytes| - 1]
  }

  /** The bytes of a value without leading zeros. */
  function BytesOf(v: nat): seq<Byte> {
    if v == 0 then [] else BytesOf(v / 256) + [v % 256]
  }

  function Zeros(n: nat): seq<Byte> {
    seq(n, _ => 0)
  }

  lemma {:induction false} ValueBound(bytes: seq<Byte>)
    ensures ValueOf(bytes) < Pow2(8 * |bytes|)
  {
    if bytes != [] {
      ValueBound(bytes[..|bytes| - 1]);
      Pow2Sum(8, 8 * (|bytes| - 1));
      assert Pow2(8) == 256;
    }
  }

  lemma {:induction false} BytesOfBound(v: nat, n: nat)
    requires v < Pow2(8 * n)
    ensures |BytesOf(v)| <= n
  {
    if v > 0 {
      if n > 0 {
        Pow2Sum(8, 8 * (n - 1));
        assert Pow2(8) == 256;
        assert v / 256 < Pow2(8 * (n - 1));
        BytesOfBound(v / 256, n - 1);
      }
    }
  }

  /** Leading zero bytes do not change the value, and the value determines all the others. */
  lemma {:induction false} BytesOfValue(bytes: seq<Byte>)
    ensures |BytesOf(ValueOf(bytes))| <= |bytes|
    ensures Zeros(|bytes| - |BytesOf(ValueOf(bytes))|) + BytesOf(ValueOf(bytes)) == bytes
  {
    if bytes != [] {
      var rest, last := bytes[..|bytes| - 1], bytes[|bytes| - 1];
      BytesOfValue(rest);
      var v := ValueOf(bytes);
      assert v / 256 == ValueOf(rest) && v % 256 == last;
      assert bytes == rest + [last];
      if v == 0 {
        assert last == 0 && BytesOf(ValueOf(rest)) == [];
        assert Zeros(|bytes|) == Zeros(|rest|) + [0];
        assert Zeros(|bytes|) + [] == Zeros(|bytes|);
      } else {
        assert BytesOf(v) == BytesOf(ValueOf(rest)) + [last];
        assert Zeros(|rest| - |BytesOf(ValueOf(rest))|) + (BytesOf(ValueOf(rest)) + [last])
            == Zeros(|rest| - |BytesOf(ValueOf(rest))|) + BytesOf(ValueOf(rest)) + [last];
      }
    }
  }

  lemma {:induction false} ValueOfZeros(n: nat, bytes: seq<Byte>)
    ensures ValueOf(Zeros(n) + bytes) == ValueOf(bytes)
  {
    var all := Zeros(n) + bytes;
    if bytes != [] {
      assert all[..|all| - 1] == Zeros(n) + bytes[..|bytes| - 1];
      ValueOfZeros(n, bytes[..|bytes| - 1]);
    } else if n > 0 {
      assert all[..|all| - 1] == Zeros(n - 1) + bytes;
      ValueOfZeros(n - 1, bytes);
    }
  }

  lemma {:induction false} ValueOfBytes(v: nat)
    ensures ValueOf(BytesOf(v)) == v
  {
    if v > 0 {
      ValueOfBytes(v / 256);
      assert BytesOf(v)[..|BytesOf(v)| - 1] == BytesOf(v / 256);
    }
  }

  /** Packs the bytes of the value into the end of an address. */
  method IntToIP(v: nat, size: nat) returns (addr: Address)
    requires v < Pow2(8 * size)
    ensures |addr| == size && ValueOf(addr) == v
  {
    var ipBytes := BytesOf(v);
    BytesOfBound(v, size);
    var ret := new Byte[size](_ => 0);
    for i := 1 to |ipBytes| + 1
      invariant forall j :: 0 <= j < size - i + 1 ==> ret[j] == 0
      invariant forall j :: size - i < j < size ==> ret[j] == ipBytes[j - (size - |ipBytes|)]
    {
      ret[ret.Length - i] := ipBytes[|ipBytes| - i];
    }
    addr := ret[..];
    Packed(addr, ipBytes);
    ValueOfZeros(size - |ipBytes|, ipBytes);
    ValueOfBytes(v);
  }

  /** The first byte is the most significant one. */
  lemma {:induction false} FirstByte(b: Byte, rest: seq<Byte>)
    ensures ValueOf([b] + rest) == b * Pow2(8 * |rest|) + ValueOf(rest)
  {
    var all := [b] + rest;
    if rest == [] {
      assert all[..0] == [];
      assert ValueOf(all) == 256 * ValueOf(all[..0]) + all[0];
    } else {
      var init, last := rest[..|rest| - 1], rest[|rest| - 1];
      assert all[..|all| - 1] == [b] + init;
      FirstByte(b, init);
      Pow2Sum(8, 8 * |init|);
      assert Pow2(8) == 256;
      Product256(b, Pow2(8 * |init|));
    }
  }

  lemma Product256(b: int, p: int)
    ensures 256 * (b * p) == b * (256 * p)
  {
  }

  /** The value tells addresses of the same length apart. */
  lemma SameValue(a: Address, b: Address)
    requires |a| == |b| && ValueOf(a) == ValueOf(b)
    ensures a == b
  {
    BytesOfValue(a);
    BytesOfValue(b);
  }

  lemma Packed(addr: Address, bytes: seq<Byte>)
    requires |bytes| <= |addr|
    requires forall j :: 0 <= j < |addr| - |bytes| ==> addr[j] == 0
    requires forall j :: |addr| - |bytes| <= j < |addr| ==> addr[j] == bytes[j - (|addr| - |bytes|)]
    ensures addr == Zeros(|addr| - |bytes|) + bytes
  {
  }

  /** Turning an address into an integer and back gives the address, leading zero bytes included. */
  method RoundTrip(addr: Address) returns (back: Address)
    ensures back == addr
  {
    ValueBound(addr);
    back := IntToIP(ValueOf(addr), |addr|);
    SameValue(back, addr);
  }

  // The bitwise or.

  function Or(a: nat, b: nat): nat
    decreases a + b
  {
    if a == 0 then b else if b == 0 then a
    else 2 * Or(a / 2, b / 2) + if a % 2 == 1 || b % 2 == 1 then 1 else 0
  }

  lemma HalfFirst(v: nat, p: nat)
    requires p > 0
    ensures v / (2 * p) == v / 2 / p
  {
    var q, r := v / 2 / p, v / 2 % p;
    assert v == 2 * (v / 2) + v % 2 && v / 2 == p * q + r;
    assert 2 * (p * q) == (2 * p) * q;
    DivModUnique(v, 2 * p, q, 2 * r + v % 2);
  }

  /** Bit i of the or is set if and only if it is set in one of the two. */
  lemma {:induction false} OrBit(a: nat, b: nat, i: nat)
    ensures Or(a, b) / Pow2(i) % 2 == 1 <==> a / Pow2(i) % 2 == 1 || b / Pow2(i) % 2 == 1
  {
    if i > 0 {
      OrBit(a / 2, b / 2, i - 1);
      HalfFirst(a, Pow2(i - 1));
      HalfFirst(b, Pow2(i - 1));
      HalfFirst(Or(a, b), Pow2(i - 1));
      OrHalf(a, b);
    }
  }

  lemma OrHalf(a: nat, b: nat)
    ensures Or(a, b) / 2 == Or(a / 2, b / 2)
  {
  }

  /** On disjoint bits, the bitwise or is the sum. */
  lemma {:induction false} OrIsSum(a: nat, b: nat, h: nat)
    requires a % Pow2(h) == 0 && b < Pow2(h)
    ensures Or(a, b) == a + b
    decreases h
  {
    if a != 0 && b != 0 {
      var p := Pow2(h - 1);
      var q := a / (2 * p);
      assert a == (2 * p) * q == 2 * (p * q);
      assert a / 2 == p * q;
      MultipleMod(p, q);
      OrIsSum(a / 2, b / 2, h - 1);
    }
  }

  lemma MultipleMod(p: int, q: int)
    requires p > 0
    ensures (p * q) % p == 0 && p * q / p == q
  {
    DivModUnique(p * q, p, q, 0);
  }

  lemma Multiples(p: int, d: int)
    requires p > 0
    ensures d >= 1 ==> p * d >= p
    ensures d <= -1 ==> p * d <= -p
  {
    if d >= 1 {
      assert p * (d - 1) >= 0;
    } else if d <= -1 {
      assert p * (-d - 1) >= 0;
    }
  }

  lemma DivModUnique(v: int, p: int, q: int, r: int)
    requires p > 0 && v == p * q + r && 0 <= r < p
    ensures v / p == q && v % p == r
  {
    var d := q - v / p;
    assert p * d == p * q - p * (v / p);
    Multiples(p, d);
  }

  // Host numbers.

  lemma ModAtMost(v: nat, p: int)
    requires p > 0
    ensures v % p <= v
  {
    if v < p {
      DivModUnique(v, p, 0, v);
    }
  }

  /** The address with its host bits cleared, as an integer. */
  function Network(base: Prefix): nat
    requires base.Valid()
  {
    ModAtMost(ValueOf(base.addr), Pow2(base.HostBits()));
    ValueOf(base.addr) - ValueOf(base.addr) % Pow2(base.HostBits())
  }

  class BigInt {
    var value: int

    constructor (value: int)
      ensures this.value == value
    {
      this.value := value;
    }
  }

  const INT64_LIMIT: int := 0x8000_0000_0000_0000

  /** A value below n * p, rounded down to a multiple of p, leaves room for one more p. */
  lemma RoomBelow(v: int, n: int, p: int)
    requires p > 0 && 0 <= v < n * p
    ensures v - v % p == p * (v / p) && p * (v / p) + p <= n * p
  {
    var q := v / p;
    assert v == p * q + v % p;
    assert p * (n - q) == n * p - p * q;
    Multiples(p, n - q);
    assert n - q == 0 ==> p * (n - q) == 0;
  }

  lemma NetworkHost(base: Prefix, host: nat)
    requires base.Valid() && host < Pow2(base.HostBits())
    ensures Network(base) % Pow2(base.HostBits()) == 0
    ensures Network(base) + host < Pow2(8 * |base.addr|)
    ensures (Network(base) + host) / Pow2(base.HostBits()) == ValueOf(base.addr) / Pow2(base.HostBits())
  {
    var p, v := Pow2(base.HostBits()), ValueOf(base.addr);
    ValueBound(base.addr);
    Pow2Sum(base.bits, base.HostBits());
    RoomBelow(v, Pow2(base.bits), p);
    MultipleMod(p, v / p);
    DivModUnique(p * (v / p) + host, p, v / p, host);
  }

  /** The host numbered num, counted from the end of the range when num is negative. num is changed. */
  method HostBig(base: Prefix, num: BigInt) returns (r: Result<Address>)
    requires base.Valid() && -INT64_LIMIT <= num.value < INT64_LIMIT
    modifies num
    ensures var size := Pow2(8 * |base.addr| - base.bits);
            && (r.Ok? <==> -size <= old(num.value) < size)
            && (r.Ok? ==> |r.value| == |base.addr| && ValueOf(r.value) / size == ValueOf(base.addr) / size)
            && (r.Ok? ==> ValueOf(r.value) == ValueOf(base.addr) - ValueOf(base.addr) % size + old(num.value) % size)
            && num.value == if old(num.value) < 0 then old(num.value) + size else old(num.value)
  {
    var hostLen := base.HostBits();
    var maxHostNum := Pow2(hostLen) - 1;
    var num2 := num.value;
    if num.value < 0 {
      num2 := -num.value - 1;
      num.value := maxHostNum - num2;
    }
    if num2 > maxHostNum {
      return Err;
    }
    NetworkHost(base, num.value);
    ModOf(old(num.value), Pow2(hostLen));
    OrIsSum(Network(base), num.value, hostLen);
    var addr := IntToIP(Or(Network(base), num.value), |base.addr|);
    r := Ok(addr);
  }

  lemma ModOf(n: int, p: int)
    requires p > 0 && -p <= n < p
    ensures n % p == if n < 0 then n + p else n
  {
    if n < 0 {
      DivModUnique(n, p, -1, n + p);
    } else {
      DivModUnique(n, p, 0, n);
    }
  }

  /** Two host numbers name the same address exactly when they agree modulo the size of the range; so no
      two numbers that are not negative do, and -1 is the last address. */
  method SameHost(base: Prefix, n: int, m: int) returns (a: Address, b: Address)
    requires base.Valid() && -INT64_LIMIT <= n < INT64_LIMIT && -INT64_LIMIT <= m < INT64_LIMIT
    requires -Pow2(8 * |base.addr| - base.bits) <= n < Pow2(8 * |base.addr| - base.bits)
    requires -Pow2(8 * |base.addr| - base.bits) <= m < Pow2(8 * |base.addr| - base.bits)
    ensures a == b <==> n % Pow2(8 * |base.addr| - base.bits) == m % Pow2(8 * |base.addr| - base.bits)
    ensures 0 <= n && 0 <= m && n != m ==> a != b
  {
    var big := new BigInt(n);
    var r := HostBig(base, big);
    a := r.value;
    big := new BigInt(m);
    r := HostBig(base, big);
    b := r.value;
    ModOf(n, Pow2(base.HostBits()));
    ModOf(m, Pow2(base.HostBits()));
    if ValueOf(a) == ValueOf(b) {
      SameValue(a, b);
    }
  }
}
