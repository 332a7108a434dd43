/**
 IPv4 addresses as the program handles them: four bytes, a 32-bit number, dotted-decimal text
 (net/netip), and blocks of addresses.
 */
module Ipv4 {
  import opened Text

  type Byte = n: int | 0 <= n < 256

  const TWO32: int := 0x1_0000_0000

  type U32 = n: int | 0 <= n < TWO32

  datatype Addr = Addr(a: Byte, b: Byte, c: Byte, d: Byte)

  /** The bytes shifted into place and or-ed together. */
  function ToU32(x: Addr): U32 {
    x.a * 0x100_0000 + x.b * 0x1_0000 + x.c * 0x100 + x.d
  }

  /** Four truncating conversions to byte. */
  function FromU32(v: U32): Addr {
    Addr(v / 0x100_0000 % 256, v / 0x1_0000 % 256, v / 0x100 % 256, v % 256)
  }

  /** Dividing by 256 again and again. */
  lemma BytesOf(v: U32)
    ensures v / 0x1_0000 == v / 0x100 / 0x100
    ensures v / 0x100_0000 == v / 0x1_0000 / 0x100 < 0x100
  {
    var p := v / 0x100;
    var q := p / 0x100;
    var r := q / 0x100;
    assert v == 0x100 * p + v % 0x100;
    assert p == 0x100 * q + p % 0x100;
    assert q == 0x100 * r + q % 0x100;
    assert v / 0x1_0000 == q;
    assert v / 0x100_0000 == r;
  }

  lemma AddressOfNumber(v: U32)
    ensures ToU32(FromU32(v)) == v
  {
    BytesOf(v);
    var p, q, r := v / 0x100, v / 0x1_0000, v / 0x100_0000;
    assert v == 0x100 * p + v % 0x100;
    assert p == 0x100 * q + p % 0x100;
    assert q == 0x100 * r + q % 0x100;
  }

  lemma DifferentNumbers(v: U32, w: U32)
    requires FromU32(v) == FromU32(w)
    ensures v == w
  {
    AddressOfNumber(v);
    AddressOfNumber(w);
  }

  // ----- dotted decimal

  /** Addr.String */
  function Render(x: Addr): string {
    Join([Decimal(x.a), Decimal(x.b), Decimal(x.c), Decimal(x.d)], ".")
  }

  /** One field of netip.ParseAddr: a plain decimal number up to 255. */
  function ParseByte(s: string): Option<Byte> {
    if IsDecimal(s) && DigitsValue(s) < 256 then Some(DigitsValue(s)) else None
  }

  /** netip.ParseAddr restricted to its IPv4 results */
  function ParseAddr(s: string): Option<Addr> {
    var f := Split(s, '.');
    if |f| != 4 then None
    else match (ParseByte(f[0]), ParseByte(f[1]), ParseByte(f[2]), ParseByte(f[3]))
      case (Some(a), Some(b), Some(c), Some(d)) => Some(Addr(a, b, c, d))
      case _ => None
  }

  lemma DotFree(s: string)
    requires AllDigits(s)
    ensures '.' !in s
  {
  }

  lemma RenderText(x: Addr)
    ensures Render(x) == Decimal(x.a) + "." + (Decimal(x.b) + "." + (Decimal(x.c) + "." + Decimal(x.d)))
  {
    var a, b, c, d := Decimal(x.a), Decimal(x.b), Decimal(x.c), Decimal(x.d);
    assert [a, b, c, d][1..] == [b, c, d] && [b, c, d][1..] == [c, d] && [c, d][1..] == [d];
    calc {
      Join([a, b, c, d], ".");
      a + "." + Join([b, c, d], ".");
      a + "." + (b + "." + Join([c, d], "."));
      a + "." + (b + "." + (c + "." + Join([d], ".")));
    }
  }

  lemma RenderFields(x: Addr)
    ensures Split(Render(x), '.') == [Decimal(x.a), Decimal(x.b), Decimal(x.c), Decimal(x.d)]
  {
    var a, b, c, d := Decimal(x.a), Decimal(x.b), Decimal(x.c), Decimal(x.d);
    DecimalReads(x.a); DecimalReads(x.b); DecimalReads(x.c); DecimalReads(x.d);
    DotFree(a); DotFree(b); DotFree(c); DotFree(d);
    RenderText(x);
    SplitAppend(a, b + "." + (c + "." + d), '.');
    SplitAppend(b, c + "." + d, '.');
    SplitAppend(c, d, '.');
    SplitNone(d, '.');
  }

  /** Reading back what was printed. */
  lemma ParseRender(x: Addr)
    ensures ParseAddr(Render(x)) == Some(x)
  {
    RenderFields(x);
    DecimalReads(x.a); DecimalReads(x.b); DecimalReads(x.c); DecimalReads(x.d);
  }

  /** The text an address is read from is the text it prints as, so no address has two spellings. */
  lemma RenderParse(s: string)
    requires ParseAddr(s).Some?
    ensures Render(ParseAddr(s).value) == s
  {
    var f := Split(s, '.');
    JoinSplit(s, '.');
    DecimalPrints(f[0]); DecimalPrints(f[1]); DecimalPrints(f[2]); DecimalPrints(f[3]);
    assert f == [f[0], f[1], f[2], f[3]];
  }

  lemma RenderInjective(x: Addr, y: Addr)
    ensures Render(x) == Render(y) ==> x == y
  {
    ParseRender(x);
    ParseRender(y);
  }

  // ----- blocks

  lemma DivMod(x: nat, m: nat)
    requires m > 0
    ensures x == m * (x / m) + x % m && 0 <= x % m < m
    ensures x / m >= 0 && x % m <= x
  {
    assert x / m >= 0;
    MulGrows(m, 0, x / m);
  }

  lemma {:induction false} MulGrows(m: nat, a: int, b: int)
    requires a <= b
    ensures m * a <= m * b
    decreases b - a
  {
    if a < b {
      MulGrows(m, a, b - 1);
      assert m * b == m * (b - 1) + m;
    }
  }

  lemma MulStep(m: nat, a: int, b: int)
    requires a < b
    ensures m * a + m <= m * b
  {
    MulGrows(m, a + 1, b);
    assert m * (a + 1) == m * a + m;
  }

  /** A number has one quotient and remainder. */
  lemma QuotientUnique(x: nat, m: nat, q: int, r: nat)
    requires r < m && x == m * q + r
    ensures x / m == q && x % m == r
  {
    DivMod(x, m);
    var d := x / m;
    if d < q {
      MulStep(m, d, q);
      assert false;
    } else if q < d {
      MulStep(m, q, d);
      assert false;
    }
  }

  function Pow2(n: nat): (p: nat)
    ensures p >= 1
  {
    if n == 0 then 1 else 2 * Pow2(n - 1)
  }

  lemma {:induction false} Pow2Adds(m: nat, n: nat)
    ensures Pow2(m + n) == Pow2(m) * Pow2(n)
  {
    if m > 0 {
      Pow2Adds(m - 1, n);
      assert 2 * (Pow2(m - 1) * Pow2(n)) == 2 * Pow2(m - 1) * Pow2(n);
    }
  }

  lemma {:induction false} Pow2Grows(m: nat, n: nat)
    requires m <= n
    ensures Pow2(m) <= Pow2(n)
  {
    if m < n {
      Pow2Grows(m, n - 1);
    }
  }

  lemma Pow2Values()
    ensures Pow2(2) == 4 && Pow2(8) == 256 && Pow2(9) == 512 && Pow2(32) == TWO32
  {
    assert Pow2(4) == 16;
    Pow2Adds(4, 4);
    Pow2Adds(8, 8);
    Pow2Adds(16, 16);
  }

  /** The outcome of parsing the configured block: netip.ParsePrefix and the Is4 test after it. */
  datatype Cidr = Malformed | NotIpv4 | Block(addr: U32, bits: nat)

  predicate WellFormed(p: Cidr) {
    p.Block? ==> p.bits <= 32
  }

  /** Host bits of the block. */
  function HostBits(p: Cidr): nat
    requires p.Block? && WellFormed(p)
  {
    32 - p.bits
  }

  function Size(p: Cidr): (n: nat)
    requires p.Block? && WellFormed(p)
    ensures n >= 1
  {
    Pow2(HostBits(p))
  }

  /** prefix.Masked(): the host bits cleared */
  function Network(p: Cidr): U32
    requires p.Block? && WellFormed(p)
  {
    DivMod(p.addr, Size(p));
    p.addr - p.addr % Size(p)
  }

  /** prefix.Contains: the leading bits agree */
  predicate Contains(p: Cidr, v: U32)
    requires p.Block? && WellFormed(p)
  {
    v / Size(p) == p.addr / Size(p)
  }

  /**
   Adding a host number to the network address neither wraps around 32 bits nor leaves the block,
   for every block down to /0.
   */
  lemma HostInBlock(p: Cidr, host: nat)
    requires p.Block? && WellFormed(p) && host < Size(p)
    ensures Network(p) + host < TWO32
    ensures Contains(p, Network(p) + host)
  {
    var m, q, k := Size(p), p.addr / Size(p), Pow2(p.bits);
    assert m * k == TWO32 by {
      Pow2Adds(HostBits(p), p.bits);
      Pow2Values();
    }
    DivMod(p.addr, m);
    if q > k {
      MulStep(m, k, q);
    }
    MulStep(m, q, k);
    QuotientUnique(m * q + host, m, q, host);
  }

  /** The block contains exactly the numbers from its network address up to its size, its own address among them. */
  lemma ContainsExactly(p: Cidr, v: U32)
    requires p.Block? && WellFormed(p)
    ensures Contains(p, v) <==> Network(p) <= v < Network(p) + Size(p)
    ensures Contains(p, p.addr)
  {
    var m := Size(p);
    DivMod(p.addr, m);
    DivMod(v, m);
    if Network(p) <= v < Network(p) + m {
      QuotientUnique(v, m, p.addr / m, v - Network(p));
    }
  }
}
