// IPv4 prefixes as net/netip parses, prints and compares them, and the block arithmetic
// of section 3.1 of RFC 4632 they stand for.

module Ipv4 {
  import opened Wrappers

  const ADDRESS_LIMIT := 0x1_0000_0000

  type Address = x: int | 0 <= x < ADDRESS_LIMIT

  datatype Prefix = Prefix(addr: Address, bits: nat)

  predicate IsPrefix(p: Prefix) {
    p.bits <= 32
  }

  // ----- powers of two and blocks

  function Pow2(n: nat): (r: nat)
    ensures r > 0
  {
    if n == 0 then 1 else 2 * Pow2(n - 1)
  }

  lemma {:induction false} Pow2Adds(m: nat, n: nat)
    ensures Pow2(m + n) == Pow2(m) * Pow2(n)
  {
    if m > 0 {
      Pow2Adds(m - 1, n);
      assert Pow2(m + n) == 2 * (Pow2(m - 1) * Pow2(n)) == (2 * Pow2(m - 1)) * Pow2(n);
    }
  }

  lemma Pow2Of32()
    ensures Pow2(32) == ADDRESS_LIMIT
  {
    assert Pow2(8) == 0x100;
    Pow2Adds(8, 8);
    Pow2Adds(16, 16);
  }

  // The number of addresses in a block with this many network bits.
  function Size(bits: nat): nat
    requires bits <= 32
  {
    Pow2(32 - bits)
  }

  lemma SizeFits(bits: nat)
    requires bits <= 32
    ensures Size(bits) <= ADDRESS_LIMIT && ADDRESS_LIMIT == Pow2(bits) * Size(bits)
  {
    Pow2Adds(bits, 32 - bits);
    Pow2Of32();
    assert Pow2(bits) * Size(bits) >= 1 * Size(bits);
  }

  // The block number of an address: its first `bits` bits.
  function Net(x: nat, bits: nat): int
    requires bits <= 32
  {
    x / Size(bits)
  }

  function MaskedAddr(x: Address, bits: nat): Address
    requires bits <= 32
  {
    RemainderFits(x, Size(bits));
    x - x % Size(bits)
  }

  lemma RemainderFits(x: nat, d: nat)
    requires d > 0
    ensures 0 <= x % d <= x
  {
    assert d * (x / d) >= 0;
  }

  function Masked(p: Prefix): Prefix
    requires IsPrefix(p)
  {
    Prefix(MaskedAddr(p.addr, p.bits), p.bits)
  }

  predicate Contains(p: Prefix, x: nat)
    requires IsPrefix(p)
  {
    Net(x, p.bits) == Net(p.addr, p.bits)
  }

  lemma {:induction false} MulAtLeast(d: nat, k: nat)
    requires k >= 1
    ensures d * k >= d
  {
    if k > 1 {
      MulAtLeast(d, k - 1);
      assert d * k == d * (k - 1) + d;
    }
  }

  lemma Distribute(d: int, x: int, y: int)
    ensures d * (x - y) == d * x - d * y
  {
  }

  lemma QuotientIs(x: int, d: nat, q: int, r: nat)
    requires d > 0 && x == d * q + r && r < d
    ensures x / d == q && x % d == r
  {
    var q', r' := x / d, x % d;
    assert x == d * q' + r';
    Distribute(d, q, q');
    Distribute(d, q', q);
    if q > q' {
      MulAtLeast(d, q - q');
    } else if q < q' {
      MulAtLeast(d, q' - q);
    }
  }

  lemma Regroup(a: nat, b: nat, q: int, r': nat, r: nat)
    ensures a * (b * q + r') + r == (a * b) * q + (a * r' + r)
  {
    assert a * (b * q + r') == a * (b * q) + a * r';
    assert a * (b * q) == (a * b) * q;
  }

  lemma RestFits(a: nat, b: nat, r': nat, r: nat)
    requires r' < b && r < a
    ensures 0 <= a * r' + r < a * b
  {
    Distribute(a, b, r');
    MulAtLeast(a, b - r');
    assert a * r' >= 0;
  }

  lemma DivDiv(x: nat, a: nat, b: nat)
    requires a > 0 && b > 0 && a * b > 0
    ensures (x / a) / b == x / (a * b)
  {
    var q, r := x / a, x % a;
    var q', r' := q / b, q % b;
    assert x == a * q + r && q == b * q' + r';
    Regroup(a, b, q', r', r);
    RestFits(a, b, r', r);
    QuotientIs(x, a * b, q', a * r' + r);
  }

  // Fewer network bits: the block number of the block number.
  lemma NetCoarser(x: nat, coarse: nat, fine: nat)
    requires coarse <= fine <= 32
    ensures Net(x, coarse) == Net(x, fine) / Pow2(fine - coarse)
  {
    Pow2Adds(32 - fine, fine - coarse);
    DivDiv(x, Size(fine), Pow2(fine - coarse));
  }

  // Block q of a size that divides the space lies inside it.
  lemma BlockFits(size: nat, q: int, total: nat, x: Address)
    requires size > 0 && size * q <= x && ADDRESS_LIMIT == total * size
    ensures size * q + size <= ADDRESS_LIMIT
  {
    if q >= total {
      Distribute(size, q, total);
      if q > total { MulAtLeast(size, q - total); }
    } else {
      Distribute(size, total, q);
      MulAtLeast(size, total - q);
    }
  }

  lemma InBlock(x: nat, y: nat, size: nat)
    requires size > 0
    ensures x / size == y / size <==> y - y % size <= x < y - y % size + size
    ensures (y - y % size) % size == 0 && y - y % size == size * (y / size)
  {
    var q := y / size;
    var base := y - y % size;
    assert base == size * q;
    QuotientIs(base, size, q, 0);
    if base <= x < base + size {
      QuotientIs(x, size, q, x - base);
    }
    assert x == size * (x / size) + x % size;
  }

  // A prefix is the interval of Size(bits) addresses that starts at its masked address.
  lemma ContainsIsInterval(p: Prefix, x: nat)
    requires IsPrefix(p)
    ensures Contains(p, x) <==> Masked(p).addr <= x < Masked(p).addr + Size(p.bits)
    ensures Masked(p).addr % Size(p.bits) == 0 && Masked(p).addr + Size(p.bits) <= ADDRESS_LIMIT
  {
    InBlock(x, p.addr, Size(p.bits));
    SizeFits(p.bits);
    BlockFits(Size(p.bits), Net(p.addr, p.bits), Pow2(p.bits), p.addr);
  }

  // ----- overlap

  // Prefix.Overlaps: the two addresses agree on the shorter of the two masks.
  predicate Overlaps(p: Prefix, o: Prefix)
    requires IsPrefix(p) && IsPrefix(o)
  {
    var bits := if p.bits < o.bits then p.bits else o.bits;
    p == o || bits == 0 || MaskedAddr(p.addr, bits) == MaskedAddr(o.addr, bits)
  }

  lemma SameMask(x: Address, y: Address, bits: nat)
    requires bits <= 32
    ensures MaskedAddr(x, bits) == MaskedAddr(y, bits) <==> Net(x, bits) == Net(y, bits)
  {
    SameBlock(x, y, Size(bits));
  }

  lemma SameBlock(x: nat, y: nat, size: nat)
    requires size > 0
    ensures x - x % size == y - y % size <==> x / size == y / size
  {
    InBlock(x, x, size);
    InBlock(y, y, size);
    if x - x % size == y - y % size { InBlock(x, y, size); InBlock(y, x, size); }
  }

  // It holds exactly when some address is in both.
  lemma OverlapsIffShare(p: Prefix, o: Prefix)
    requires IsPrefix(p) && IsPrefix(o)
    ensures Overlaps(p, o) <==> exists x: Address :: Contains(p, x) && Contains(o, x)
  {
    var bits := if p.bits < o.bits then p.bits else o.bits;
    var fine := if p.bits < o.bits then o else p;
    SameMask(p.addr, o.addr, bits);
    if Overlaps(p, o) {
      if bits == 0 { NetOfAll(p.addr); NetOfAll(o.addr); }
      NetCoarser(fine.addr, bits, fine.bits);
      assert Contains(p, fine.addr) && Contains(o, fine.addr);
    }
    if x: Address :| Contains(p, x) && Contains(o, x) {
      NetCoarser(x, bits, fine.bits);
      NetCoarser(fine.addr, bits, fine.bits);
    }
  }

  lemma NetOfAll(x: Address)
    ensures Net(x, 0) == 0
  {
    Pow2Of32();
  }

  // ----- text

  predicate IsDigit(c: char) {
    '0' <= c <= '9'
  }

  function DigitChar(d: nat): char
    requires d < 10
  {
    ['0', '1', '2', '3', '4', '5', '6', '7', '8', '9'][d]
  }

  function DigitValue(c: char): nat
    requires IsDigit(c)
  {
    (c as int) - ('0' as int)
  }

  function Decimal(n: nat): (s: string)
    ensures |s| > 0
  {
    if n < 10 then [DigitChar(n)] else Decimal(n / 10) + [DigitChar(n % 10)]
  }

  function DigitsFrom(s: string): (k: nat)
    ensures k <= |s| && forall i | 0 <= i < k :: IsDigit(s[i])
    ensures k < |s| ==> !IsDigit(s[k])
  {
    if s == "" || !IsDigit(s[0]) then 0 else 1 + DigitsFrom(s[1..])
  }

  function ValueOf(s: string): nat
    requires forall i | 0 <= i < |s| :: IsDigit(s[i])
  {
    if s == "" then 0 else ValueOf(s[..|s| - 1]) * 10 + DigitValue(s[|s| - 1])
  }

  // A decimal number up to a limit, without a leading zero, and what follows it.
  function TakeNumber(s: string, limit: nat): (r: Option<(nat, string)>)
    ensures r.Some? ==> r.value.0 <= limit
  {
    var k := DigitsFrom(s);
    if k == 0 || (k > 1 && s[0] == '0') || ValueOf(s[..k]) > limit then None
    else Some((ValueOf(s[..k]), s[k..]))
  }

  function TakeChar(s: string, c: char): Option<string> {
    if s != "" && s[0] == c then Some(s[1..]) else None
  }

  // One field of a dotted address with the character after it.
  function TakeField(s: string, after: char): (r: Option<(nat, string)>)
    ensures r.Some? ==> r.value.0 <= 255
  {
    match TakeNumber(s, 255)
    case None => None
    case Some((n, rest)) =>
      match TakeChar(rest, after)
      case None => None
      case Some(rest') => Some((n, rest'))
  }

  // Two fields, as the half of an address they make up.
  function TakeHalf(s: string, after: char): (r: Option<(nat, string)>)
    ensures r.Some? ==> r.value.0 < 0x1_0000
  {
    match TakeField(s, '.')
    case None => None
    case Some((a, s')) =>
      match TakeField(s', after)
      case None => None
      case Some((b, rest)) => Some((a * 0x100 + b, rest))
  }

  // netip.ParsePrefix as far as it yields an IPv4 prefix; whatever else it accepts its
  // caller refuses.
  function ParsePrefix(s: string): (r: Option<Prefix>)
    ensures r.Some? ==> IsPrefix(r.value)
  {
    match TakeHalf(s, '.')
    case None => None
    case Some((hi, s')) =>
      match TakeHalf(s', '/')
      case None => None
      case Some((lo, s'')) =>
        match TakeNumber(s'', 32)
        case None => None
        case Some((bits, rest)) => if rest == "" then Some(Prefix(hi * 0x1_0000 + lo, bits)) else None
  }

  function QuadText(a: nat, b: nat, c: nat, d: nat): string {
    Decimal(a) + "." + Decimal(b) + "." + Decimal(c) + "." + Decimal(d)
  }

  function FormatAddress(x: Address): string {
    QuadText(x / 0x100_0000, x / 0x1_0000 % 0x100, x / 0x100 % 0x100, x % 0x100)
  }

  function FormatPrefix(p: Prefix): string {
    FormatAddress(p.addr) + "/" + Decimal(p.bits)
  }

  lemma {:induction false} DecimalDigits(n: nat, rest: string)
    requires rest == "" || !IsDigit(rest[0])
    ensures DigitsFrom(Decimal(n) + rest) == |Decimal(n)|
  {
    DecimalValue(n);
    DigitsRun(Decimal(n), rest);
  }

  lemma {:induction false} DigitsRun(s: string, rest: string)
    requires forall i | 0 <= i < |s| :: IsDigit(s[i])
    requires rest == "" || !IsDigit(rest[0])
    ensures DigitsFrom(s + rest) == |s|
  {
    if s == "" {
      assert s + rest == rest;
    } else {
      assert (s + rest)[1..] == s[1..] + rest;
      DigitsRun(s[1..], rest);
    }
  }

  lemma {:induction false} DecimalValue(n: nat)
    ensures forall i | 0 <= i < |Decimal(n)| :: IsDigit(Decimal(n)[i])
    ensures ValueOf(Decimal(n)) == n
    ensures n > 0 ==> Decimal(n)[0] != '0'
    ensures |Decimal(n)| > 1 ==> n > 0
  {
    if n >= 10 {
      DecimalValue(n / 10);
      assert Decimal(n)[..|Decimal(n)| - 1] == Decimal(n / 10);
    } else {
      assert Decimal(n)[..0] == "";
    }
  }

  lemma TakesNumber(n: nat, limit: nat, rest: string)
    requires n <= limit && (rest == "" || !IsDigit(rest[0]))
    ensures TakeNumber(Decimal(n) + rest, limit) == Some((n, rest))
  {
    DecimalDigits(n, rest);
    DecimalValue(n);
    var s := Decimal(n) + rest;
    assert s[..|Decimal(n)|] == Decimal(n) && s[|Decimal(n)|..] == rest;
  }

  lemma TakesField(n: nat, c: char, rest: string)
    requires n <= 255 && !IsDigit(c)
    ensures TakeField(Decimal(n) + [c] + rest, c) == Some((n, rest))
  {
    TakesNumber(n, 255, [c] + rest);
    assert Decimal(n) + [c] + rest == Decimal(n) + ([c] + rest);
  }

  lemma QuadSplits(x: Address) returns (a: nat, b: nat, c: nat, d: nat)
    ensures FormatAddress(x) == QuadText(a, b, c, d)
    ensures x == (a * 0x100 + b) * 0x1_0000 + (c * 0x100 + d)
    ensures a <= 255 && b <= 255 && c <= 255 && d <= 255
  {
    var hi, lo := x / 0x1_0000, x % 0x1_0000;
    a, b, c, d := hi / 0x100, hi % 0x100, lo / 0x100, lo % 0x100;
    assert hi == a * 0x100 + b && lo == c * 0x100 + d;
    assert x / 0x100 == hi * 0x100 + c;
    assert x / 0x100_0000 == a && x / 0x100 % 0x100 == c && x % 0x100 == d;
  }

  function FieldText(n: nat, after: char, rest: string): string {
    Decimal(n) + [after] + rest
  }

  lemma QuadIsFields(a: nat, b: nat, c: nat, d: nat, bits: nat) returns (s: string, s1: string, s2: string, s3: string)
    ensures s == QuadText(a, b, c, d) + "/" + Decimal(bits)
    ensures s == FieldText(a, '.', s1) && s1 == FieldText(b, '.', s2)
    ensures s2 == FieldText(c, '.', s3) && s3 == FieldText(d, '/', Decimal(bits))
  {
    s := QuadText(a, b, c, d) + "/" + Decimal(bits);
    s3 := FieldText(d, '/', Decimal(bits));
    s2 := FieldText(c, '.', s3);
    s1 := FieldText(b, '.', s2);
    assert s1 == Decimal(b) + "." + Decimal(c) + "." + Decimal(d) + "/" + Decimal(bits);
  }

  lemma HalfParses(s: string, s1: string, s2: string, a: nat, b: nat, after: char)
    requires a <= 255 && b <= 255 && !IsDigit(after) && s == FieldText(a, '.', s1) && s1 == FieldText(b, after, s2)
    ensures TakeHalf(s, after) == Some((a * 0x100 + b, s2))
  {
    TakesField(a, '.', s1);
    TakesField(b, after, s2);
  }

  // What a printed prefix looks like to whoever parses it from the left.
  ghost predicate IsTextOf(s: string, p: Prefix) {
    exists s1, s2, s3, a: nat, b: nat, c: nat, d: nat :: Fields(s, s1, s2, s3, a, b, c, d, p)
  }

  ghost predicate Fields(s: string, s1: string, s2: string, s3: string, a: nat, b: nat, c: nat, d: nat, p: Prefix) {
    && a <= 255 && b <= 255 && c <= 255 && d <= 255
    && p.addr == (a * 0x100 + b) * 0x1_0000 + (c * 0x100 + d)
    && s == FieldText(a, '.', s1) && s1 == FieldText(b, '.', s2)
    && s2 == FieldText(c, '.', s3) && s3 == FieldText(d, '/', Decimal(p.bits))
  }

  lemma FormatIsText(p: Prefix)
    requires IsPrefix(p)
    ensures IsTextOf(FormatPrefix(p), p)
  {
    var a, b, c, d := QuadSplits(p.addr);
    var s, s1, s2, s3 := QuadIsFields(a, b, c, d, p.bits);
    assert Fields(s, s1, s2, s3, a, b, c, d, p);
  }

  lemma TakesBits(bits: nat)
    requires bits <= 32
    ensures TakeNumber(Decimal(bits), 32) == Some((bits, ""))
  {
    TakesNumber(bits, 32, "");
    assert Decimal(bits) + "" == Decimal(bits);
  }

  ghost predicate Halves(s: string, s2: string, s4: string, hi: nat, lo: nat, p: Prefix) {
    && TakeHalf(s, '.') == Some((hi, s2)) && TakeHalf(s2, '/') == Some((lo, s4))
    && TakeNumber(s4, 32) == Some((p.bits, "")) && p.addr == hi * 0x1_0000 + lo
  }

  ghost predicate HasHalves(s: string, p: Prefix) {
    exists s2, s4, hi: nat, lo: nat :: Halves(s, s2, s4, hi, lo, p)
  }

  lemma FieldsAreHalves(s: string, s1: string, s2: string, s3: string, a: nat, b: nat, c: nat, d: nat, p: Prefix)
    requires IsPrefix(p) && Fields(s, s1, s2, s3, a, b, c, d, p)
    ensures Halves(s, s2, Decimal(p.bits), a * 0x100 + b, c * 0x100 + d, p)
  {
    HalfParses(s, s1, s2, a, b, '.');
    HalfParses(s2, s3, Decimal(p.bits), c, d, '/');
    TakesBits(p.bits);
  }

  lemma HalvesParse(s: string, s2: string, s4: string, hi: nat, lo: nat, p: Prefix)
    requires Halves(s, s2, s4, hi, lo, p)
    ensures ParsePrefix(s) == Some(p)
  {
  }

  lemma TextHasHalves(s: string, p: Prefix)
    requires IsPrefix(p) && IsTextOf(s, p)
    ensures HasHalves(s, p)
  {
    var s1, s2, s3, a: nat, b: nat, c: nat, d: nat :| Fields(s, s1, s2, s3, a, b, c, d, p);
    FieldsAreHalves(s, s1, s2, s3, a, b, c, d, p);
  }

  lemma HasHalvesParses(s: string, p: Prefix)
    requires HasHalves(s, p)
    ensures ParsePrefix(s) == Some(p)
  {
    var s2, s4, hi: nat, lo: nat :| Halves(s, s2, s4, hi, lo, p);
    HalvesParse(s, s2, s4, hi, lo, p);
  }

  // Parsing what was printed gives the prefix back.
  lemma ParseOfFormat(p: Prefix)
    requires IsPrefix(p)
    ensures ParsePrefix(FormatPrefix(p)) == Some(p)
  {
    FormatIsText(p);
    TextHasHalves(FormatPrefix(p), p);
    HasHalvesParses(FormatPrefix(p), p);
  }

  lemma FourBytes(a: nat, b: nat, c: nat, d: nat)
    requires a <= 255 && b <= 255 && c <= 255 && d <= 255
    ensures var x := a * 0x100_0000 + b * 0x1_0000 + c * 0x100 + d;
            x < ADDRESS_LIMIT && x / 0x100_0000 == a && x / 0x1_0000 % 0x100 == b && x / 0x100 % 0x100 == c && x % 0x100 == d
  {
    var x := a * 0x100_0000 + b * 0x1_0000 + c * 0x100 + d;
    assert x / 0x1_0000 == a * 0x100 + b && x / 0x100 == (a * 0x100 + b) * 0x100 + c;
  }

  // The text of an address is its four bytes in decimal, the highest first.
  lemma FormatIsDotted(x: Address, a: nat, b: nat, c: nat, d: nat)
    requires a <= 255 && b <= 255 && c <= 255 && d <= 255 && x == a * 0x100_0000 + b * 0x1_0000 + c * 0x100 + d
    ensures FormatAddress(x) == Decimal(a) + "." + Decimal(b) + "." + Decimal(c) + "." + Decimal(d)
  {
    FourBytes(a, b, c, d);
    DottedIs(x, a, b, c, d);
  }

  lemma DottedIs(x: Address, a: nat, b: nat, c: nat, d: nat)
    requires a == x / 0x100_0000 && b == x / 0x1_0000 % 0x100 && c == x / 0x100 % 0x100 && d == x % 0x100
    ensures FormatAddress(x) == Decimal(a) + "." + Decimal(b) + "." + Decimal(c) + "." + Decimal(d)
  {
  }

  // ----- nothing else parses

  lemma CharOfDigit(c: char)
    requires IsDigit(c)
    ensures DigitValue(c) < 10 && DigitChar(DigitValue(c)) == c
    ensures c != '0' ==> DigitValue(c) > 0
  {
  }

  lemma DecimalNext(v: nat, d: nat)
    requires v > 0 && d < 10
    ensures Decimal(v * 10 + d) == Decimal(v) + [DigitChar(d)]
  {
    var n := v * 10 + d;
    assert n / 10 == v && n % 10 == d;
  }

  predicate AllDigits(t: string) {
    forall i | 0 <= i < |t| :: IsDigit(t[i])
  }

  lemma ValueNext(t: string, init: string, last: char)
    requires AllDigits(t) && AllDigits(init) && IsDigit(last) && t == init + [last]
    ensures ValueOf(t) == ValueOf(init) * 10 + DigitValue(last)
  {
    assert t[..|t| - 1] == init;
  }

  lemma DigitText(c: char)
    requires IsDigit(c)
    ensures Decimal(DigitValue(c)) == [c]
  {
    CharOfDigit(c);
  }

  lemma {:induction false} DecimalOfValue(t: string)
    requires t != "" && AllDigits(t) && (|t| > 1 ==> t[0] != '0')
    ensures Decimal(ValueOf(t)) == t && (t[0] != '0' ==> ValueOf(t) > 0)
  {
    var init, last := t[..|t| - 1], t[|t| - 1];
    assert t == init + [last];
    ValueNext(t, init, last);
    CharOfDigit(last);
    if init == "" {
      DigitText(last);
    } else {
      DecimalOfValue(init);
      DecimalNext(ValueOf(init), DigitValue(last));
    }
  }

  lemma NumberIs(s: string, limit: nat)
    requires TakeNumber(s, limit).Some?
    ensures var (n, rest) := TakeNumber(s, limit).value; s == Decimal(n) + rest
  {
    DecimalOfValue(s[..DigitsFrom(s)]);
  }

  lemma FieldIs(s: string, after: char)
    requires TakeField(s, after).Some?
    ensures var (n, rest) := TakeField(s, after).value; s == FieldText(n, after, rest)
  {
    NumberIs(s, 255);
    var (n, more) := TakeNumber(s, 255).value;
    assert more == [after] + more[1..];
    assert Decimal(n) + [after] + more[1..] == Decimal(n) + ([after] + more[1..]);
  }

  lemma HalfIs(s: string, after: char) returns (a: nat, b: nat, s1: string)
    requires TakeHalf(s, after).Some?
    ensures var (half, rest) := TakeHalf(s, after).value;
            a <= 255 && b <= 255 && half == a * 0x100 + b && s == FieldText(a, '.', s1) && s1 == FieldText(b, after, rest)
  {
    FieldIs(s, '.');
    a, s1 := TakeField(s, '.').value.0, TakeField(s, '.').value.1;
    FieldIs(s1, after);
    b := TakeField(s1, after).value.0;
  }

  lemma ParsedHasHalves(s: string, p: Prefix) returns (s2: string, s4: string, hi: nat, lo: nat)
    requires ParsePrefix(s) == Some(p)
    ensures Halves(s, s2, s4, hi, lo, p)
  {
    hi, s2 := TakeHalf(s, '.').value.0, TakeHalf(s, '.').value.1;
    lo, s4 := TakeHalf(s2, '/').value.0, TakeHalf(s2, '/').value.1;
  }

  lemma HalvesAreFields(s: string, s2: string, s4: string, hi: nat, lo: nat, p: Prefix)
    returns (s1: string, s3: string, a: nat, b: nat, c: nat, d: nat)
    requires Halves(s, s2, s4, hi, lo, p)
    ensures Fields(s, s1, s2, s3, a, b, c, d, p)
  {
    a, b, s1 := HalfIs(s, '.');
    c, d, s3 := HalfIs(s2, '/');
    NumberIs(s4, 32);
    assert Decimal(p.bits) + "" == Decimal(p.bits);
  }

  lemma FieldsAreFormat(s: string, s1: string, s2: string, s3: string, a: nat, b: nat, c: nat, d: nat, p: Prefix)
    requires Fields(s, s1, s2, s3, a, b, c, d, p)
    ensures s == FormatPrefix(p)
  {
    FormatIsDotted(p.addr, a, b, c, d);
    var t, t1, t2, t3 := QuadIsFields(a, b, c, d, p.bits);
  }

  // A text parses to a prefix if and only if it is that prefix printed.
  lemma ParsesIffPrinted(s: string, p: Prefix)
    requires IsPrefix(p)
    ensures ParsePrefix(s) == Some(p) <==> s == FormatPrefix(p)
  {
    if s == FormatPrefix(p) {
      ParseOfFormat(p);
    } else if ParsePrefix(s) == Some(p) {
      PrintedIfParses(s, p);
    }
  }

  lemma PrintedIfParses(s: string, p: Prefix)
    requires ParsePrefix(s) == Some(p)
    ensures s == FormatPrefix(p)
  {
    var s2, s4, hi, lo := ParsedHasHalves(s, p);
    var s1, s3, a, b, c, d := HalvesAreFields(s, s2, s4, hi, lo, p);
    FieldsAreFormat(s, s1, s2, s3, a, b, c, d, p);
  }

  // So texts tell prefixes, and addresses, apart.
  lemma FormatIsInjective(p: Prefix, o: Prefix)
    requires IsPrefix(p) && IsPrefix(o)
    ensures FormatPrefix(p) == FormatPrefix(o) <==> p == o
    ensures FormatAddress(p.addr) == FormatAddress(o.addr) <==> p.addr == o.addr
  {
    ParseOfFormat(p);
    ParseOfFormat(o);
    ParseOfFormat(Prefix(p.addr, 0));
    ParseOfFormat(Prefix(o.addr, 0));
    assert FormatAddress(p.addr) == FormatAddress(o.addr) ==> FormatPrefix(Prefix(p.addr, 0)) == FormatPrefix(Prefix(o.addr, 0));
  }
}
