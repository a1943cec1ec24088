/** The text of decimal and IPv4 values in counterexamples, and readers for it. */
module ExtensionText {
  import opened Wrappers
  import opened Numerals
  import Terms
  import TermProofs

  // ----- splitting at a separator -----

  function Split(s: string, sep: char): Option<(string, string)> {
    if s == [] then None
    else if s[0] == sep then Some(("", s[1..]))
    else
      match Split(s[1..], sep)
      case None => None
      case Some(parts) => Some(([s[0]] + parts.0, parts.1))
  }

  lemma {:induction false} SplitFirst(a: string, sep: char, b: string)
    requires sep !in a
    ensures Split(a + [sep] + b, sep) == Some((a, b))
  {
    var s := a + [sep] + b;
    if a == [] {
      assert s[1..] == b;
    } else {
      SplitFirst(a[1..], sep, b);
      assert s[1..] == a[1..] + [sep] + b;
      assert s[0] == a[0] && a[0] in a;
      assert [a[0]] + a[1..] == a;
    }
  }

  lemma DigitsOnly(s: string, sep: char)
    requires AllDigits(s) && !IsDigit(sep)
    ensures sep !in s
  {
  }

  // ----- decimals: the integer 10000 * v stands for v -----

  const I64_MIN := -0x8000_0000_0000_0000
  const I64_MAX := 0x7FFF_FFFF_FFFF_FFFF

  function PrintDecimal(d: int): string {
    var neg := if d < 0 then "-" else "";
    var absval := if d < 0 then -d else d;
    var left, right := absval / 10000, absval % 10000;
    assert Pow10(4) == 10000 by { assert Pow10(2) == 100; }
    neg + (Numeral(left) + "." + Padded(right, 4))
  }

  /** An optional minus, digits, a point and one to four more digits, in the range of 64 bits */
  function ParseDecimal(s: string): Option<int> {
    var negative := s != [] && s[0] == '-';
    match Split(if negative then s[1..] else s, '.')
    case None => None
    case Some((whole, part)) =>
      match (ParseNat(whole), ParseNat(part))
      case (Some(left), Some(right)) =>
        if |part| > 4 then None
        else
          var absval := left * 10000 + right * Pow10(4 - |part|);
          var d := if negative then -absval else absval;
          if I64_MIN <= d <= I64_MAX then Some(d) else None
      case _ => None
  }

  /** Every 64-bit decimal reads back, the least one and those between -1 and 0 included. */
  lemma DecimalRoundTrip(d: int)
    requires I64_MIN <= d <= I64_MAX
    ensures ParseDecimal(PrintDecimal(d)) == Some(d)
  {
    var absval := if d < 0 then -d else d;
    var left, right := absval / 10000, absval % 10000;
    assert Pow10(4) == 10000 by { assert Pow10(2) == 100; }
    NumeralRoundTrip(left);
    PaddedRoundTrip(right, 4);
    var body := Numeral(left) + "." + Padded(right, 4);
    DigitsOnly(Numeral(left), '.');
    SplitFirst(Numeral(left), '.', Padded(right, 4));
    assert body[0] == Numeral(left)[0];
    if d < 0 {
      assert PrintDecimal(d)[1..] == body;
    } else {
      assert PrintDecimal(d) == body;
    }
    assert Pow10(4 - 4) == 1;
  }

  // ----- IPv4 addresses with a prefix -----

  function Octet(addr: nat, shift: nat): nat
    requires shift > 0
  {
    addr / shift % 256
  }

  /** The dotted quad and the prefix, which is 32 when absent */
  function PrintV4(addr: nat, prefix: Option<nat>): string {
    Numeral(Octet(addr, 0x100_0000)) + "." +
    (Numeral(Octet(addr, 0x1_0000)) + "." +
     (Numeral(Octet(addr, 0x100)) + "." +
      (Numeral(Octet(addr, 1)) + "/" +
       Numeral(if prefix.None? then 32 else prefix.value))))
  }

  /** A number up to `max`, without leading zeros */
  function ParseUpTo(s: string, max: nat): Option<nat> {
    match ParseNat(s)
    case None => None
    case Some(n) => if n <= max && Numeral(n) == s then Some(n) else None
  }

  /** The next number, up to its separator */
  function ParsePart(s: string, sep: char): Option<(nat, string)> {
    match Split(s, sep)
    case None => None
    case Some((first, rest)) =>
      match ParseUpTo(first, 255)
      case None => None
      case Some(n) => Some((n, rest))
  }

  function ParseV4(s: string): Option<(nat, nat)> {
    match ParsePart(s, '.')
    case None => None
    case Some((a, s1)) =>
      match ParsePart(s1, '.')
      case None => None
      case Some((b, s2)) =>
        match ParsePart(s2, '.')
        case None => None
        case Some((c, s3)) =>
          match ParsePart(s3, '/')
          case None => None
          case Some((d, s4)) =>
            match ParseUpTo(s4, 32)
            case None => None
            case Some(p) => Some((((a * 256 + b) * 256 + c) * 256 + d, p))
  }

  lemma PartRoundTrip(n: nat, sep: char, rest: string)
    requires n <= 255 && !IsDigit(sep)
    ensures ParsePart(Numeral(n) + [sep] + rest, sep) == Some((n, rest))
  {
    NumeralRoundTrip(n);
    DigitsOnly(Numeral(n), sep);
    SplitFirst(Numeral(n), sep, rest);
  }

  /** Four octets make up a 32-bit address. */
  lemma OctetsMakeAddress(addr: nat)
    requires addr < 0x1_0000_0000
    ensures ((Octet(addr, 0x100_0000) * 256 + Octet(addr, 0x1_0000)) * 256 + Octet(addr, 0x100)) * 256 + Octet(addr, 1)
         == addr
  {
    assert addr / 0x1_0000 / 256 == addr / 0x100_0000;
    assert addr / 0x100 / 256 == addr / 0x1_0000;
  }

  /** Every 32-bit address with a prefix of at most 32, or none, reads back; no prefix reads as 32. */
  lemma V4RoundTrip(addr: nat, prefix: Option<nat>)
    requires addr < 0x1_0000_0000 && (prefix.Some? ==> prefix.value <= 32)
    ensures ParseV4(PrintV4(addr, prefix)) == Some((addr, if prefix.None? then 32 else prefix.value))
  {
    var p := if prefix.None? then 32 else prefix.value;
    var s4 := Numeral(p);
    var s3 := Numeral(Octet(addr, 1)) + "/" + s4;
    var s2 := Numeral(Octet(addr, 0x100)) + "." + s3;
    var s1 := Numeral(Octet(addr, 0x1_0000)) + "." + s2;
    PartRoundTrip(Octet(addr, 0x100_0000), '.', s1);
    PartRoundTrip(Octet(addr, 0x1_0000), '.', s2);
    PartRoundTrip(Octet(addr, 0x100), '.', s3);
    PartRoundTrip(Octet(addr, 1), '/', s4);
    NumeralRoundTrip(p);
    OctetsMakeAddress(addr);
  }

  /** `Bitvec::as_u64`, which panics on wider vectors and on text that is no number */
  function AsU64(b: Terms.WireBitvec): Option<nat> {
    if b.width > 64 then None
    else
      match ParseNat(b.val)
      case None => None
      case Some(n) => if n < 0x1_0000_0000_0000_0000 then Some(n) else None
  }

  function TextOfV4(c: Terms.WireCidr): Option<string> {
    match AsU64(c.addr)
    case None => None
    case Some(addr) =>
      match c.prefix
      case None => Some(PrintV4(addr, None))
      case Some(p) =>
        match AsU64(p)
        case None => None
        case Some(prefix) => Some(PrintV4(addr, Some(prefix)))
  }

  lemma {:induction false} Pow2Sum(m: nat, n: nat)
    ensures Terms.Pow2(m + n) == Terms.Pow2(m) * Terms.Pow2(n)
  {
    if m > 0 { Pow2Sum(m - 1, n); }
  }

  lemma AddressWidths()
    ensures Terms.Pow2(Terms.V4_ADDR) == 0x1_0000_0000 && Terms.Pow2(Terms.V4_PREFIX) == 32
  {
    assert Terms.Pow2(1) == 2;
    Pow2Sum(1, 1);
    Pow2Sum(2, 2);
    Pow2Sum(4, 1);
    Pow2Sum(4, 4);
    Pow2Sum(8, 8);
    Pow2Sum(16, 16);
  }

  function PrefixOf(c: Terms.Cidr): Option<nat> {
    if c.prefix.None? then None else Some(c.prefix.value.val)
  }

  /** No panic for a well-formed internal network */
  lemma TextIsPrinted(c: Terms.Cidr)
    requires TermProofs.WfCidr(c, Terms.V4_ADDR, Terms.V4_PREFIX)
    ensures TextOfV4(Terms.EncodeCidr(c)) == Some(PrintV4(c.addr.val, PrefixOf(c)))
    ensures c.addr.val < 0x1_0000_0000 && (c.prefix.Some? ==> c.prefix.value.val < 32)
  {
    AddressWidths();
    NumeralRoundTrip(c.addr.val);
    if c.prefix.Some? { NumeralRoundTrip(c.prefix.value.val); }
  }

  /** The text of every well-formed internal network is printed without a panic and reads back. */
  lemma InternalV4Readable(c: Terms.Cidr)
    requires TermProofs.WfCidr(c, Terms.V4_ADDR, Terms.V4_PREFIX)
    ensures var text := TextOfV4(Terms.EncodeCidr(c));
            text.Some? && ParseV4(text.value) == Some((c.addr.val, if c.prefix.None? then 32 else c.prefix.value.val))
  {
    TextIsPrinted(c);
    V4RoundTrip(c.addr.val, PrefixOf(c));
  }
}
