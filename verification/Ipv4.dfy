/**
 IPv4 addresses as 32-bit numbers and as text (the dec-octet form of section 3.2.2
 of RFC 3986), and the comparator the scan sorts with.
 */
module Ipv4 {
  import opened Wrappers
  import opened Text

  type Addr = a: nat | a < 0x1_0000_0000

  // ----- Text -----

  function DigitChar(d: nat): char
    requires d < 10
  {
    '0' + d as char
  }

  function Octet(n: nat): string
    requires n < 256
  {
    if n < 10 then [DigitChar(n)]
    else if n < 100 then [DigitChar(n / 10), DigitChar(n % 10)]
    else [DigitChar(n / 100), DigitChar(n / 10 % 10), DigitChar(n % 10)]
  }

  /** The four bytes of an address, most significant first. */
  function Bytes(a: Addr): (bytes: seq<nat>)
    ensures |bytes| == 4 && forall b | b in bytes :: b < 256
  {
    [a / 256 / 256 / 256, a / 256 / 256 % 256, a / 256 % 256, a % 256]
  }

  /** The number with these four bytes. */
  function Sum(b: seq<nat>): nat
    requires |b| == 4
  {
    256 * (256 * (256 * b[0] + b[1]) + b[2]) + b[3]
  }

  /** `IP.String` of a 4-byte address. */
  function Print(a: Addr): string {
    var b := Bytes(a);
    Octet(b[0]) + "." + Octet(b[1]) + "." + Octet(b[2]) + "." + Octet(b[3])
  }

  predicate IsDigit(c: char) {
    '0' <= c <= '9'
  }

  function Digit(c: char): (d: nat)
    requires IsDigit(c)
    ensures d < 10 && c == DigitChar(d)
  {
    (c - '0') as nat
  }

  function Number(f: string): nat
    requires 1 <= |f| <= 3 && forall i | 0 <= i < |f| :: IsDigit(f[i])
  {
    if |f| == 1 then Digit(f[0])
    else if |f| == 2 then 10 * Digit(f[0]) + Digit(f[1])
    else 100 * Digit(f[0]) + 10 * Digit(f[1]) + Digit(f[2])
  }

  /** One to three digits, no leading zero, at most 255. */
  function ParseOctet(f: string): (r: Option<nat>)
    ensures r.Some? ==> r.value < 256
  {
    if !(1 <= |f| <= 3) || (exists i | 0 <= i < |f| :: !IsDigit(f[i])) || (|f| > 1 && f[0] == '0') then None
    else if Number(f) < 256 then Some(Number(f)) else None
  }

  /** `net.ParseIP(s).To4()` for text without a colon. */
  function Parse(s: string): Option<Addr> {
    var f := Split(s, '.');
    if |f| != 4 then None
    else
      var a, b, c, d := ParseOctet(f[0]), ParseOctet(f[1]), ParseOctet(f[2]), ParseOctet(f[3]);
      if a.Some? && b.Some? && c.Some? && d.Some?
      then Some(Sum([a.value, b.value, c.value, d.value])) else None
  }

  /** An octet's text is its number as it is printed. */
  lemma OctetSpells(n: nat)
    requires n < 256
    ensures SpellsNumber(Octet(n), n)
  {
    var t := Octet(n);
    assert Decimal("") == 0 && t[..|t| - 1][..0] == "";
    if n >= 10 {
      assert t[..1][..0] == "" && Decimal(t[..1]) == (t[0] - '0') as nat;
      if n >= 100 {
        assert t[..2][..1] == t[..1] && Decimal(t[..2]) == 10 * Decimal(t[..1]) + (t[1] - '0') as nat;
        assert n == 10 * (10 * (n / 100) + n / 10 % 10) + n % 10;
      } else {
        assert n == 10 * (n / 10) + n % 10;
      }
    }
  }

  /** An address prints as its four bytes, the most significant first. */
  lemma PrintedInOrder(b0: nat, b1: nat, b2: nat, b3: nat, a: Addr)
    requires b0 < 256 && b1 < 256 && b2 < 256 && b3 < 256
    requires a == 0x100_0000 * b0 + 0x1_0000 * b1 + 0x100 * b2 + b3
    ensures Print(a) == Octet(b0) + "." + Octet(b1) + "." + Octet(b2) + "." + Octet(b3)
    ensures SpellsNumber(Octet(b0), b0) && SpellsNumber(Octet(b1), b1)
            && SpellsNumber(Octet(b2), b2) && SpellsNumber(Octet(b3), b3)
  {
    BytesOfSum([b0, b1, b2, b3], a);
    OctetSpells(b0);
    OctetSpells(b1);
    OctetSpells(b2);
    OctetSpells(b3);
  }

  lemma OctetRoundTrip(n: nat)
    requires n < 256
    ensures ParseOctet(Octet(n)) == Some(n) && '.' !in Octet(n) && ':' !in Octet(n)
  {
    assert n == 100 * (n / 100) + 10 * (n / 10 % 10) + n % 10;
    assert forall i | 0 <= i < |Octet(n)| :: IsDigit(Octet(n)[i]);
  }

  lemma ParsedOctetIsPrinted(f: string)
    requires ParseOctet(f).Some?
    ensures f == Octet(ParseOctet(f).value)
  {
    if |f| == 2 {
      assert Digit(f[0]) > 0;
    } else if |f| == 3 {
      assert Digit(f[0]) > 0;
      var n := Number(f);
      assert n / 10 == 10 * Digit(f[0]) + Digit(f[1]);
    }
  }

  lemma BytesRoundTrip(a: Addr)
    ensures a == Sum(Bytes(a))
  {
  }

  lemma BytesOfSum(b: seq<nat>, a: Addr)
    requires |b| == 4 && (forall i | 0 <= i < 4 :: b[i] < 256) && a == Sum(b)
    ensures Bytes(a) == b
  {
    assert a % 256 == b[3] && a / 256 == 256 * (256 * b[0] + b[1]) + b[2];
    assert a / 256 % 256 == b[2] && a / 256 / 256 == 256 * b[0] + b[1];
  }

  /** The printed form as a joined list of octets. */
  lemma PrintIsJoin(a: Addr)
    ensures var b := Bytes(a);
            Print(a) == Join([Octet(b[0]), Octet(b[1]), Octet(b[2]), Octet(b[3])], '.')
  {
    var b := Bytes(a);
    var f := [Octet(b[0]), Octet(b[1]), Octet(b[2]), Octet(b[3])];
    assert f[1..] == [f[1], f[2], f[3]] && f[1..][1..] == [f[2], f[3]] && [f[2], f[3]][1..] == [f[3]];
    assert Join([f[3]], '.') == f[3];
    assert Join([f[2], f[3]], '.') == f[2] + "." + f[3];
    assert Join([f[1], f[2], f[3]], '.') == f[1] + "." + (f[2] + "." + f[3]);
    assert Join(f, '.') == f[0] + "." + (f[1] + "." + (f[2] + "." + f[3]));
  }

  /** Every address parses back from its text. */
  lemma ParsePrinted(a: Addr)
    ensures Parse(Print(a)) == Some(a)
  {
    var b := Bytes(a);
    var f := [Octet(b[0]), Octet(b[1]), Octet(b[2]), Octet(b[3])];
    PrintIsJoin(a);
    OctetRoundTrip(b[0]);
    OctetRoundTrip(b[1]);
    OctetRoundTrip(b[2]);
    OctetRoundTrip(b[3]);
    SplitUndoesJoin(f, '.');
    BytesRoundTrip(a);
  }

  /** Text that parses is the text the address prints as, so the two are inverse. */
  lemma ParsedIsPrinted(s: string)
    requires Parse(s).Some?
    ensures s == Print(Parse(s).value)
  {
    var f := Split(s, '.');
    var b := [ParseOctet(f[0]).value, ParseOctet(f[1]).value, ParseOctet(f[2]).value, ParseOctet(f[3]).value];
    ParsedOctetIsPrinted(f[0]);
    ParsedOctetIsPrinted(f[1]);
    ParsedOctetIsPrinted(f[2]);
    ParsedOctetIsPrinted(f[3]);
    BytesOfSum(b, Parse(s).value);
    PrintIsJoin(Parse(s).value);
    JoinUndoesSplit(s, '.');
    assert f == [f[0], f[1], f[2], f[3]];
  }

  // ----- Order -----

  /** `bytes.Compare(a, b) < 0` */
  predicate LexLess(a: seq<nat>, b: seq<nat>) {
    if b == [] then false
    else if a == [] then true
    else a[0] < b[0] || (a[0] == b[0] && LexLess(a[1..], b[1..]))
  }

  function Codes(s: string): seq<nat> {
    seq(|s|, i requires 0 <= i < |s| => s[i] as nat)
  }

  /** Go's order on strings. */
  predicate TextLess(a: string, b: string) {
    LexLess(Codes(a), Codes(b))
  }

  /** Numeric order when both sides are addresses, else order of the texts. */
  predicate IpLess(a: string, b: string)
    requires ':' !in a && ':' !in b
  {
    var pa, pb := Parse(a), Parse(b);
    if pa.None? || pb.None? then TextLess(a, b)
    else LexLess(Bytes(pa.value), Bytes(pb.value))
  }

  lemma BytesOrder(a: Addr, b: Addr)
    ensures LexLess(Bytes(a), Bytes(b)) <==> a < b
  {
    var x, y := Bytes(a), Bytes(b);
    BytesRoundTrip(a);
    BytesRoundTrip(b);
    assert LexLess(x[3..], y[3..]) <==> x[3] < y[3];
    assert x[2..][1..] == x[3..] && y[2..][1..] == y[3..];
    assert LexLess(x[2..], y[2..]) <==> 256 * x[2] + x[3] < 256 * y[2] + y[3];
    assert x[1..][1..] == x[2..] && y[1..][1..] == y[2..];
    assert LexLess(x[1..], y[1..]) <==>
      0x1_0000 * x[1] + 256 * x[2] + x[3] < 0x1_0000 * y[1] + 256 * y[2] + y[3];
  }

  lemma PrintedHasNoColon(a: Addr)
    ensures ':' !in Print(a)
  {
    var b := Bytes(a);
    OctetRoundTrip(b[0]);
    OctetRoundTrip(b[1]);
    OctetRoundTrip(b[2]);
    OctetRoundTrip(b[3]);
  }

  /** On printed addresses the comparator is numeric order. */
  lemma IpLessIsNumeric(a: Addr, b: Addr)
    ensures ':' !in Print(a) && ':' !in Print(b)
    ensures IpLess(Print(a), Print(b)) <==> a < b
  {
    PrintedHasNoColon(a);
    PrintedHasNoColon(b);
    ParsePrinted(a);
    ParsePrinted(b);
    BytesOrder(a, b);
  }

  lemma {:induction false} LexTotal(a: seq<nat>, b: seq<nat>)
    ensures !(LexLess(a, b) && LexLess(b, a))
    ensures LexLess(a, b) || LexLess(b, a) || a == b
  {
    if a != [] && b != [] && a[0] == b[0] {
      LexTotal(a[1..], b[1..]);
      assert a == [a[0]] + a[1..] && b == [b[0]] + b[1..];
    }
  }

  lemma {:induction false} LexTransitive(a: seq<nat>, b: seq<nat>, c: seq<nat>)
    requires LexLess(a, b) && LexLess(b, c)
    ensures LexLess(a, c)
  {
    if a != [] && a[0] == b[0] == c[0] {
      LexTransitive(a[1..], b[1..], c[1..]);
    }
  }

  lemma TextTotal(a: string, b: string)
    ensures !(TextLess(a, b) && TextLess(b, a))
    ensures TextLess(a, b) || TextLess(b, a) || a == b
  {
    LexTotal(Codes(a), Codes(b));
    if Codes(a) == Codes(b) {
      assert |a| == |Codes(a)| == |b|;
      forall i | 0 <= i < |a| ensures a[i] == b[i] {
        assert a[i] as nat == Codes(a)[i] == Codes(b)[i] == b[i] as nat;
      }
    }
  }

  /** The comparator, by the addresses the texts stand for and the order of the texts. */
  predicate LessBy(a: Option<Addr>, b: Option<Addr>, text: bool) {
    if a.Some? && b.Some? then a.value < b.value else text
  }

  lemma IpLessBy(a: string, b: string)
    requires ':' !in a && ':' !in b
    ensures IpLess(a, b) <==> LessBy(Parse(a), Parse(b), TextLess(a, b))
  {
    if Parse(a).Some? && Parse(b).Some? {
      BytesOrder(Parse(a).value, Parse(b).value);
    }
  }

  /** Two addresses in order, and text that is no address which sorts after the greater and before the lesser. */
  predicate Clash(p: string, q: string, z: string) {
    && Parse(p).Some? && Parse(q).Some? && Parse(p).value < Parse(q).value
    && Parse(z).None? && TextLess(q, z) && TextLess(z, p)
  }

  ghost predicate Intransitive(x: string, y: string, z: string)
    requires ':' !in x && ':' !in y && ':' !in z
  {
    IpLess(x, y) && IpLess(y, z) && !IpLess(x, z)
  }

  /** Every clash is a cycle of the comparator. */
  lemma ClashIsCycle(p: string, q: string, z: string)
    requires ':' !in p && ':' !in q && ':' !in z && Clash(p, q, z)
    ensures IpLess(p, q) && IpLess(q, z) && IpLess(z, p) && Intransitive(p, q, z)
  {
    IpLessBy(p, q);
    IpLessBy(q, z);
    IpLessBy(z, p);
    IpLessBy(p, z);
    TextTotal(p, z);
  }

  /** The same for two addresses, a third of which nothing is known, and the orders of their texts. */
  predicate ClashBy(p: Option<Addr>, q: Option<Addr>, z: Option<Addr>, qz: bool, zp: bool) {
    p.Some? && q.Some? && p.value < q.value && z.None? && qz && zp
  }

  lemma OrdersClash(x: Option<Addr>, y: Option<Addr>, z: Option<Addr>, xy: bool, yz: bool, xz: bool, zx: bool)
    requires LessBy(x, y, xy) && LessBy(y, z, yz) && !LessBy(x, z, xz)
    requires xy && yz ==> xz && !(x.Some? && x == z)
    requires xz || zx || x == z
    ensures ClashBy(x, y, z, yz, zx) || ClashBy(y, z, x, zx, xy) || ClashBy(z, x, y, xy, yz)
  {
  }

  /** Where transitivity fails, the three texts clash in some order. */
  lemma IntransitiveClashes(x: string, y: string, z: string)
    requires ':' !in x && ':' !in y && ':' !in z && Intransitive(x, y, z)
    ensures Clash(x, y, z) || Clash(y, z, x) || Clash(z, x, y)
  {
    IpLessBy(x, y);
    IpLessBy(y, z);
    IpLessBy(x, z);
    TextTotal(x, z);
    TextTotal(x, y);
    if TextLess(x, y) && TextLess(y, z) {
      LexTransitive(Codes(x), Codes(y), Codes(z));
      if Parse(x).Some? && Parse(x) == Parse(z) {
        ParsedIsPrinted(x);
        ParsedIsPrinted(z);
        assert false;
      }
    }
    OrdersClash(Parse(x), Parse(y), Parse(z), TextLess(x, y), TextLess(y, z), TextLess(x, z), TextLess(z, x));
  }

  /** On any list of texts without colons the comparator is transitive exactly when no three of them clash. */
  lemma TransitiveExactly(texts: set<string>)
    requires forall x | x in texts :: ':' !in x
    ensures (forall x, y, z | x in texts && y in texts && z in texts :: !Intransitive(x, y, z))
            <==> (forall p, q, z | p in texts && q in texts && z in texts :: !Clash(p, q, z))
  {
    forall x, y, z | x in texts && y in texts && z in texts && Intransitive(x, y, z)
      ensures exists p, q, w :: p in texts && q in texts && w in texts && Clash(p, q, w)
    {
      IntransitiveClashes(x, y, z);
    }
    forall p, q, z | p in texts && q in texts && z in texts && Clash(p, q, z)
      ensures Intransitive(p, q, z)
    {
      ClashIsCycle(p, q, z);
    }
  }

  lemma ClashOf(p: string, q: string, z: string, a: Addr, b: Addr)
    requires p == Print(a) && q == Print(b) && a < b && '.' !in z && ':' !in z
    requires TextLess(q, z) && TextLess(z, p)
    ensures ':' !in p && ':' !in q && Clash(p, q, z)
  {
    ParsePrinted(a);
    ParsePrinted(b);
    PrintedHasNoColon(a);
    PrintedHasNoColon(b);
    SplitWithoutSeparator(z, '.');
  }

  /** On mixed lists the two orders do not fit together: here three texts clash, and form a cycle. */
  lemma IpLessCyclesOnMixedText()
    ensures Clash("9.0.0.0", "10.0.0.0", "1z")
    ensures IpLess("9.0.0.0", "10.0.0.0") && IpLess("10.0.0.0", "1z") && IpLess("1z", "9.0.0.0")
  {
    PrintNine();
    PrintTen();
    LexByHead("1z", "9.0.0.0");
    LexByHead("0.0.0.0", "z");
    LexSameHead("10.0.0.0", "1z");
    assert "10.0.0.0"[1..] == "0.0.0.0" && "1z"[1..] == "z";
    ClashOf("9.0.0.0", "10.0.0.0", "1z", 0x900_0000, 0xA00_0000);
    ClashIsCycle("9.0.0.0", "10.0.0.0", "1z");
  }

  lemma PrintNine()
    ensures Print(0x900_0000) == "9.0.0.0"
  {
    BytesOfSum([9, 0, 0, 0], 0x900_0000);
  }

  lemma PrintTen()
    ensures Print(0xA00_0000) == "10.0.0.0"
  {
    BytesOfSum([10, 0, 0, 0], 0xA00_0000);
  }

  lemma LexSameHead(a: string, b: string)
    requires a != "" && b != "" && a[0] == b[0]
    ensures LexLess(Codes(a), Codes(b)) == LexLess(Codes(a[1..]), Codes(b[1..]))
  {
    assert Codes(a)[1..] == Codes(a[1..]) && Codes(b)[1..] == Codes(b[1..]);
  }

  lemma LexByHead(a: string, b: string)
    requires a != "" && b != "" && a[0] < b[0]
    ensures LexLess(Codes(a), Codes(b))
  {
  }
}
