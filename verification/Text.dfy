/**
 Strings as the gateway handles them: splitting at a separator, joining, prefixes,
 hexadecimal digits and lower-casing; and lists of distinct strings.
 */
module Text {

  ghost predicate Distinct(list: seq<string>) {
    forall i, j | 0 <= i < j < |list| :: list[i] != list[j]
  }

  /** Each element of the set once. */
  ghost predicate Enumerates(list: seq<string>, elements: set<string>) {
    (forall x :: x in list <==> x in elements) && Distinct(list)
  }

  predicate Digits(s: string) {
    forall i | 0 <= i < |s| :: '0' <= s[i] <= '9'
  }

  /** The number that digits spell. */
  function Decimal(s: string): nat
    requires Digits(s)
  {
    if s == "" then 0 else 10 * Decimal(s[..|s| - 1]) + (s[|s| - 1] - '0') as nat
  }

  /** The number as it is printed: its digits, without a leading zero. */
  predicate SpellsNumber(s: string, n: nat) {
    s != "" && Digits(s) && Decimal(s) == n && (|s| > 1 ==> s[0] != '0')
  }

  lemma {:induction false} DecimalBounds(s: string)
    requires s != "" && Digits(s) && s[0] != '0'
    ensures Decimal(s) >= 1 && (|s| > 1 ==> Decimal(s) >= 10)
  {
    if |s| > 1 {
      DecimalBounds(s[..|s| - 1]);
    } else {
      assert Decimal(s[..0]) == 0;
    }
  }

  /** Only one text spells a number so. */
  lemma {:induction false} SpellingIsUnique(s: string, t: string, n: nat)
    requires SpellsNumber(s, n) && SpellsNumber(t, n)
    ensures s == t
    decreases |s|
  {
    var a, b := s[..|s| - 1], t[..|t| - 1];
    assert s == a + [s[|s| - 1]] && t == b + [t[|t| - 1]];
    if |s| > 1 { DecimalBounds(s); }
    if |t| > 1 { DecimalBounds(t); }
    assert Decimal("") == 0;
    if |s| > 1 && |t| > 1 {
      assert Decimal(a) == Decimal(b);
      SpellingIsUnique(a, b, Decimal(a));
    }
  }

  predicate IsHex(c: char) {
    '0' <= c <= '9' || 'a' <= c <= 'f' || 'A' <= c <= 'F'
  }

  function HexValue(c: char): (v: nat)
    requires IsHex(c)
    ensures v < 16
  {
    if c <= '9' then (c - '0') as nat
    else if c <= 'F' then (c - 'A') as nat + 10
    else (c - 'a') as nat + 10
  }

  predicate HasPrefix(s: string, prefix: string) {
    |prefix| <= |s| && s[..|prefix|] == prefix
  }

  predicate HasSuffix(s: string, suffix: string) {
    |suffix| <= |s| && s[|s| - |suffix|..] == suffix
  }

  /** `strings.Split` for a one-byte separator: never empty, pieces free of it. */
  function Split(s: string, sep: char): (parts: seq<string>)
    ensures |parts| >= 1
    ensures forall p | p in parts :: sep !in p
  {
    if s == "" then [""]
    else
      var rest := Split(s[1..], sep);
      if s[0] == sep then [""] + rest else [[s[0]] + rest[0]] + rest[1..]
  }

  function Join(parts: seq<string>, sep: char): string {
    if parts == [] then ""
    else if |parts| == 1 then parts[0]
    else parts[0] + [sep] + Join(parts[1..], sep)
  }

  /** Splitting distributes over a separator. */
  lemma {:induction false} SplitAtSeparator(a: string, b: string, sep: char)
    ensures Split(a + [sep] + b, sep) == Split(a, sep) + Split(b, sep)
  {
    var s := a + [sep] + b;
    if a == "" {
      assert s[1..] == b;
    } else {
      assert s[1..] == a[1..] + [sep] + b;
      SplitAtSeparator(a[1..], b, sep);
    }
  }

  lemma {:induction false} SplitWithoutSeparator(a: string, sep: char)
    requires sep !in a
    ensures Split(a, sep) == [a]
  {
    if a != "" {
      SplitWithoutSeparator(a[1..], sep);
      assert a == [a[0]] + a[1..];
    }
  }

  /** Splitting undoes joining for a non-empty list of pieces free of the separator. */
  lemma {:induction false} SplitUndoesJoin(parts: seq<string>, sep: char)
    requires parts != []
    requires forall p | p in parts :: sep !in p
    ensures Split(Join(parts, sep), sep) == parts
  {
    SplitWithoutSeparator(parts[0], sep);
    if |parts| > 1 {
      SplitUndoesJoin(parts[1..], sep);
      SplitAtSeparator(parts[0], Join(parts[1..], sep), sep);
    }
  }

  /** Joining undoes splitting. */
  lemma {:induction false} JoinUndoesSplit(s: string, sep: char)
    ensures Join(Split(s, sep), sep) == s
  {
    if s != "" {
      JoinUndoesSplit(s[1..], sep);
    }
  }

  function LowerChar(c: char): char {
    if 'A' <= c <= 'Z' then c - 'A' + 'a' else c
  }

  /** ASCII lower case; other bytes are left alone. */
  function Lower(s: string): (r: string)
    ensures |r| == |s|
    ensures forall i | 0 <= i < |s| :: r[i] == LowerChar(s[i])
  {
    seq(|s|, i requires 0 <= i < |s| => LowerChar(s[i]))
  }

  lemma LowerConcat(a: string, b: string)
    ensures Lower(a + b) == Lower(a) + Lower(b)
  {
  }

  /** The two bytes of U+0130, the capital I with a dot, whose lower case is the ASCII letter i. */
  predicate DottedCapital(s: string) {
    |s| >= 2 && s[0] == '\U{C4}' && s[1] == '\U{B0}'
  }

  /**
   `strings.ToLower`, as far as ASCII text can tell. Lower case takes one other character to ASCII,
   the Kelvin sign to k; it, and what becomes of all other bytes above 0x7F, is left alone here.
   */
  function ToLower(s: string): string
    decreases |s|
  {
    if s == "" then ""
    else if DottedCapital(s) then "i" + ToLower(s[2..])
    else [LowerChar(s[0])] + ToLower(s[1..])
  }

  function ToLowerAll(parts: seq<string>): (r: seq<string>)
    ensures |r| == |parts|
    ensures forall i | 0 <= i < |parts| :: r[i] == ToLower(parts[i])
  {
    seq(|parts|, i requires 0 <= i < |parts| => ToLower(parts[i]))
  }

  /** ASCII case does not matter to lower case. */
  lemma {:induction false} ToLowerIgnoresCase(s: string)
    ensures ToLower(Lower(s)) == ToLower(s)
    decreases |s|
  {
    if s == "" {
    } else if DottedCapital(s) {
      assert Lower(s)[2..] == Lower(s[2..]);
      ToLowerIgnoresCase(s[2..]);
    } else {
      assert Lower(s)[1..] == Lower(s[1..]);
      ToLowerIgnoresCase(s[1..]);
    }
  }

  lemma SplitPair(s: string, sep: char)
    requires |s| >= 2 && s[0] != sep && s[1] != sep
    ensures var rest := Split(s[2..], sep); Split(s, sep) == [s[..2] + rest[0]] + rest[1..]
  {
    var rest, next := Split(s[2..], sep), Split(s[1..], sep);
    assert s[1..][1..] == s[2..];
    assert next == [[s[1]] + rest[0]] + rest[1..];
    assert [s[0]] + ([s[1]] + rest[0]) == s[..2] + rest[0];
  }

  /** A first byte that starts no dotted capital in the text starts none in its first piece. */
  lemma HeadStays(s: string, sep: char)
    requires s != "" && s[0] != sep && !DottedCapital(s)
    ensures !DottedCapital([s[0]] + Split(s[1..], sep)[0])
  {
    if |s| > 1 && s[1] != sep {
      assert Split(s[1..], sep)[0][0] == s[1];
    }
  }

  lemma SplitHead(c: char, s: string, sep: char)
    requires c != sep
    ensures Split([c] + s, sep) == [[c] + Split(s, sep)[0]] + Split(s, sep)[1..]
  {
    assert ([c] + s)[1..] == s;
  }

  lemma LowerFirstPiece(head: string, low: string, pieces: seq<string>)
    requires pieces != [] && ToLower(head + pieces[0]) == low + ToLower(pieces[0])
    ensures [low + ToLowerAll(pieces)[0]] + ToLowerAll(pieces)[1..] == ToLowerAll([head + pieces[0]] + pieces[1..])
  {
  }

  /** Lower-casing never makes or breaks a separator that is no letter. */
  lemma {:induction false} SplitToLower(s: string, sep: char)
    requires sep < 'A'
    ensures Split(ToLower(s), sep) == ToLowerAll(Split(s, sep))
    decreases |s|
  {
    if s == "" {
    } else if DottedCapital(s) {
      var rest := Split(s[2..], sep);
      SplitToLower(s[2..], sep);
      SplitPair(s, sep);
      SplitHead('i', ToLower(s[2..]), sep);
      assert (s[..2] + rest[0])[2..] == rest[0];
      LowerFirstPiece(s[..2], "i", rest);
    } else if s[0] == sep {
      SplitToLower(s[1..], sep);
      assert ToLower(s)[1..] == ToLower(s[1..]);
    } else {
      var rest := Split(s[1..], sep);
      SplitToLower(s[1..], sep);
      SplitHead(LowerChar(s[0]), ToLower(s[1..]), sep);
      HeadStays(s, sep);
      assert ([s[0]] + rest[0])[1..] == rest[0];
      LowerFirstPiece([s[0]], [LowerChar(s[0])], rest);
    }
  }

  const UPPERS := "ABCDEFGHIJKLMNOPQRSTUVWXYZ"
  const LOWERS := "abcdefghijklmnopqrstuvwxyz"

  /** The i-th letter, in either case. */
  predicate Letter(i: nat, upper: char, lower: char) {
    i < |UPPERS| == |LOWERS| && UPPERS[i] == upper && LOWERS[i] == lower
  }

  /** The same letter, the second time in lower case, or the same character that is no capital. */
  ghost predicate LowerOf(c: char, d: char) {
    (exists i :: Letter(i, c, d)) || (c == d && forall i, e :: !Letter(i, c, e))
  }

  lemma LettersInOrder(i: nat, upper: char, lower: char)
    ensures Letter(i, upper, lower) <==> i < 26 && upper as nat == 'A' as nat + i && lower as nat == 'a' as nat + i
  {
  }

  lemma LowerCharExactly(c: char, d: char)
    ensures LowerChar(c) == d <==> LowerOf(c, d)
  {
    forall i, e ensures Letter(i, c, e) <==> i < 26 && c as nat == 'A' as nat + i && e as nat == 'a' as nat + i {
      LettersInOrder(i, c, e);
    }
    if 'A' <= c <= 'Z' {
      assert Letter((c - 'A') as nat, c, LowerChar(c));
    }
  }

  /** Lower case, letter by letter; the one character that shortens to a letter is the dotted capital. */
  lemma {:induction false} ToLowerExactly(s: string, t: string)
    ensures '\U{C4}' !in s ==>
              (ToLower(s) == t <==> |s| == |t| && forall i | 0 <= i < |s| :: LowerOf(s[i], t[i]))
    ensures ToLower("\U{C4}\U{B0}" + s) == "i" + ToLower(s)
  {
    assert ("\U{C4}\U{B0}" + s)[2..] == s;
    if s != "" && t != "" {
      ToLowerExactly(s[1..], t[1..]);
      LowerCharExactly(s[0], t[0]);
      assert s == [s[0]] + s[1..] && t == [t[0]] + t[1..];
    }
  }

  lemma AffixesExactly(s: string, affix: string)
    ensures HasPrefix(s, affix) <==> exists rest :: s == affix + rest
    ensures HasSuffix(s, affix) <==> exists rest :: s == rest + affix
  {
    if HasPrefix(s, affix) {
      assert s == affix + s[|affix|..];
    }
    if HasSuffix(s, affix) {
      assert s == s[..|s| - |affix|] + affix;
    }
  }
}
