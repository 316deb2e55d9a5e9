/**
 The routes file: a JSON object whose values are strings (sections 4 and 7 of
 RFC 8259), written as the gateway's encoder writes it and read by a decoder that
 accepts any spelling. Strings are sequences of Unicode scalar values.
 */
module RoutesJson {
  import opened Wrappers
  import opened Text

  type Table = map<string, string>

  // ----- Encoding -----

  function HexDigit(n: nat): char
    requires n < 16
  {
    if n < 10 then '0' + n as char else 'a' + (n - 10) as char
  }

  function Pow16(w: nat): nat {
    if w == 0 then 1 else 16 * Pow16(w - 1)
  }

  /** The `w` lowest hexadecimal digits of a number. */
  function HexDigits(n: nat, w: nat): (digits: string)
    ensures |digits| == w
  {
    if w == 0 then "" else HexDigits(n / 16, w - 1) + [HexDigit(n % 16)]
  }

  function HexEscape(n: nat): string {
    "\\u" + HexDigits(n, 4)
  }

  predicate HexEscaped(c: char) {
    c < ' ' || c in {'<', '>', '&', '\U{2028}', '\U{2029}'}
  }

  /** Control characters, quotes, HTML characters and line separators are escaped. */
  function EncodeChar(c: char): string {
    if c == '\"' then "\\\""
    else if c == '\\' then "\\\\"
    else if c == '\U{08}' then "\\b"
    else if c == '\U{0C}' then "\\f"
    else if c == '\n' then "\\n"
    else if c == '\r' then "\\r"
    else if c == '\t' then "\\t"
    else if HexEscaped(c) then HexEscape(c as nat)
    else [c]
  }

  /** The characters of a string and its closing quote. */
  function EncodeTail(s: string): string {
    if s == "" then "\"" else EncodeChar(s[0]) + EncodeTail(s[1..])
  }

  function Quote(s: string): string {
    "\"" + EncodeTail(s)
  }

  /** Everything after the opening brace or a comma. */
  function EncodeMembers(m: Table, keys: seq<string>): string
    requires keys != [] && forall k | k in keys :: k in m
    decreases |keys|, 1
  {
    EncodeEntry(keys[0], m[keys[0]]) + AfterEntry(m, keys)
  }

  function EncodeEntry(key: string, value: string): string {
    Quote(key) + ":" + Quote(value)
  }

  /** What follows a member: the closing brace, or a comma and the other members. */
  function AfterEntry(m: Table, keys: seq<string>): string
    requires keys != [] && forall k | k in keys :: k in m
    decreases |keys|, 0
  {
    if |keys| == 1 then "}" else "," + EncodeMembers(m, keys[1..])
  }

  function Encode(m: Table, keys: seq<string>): string
    requires forall k | k in keys :: k in m
  {
    "{" + if keys == [] then "}" else EncodeMembers(m, keys)
  }

  // ----- Decoding -----

  datatype Parsed = Fail | Ok(value: string, rest: string)

  function HexNumber(digits: string): (r: Option<nat>)
    ensures r.Some? ==> r.value < Pow16(|digits|)
  {
    if digits == "" then Some(0)
    else
      var high := HexNumber(digits[..|digits| - 1]);
      var low := digits[|digits| - 1];
      if high.Some? && IsHex(low) then Some(16 * high.value + HexValue(low)) else None
  }

  /** The code unit of a "\uXXXX" escape at the head of the text. */
  function CodeUnit(t: string): (r: Option<nat>)
    ensures r.Some? ==> |t| >= 6 && r.value < 0x10000
  {
    if |t| < 6 || t[0] != '\\' || t[1] != 'u' then None
    else
      assert Pow16(2) == 256 && Pow16(4) == 256 * Pow16(2);
      HexNumber(t[2..6])
  }

  datatype Head = Bad | Char(c: char, width: nat)

  /** One character of a string body; a lone surrogate reads as U+FFFD. */
  function DecodeHead(t: string): (h: Head)
    requires t != ""
    ensures h.Char? ==> 0 < h.width <= |t|
  {
    if t[0] < ' ' then Bad
    else if t[0] != '\\' then Char(t[0], 1)
    else if |t| < 2 then Bad
    else if t[1] in {'\"', '\\', '/'} then Char(t[1], 2)
    else if t[1] == 'b' then Char('\U{08}', 2)
    else if t[1] == 'f' then Char('\U{0C}', 2)
    else if t[1] == 'n' then Char('\n', 2)
    else if t[1] == 'r' then Char('\r', 2)
    else if t[1] == 't' then Char('\t', 2)
    else
      match CodeUnit(t)
      case None => Bad
      case Some(u) =>
        if !(0xD800 <= u < 0xE000) then Char(u as char, 6)
        else
          match CodeUnit(t[6..])
          case Some(v) =>
            if u < 0xDC00 && 0xDC00 <= v < 0xE000
            then Char((0x10000 + (u - 0xD800) * 0x400 + (v - 0xDC00)) as char, 12)
            else Char('\U{FFFD}', 6)
          case None => Char('\U{FFFD}', 6)
  }

  /** The rest of a string whose opening quote has been read. */
  function DecodeTail(t: string): (r: Parsed)
    ensures r.Ok? ==> |r.rest| < |t|
    decreases |t|
  {
    if t == "" then Fail
    else if t[0] == '\"' then Ok("", t[1..])
    else
      match DecodeHead(t)
      case Bad => Fail
      case Char(c, width) =>
        match DecodeTail(t[width..])
        case Fail => Fail
        case Ok(value, rest) => Ok([c] + value, rest)
  }

  function DecodeString(t: string): (r: Parsed)
    ensures r.Ok? ==> |r.rest| < |t|
  {
    if t == "" || t[0] != '\"' then Fail else DecodeTail(t[1..])
  }

  /** A value: a string, or null, which decodes to the empty string. */
  function DecodeValue(t: string): (r: Parsed)
    ensures r.Ok? ==> |r.rest| < |t|
  {
    if |t| >= 4 && t[0] == 'n' && t[..4] == "null" then Ok("", t[4..]) else DecodeString(t)
  }

  function SkipSpace(t: string): (r: string)
    ensures |r| <= |t|
  {
    if t != "" && t[0] in {' ', '\t', '\n', '\r'} then SkipSpace(t[1..]) else t
  }

  /** Reads one expected punctuation mark, with space on either side. */
  function Expect(t: string, mark: char): (r: Parsed)
    ensures r.Ok? ==> |r.rest| < |t|
  {
    var s := SkipSpace(t);
    if s == "" || s[0] != mark then Fail else Ok([mark], SkipSpace(s[1..]))
  }

  datatype Entry = NoEntry | Entry(key: string, value: string, rest: string)

  /** One member: a key, a colon and a value. */
  function DecodeEntry(t: string): (e: Entry)
    ensures e.Entry? ==> |e.rest| < |t|
  {
    var key := DecodeString(t);
    if key.Fail? then NoEntry else
    var colon := Expect(key.rest, ':');
    if colon.Fail? then NoEntry else
    var value := DecodeValue(colon.rest);
    if value.Fail? then NoEntry else Entry(key.value, value.value, value.rest)
  }

  /** The members of an object up to its closing brace and the end of the text. */
  function DecodeMembers(t: string, sofar: Table): Option<Table>
    decreases |t|
  {
    match DecodeEntry(t)
    case NoEntry => None
    case Entry(key, value, rest) =>
      var table := sofar[key := value];
      var comma := Expect(rest, ',');
      if comma.Ok? then DecodeMembers(comma.rest, table)
      else if Expect(rest, '}') == Ok("}", "") then Some(table) else None
  }

  /** A table, or None when the text is not an object of strings. */
  function Decode(t: string): Option<Table> {
    var open := Expect(t, '{');
    if open.Fail? then None else
    var brace := Expect(open.rest, '}');
    if brace.Ok? then (if brace.rest == "" then Some(map[]) else None)
    else DecodeMembers(open.rest, map[])
  }

  // ----- What the decoder reads (sections 2 and 7 of RFC 8259) -----

  const SHORT_ESCAPES: map<char, char> :=
    map['\"' := '\"', '\\' := '\\', '/' := '/', 'b' := '\U{08}', 'f' := '\U{0C}', 'n' := '\n', 'r' := '\r', 't' := '\t']

  const SPACE := {' ', '\t', '\n', '\r'}

  lemma ShortEscapeReads(e: char, rest: string)
    requires e in SHORT_ESCAPES
    ensures DecodeHead("\\" + [e] + rest) == Char(SHORT_ESCAPES[e], 2)
  {
  }

  lemma HexDigitInTable(n: nat)
    requires n < 16
    ensures HexDigit(n) == "0123456789abcdef"[n] && IsHex(HexDigit(n)) && HexValue(HexDigit(n)) == n
  {
  }

  /** The four digits of an escape count from the left. */
  lemma CodeUnitReads(a: nat, b: nat, c: nat, d: nat, rest: string)
    requires a < 16 && b < 16 && c < 16 && d < 16
    ensures CodeUnit("\\u" + [HexDigit(a), HexDigit(b), HexDigit(c), HexDigit(d)] + rest)
         == Some(0x1000 * a + 0x100 * b + 0x10 * c + d)
  {
    var digits := [HexDigit(a), HexDigit(b), HexDigit(c), HexDigit(d)];
    HexDigitInTable(a);
    HexDigitInTable(b);
    HexDigitInTable(c);
    HexDigitInTable(d);
    assert ("\\u" + digits + rest)[2..6] == digits;
    assert digits[..3] == [HexDigit(a), HexDigit(b), HexDigit(c)] && digits[..3][..2] == [HexDigit(a), HexDigit(b)];
    assert digits[..3][..2][..1] == [HexDigit(a)] && digits[..3][..2][..1][..0] == "";
    assert HexNumber([HexDigit(a)]) == Some(a);
    assert HexNumber(digits[..3][..2]) == Some(16 * a + b);
    assert HexNumber(digits[..3]) == Some(16 * (16 * a + b) + c);
  }

  predicate AllSpace(s: string) {
    forall i | 0 <= i < |s| :: s[i] in SPACE
  }

  lemma {:induction false} SpaceSkipped(space: string, t: string)
    requires AllSpace(space)
    ensures SkipSpace(space + t) == SkipSpace(t)
  {
    if space == "" {
      assert space + t == t;
    } else {
      assert (space + t)[0] == space[0] && (space + t)[1..] == space[1..] + t;
      SpaceSkipped(space[1..], t);
    }
  }

  /** Space before a mark and after it, and before the whole text, makes no difference. */
  lemma SpaceIsIgnored(space: string, more: string, mark: char, t: string)
    requires AllSpace(space) && AllSpace(more) && mark !in SPACE
    ensures Expect(space + ([mark] + (more + t)), mark) == Expect([mark] + t, mark) == Ok([mark], SkipSpace(t))
    ensures Decode(space + t) == Decode(t)
  {
    SpaceSkipped(space, [mark] + (more + t));
    MarkReads(mark, more + t);
    MarkReads(mark, t);
    SpaceSkipped(more, t);
    SpaceSkipped(space, t);
  }

  lemma MarkReads(mark: char, t: string)
    requires mark !in SPACE
    ensures SkipSpace([mark] + t) == [mark] + t && Expect([mark] + t, mark) == Ok([mark], SkipSpace(t))
  {
    assert ([mark] + t)[1..] == t;
  }

  // ----- Round trip -----

  lemma {:induction false} HexRoundTrip(n: nat, w: nat)
    requires n < Pow16(w)
    ensures HexNumber(HexDigits(n, w)) == Some(n)
  {
    if w > 0 {
      HexRoundTrip(n / 16, w - 1);
      assert HexDigits(n, w)[..w - 1] == HexDigits(n / 16, w - 1);
      assert IsHex(HexDigit(n % 16)) && HexValue(HexDigit(n % 16)) == n % 16;
    }
  }

  lemma HexEscapeRoundTrip(n: nat, rest: string)
    requires n < 0x10000
    ensures CodeUnit(HexEscape(n) + rest) == Some(n)
  {
    assert Pow16(2) == 256 && Pow16(4) == 256 * Pow16(2);
    HexRoundTrip(n, 4);
    assert (HexEscape(n) + rest)[2..6] == HexDigits(n, 4);
  }

  /** Every character reads back, and no proper part of its spelling does. */
  lemma CharRoundTrip(c: char, rest: string, cut: nat)
    ensures DecodeHead(EncodeChar(c) + rest) == Char(c, |EncodeChar(c)|)
    ensures EncodeChar(c)[0] != '\"'
    ensures 0 < cut < |EncodeChar(c)| ==> DecodeHead(EncodeChar(c)[..cut]) == Bad
  {
    if HexEscaped(c) {
      HexEscapeRoundTrip(c as nat, rest);
    }
  }

  lemma {:induction false} TailRoundTrip(s: string, rest: string)
    ensures DecodeTail(EncodeTail(s) + rest) == Ok(s, rest)
  {
    if s == "" {
      assert (EncodeTail(s) + rest)[1..] == rest;
    } else {
      var head, tail := EncodeChar(s[0]), EncodeTail(s[1..]);
      CharRoundTrip(s[0], tail + rest, 0);
      assert EncodeTail(s) + rest == head + (tail + rest);
      assert (head + (tail + rest))[|head|..] == tail + rest;
      TailRoundTrip(s[1..], rest);
    }
  }

  lemma {:induction false} CutTailFails(s: string, cut: nat)
    requires cut < |EncodeTail(s)|
    ensures DecodeTail(EncodeTail(s)[..cut]) == Fail
  {
    if s != "" && cut > 0 {
      var head, tail := EncodeChar(s[0]), EncodeTail(s[1..]);
      var t := EncodeTail(s)[..cut];
      if cut < |head| {
        assert t == head[..cut];
        CharRoundTrip(s[0], "", cut);
      } else {
        assert t == head + tail[..cut - |head|];
        CharRoundTrip(s[0], tail[..cut - |head|], 0);
        assert t[|head|..] == tail[..cut - |head|];
        CutTailFails(s[1..], cut - |head|);
      }
    }
  }

  lemma QuoteRoundTrip(s: string, rest: string)
    ensures DecodeString(Quote(s) + rest) == Ok(s, rest)
    ensures DecodeValue(Quote(s) + rest) == Ok(s, rest)
  {
    assert (Quote(s) + rest)[1..] == EncodeTail(s) + rest;
    TailRoundTrip(s, rest);
  }

  lemma CutQuoteFails(s: string, cut: nat)
    requires cut < |Quote(s)|
    ensures DecodeString(Quote(s)[..cut]) == Fail
    ensures DecodeValue(Quote(s)[..cut]) == Fail
  {
    if cut > 0 {
      assert Quote(s)[..cut][1..] == EncodeTail(s)[..cut - 1];
      CutTailFails(s, cut - 1);
    }
  }

  /** A punctuation mark followed by text that does not start with space. */
  lemma ExpectMark(mark: char, rest: string)
    requires mark in {'{', '}', ':', ','}
    requires rest == "" || rest[0] in {'{', '}', '\"'}
    ensures Expect([mark] + rest, mark) == Ok([mark], rest)
    ensures forall other | other != mark :: Expect([mark] + rest, other) == Fail
  {
    assert ([mark] + rest)[1..] == rest;
  }

  ghost function Pairs(m: Table, keys: seq<string>, sofar: Table): Table
    requires forall k | k in keys :: k in m
  {
    if keys == [] then sofar else Pairs(m, keys[1..], sofar[keys[0] := m[keys[0]]])
  }

  lemma EntryRoundTrip(key: string, value: string, rest: string)
    ensures DecodeEntry(EncodeEntry(key, value) + rest) == Entry(key, value, rest)
  {
    var second := Quote(value) + rest;
    assert EncodeEntry(key, value) + rest == Quote(key) + (":" + second);
    QuoteRoundTrip(key, ":" + second);
    ExpectMark(':', second);
    QuoteRoundTrip(value, rest);
  }

  lemma {:induction false} MembersRoundTrip(m: Table, keys: seq<string>, sofar: Table)
    requires keys != [] && forall k | k in keys :: k in m
    ensures DecodeMembers(EncodeMembers(m, keys), sofar) == Some(Pairs(m, keys, sofar))
    decreases |keys|
  {
    var next := sofar[keys[0] := m[keys[0]]];
    EntryRoundTrip(keys[0], m[keys[0]], AfterEntry(m, keys));
    if |keys| == 1 {
      ExpectMark('}', "");
      assert "}" + "" == "}";
      assert Pairs(m, keys, sofar) == next;
    } else {
      ExpectMark(',', EncodeMembers(m, keys[1..]));
      MembersRoundTrip(m, keys[1..], next);
    }
  }

  lemma {:induction false} PairsCollect(m: Table, keys: seq<string>, sofar: Table)
    requires forall k | k in keys :: k in m
    requires forall k | k in sofar :: k in m && sofar[k] == m[k]
    requires forall k | k in m :: k in sofar || k in keys
    ensures Pairs(m, keys, sofar) == m
    decreases |keys|
  {
    if keys != [] {
      PairsCollect(m, keys[1..], sofar[keys[0] := m[keys[0]]]);
    }
  }

  /** Decoding what was encoded gives the table back, whatever the order of its keys. */
  lemma RoundTrip(m: Table, keys: seq<string>)
    requires Enumerates(keys, m.Keys)
    ensures Decode(Encode(m, keys)) == Some(m)
  {
    if keys == [] {
      ExpectMark('{', "}");
      ExpectMark('}', "");
      assert "}" + "" == "}";
      assert m == map[];
    } else {
      var members := EncodeMembers(m, keys);
      ExpectMark('{', members);
      assert members[0] == '\"';
      MembersRoundTrip(m, keys, map[]);
      PairsCollect(m, keys, map[]);
    }
  }

  // ----- A truncated file is never read as a table -----

  lemma CutConcat(a: string, b: string, cut: nat)
    requires cut <= |a + b|
    ensures (a + b)[..cut] == if cut <= |a| then a[..cut] else a + b[..cut - |a|]
  {
  }

  lemma CutEntryFails(key: string, value: string, cut: nat)
    requires cut < |EncodeEntry(key, value)|
    ensures DecodeEntry(EncodeEntry(key, value)[..cut]) == NoEntry
  {
    var k, v := Quote(key), Quote(value);
    assert EncodeEntry(key, value) == k + (":" + v);
    CutConcat(k, ":" + v, cut);
    if cut < |k| {
      CutQuoteFails(key, cut);
    } else {
      var t := (":" + v)[..cut - |k|];
      assert EncodeEntry(key, value)[..cut] == k + t;
      QuoteRoundTrip(key, t);
      assert DecodeString(k + t) == Ok(key, t);
      if t != "" {
        assert t == ":" + v[..|t| - 1];
        assert v[..|t| - 1] == "" || v[..|t| - 1][0] == '\"';
        ExpectMark(':', v[..|t| - 1]);
        CutQuoteFails(value, |t| - 1);
      }
    }
  }

  lemma {:induction false} CutMembersFail(m: Table, keys: seq<string>, cut: nat, sofar: Table)
    requires keys != [] && forall k | k in keys :: k in m
    requires cut < |EncodeMembers(m, keys)|
    ensures DecodeMembers(EncodeMembers(m, keys)[..cut], sofar) == None
    decreases |keys|
  {
    var entry, after := EncodeEntry(keys[0], m[keys[0]]), AfterEntry(m, keys);
    CutConcat(entry, after, cut);
    if cut < |entry| {
      CutEntryFails(keys[0], m[keys[0]], cut);
    } else {
      var t := after[..cut - |entry|];
      assert EncodeMembers(m, keys)[..cut] == entry + t;
      EntryRoundTrip(keys[0], m[keys[0]], t);
      if t != "" {
        assert |keys| > 1;
        var members := EncodeMembers(m, keys[1..]);
        var u := members[..|t| - 1];
        assert t == "," + u;
        ExpectMark(',', u);
        CutMembersFail(m, keys[1..], |t| - 1, sofar[keys[0] := m[keys[0]]]);
      }
    }
  }

  /** No proper prefix of an encoded table decodes. */
  lemma CutFails(m: Table, keys: seq<string>, cut: nat)
    requires Enumerates(keys, m.Keys) && cut < |Encode(m, keys)|
    ensures Decode(Encode(m, keys)[..cut]) == None
  {
    if cut > 0 {
      var body := if keys == [] then "}" else EncodeMembers(m, keys);
      var t := body[..cut - 1];
      assert Encode(m, keys)[..cut] == "{" + t;
      ExpectMark('{', t);
      if keys != [] {
        CutMembersFail(m, keys, cut - 1, map[]);
      }
    }
  }
}
