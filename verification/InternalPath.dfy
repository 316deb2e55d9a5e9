/**
 The guard for internal endpoints: one percent-decode, one cleaning, one
 lower-casing, then a search for the segment "_internal".
 */
module InternalPath {
  import opened Wrappers
  import opened Text
  import opened PathClean

  const INTERNAL := "_internal"

  // ----- Percent-decoding -----

  /** A percent sign followed by two hexadecimal digits. */
  predicate EscapeAt(s: string) {
    |s| >= 3 && s[0] == '%' && IsHex(s[1]) && IsHex(s[2])
  }

  /** The byte at the head of the text, and how many bytes spell it. */
  function HeadByte(s: string): char
    requires s != ""
  {
    if EscapeAt(s) then (16 * HexValue(s[1]) + HexValue(s[2])) as char else s[0]
  }

  function HeadWidth(s: string): nat {
    if EscapeAt(s) then 3 else 1
  }

  function Prepend(c: char, rest: Option<string>): Option<string> {
    match rest
    case None => None
    case Some(r) => Some([c] + r)
  }

  /** `url.PathUnescape`: None when some percent sign starts no escape. */
  function Unescape(s: string): Option<string>
    decreases |s|
  {
    if s == "" then Some("")
    else if s[0] == '%' && !EscapeAt(s) then None
    else Prepend(HeadByte(s), Unescape(s[HeadWidth(s)..]))
  }

  /** One round of decoding; the raw text when it is malformed. */
  function DecodeOnce(p: string): string {
    match Unescape(p)
    case None => p
    case Some(decoded) => decoded
  }

  lemma {:induction false} UnescapePercentFree(s: string)
    requires '%' !in s
    ensures Unescape(s) == Some(s)
  {
    if s != "" {
      UnescapePercentFree(s[1..]);
      assert s == [s[0]] + s[1..];
    }
  }

  // ----- Percent-encoding (section 2.1 of RFC 3986) -----

  const UPPER_HEX := "0123456789ABCDEF"
  const LOWER_HEX := "0123456789abcdef"

  /** How one byte is written: itself, or as an escape with its digits in either case. */
  datatype Spelling = Plain | Escaped(highUpper: bool, lowUpper: bool)

  function HexChar(n: nat, upper: bool): char
    requires n < 16
  {
    if upper then UPPER_HEX[n] else LOWER_HEX[n]
  }

  predicate Spellable(c: char, how: Spelling) {
    if how.Plain? then c != '%' else c as nat < 256
  }

  function Spell(c: char, how: Spelling): string
    requires Spellable(c, how)
  {
    match how
    case Plain => [c]
    case Escaped(high, low) => ['%', HexChar(c as nat / 16, high), HexChar(c as nat % 16, low)]
  }

  /** A spelling for every byte; a percent sign cannot stand for itself. */
  predicate Encodable(p: string, how: seq<Spelling>) {
    |how| == |p| && forall i | 0 <= i < |p| :: Spellable(p[i], how[i])
  }

  function Encoded(p: string, how: seq<Spelling>): string
    requires Encodable(p, how)
  {
    if p == "" then "" else Spell(p[0], how[0]) + Encoded(p[1..], how[1..])
  }

  lemma HexCharValue(n: nat, upper: bool)
    requires n < 16
    ensures IsHex(HexChar(n, upper)) && HexValue(HexChar(n, upper)) == n
  {
  }

  lemma HexValueChar(c: char) returns (upper: bool)
    requires IsHex(c)
    ensures HexChar(HexValue(c), upper) == c
  {
    upper := c <= 'F';
  }

  lemma SpellHead(c: char, how: Spelling, rest: string)
    requires Spellable(c, how)
    ensures var s := Spell(c, how) + rest;
            !(s[0] == '%' && !EscapeAt(s)) && HeadByte(s) == c && HeadWidth(s) == |Spell(c, how)|
  {
    if how.Escaped? {
      HexCharValue(c as nat / 16, how.highUpper);
      HexCharValue(c as nat % 16, how.lowUpper);
    }
  }

  /** Whatever bytes are encoded, and in whichever case, decoding gives the path back. */
  lemma {:induction false} EncodedDecodes(p: string, how: seq<Spelling>)
    requires Encodable(p, how)
    ensures Unescape(Encoded(p, how)) == Some(p)
    decreases |p|
  {
    if p != "" {
      var rest := Encoded(p[1..], how[1..]);
      EncodedDecodes(p[1..], how[1..]);
      SpellHead(p[0], how[0], rest);
      var s := Spell(p[0], how[0]) + rest;
      assert s[HeadWidth(s)..] == rest;
      assert p == [p[0]] + p[1..];
    }
  }

  /** And text decodes to a path only if it is one of the path's encodings. */
  lemma {:induction false} DecodedIsEncoded(s: string, p: string) returns (how: seq<Spelling>)
    requires Unescape(s) == Some(p)
    ensures Encodable(p, how) && Encoded(p, how) == s
    decreases |s|
  {
    if s == "" {
      how := [];
    } else {
      var n := HeadWidth(s);
      var rest := DecodedIsEncoded(s[n..], p[1..]);
      var head := Plain;
      if EscapeAt(s) {
        var high := HexValueChar(s[1]);
        var low := HexValueChar(s[2]);
        head := Escaped(high, low);
        HeadOfEscape(s);
        assert s == ['%', s[1], s[2]] + s[3..];
      } else {
        assert s == [s[0]] + s[1..];
      }
      how := [head] + rest;
      assert how[1..] == rest && Encoded(p, how) == Spell(p[0], head) + Encoded(p[1..], rest);
    }
  }

  lemma HeadOfEscape(s: string)
    requires EscapeAt(s)
    ensures HeadByte(s) as nat == 16 * HexValue(s[1]) + HexValue(s[2])
    ensures HeadByte(s) as nat / 16 == HexValue(s[1]) && HeadByte(s) as nat % 16 == HexValue(s[2])
  {
  }

  /** Decoding fails exactly when some percent sign is not followed by two hexadecimal digits. */
  lemma {:induction false} UnescapeFailsExactly(s: string)
    ensures Unescape(s) == None <==> exists i :: 0 <= i < |s| && s[i] == '%' && !EscapeAt(s[i..])
    decreases |s|
  {
    if s != "" && !(s[0] == '%' && !EscapeAt(s)) {
      var n := HeadWidth(s);
      UnescapeFailsExactly(s[n..]);
      if i :| 0 <= i < |s| && s[i] == '%' && !EscapeAt(s[i..]) {
        assert s[0..] == s;
        assert i >= n && s[n..][i - n..] == s[i..] && s[n..][i - n] == '%';
      }
      if j :| 0 <= j < |s[n..]| && s[n..][j] == '%' && !EscapeAt(s[n..][j..]) {
        assert s[n + j..] == s[n..][j..] && s[n + j] == '%';
      }
    } else if s != "" {
      assert s[0..] == s;
    }
  }

  function JoinAtSlash(a: Option<string>, b: Option<string>): Option<string> {
    if a.Some? && b.Some? then Some(a.value + "/" + b.value) else None
  }

  /** No escape straddles a slash, so decoding works on each side of it alone. */
  lemma {:induction false} UnescapeAtSlash(a: string, b: string)
    ensures Unescape(a + "/" + b) == JoinAtSlash(Unescape(a), Unescape(b))
    decreases |a|
  {
    var s := a + "/" + b;
    if a == "" {
      assert s[1..] == b;
      assert Unescape(b).Some? ==> "/" + Unescape(b).value == "" + "/" + Unescape(b).value;
    } else {
      var n := HeadWidth(a);
      assert EscapeAt(s) == EscapeAt(a) by {
        assert !IsHex('/') && (|a| > 1 ==> s[1] == a[1]) && (|a| > 2 ==> s[2] == a[2]);
      }
      assert s[n..] == a[n..] + "/" + b;
      UnescapeAtSlash(a[n..], b);
      PrependAtSlash(HeadByte(a), Unescape(a[n..]), Unescape(b));
    }
  }

  lemma PrependAtSlash(c: char, a: Option<string>, b: Option<string>)
    ensures Prepend(c, JoinAtSlash(a, b)) == JoinAtSlash(Prepend(c, a), b)
  {
    if a.Some? && b.Some? {
      assert [c] + (a.value + "/" + b.value) == [c] + a.value + "/" + b.value;
    }
  }

  lemma {:induction false} DecodeAroundDetour(a: string, detour: string, b: string)
    requires '%' !in detour
    ensures exists x, y ::
              && DecodeOnce(a + "/" + b) == x + "/" + y
              && DecodeOnce(a + "/" + detour + "/" + b) == x + "/" + detour + "/" + y
  {
    UnescapeAtSlash(a, b);
    UnescapePercentFree(detour);
    UnescapeAtSlash(a, detour);
    UnescapeAtSlash(a + "/" + detour, b);
    if Unescape(a).Some? && Unescape(b).Some? {
      var x, y := Unescape(a).value, Unescape(b).value;
      assert DecodeOnce(a + "/" + b) == x + "/" + y;
      assert DecodeOnce(a + "/" + detour + "/" + b) == x + "/" + detour + "/" + y;
    } else {
      assert DecodeOnce(a + "/" + b) == a + "/" + b;
      assert DecodeOnce(a + "/" + detour + "/" + b) == a + "/" + detour + "/" + b;
    }
  }

  // ----- The verdict -----

  /** A path, as it is after decoding, with an internal segment left by cleaning. */
  ghost predicate HasInternal(path: string) {
    exists seg :: seg in Segments(path) && ToLower(seg) == INTERNAL
  }

  /** What the guard is for: the path, once decoded, has an internal segment. */
  ghost predicate Internal(p: string) {
    HasInternal(DecodeOnce(p))
  }

  /** A leading slash does not change the segments. */
  lemma SegmentsRooted(p: string)
    ensures Segments("/" + p) == Segments(p)
  {
    assert "/" + p == "" + ['/'] + p;
    SplitAtSeparator("", p, '/');
    assert ([""] + Split(p, '/'))[1..] == Split(p, '/');
  }

  /** The pieces the guard scans are the lower-cased segments, or one empty piece. */
  lemma ScannedPieces(stack: seq<string>)
    requires AllNormal(stack)
    ensures ToLower(Render(stack))[0] == '/'
    ensures Split(ToLower(Render(stack))[1..], '/') == if stack == [] then [""] else ToLowerAll(stack)
  {
    var joined := Join(stack, '/');
    assert ToLower(Render(stack))[1..] == ToLower(joined);
    SplitToLower(joined, '/');
    SegmentsOfRender(stack);
    assert ToLowerAll([""]) == [""];
  }

  /** Finding the name among the pieces decides the verdict. */
  lemma ScanDecides(path: string)
    ensures INTERNAL in Split(ToLower(Render(Segments(DecodeOnce(path))))[1..], '/') <==> Internal(path)
  {
    var stack := Segments(DecodeOnce(path));
    ResolveKeepsNormal([], Split(DecodeOnce(path), '/'));
    ScannedPieces(stack);
    LoweredMember(stack);
  }

  lemma LoweredMember(stack: seq<string>)
    ensures INTERNAL in ToLowerAll(stack) <==> exists seg :: seg in stack && ToLower(seg) == INTERNAL
  {
    if INTERNAL in ToLowerAll(stack) {
      var i :| 0 <= i < |stack| && ToLowerAll(stack)[i] == INTERNAL;
      assert stack[i] in stack;
    }
    if seg :| seg in stack && ToLower(seg) == INTERNAL {
      var i :| 0 <= i < |stack| && stack[i] == seg;
      assert ToLowerAll(stack)[i] == INTERNAL;
    }
  }

  lemma EmptyIsNotInternal()
    ensures !Internal("")
  {
    assert Resolve([], [""]) == Resolve([], []);
  }

  /** Decode, clean, lower-case and split. */
  method LoweredPieces(path: string) returns (pieces: seq<string>)
    requires path != ""
    ensures INTERNAL in pieces <==> Internal(path)
  {
    var p := DecodeOnce(path);
    var clean := Clean("/" + p);
    SegmentsRooted(p);
    clean := ToLower(clean);
    ScanDecides(path);
    var trimmed := if HasPrefix(clean, "/") then clean[1..] else clean;
    pieces := Split(trimmed, '/');
  }

  /** Scanning the pieces decides: exactly the verdict above. */
  method IsInternalPath(path: string) returns (internal: bool)
    ensures internal <==> Internal(path)
  {
    if path == "" {
      EmptyIsNotInternal();
      return false;
    }
    var pieces := LoweredPieces(path);
    for i := 0 to |pieces|
      invariant INTERNAL !in pieces[..i]
    {
      if pieces[i] == INTERNAL {
        return true;
      }
    }
    return false;
  }

  // ----- Spellings the verdict does not depend on -----

  /** Cleaning a clean path changes nothing. */
  lemma CleanIsIdempotent(path: string)
    ensures Render(Segments(Render(Segments(path)))) == Render(Segments(path))
    ensures Render(Segments(path))[0] == '/'
  {
    ResolveKeepsNormal([], Split(path, '/'));
    SegmentsOfRender(Segments(path));
  }

  /** Segments that go down `depth` levels less than they come back up, never below the start. */
  predicate Balanced(segs: seq<string>, depth: nat) {
    if segs == [] then depth == 0
    else if segs[0] == "" || segs[0] == "." then Balanced(segs[1..], depth)
    else if segs[0] == ".." then depth > 0 && Balanced(segs[1..], depth - 1)
    else Balanced(segs[1..], depth + 1)
  }

  /** Text that leads nowhere: "", ".", "name/..", "a/./b/../..", and so on. */
  predicate Detour(text: string) {
    '%' !in text && Balanced(Split(text, '/'), 0)
  }

  lemma {:induction false} BalancedReturns(stack: seq<string>, extra: seq<string>, segs: seq<string>)
    requires Balanced(segs, |extra|)
    ensures Resolve(stack + extra, segs) == stack
    decreases |segs|
  {
    if segs == [] {
    } else if segs[0] == "" || segs[0] == "." {
      BalancedReturns(stack, extra, segs[1..]);
    } else if segs[0] == ".." {
      var shorter := extra[..|extra| - 1];
      assert (stack + extra)[..|stack + extra| - 1] == stack + shorter;
      BalancedReturns(stack, shorter, segs[1..]);
    } else {
      assert stack + extra + [segs[0]] == stack + (extra + [segs[0]]);
      BalancedReturns(stack, extra + [segs[0]], segs[1..]);
    }
  }

  lemma SegmentsIgnoreDetour(a: string, detour: string, b: string)
    requires Detour(detour)
    ensures Segments(a + "/" + detour + "/" + b) == Segments(a + "/" + b)
  {
    var before, around, after := Split(a, '/'), Split(detour, '/'), Split(b, '/');
    SplitAtSeparator(a, b, '/');
    SplitAtSeparator(a, detour, '/');
    SplitAtSeparator(a + "/" + detour, b, '/');
    ResolveAppend([], before, after);
    ResolveAppend([], before + around, after);
    ResolveAppend([], before, around);
    var stack := Resolve([], before);
    assert stack + [] == stack;
    BalancedReturns(stack, [], around);
  }

  /** Inserting a detour at any segment boundary never changes the verdict. */
  lemma VerdictIgnoresDetour(a: string, detour: string, b: string)
    requires Detour(detour)
    ensures Internal(a + "/" + detour + "/" + b) <==> Internal(a + "/" + b)
  {
    DecodeAroundDetour(a, detour, b);
    var x, y :| DecodeOnce(a + "/" + b) == x + "/" + y
      && DecodeOnce(a + "/" + detour + "/" + b) == x + "/" + detour + "/" + y;
    SegmentsIgnoreDetour(x, detour, y);
  }

  /** The spellings the tests name are detours. */
  lemma CommonDetours(name: string)
    requires Normal(name) && '%' !in name
    ensures Detour("") && Detour(".") && Detour(name + "/..")
  {
    SplitWithoutSeparator("", '/');
    SplitWithoutSeparator(".", '/');
    SplitWithoutSeparator("..", '/');
    SplitWithoutSeparator(name, '/');
    SplitAtSeparator(name, "..", '/');
    assert name + ['/'] + ".." == name + "/..";
    assert Balanced([".."], 1) by { assert [".."][1..] == []; }
    assert ([name] + [".."])[1..] == [".."];
    assert Balanced([""], 0) && Balanced(["."], 0);
  }

  lemma {:induction false} LowerKeepsDots(seg: string)
    ensures ToLower(seg) == "" <==> seg == ""
    ensures ToLower(seg) == "." <==> seg == "."
    ensures ToLower(seg) == ".." <==> seg == ".."
  {
    if seg != "" && !DottedCapital(seg) {
      LowerKeepsDots(seg[1..]);
      assert seg == [seg[0]] + seg[1..];
      assert ToLower(seg)[1..] == ToLower(seg[1..]);
    }
  }

  lemma {:induction false} ResolveLower(stack: seq<string>, segs: seq<string>)
    ensures ToLowerAll(Resolve(stack, segs)) == Resolve(ToLowerAll(stack), ToLowerAll(segs))
    decreases |segs|
  {
    if segs != [] {
      LowerKeepsDots(segs[0]);
      assert ToLowerAll(Push(stack, segs[0])) == Push(ToLowerAll(stack), ToLower(segs[0]));
      assert ToLowerAll(segs)[1..] == ToLowerAll(segs[1..]);
      ResolveLower(Push(stack, segs[0]), segs[1..]);
    }
  }

  /** The verdict may be read off the lower-cased decoded path. */
  lemma InternalByLower(p: string)
    ensures Internal(p) <==> INTERNAL in Segments(ToLower(DecodeOnce(p)))
  {
    var d := DecodeOnce(p);
    SplitToLower(d, '/');
    ResolveLower([], Split(d, '/'));
    assert ToLowerAll([]) == [];
    var stack := Segments(d);
    assert ToLowerAll(stack) == Segments(ToLower(d));
    LoweredMember(stack);
  }

  lemma HeadIgnoresCase(p: string, q: string)
    requires Lower(p) == Lower(q) && p != ""
    ensures EscapeAt(p) == EscapeAt(q) && LowerChar(p[0]) == LowerChar(q[0])
    ensures LowerChar(HeadByte(p)) == LowerChar(HeadByte(q))
  {
    assert forall i | 0 <= i < |p| :: LowerChar(p[i]) == Lower(p)[i] == Lower(q)[i] == LowerChar(q[i]);
  }

  /** Letter case changes neither whether text decodes nor, up to case, to what. */
  lemma {:induction false} UnescapeIgnoresCase(p: string, q: string)
    requires Lower(p) == Lower(q)
    ensures Unescape(p).Some? <==> Unescape(q).Some?
    ensures Unescape(p).Some? ==> Lower(Unescape(p).value) == Lower(Unescape(q).value)
    decreases |p|
  {
    if p != "" {
      HeadIgnoresCase(p, q);
      var n := HeadWidth(p);
      assert Lower(p[n..]) == Lower(p)[n..] == Lower(q)[n..] == Lower(q[n..]);
      UnescapeIgnoresCase(p[n..], q[n..]);
      if Unescape(p).Some? {
        LowerConcat([HeadByte(p)], Unescape(p[n..]).value);
        LowerConcat([HeadByte(q)], Unescape(q[n..]).value);
      }
    }
  }

  /** Changing ASCII letter case anywhere never changes the verdict. */
  lemma VerdictIgnoresCase(p: string, q: string)
    requires Lower(p) == Lower(q)
    ensures Internal(p) <==> Internal(q)
  {
    UnescapeIgnoresCase(p, q);
    ToLowerIgnoresCase(DecodeOnce(p));
    ToLowerIgnoresCase(DecodeOnce(q));
    InternalByLower(p);
    InternalByLower(q);
  }

  /** The verdict on any encoding of a path is that on the path itself, taken as it is. */
  lemma VerdictSeesThroughEscapes(p: string, how: seq<Spelling>)
    requires Encodable(p, how)
    ensures Internal(Encoded(p, how)) <==> HasInternal(p)
    ensures '%' !in p ==> (Internal(p) <==> HasInternal(p))
  {
    EncodedDecodes(p, how);
    if '%' !in p {
      UnescapePercentFree(p);
    }
  }

  /** A last segment that is the internal name in some case is internal, wherever it is reached. */
  lemma NameIsGuarded(a: string, name: string)
    requires '%' !in a && '%' !in name && '/' !in name && ToLower(name) == "_internal"
    ensures Internal(a + "/" + name)
  {
    var p := a + "/" + name;
    UnescapePercentFree(p);
    SplitAtSeparator(a, name, '/');
    SplitWithoutSeparator(name, '/');
    LowerKeepsDots(name);
    ResolveAppend([], Split(a, '/'), [name]);
    var stack := Resolve([], Split(a, '/'));
    assert Resolve(stack, [name]) == Resolve(Push(stack, name), []) by { assert [name][1..] == []; }
    assert Segments(p) == stack + [name];
    assert name in Segments(p);
  }
}
