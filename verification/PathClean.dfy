/**
 `path.Clean` on rooted paths, as the path guard calls it: the standard
 library's byte loop over a lazily allocated buffer, and the stack of segments
 it computes.
 */
module PathClean {
  import opened Text

  // ----- Specification: a stack of segments -----

  /** A segment that survives cleaning. */
  predicate Normal(seg: string) {
    seg != "" && seg != "." && seg != ".." && '/' !in seg
  }

  predicate AllNormal(stack: seq<string>) {
    forall seg | seg in stack :: Normal(seg)
  }

  /** Empty and "." segments vanish, ".." pops, anything else is pushed. */
  function Push(stack: seq<string>, seg: string): seq<string> {
    if seg == "" || seg == "." then stack
    else if seg == ".." then (if stack == [] then [] else stack[..|stack| - 1])
    else stack + [seg]
  }

  function Resolve(stack: seq<string>, segs: seq<string>): seq<string>
    decreases |segs|
  {
    if segs == [] then stack else Resolve(Push(stack, segs[0]), segs[1..])
  }

  /** What a path means: the segments left on the stack. */
  function Segments(path: string): seq<string> {
    Resolve([], Split(path, '/'))
  }

  function Render(stack: seq<string>): string {
    "/" + Join(stack, '/')
  }

  lemma {:induction false} ResolveAppend(stack: seq<string>, a: seq<string>, b: seq<string>)
    ensures Resolve(stack, a + b) == Resolve(Resolve(stack, a), b)
    decreases |a|
  {
    if a == [] {
      assert a + b == b;
    } else {
      assert (a + b)[1..] == a[1..] + b;
      ResolveAppend(Push(stack, a[0]), a[1..], b);
    }
  }

  lemma {:induction false} ResolveKeepsNormal(stack: seq<string>, segs: seq<string>)
    requires AllNormal(stack)
    requires forall seg | seg in segs :: '/' !in seg
    ensures AllNormal(Resolve(stack, segs))
    decreases |segs|
  {
    if segs != [] {
      ResolveKeepsNormal(Push(stack, segs[0]), segs[1..]);
    }
  }

  /** Normal segments resolve to themselves. */
  lemma {:induction false} ResolveNormal(stack: seq<string>, segs: seq<string>)
    requires AllNormal(segs)
    ensures Resolve(stack, segs) == stack + segs
    decreases |segs|
  {
    if segs != [] {
      assert Normal(segs[0]);
      assert stack + segs == stack + [segs[0]] + segs[1..];
      ResolveNormal(stack + [segs[0]], segs[1..]);
    }
  }

  /** Reading a rendered stack gives the stack back. */
  lemma {:induction false} SegmentsOfRender(stack: seq<string>)
    requires AllNormal(stack)
    ensures Segments(Render(stack)) == stack
    ensures Split(Join(stack, '/'), '/') == if stack == [] then [""] else stack
  {
    SplitAtSeparator("", Join(stack, '/'), '/');
    assert "" + ['/'] + Join(stack, '/') == Render(stack);
    if stack != [] {
      SplitUndoesJoin(stack, '/');
    }
    var pieces := Split(Join(stack, '/'), '/');
    assert ([""] + pieces)[1..] == pieces;
    assert Resolve([], [""]) == Resolve([], []);
    ResolveNormal([], stack);
  }

  /** Pushing a segment appends a slash (unless at the root) and its bytes. */
  lemma {:induction false} JoinPush(stack: seq<string>, seg: string)
    ensures Join(stack + [seg], '/') == if stack == [] then seg else Join(stack, '/') + "/" + seg
  {
    if |stack| == 1 {
      assert (stack + [seg])[1..] == [seg];
    } else if |stack| > 1 {
      assert (stack + [seg])[1..] == stack[1..] + [seg];
      JoinPush(stack[1..], seg);
    }
  }

  lemma {:induction false} RenderedRootIsEmpty(stack: seq<string>)
    requires AllNormal(stack)
    ensures |Render(stack)| == 1 <==> stack == []
  {
    if stack != [] {
      assert Normal(stack[0]);
    }
  }

  // ----- The lazily allocated output buffer -----

  /** A write buffer that is allocated only once the output differs from the input. */
  class LazyBuf {
    const s: string
    var buf: array?<char>
    var w: nat

    ghost predicate Valid()
      reads this, buf
    {
      w <= |s| && (buf != null ==> buf.Length == |s|)
    }

    /** All bytes an index may see, written or not. */
    ghost function Bytes(): string
      reads this, buf
    {
      if buf == null then s else buf[..]
    }

    ghost function Contents(): string
      requires Valid()
      reads this, buf
    {
      Bytes()[..w]
    }

    constructor (s: string)
      ensures Valid() && this.s == s && w == 0 && buf == null
    {
      this.s := s;
      buf := null;
      w := 0;
    }

    method Index(i: nat) returns (c: char)
      requires Valid() && i < |s|
      ensures c == Bytes()[i]
    {
      if buf != null {
        c := buf[i];
      } else {
        c := s[i];
      }
    }

    method Append(c: char)
      requires Valid() && w < |s|
      modifies this, buf
      ensures Valid() && w == old(w) + 1
      ensures buf == old(buf) || fresh(buf)
      ensures Contents() == old(Contents()) + [c]
    {
      if buf == null {
        if s[w] == c {
          w := w + 1;
          return;
        }
        var b := new char[|s|](i requires 0 <= i < |s| => s[i]);
        buf := b;
      }
      buf[w] := c;
      w := w + 1;
    }

    method String() returns (r: string)
      requires Valid()
      ensures r == Contents()
    {
      r := if buf == null then s[..w] else buf[..w];
    }
  }

  // ----- The byte loop -----

  ghost predicate AtBoundary(path: string, r: int) {
    1 <= r <= |path| && (r == |path| || path[r] == '/' || path[r - 1] == '/')
  }

  /** The position just after the segment that starts at `r`. */
  function SegmentEnd(path: string, r: nat): (e: nat)
    requires r <= |path|
    ensures r <= e <= |path|
    ensures e == |path| || path[e] == '/'
    ensures '/' !in path[r..e]
    decreases |path| - r
  {
    if r == |path| || path[r] == '/' then r
    else
      var e := SegmentEnd(path, r + 1);
      assert path[r..e] == [path[r]] + path[r + 1..e];
      e
  }

  /** Consuming the bytes up to a boundary consumes exactly one segment. */
  lemma TakeSegment(path: string, r: nat, e: nat, stack: seq<string>)
    requires r <= e <= |path| && '/' !in path[r..e]
    requires e == |path| || path[e] == '/'
    ensures Resolve(stack, Split(path[r..], '/'))
         == Resolve(Push(stack, path[r..e]), Split(path[e..], '/'))
  {
    var seg := path[r..e];
    SplitWithoutSeparator(seg, '/');
    if e == |path| {
      assert path[r..] == seg;
      assert Resolve(stack, [seg]) == Resolve(Push(stack, seg), []);
      assert path[e..] == "";
    } else {
      var rest := path[e + 1..];
      assert path[r..] == seg + ['/'] + rest;
      SplitAtSeparator(seg, rest, '/');
      assert path[e..] == "" + ['/'] + rest;
      SplitAtSeparator("", rest, '/');
      assert ([seg] + Split(rest, '/'))[1..] == Split(rest, '/');
      assert ([""] + Split(rest, '/'))[1..] == Split(rest, '/');
    }
  }

  /** Skipping a slash does not change what is left to resolve. */
  lemma SkipSlash(path: string, r: nat, stack: seq<string>)
    requires r < |path| && path[r] == '/'
    ensures Resolve(stack, Split(path[r..], '/')) == Resolve(stack, Split(path[r + 1..], '/'))
  {
    assert path[r..] == "" + ['/'] + path[r + 1..];
    SplitAtSeparator("", path[r + 1..], '/');
  }

  /** Where the last rendered segment starts: after the last slash. */
  lemma LastSlash(stack: seq<string>, front: seq<string>, start: nat)
    requires stack != [] && AllNormal(stack)
    requires front == stack[..|stack| - 1] && start == |Render(front)|
    ensures start < |Render(stack)| && Render(stack)[..start] == Render(front)
    ensures start == 1 || Render(stack)[start] == '/'
    ensures forall i | start < i < |Render(stack)| :: Render(stack)[i] != '/'
  {
    var last := stack[|stack| - 1];
    assert stack == front + [last] && Normal(last);
    JoinPush(front, last);
    RenderedRootIsEmpty(front);
    assert Render(stack) == Render(front) + (if front == [] then "" else "/") + last;
  }

  /** Drops the last rendered segment: back up to the slash before it. */
  method Backtrack(out: LazyBuf, ghost stack: seq<string>)
    requires out.Valid() && stack != [] && AllNormal(stack)
    requires out.Contents() == Render(stack)
    modifies out`w
    ensures out.Valid() && out.w < old(out.w) && out.Bytes() == old(out.Bytes())
    ensures out.Contents() == Render(stack[..|stack| - 1])
  {
    ghost var front := stack[..|stack| - 1];
    ghost var start, full := |Render(front)|, Render(stack);
    LastSlash(stack, front, start);
    out.w := out.w - 1;
    while true
      invariant start <= out.w < |full|
      decreases out.w
    {
      if out.w <= 1 { break; }
      var c := out.Index(out.w);
      assert c == full[out.w];
      if c == '/' { break; }
      out.w := out.w - 1;
    }
    assert out.w == start;
  }

  /** Copies one segment to the buffer; the position after it is returned. */
  method CopySegment(path: string, out: LazyBuf, start: nat) returns (r: nat)
    requires out.Valid() && out.s == path && out.w <= start < |path|
    modifies out, out.buf
    ensures r == SegmentEnd(path, start)
    ensures out.Valid() && out.w == old(out.w) + (r - start)
    ensures out.buf == old(out.buf) || fresh(out.buf)
    ensures out.Contents() == old(out.Contents()) + path[start..r]
  {
    r := start;
    while r < |path| && path[r] != '/'
      invariant start <= r <= |path| && out.Valid()
      invariant out.w == old(out.w) + (r - start)
      invariant out.buf == old(out.buf) || fresh(out.buf)
      invariant SegmentEnd(path, start) == SegmentEnd(path, r)
      invariant out.Contents() == old(out.Contents()) + path[start..r]
    {
      assert path[start..r + 1] == path[start..r] + [path[r]];
      out.Append(path[r]);
      r := r + 1;
    }
  }

  lemma RenderPush(stack: seq<string>, seg: string)
    ensures Render(stack + [seg]) == Render(stack) + (if stack == [] then "" else "/") + seg
  {
    JoinPush(stack, seg);
  }

  /** A real element: a slash unless at the root, then the element's bytes. */
  method PushElement(path: string, out: LazyBuf, start: nat, ghost stack: seq<string>) returns (r: nat)
    requires out.Valid() && out.s == path && start < |path|
    requires out.w <= start && (stack != [] ==> out.w < start)
    requires out.w == 1 <==> stack == []
    requires out.Contents() == Render(stack)
    modifies out, out.buf
    ensures r == SegmentEnd(path, start)
    ensures out.Valid() && out.w <= r
    ensures out.buf == old(out.buf) || fresh(out.buf)
    ensures out.Contents() == Render(stack + [path[start..r]])
  {
    RenderPush(stack, path[start..SegmentEnd(path, start)]);
    if out.w != 1 {
      out.Append('/');
    }
    r := CopySegment(path, out, start);
  }

  /** An element that is neither empty, "." nor ".." is a normal segment. */
  lemma ElementIsNormal(path: string, r: nat)
    requires r < |path| && path[r] != '/'
    requires !(path[r] == '.' && (r + 1 == |path| || path[r + 1] == '/'))
    requires !(path[r] == '.' && path[r + 1] == '.' && (r + 2 == |path| || path[r + 2] == '/'))
    ensures Normal(path[r..SegmentEnd(path, r)])
  {
    var seg := path[r..SegmentEnd(path, r)];
    assert seg != "" && seg[0] == path[r];
    assert |seg| > 1 ==> seg[1] == path[r + 1];
  }

  /** The loop's bookkeeping: the stack so far, and the bytes still to read. */
  ghost predicate Progress(path: string, r: nat, stack: seq<string>) {
    AtBoundary(path, r) && AllNormal(stack)
    && Resolve(stack, Split(path[r..], '/')) == Segments(path)
  }

  lemma ProgressStart(path: string)
    requires path != "" && path[0] == '/'
    ensures Progress(path, 1, []) && Render([]) == "/"
  {
    SkipSlash(path, 0, []);
    assert path[0..] == path;
  }

  lemma PushKeepsNormal(stack: seq<string>, seg: string)
    requires AllNormal(stack) && '/' !in seg
    ensures AllNormal(Push(stack, seg))
  {
  }

  /** Reading one element moves it onto the stack. */
  lemma ProgressStep(path: string, r: nat, e: nat, stack: seq<string>)
    requires Progress(path, r, stack) && r < |path|
    requires e == if path[r] == '/' then r + 1 else SegmentEnd(path, r)
    ensures path[r] == '/' ==> Progress(path, e, stack)
    ensures path[r] != '/' ==> Progress(path, e, Push(stack, path[r..e]))
  {
    if path[r] == '/' {
      SkipSlash(path, r, stack);
    } else {
      TakeSegment(path, r, e, stack);
      PushKeepsNormal(stack, path[r..e]);
    }
  }

  lemma ProgressEnd(path: string, stack: seq<string>)
    requires |path| >= 1 && Progress(path, |path|, stack)
    ensures stack == Segments(path)
  {
    assert path[|path|..] == "";
    assert Resolve(stack, [""]) == Resolve(stack, []);
  }

  /** "." and ".." elements end where the code's look-ahead says they do. */
  lemma DotElement(path: string, r: nat, len: nat)
    requires len in {1, 2} && r + len <= |path|
    requires forall i | r <= i < r + len :: path[i] == '.'
    requires r + len == |path| || path[r + len] == '/'
    ensures SegmentEnd(path, r) == r + len
    ensures path[r..r + len] == if len == 1 then "." else ".."
  {
    assert SegmentEnd(path, r) == SegmentEnd(path, r + 1);
    assert len == 2 ==> SegmentEnd(path, r + 1) == SegmentEnd(path, r + 2);
  }

  /** The loop invariant of the byte loop. */
  ghost predicate Reading(path: string, out: LazyBuf, r: nat, stack: seq<string>)
    reads out, out.buf
  {
    && out.Valid() && out.s == path && Progress(path, r, stack)
    && out.Contents() == Render(stack) && out.w <= r
    && (r < |path| && path[r] != '/' && out.w != 1 ==> out.w < r)
  }

  /** A slash or a "." element is read without touching the output. */
  lemma SkipOne(path: string, out: LazyBuf, r: nat, stack: seq<string>)
    requires Reading(path, out, r, stack) && r < |path|
    requires path[r] == '/' || (path[r] == '.' && (r + 1 == |path| || path[r + 1] == '/'))
    ensures Reading(path, out, r + 1, stack)
  {
    if path[r] == '.' {
      DotElement(path, r, 1);
    }
    ProgressStep(path, r, r + 1, stack);
  }

  /** A ".." element: drops the last element unless the output is the bare root. */
  method DotDot(path: string, out: LazyBuf, start: nat, ghost stack: seq<string>)
    returns (r: nat, ghost popped: seq<string>)
    requires Reading(path, out, start, stack)
    requires start + 2 <= |path| && path[start] == '.' && path[start + 1] == '.'
    requires start + 2 == |path| || path[start + 2] == '/'
    modifies out`w
    ensures r == start + 2 && Reading(path, out, r, popped)
  {
    DotElement(path, start, 2);
    ProgressStep(path, start, start + 2, stack);
    RenderedRootIsEmpty(stack);
    r := start + 2;
    popped := Push(stack, "..");
    if out.w > 1 {
      Backtrack(out, stack);
    }
  }

  /** Any other element is copied to the output. */
  method Element(path: string, out: LazyBuf, start: nat, ghost stack: seq<string>)
    returns (r: nat, ghost pushed: seq<string>)
    requires Reading(path, out, start, stack) && start < |path| && path[start] != '/'
    requires !(path[start] == '.' && (start + 1 == |path| || path[start + 1] == '/'))
    requires !(path[start] == '.' && path[start + 1] == '.'
               && (start + 2 == |path| || path[start + 2] == '/'))
    modifies out, out.buf
    ensures start < r <= |path| && Reading(path, out, r, pushed)
    ensures out.buf == old(out.buf) || fresh(out.buf)
  {
    ElementIsNormal(path, start);
    ghost var e := SegmentEnd(path, start);
    ProgressStep(path, start, e, stack);
    pushed := Push(stack, path[start..e]);
    RenderedRootIsEmpty(stack);
    r := PushElement(path, out, start, stack);
  }

  /** One turn of the loop reads one element. */
  method ReadElement(path: string, out: LazyBuf, start: nat, ghost stack: seq<string>)
    returns (r: nat, ghost next: seq<string>)
    requires Reading(path, out, start, stack) && start < |path|
    modifies out, out.buf
    ensures start < r <= |path| && Reading(path, out, r, next)
    ensures out.buf == old(out.buf) || fresh(out.buf)
  {
    if path[start] == '/' || (path[start] == '.' && (start + 1 == |path| || path[start + 1] == '/')) {
      SkipOne(path, out, start, stack);
      r, next := start + 1, stack;
    } else if path[start] == '.' && path[start + 1] == '.' && (start + 2 == |path| || path[start + 2] == '/') {
      r, next := DotDot(path, out, start, stack);
    } else {
      r, next := Element(path, out, start, stack);
    }
  }

  /** The byte loop computes the rendered stack of segments. */
  method Clean(path: string) returns (clean: string)
    requires path != "" && path[0] == '/'
    ensures clean == Render(Segments(path))
  {
    var out := new LazyBuf(path);
    out.Append('/');
    var r := 1;
    ghost var stack: seq<string> := [];
    ProgressStart(path);
    while r < |path|
      invariant r <= |path| && Reading(path, out, r, stack)
      invariant fresh(out) && (out.buf == null || fresh(out.buf))
      decreases |path| - r
    {
      r, stack := ReadElement(path, out, r, stack);
    }
    ProgressEnd(path, stack);
    clean := out.String();
  }
}
