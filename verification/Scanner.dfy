/**
 * The lexical helpers of the catalog reader: strings, comments, matching delimiters and top-level
 * splitting. Source text is a sequence of bytes, each held as a character below 256.
 */
module Scanner {
  import opened Prelude

  type Text = seq<char>

  predicate IsQuote(c: char) {
    c == '\'' || c == '"' || c == '`'
  }

  predicate IsSpace(c: char) {
    c == ' ' || c == '\t' || c == '\n' || c == '\r' || c == '\U{000C}'
  }

  predicate IsAlphanumeric(c: char) {
    '0' <= c <= '9' || 'A' <= c <= 'Z' || 'a' <= c <= 'z'
  }

  predicate IsAscii(c: char) {
    c < '\U{0080}'
  }

  /** A byte inside a multi-byte character. */
  predicate IsContinuation(c: char) {
    '\U{0080}' <= c < '\U{00C0}'
  }

  // ---- strings ---------------------------------------------------------------------------

  function Boundary(s: Text, i: nat): (next: nat)
    requires i <= |s|
    ensures i <= next <= |s|
    decreases |s| - i
  {
    if i < |s| && IsContinuation(s[i]) then Boundary(s, i + 1) else i
  }

  /** The next character boundary after `i`, or the end of the text. */
  function NextBoundary(s: Text, i: nat): (next: nat)
    ensures next <= |s| && (i < |s| ==> i < next)
  {
    if i >= |s| then |s| else Boundary(s, i + 1)
  }

  /** Just past the closing quote of a string whose contents continue at `i`, or the end of the text. */
  function StringEnd(s: Text, i: nat, quote: char): (after: nat)
    requires i <= |s|
    ensures i <= after <= |s| && (i < |s| ==> i < after)
    decreases |s| - i
  {
    if i == |s| then i
    else if s[i] == '\\' then StringEnd(s, NextBoundary(s, i + 1), quote)
    else if s[i] == quote then i + 1
    else StringEnd(s, i + 1, quote)
  }

  method SkipString(s: Text, at: nat) returns (after: nat)
    requires at < |s|
    ensures after == StringEnd(s, at + 1, s[at])
  {
    var quote := s[at];
    after := at + 1;
    while after < |s|
      invariant at < after <= |s|
      invariant StringEnd(s, at + 1, quote) == StringEnd(s, after, quote)
      decreases |s| - after
    {
      var c := s[after];
      if c == '\\' {
        after := NextCharacter(s, after + 1);
        continue;
      }
      after := after + 1;
      if c == quote {
        return;
      }
    }
  }

  method NextCharacter(s: Text, i: nat) returns (next: nat)
    ensures next == NextBoundary(s, i)
  {
    if i >= |s| {
      return |s|;
    }
    next := i + 1;
    while next < |s| && IsContinuation(s[next])
      invariant i < next <= |s|
      invariant Boundary(s, i + 1) == Boundary(s, next)
    {
      next := next + 1;
    }
  }

  // ---- comments ----------------------------------------------------------------------------

  function Blank(c: char): char {
    if c == '\n' || !IsAscii(c) then c else ' '
  }

  function Blanked(s: Text): (t: Text)
    ensures |t| == |s|
    ensures forall i | 0 <= i < |s| :: t[i] == Blank(s[i])
  {
    seq(|s|, i requires 0 <= i < |s| => Blank(s[i]))
  }

  predicate OpensLine(s: Text, i: nat) {
    i + 1 < |s| && s[i] == '/' && s[i + 1] == '/'
  }

  predicate OpensBlock(s: Text, i: nat) {
    i + 1 < |s| && s[i] == '/' && s[i + 1] == '*'
  }

  function LineEnd(s: Text, i: nat): (end: nat)
    requires i <= |s|
    ensures i <= end <= |s|
    ensures forall k | i <= k < end :: s[k] != '\n'
    ensures end < |s| ==> s[end] == '\n'
    decreases |s| - i
  {
    if i < |s| && s[i] != '\n' then LineEnd(s, i + 1) else i
  }

  /** Just past the next block comment end at or after `i`, or the end of the text. */
  function BlockEnd(s: Text, i: nat): (end: nat)
    requires i <= |s|
    ensures i <= end <= |s|
    decreases |s| - i
  {
    if i + 1 >= |s| then |s|
    else if s[i] == '*' && s[i + 1] == '/' then i + 2
    else BlockEnd(s, i + 1)
  }

  datatype Region = Code | Quoted | Comment

  /** Which region starts at scan position `i`, and where it ends. */
  function RegionAt(s: Text, i: nat): (r: (Region, nat))
    requires i < |s|
    ensures i < r.1 <= |s|
  {
    if IsQuote(s[i]) then (Quoted, StringEnd(s, i + 1, s[i]))
    else if OpensLine(s, i) then (Comment, LineEnd(s, i + 1))
    else if OpensBlock(s, i) then (Comment, BlockEnd(s, i + 2))
    else (Code, i + 1)
  }

  /** The text from scan position `i` on, with comments blanked. */
  function Stripped(s: Text, i: nat): (t: Text)
    requires i <= |s|
    ensures |t| == |s| - i
    decreases |s| - i
  {
    if i == |s| then []
    else
      var (region, end) := RegionAt(s, i);
      (if region == Comment then Blanked(s[i..end]) else s[i..end]) + Stripped(s, end)
  }

  method StripComments(s: Text) returns (t: Text)
    ensures t == Stripped(s, 0)
  {
    t := [];
    var i := 0;
    while i < |s|
      invariant 0 <= i <= |s|
      invariant Stripped(s, 0) == t + Stripped(s, i)
      decreases |s| - i
    {
      var piece, after := StripRegion(s, i);
      StrippedStep(s, i, piece, after);
      hide Stripped, RegionAt, Blanked;
      assert t + (piece + Stripped(s, after)) == (t + piece) + Stripped(s, after);
      t, i := t + piece, after;
    }
  }

  method StripRegion(s: Text, i: nat) returns (piece: Text, after: nat)
    requires i < |s|
    ensures after == RegionAt(s, i).1
    ensures piece == if RegionAt(s, i).0 == Comment then Blanked(s[i..after]) else s[i..after]
  {
    hide StringEnd, LineEnd, BlockEnd, Blanked;
    if IsQuote(s[i]) {
      after := SkipString(s, i);
      piece := s[i..after];
    } else if i + 1 < |s| && s[i] == '/' && s[i + 1] == '/' {
      piece, after := BlankLine(s, i);
    } else if i + 1 < |s| && s[i] == '/' && s[i + 1] == '*' {
      after := FindBlockEnd(s, i + 2);
      piece := BlankRange(s, i, after);
    } else {
      piece, after := [s[i]], i + 1;
    }
  }

  lemma StrippedStep(s: Text, i: nat, piece: Text, after: nat)
    requires i < |s| && after == RegionAt(s, i).1
    requires piece == if RegionAt(s, i).0 == Comment then Blanked(s[i..after]) else s[i..after]
    ensures Stripped(s, i) == piece + Stripped(s, after)
  {
  }

  method BlankLine(s: Text, from: nat) returns (t: Text, i: nat)
    requires OpensLine(s, from)
    ensures i == LineEnd(s, from + 1) && t == Blanked(s[from..i])
  {
    t, i := [], from;
    while i < |s| && s[i] != '\n'
      invariant from <= i <= |s|
      invariant LineEnd(s, from) == LineEnd(s, i)
      invariant t == Blanked(s[from..i])
    {
      t := t + [Blank(s[i])];
      i := i + 1;
    }
  }

  method BlankRange(s: Text, from: nat, end: nat) returns (t: Text)
    requires from <= end <= |s|
    ensures t == Blanked(s[from..end])
  {
    t := [];
    for i := from to end
      invariant t == Blanked(s[from..i])
    {
      t := t + [Blank(s[i])];
    }
  }

  method FindBlockEnd(s: Text, from: nat) returns (end: nat)
    requires from <= |s|
    ensures end == BlockEnd(s, from)
  {
    end := from;
    while end + 1 < |s|
      invariant from <= end <= |s|
      invariant BlockEnd(s, from) == BlockEnd(s, end)
    {
      if s[end] == '*' && s[end + 1] == '/' {
        return end + 2;
      }
      end := end + 1;
    }
    return |s|;
  }

  // ---- what stripping keeps ------------------------------------------------------------------

  /** The region of the byte at `k`, for a scan that starts at `i`. */
  function RegionOf(s: Text, i: nat, k: nat): Region
    requires i <= k < |s|
    decreases k - i
  {
    var (region, end) := RegionAt(s, i);
    if k < end then region else RegionOf(s, end, k)
  }

  lemma {:induction false} StrippedAt(s: Text, i: nat, k: nat)
    requires i <= k < |s|
    ensures Stripped(s, i)[k - i] == if RegionOf(s, i, k) == Comment then Blank(s[k]) else s[k]
    decreases k - i
  {
    var (region, end) := RegionAt(s, i);
    if k >= end {
      StrippedAt(s, end, k);
    }
  }

  /**
   * Stripping keeps every offset: same length, newlines exactly where they were, only comment bytes
   * changed and those only to spaces, non-ASCII bytes never changed.
   */
  lemma StrippingKeepsOffsets(s: Text, k: nat)
    requires k < |s|
    ensures |Stripped(s, 0)| == |s|
    ensures Stripped(s, 0)[k] == '\n' <==> s[k] == '\n'
    ensures Stripped(s, 0)[k] != s[k] ==> RegionOf(s, 0, k) == Comment && Stripped(s, 0)[k] == ' ' && IsAscii(s[k])
    ensures RegionOf(s, 0, k) == Comment ==> Stripped(s, 0)[k] == ' ' || s[k] == '\n' || !IsAscii(s[k])
  {
    StrippedAt(s, 0, k);
  }

  lemma {:induction false} BoundaryFrame(s: Text, t: Text, i: nat, stop: nat)
    requires |s| == |t| && i <= stop <= |s| && s[i..stop] == t[i..stop]
    requires Boundary(s, i) < stop || Boundary(s, i) == stop == |s|
    ensures Boundary(t, i) == Boundary(s, i)
    decreases |s| - i
  {
    if i < stop {
      assert s[i] == s[i..stop][0] == t[i..stop][0] == t[i];
      if IsContinuation(s[i]) {
        assert s[i + 1..stop] == s[i..stop][1..] && t[i + 1..stop] == t[i..stop][1..];
        BoundaryFrame(s, t, i + 1, stop);
      }
    }
  }

  /** Where a string ends depends only on the string's own bytes. */
  lemma {:induction false} StringEndFrame(s: Text, t: Text, i: nat, quote: char)
    requires |s| == |t| && i <= |s|
    requires forall k | i <= k < StringEnd(s, i, quote) :: s[k] == t[k]
    ensures StringEnd(t, i, quote) == StringEnd(s, i, quote)
    decreases |s| - i
  {
    var stop := StringEnd(s, i, quote);
    if i < |s| {
      assert i < stop;
      if s[i] == '\\' {
        if i + 1 < |s| {
          var next := NextBoundary(s, i + 1);
          assert next < stop || next == stop == |s|;
          BoundaryFrame(s, t, i + 2, stop);
        }
        StringEndFrame(s, t, NextBoundary(s, i + 1), quote);
      } else if s[i] != quote {
        StringEndFrame(s, t, i + 1, quote);
      }
    }
  }

  lemma CodeStays(s: Text, p: nat)
    requires p < |s| && !IsQuote(s[p]) && s[p] != '/'
    ensures Stripped(s, p) == [s[p]] + Stripped(s, p + 1)
  {
    hide StringEnd, LineEnd, BlockEnd, Blanked, Stripped;
    assert RegionAt(s, p) == (Code, p + 1);
    StrippedStep(s, p, [s[p]], p + 1);
  }

  /** A blanked comment is plain code without quotes or slashes. */
  lemma {:induction false} PlainIsKept(t: Text, i: nat, end: nat)
    requires i <= end <= |t|
    requires forall k | i <= k < end :: !IsQuote(t[k]) && t[k] != '/'
    ensures Stripped(t, i) == t[i..end] + Stripped(t, end)
    decreases end - i
  {
    hide Stripped;
    if i < end {
      CodeStays(t, i);
      PlainIsKept(t, i + 1, end);
      assert t[i..end] == [t[i]] + t[i + 1..end];
      assert [t[i]] + (t[i + 1..end] + Stripped(t, end)) == ([t[i]] + t[i + 1..end]) + Stripped(t, end);
    } else {
      assert t[i..end] == [];
    }
  }

  lemma {:induction false} StrippedFrom(s: Text, t: Text, i: nat)
    requires |t| == |s| && i <= |s| && t[i..] == Stripped(s, i)
    ensures Stripped(t, i) == t[i..]
    decreases |s| - i
  {
    if i < |s| {
      var (region, end) := RegionAt(s, i);
      var piece := if region == Comment then Blanked(s[i..end]) else s[i..end];
      assert t[i..end] == piece && t[end..] == Stripped(s, end) by {
        assert t[i..] == piece + Stripped(s, end);
        assert t[i..end] == t[i..][..end - i] && t[end..] == t[i..][end - i..];
      }
      StrippedFrom(s, t, end);
      SameRegion(s, t, i);
      assert t[i..] == t[i..end] + t[end..];
    }
  }

  /** One region of stripped text is again a region that stripping keeps. */
  lemma SameRegion(s: Text, t: Text, i: nat)
    requires |t| == |s| && i < |s|
    requires var (region, end) := RegionAt(s, i);
             && t[i..end] == (if region == Comment then Blanked(s[i..end]) else s[i..end])
             && t[end..] == Stripped(s, end)
    ensures var end := RegionAt(s, i).1; Stripped(t, i) == t[i..end] + Stripped(t, end)
  {
    var (region, end) := RegionAt(s, i);
    forall k | i <= k < end ensures t[k] == if region == Comment then Blank(s[k]) else s[k] {
      assert t[k] == t[i..end][k - i];
    }
    hide Stripped, StringEnd, LineEnd, BlockEnd, Blanked;
    match region
    case Comment => SameComment(s, t, i, end);
    case Quoted => SameString(s, t, i, end);
    case Code => SameCode(s, t, i);
  }

  lemma SameComment(s: Text, t: Text, i: nat, end: nat)
    requires |t| == |s| && i <= end <= |s|
    requires forall k | i <= k < end :: t[k] == Blank(s[k])
    ensures Stripped(t, i) == t[i..end] + Stripped(t, end)
  {
    PlainIsKept(t, i, end);
  }

  lemma SameString(s: Text, t: Text, i: nat, end: nat)
    requires |t| == |s| && i < |s| && IsQuote(s[i]) && end == StringEnd(s, i + 1, s[i])
    requires forall k | i <= k < end :: t[k] == s[k]
    ensures Stripped(t, i) == t[i..end] + Stripped(t, end)
  {
    StringEndFrame(s, t, i + 1, s[i]);
  }

  lemma SameCode(s: Text, t: Text, i: nat)
    requires |t| == |s| && i < |s| && t[i] == s[i] && RegionAt(s, i).0 == Code
    requires t[i + 1..] == Stripped(s, i + 1)
    ensures Stripped(t, i) == t[i..i + 1] + Stripped(t, i + 1)
  {
    if i + 1 < |s| {
      assert t[i + 1] == t[i + 1..][0];
      FirstStripped(s, i + 1);
    }
    hide StringEnd, LineEnd, BlockEnd, Blanked;
    assert RegionAt(t, i) == (Code, i + 1);
  }

  lemma FirstStripped(s: Text, i: nat)
    requires i < |s|
    ensures Stripped(s, i)[0] == s[i] || (Stripped(s, i)[0] == ' ' && s[i] == '/')
  {
    StrippedAt(s, i, i);
  }

  lemma StrippingTwiceIsStrippingOnce(s: Text)
    ensures Stripped(Stripped(s, 0), 0) == Stripped(s, 0)
  {
    var t := Stripped(s, 0);
    assert t[0..] == t;
    StrippedFrom(s, t, 0);
  }

  /** The line number a byte offset is reported under. */
  function Line(s: Text, offset: nat): nat
    requires offset <= |s|
  {
    if offset == 0 then 1
    else if s[offset - 1] == '\n' then Line(s, offset - 1) + 1
    else Line(s, offset - 1)
  }

  lemma {:induction false} StrippingKeepsLines(s: Text, offset: nat)
    requires offset <= |s|
    ensures Line(Stripped(s, 0), offset) == Line(s, offset)
  {
    if offset > 0 {
      StrippingKeepsOffsets(s, offset - 1);
      StrippingKeepsLines(s, offset - 1);
    }
  }
}
