/** Well-formed source text as a tree of pieces, and how each scanner passes over it. */
module Pieces {
  import opened Prelude
  import opened Scanner
  import opened Splitter

  /** `Generic` is a type name, perhaps with spaces after it, and its argument list; `Arrow` is `=>`. */
  datatype Piece =
    | Chr(c: char)
    | Str(quote: char, inner: Text)
    | Group(open: char, close: char, body: seq<Piece>)
    | Generic(name: Text, body: seq<Piece>)
    | Arrow

  function TextOf(piece: Piece): (t: Text)
    ensures t != []
  {
    match piece
    case Chr(c) => [c]
    case Str(quote, inner) => [quote] + inner + [quote]
    case Group(open, close, body) => [open] + TextOfAll(body) + [close]
    case Generic(name, body) => name + ['<'] + TextOfAll(body) + ['>']
    case Arrow => "=>"
  }

  function TextOfAll(pieces: seq<Piece>): Text {
    if pieces == [] then [] else TextOf(pieces[0]) + TextOfAll(pieces[1..])
  }

  predicate Pair(open: char, close: char) {
    (open == '{' && close == '}') || (open == '[' && close == ']') || (open == '(' && close == ')')
  }

  /** A byte that no scanner but a splitter looking for it reacts to. */
  predicate Inert(c: char) {
    !IsQuote(c) && !Opens(c) && !Closes(c) && c != '<' && c != '>' && c != '/'
  }

  predicate IsWord(c: char) {
    IsAlphanumeric(c) || c == '_'
  }

  /** The last byte of `t` that is not a space, or `prev`. */
  function LastByte(t: Text, prev: char): char {
    if t == [] then prev else LastByte(t[1..], if IsSpace(t[0]) then prev else t[0])
  }

  predicate IsTypeName(name: Text) {
    IsWord(LastByte(name, ' ')) && forall i | 0 <= i < |name| :: IsWord(name[i]) || IsSpace(name[i])
  }

  /** No unescaped quote from `i` on, and no escape that runs past the end. */
  predicate Quotable(inner: Text, i: nat, quote: char)
    requires i <= |inner|
    decreases |inner| - i
  {
    if i == |inner| then true
    else if inner[i] == '\\' then i + 1 < |inner| && Quotable(inner, NextBoundary(inner, i + 1), quote)
    else inner[i] != quote && Quotable(inner, i + 1, quote)
  }

  /** The last byte that is not a space after some pieces, given the one before them. */
  function LastOf(piece: Piece, prev: char): char {
    match piece
    case Chr(c) => if IsSpace(c) then prev else c
    case Str(_, _) => '\''
    case Group(_, close, _) => close
    case Generic(_, _) => '>'
    case Arrow => '>'
  }

  function LastOfAll(pieces: seq<Piece>, prev: char): char {
    if pieces == [] then prev else LastOfAll(pieces[1..], LastOf(pieces[0], prev))
  }

  predicate WellFormed(piece: Piece) {
    match piece
    case Chr(c) => Inert(c)
    case Str(quote, inner) => IsQuote(quote) && Quotable(inner, 0, quote)
    case Group(open, close, body) => Pair(open, close) && AllWellFormed(body)
    case Generic(name, body) => IsTypeName(name) && AllWellFormed(body) && LastOfAll(body, '<') != '='
    case Arrow => true
  }

  predicate AllWellFormed(pieces: seq<Piece>) {
    forall i | 0 <= i < |pieces| :: WellFormed(pieces[i])
  }

  /** `t` stands in `s` at `p`. */
  predicate At(s: Text, p: nat, t: Text) {
    p + |t| <= |s| && s[p..p + |t|] == t
  }

  lemma AtConcat(s: Text, p: nat, front: Text, back: Text)
    requires At(s, p, front + back)
    ensures At(s, p, front) && At(s, p + |front|, back)
  {
    var t := front + back;
    assert front == t[..|front|] && back == t[|front|..];
    assert s[p..p + |front|] == s[p..p + |t|][..|front|];
    assert s[p + |front|..p + |t|] == s[p..p + |t|][|front|..];
  }

  lemma AtIndex(s: Text, p: nat, t: Text, i: nat)
    requires At(s, p, t) && i < |t|
    ensures s[p + i] == t[i]
  {
    assert s[p..p + |t|][i] == s[p + i];
  }

  lemma {:induction false} TextOfConcat(front: seq<Piece>, back: seq<Piece>)
    ensures TextOfAll(front + back) == TextOfAll(front) + TextOfAll(back)
  {
    hide TextOf;
    if front == [] {
      assert front + back == back;
    } else {
      TextOfConcat(front[1..], back);
      assert (front + back)[1..] == front[1..] + back;
      Regroup(TextOf(front[0]), TextOfAll(front[1..]), TextOfAll(back));
    }
  }

  lemma Regroup(a: Text, b: Text, c: Text)
    ensures a + (b + c) == (a + b) + c
  {
  }

  lemma TextOfOne(piece: Piece)
    ensures TextOfAll([piece]) == TextOf(piece)
  {
    hide TextOf;
    assert TextOfAll([piece]) == TextOf(piece) + TextOfAll([]);
  }

  lemma Unfolded(s: Text, p: nat, pieces: seq<Piece>)
    requires pieces != [] && At(s, p, TextOfAll(pieces)) && AllWellFormed(pieces)
    ensures TextOfAll(pieces) == TextOf(pieces[0]) + TextOfAll(pieces[1..])
    ensures At(s, p, TextOf(pieces[0])) && At(s, p + |TextOf(pieces[0])|, TextOfAll(pieces[1..]))
    ensures p + |TextOfAll(pieces)| <= |s|
    ensures WellFormed(pieces[0]) && AllWellFormed(pieces[1..])
  {
    AtConcat(s, p, TextOf(pieces[0]), TextOfAll(pieces[1..]));
  }

  // ---- strings -----------------------------------------------------------------------------

  lemma {:induction false} BoundaryInside(s: Text, p: nat, inner: Text, i: nat)
    requires At(s, p, inner) && p + |inner| < |s| && !IsContinuation(s[p + |inner|]) && i <= |inner|
    ensures Boundary(s, p + i) == p + Boundary(inner, i)
    decreases |inner| - i
  {
    if i < |inner| {
      AtIndex(s, p, inner, i);
      if IsContinuation(inner[i]) {
        BoundaryInside(s, p, inner, i + 1);
      }
    }
  }

  lemma {:induction false} StringPasses(s: Text, p: nat, inner: Text, i: nat, quote: char)
    requires At(s, p, inner) && p + |inner| < |s| && s[p + |inner|] == quote && IsQuote(quote)
    requires i <= |inner| && Quotable(inner, i, quote)
    ensures StringEnd(s, p + i, quote) == p + |inner| + 1
    decreases |inner| - i
  {
    hide At, Boundary;
    if i < |inner| {
      AtIndex(s, p, inner, i);
      if inner[i] == '\\' {
        BoundaryInside(s, p, inner, i + 2);
        StringPasses(s, p, inner, NextBoundary(inner, i + 1), quote);
      } else {
        StringPasses(s, p, inner, i + 1, quote);
      }
    }
  }

  lemma StrPasses(s: Text, p: nat, quote: char, inner: Text)
    requires WellFormed(Str(quote, inner)) && At(s, p, [quote] + inner + [quote])
    ensures p + |inner| + 2 <= |s| && s[p] == quote && StringEnd(s, p + 1, quote) == p + |inner| + 2
  {
    assert p + |[quote] + inner + [quote]| <= |s|;
    hide At, Quotable, StringEnd;
    AtConcat(s, p, [quote] + inner, [quote]);
    AtConcat(s, p, [quote], inner);
    AtIndex(s, p, [quote], 0);
    AtIndex(s, p + 1 + |inner|, [quote], 0);
    StringPasses(s, p + 1, inner, 0, quote);
  }

  // ---- where the parts of a piece stand ---------------------------------------------------

  lemma GroupAt(s: Text, p: nat, open: char, close: char, body: seq<Piece>)
    requires At(s, p, TextOf(Group(open, close, body)))
    ensures p + 1 + |TextOfAll(body)| < |s| && s[p] == open && s[p + 1 + |TextOfAll(body)|] == close
    ensures At(s, p + 1, TextOfAll(body))
  {
    AtConcat(s, p, [open] + TextOfAll(body), [close]);
    AtConcat(s, p, [open], TextOfAll(body));
    AtIndex(s, p, [open], 0);
    AtIndex(s, p + 1 + |TextOfAll(body)|, [close], 0);
  }

  lemma GenericAt(s: Text, p: nat, name: Text, body: seq<Piece>, angle: nat, end: nat)
    requires At(s, p, TextOf(Generic(name, body)))
    requires angle == p + |name| && end == angle + 1 + |TextOfAll(body)|
    ensures end < |s| && At(s, p, name) && s[angle] == '<' && At(s, angle + 1, TextOfAll(body)) && s[end] == '>'
    ensures |TextOf(Generic(name, body))| == end + 1 - p
  {
    AtConcat(s, p, name + ['<'] + TextOfAll(body), ['>']);
    AtConcat(s, p, name + ['<'], TextOfAll(body));
    AtConcat(s, p, name, ['<']);
    AtIndex(s, angle, ['<'], 0);
    AtIndex(s, end, ['>'], 0);
  }

  lemma GenericParts(name: Text, body: seq<Piece>)
    requires WellFormed(Generic(name, body))
    ensures IsTypeName(name) && AllWellFormed(body) && LastOfAll(body, '<') != '='
  {
  }

  lemma ArrowAt(s: Text, p: nat)
    requires At(s, p, TextOf(Arrow))
    ensures p + 2 <= |s| && s[p] == '=' && s[p + 1] == '>'
  {
    AtIndex(s, p, "=>", 0);
    AtIndex(s, p, "=>", 1);
  }

  lemma NameAt(s: Text, p: nat, name: Text)
    requires IsTypeName(name) && At(s, p, name)
    ensures forall k | p <= k < p + |name| :: IsWord(s[k]) || IsSpace(s[k])
  {
    forall k | p <= k < p + |name| ensures IsWord(s[k]) || IsSpace(s[k]) {
      AtIndex(s, p, name, k - p);
    }
  }

  // ---- matching delimiters -----------------------------------------------------------------

  lemma {:induction false} MatchingPasses(s: Text, p: nat, piece: Piece, open: char, close: char, depth: nat)
    requires Pair(open, close) && depth > 0 && WellFormed(piece) && At(s, p, TextOf(piece))
    ensures p + |TextOf(piece)| <= |s|
    ensures Matching(s, p, open, close, depth) == Matching(s, p + |TextOf(piece)|, open, close, depth)
    decreases piece, 1
  {
    hide Matching, StringEnd, TextOfAll;
    match piece
    case Chr(c) =>
      AtIndex(s, p, [c], 0);
      MatchingMoves(s, p, open, close, depth);
    case Str(quote, inner) =>
      StrPasses(s, p, quote, inner);
      MatchingMoves(s, p, open, close, depth);
    case Group(o, c, body) => MatchingPassesGroup(s, p, o, c, body, open, close, depth);
    case Generic(name, body) => MatchingPassesGeneric(s, p, name, body, open, close, depth);
    case Arrow =>
      ArrowAt(s, p);
      MatchingRun(s, p, p + 2, open, close, depth);
  }

  lemma {:induction false} MatchingPassesGroup(
      s: Text, p: nat, o: char, c: char, body: seq<Piece>, open: char, close: char, depth: nat)
    requires Pair(open, close) && depth > 0 && Pair(o, c) && AllWellFormed(body) && At(s, p, TextOf(Group(o, c, body)))
    ensures p + |TextOf(Group(o, c, body))| <= |s|
    ensures Matching(s, p, open, close, depth) == Matching(s, p + |TextOf(Group(o, c, body))|, open, close, depth)
    decreases body, 2
  {
    GroupAt(s, p, o, c, body);
    hide At, Matching, StringEnd, TextOfAll, AllWellFormed;
    var deeper := if o == open then depth + 1 else depth;
    MatchingMoves(s, p, open, close, depth);
    MatchingPassesAll(s, p + 1, body, open, close, deeper);
    MatchingMoves(s, p + 1 + |TextOfAll(body)|, open, close, deeper);
  }

  lemma {:induction false} MatchingPassesGeneric(
      s: Text, p: nat, name: Text, body: seq<Piece>, open: char, close: char, depth: nat)
    requires Pair(open, close) && depth > 0 && WellFormed(Generic(name, body)) && At(s, p, TextOf(Generic(name, body)))
    ensures p + |TextOf(Generic(name, body))| <= |s|
    ensures Matching(s, p, open, close, depth) ==
            Matching(s, p + |TextOf(Generic(name, body))|, open, close, depth)
    decreases body, 2
  {
    var angle, end := p + |name|, p + |name| + 1 + |TextOfAll(body)|;
    hide *;
    GenericAt(s, p, name, body, angle, end);
    GenericParts(name, body);
    NameMatches(s, p, name, open, close, depth);
    MatchingPassesAll(s, angle + 1, body, open, close, depth);
    AngleMatches(s, end, open, close, depth);
  }

  lemma NameMatches(s: Text, p: nat, name: Text, open: char, close: char, depth: nat)
    requires Pair(open, close) && depth > 0 && IsTypeName(name) && At(s, p, name)
    requires p + |name| < |s| && s[p + |name|] == '<'
    ensures Matching(s, p, open, close, depth) == Matching(s, p + |name| + 1, open, close, depth)
  {
    NameAt(s, p, name);
    hide At, IsTypeName, Matching;
    MatchingRun(s, p, p + |name| + 1, open, close, depth);
  }

  lemma AngleMatches(s: Text, p: nat, open: char, close: char, depth: nat)
    requires Pair(open, close) && depth > 0 && p < |s| && s[p] == '>'
    ensures Matching(s, p, open, close, depth) == Matching(s, p + 1, open, close, depth)
  {
  }

  lemma MatchingMoves(s: Text, p: nat, open: char, close: char, depth: nat)
    requires p < |s| && Pair(open, close) && (depth > 0 || s[p] == open)
    ensures Matching(s, p, open, close, depth) ==
            if IsQuote(s[p]) then Matching(s, StringEnd(s, p + 1, s[p]), open, close, depth)
            else if s[p] == open then Matching(s, p + 1, open, close, depth + 1)
            else if s[p] != close then Matching(s, p + 1, open, close, depth)
            else if depth == 1 then Some(p)
            else Matching(s, p + 1, open, close, depth - 1)
  {
  }

  lemma {:induction false} MatchingRun(s: Text, i: nat, stop: nat, open: char, close: char, depth: nat)
    requires i <= stop <= |s| && depth > 0 && Pair(open, close)
    requires forall k | i <= k < stop :: !IsQuote(s[k]) && s[k] != open && s[k] != close
    ensures Matching(s, i, open, close, depth) == Matching(s, stop, open, close, depth)
    decreases stop - i
  {
    hide StringEnd;
    if i < stop {
      MatchingRun(s, i + 1, stop, open, close, depth);
    }
  }

  lemma {:induction false} MatchingPassesAll(s: Text, p: nat, pieces: seq<Piece>, open: char, close: char, depth: nat)
    requires Pair(open, close) && depth > 0 && AllWellFormed(pieces) && At(s, p, TextOfAll(pieces))
    ensures p + |TextOfAll(pieces)| <= |s|
    ensures Matching(s, p, open, close, depth) == Matching(s, p + |TextOfAll(pieces)|, open, close, depth)
    decreases pieces, 0
  {
    assert p + |TextOfAll(pieces)| <= |s|;
    hide At, AllWellFormed, WellFormed, TextOf, Matching, StringEnd;
    if pieces != [] {
      Unfolded(s, p, pieces);
      MatchingPasses(s, p, pieces[0], open, close, depth);
      MatchingPassesAll(s, p + |TextOf(pieces[0])|, pieces[1..], open, close, depth);
      assert |TextOfAll(pieces)| == |TextOf(pieces[0])| + |TextOfAll(pieces[1..])|;
    } else {
      assert TextOfAll(pieces) == [];
    }
  }

  /** A group's closing delimiter matches its opening one. */
  lemma GroupCloses(s: Text, p: nat, open: char, close: char, body: seq<Piece>)
    requires Pair(open, close) && AllWellFormed(body) && At(s, p, TextOf(Group(open, close, body)))
    ensures p < |s| && s[p] == open
    ensures Matching(s, p, open, close, 0) == Some(p + 1 + |TextOfAll(body)|)
  {
    hide *;
    GroupAt(s, p, open, close, body);
    MatchingOpens(s, p, open, close);
    MatchingPassesAll(s, p + 1, body, open, close, 1);
    MatchingCloses(s, p + 1 + |TextOfAll(body)|, open, close);
  }

  lemma MatchingOpens(s: Text, p: nat, open: char, close: char)
    requires p < |s| && Pair(open, close) && s[p] == open
    ensures Matching(s, p, open, close, 0) == Matching(s, p + 1, open, close, 1)
  {
  }

  lemma MatchingCloses(s: Text, p: nat, open: char, close: char)
    requires p < |s| && Pair(open, close) && s[p] == close
    ensures Matching(s, p, open, close, 1) == Some(p)
  {
  }

  // ---- splitting ---------------------------------------------------------------------------

  const SEPARATORS := {',', ';', '|', ':'}

  predicate Solid(piece: Piece, seps: set<char>) {
    piece.Chr? ==> piece.c !in seps
  }

  predicate AllSolid(pieces: seq<Piece>, seps: set<char>) {
    forall i | 0 <= i < |pieces| :: Solid(pieces[i], seps)
  }

  predicate Enclosed(n: Nesting) {
    n.depth > 0 || n.angle > 0
  }

  lemma {:induction false} SplitPasses(
      s: Text, start: nat, from: nat, p: nat, end: nat, n: Nesting, seps: set<char>, piece: Piece)
    requires start <= p && from <= p && p + |TextOf(piece)| <= end <= |s| && At(s, p, TextOf(piece))
    requires WellFormed(piece) && n.depth >= 0 && n.angle >= 0 && seps <= SEPARATORS
    requires Enclosed(n) || Solid(piece, seps)
    ensures SplitFrom(s, start, from, p, end, n, seps) ==
            SplitFrom(s, start, from, p + |TextOf(piece)|, end, n.(prev := LastOf(piece, n.prev)), seps)
    decreases piece, 1
  {
    hide SplitFrom, StringEnd, TextOfAll;
    match piece
    case Chr(c) =>
      AtIndex(s, p, [c], 0);
      SplitMoves(s, start, from, p, end, n, seps);
    case Str(quote, inner) =>
      StrPasses(s, p, quote, inner);
      SplitMoves(s, start, from, p, end, n, seps);
    case Group(o, c, body) =>
      GroupAt(s, p, o, c, body);
      hide At;
      var within := Past(n, o);
      SplitMoves(s, start, from, p, end, n, seps);
      SplitPassesAll(s, start, from, p + 1, end, within, seps, body);
      within := within.(prev := LastOfAll(body, within.prev));
      SplitMoves(s, start, from, p + 1 + |TextOfAll(body)|, end, within, seps);
      assert Past(within, c) == n.(prev := c);
    case Generic(name, body) => SplitPassesGeneric(s, start, from, p, end, n, seps, name, body);
    case Arrow =>
      ArrowAt(s, p);
      SplitMoves(s, start, from, p, end, n, seps);
      SplitMoves(s, start, from, p + 1, end, n.(prev := '='), seps);
  }

  lemma {:induction false} SplitPassesGeneric(
      s: Text, start: nat, from: nat, p: nat, end: nat, n: Nesting, seps: set<char>, name: Text, body: seq<Piece>)
    requires start <= p && from <= p && p + |TextOf(Generic(name, body))| <= end <= |s|
    requires At(s, p, TextOf(Generic(name, body)))
    requires WellFormed(Generic(name, body)) && n.depth >= 0 && n.angle >= 0 && seps <= SEPARATORS
    ensures SplitFrom(s, start, from, p, end, n, seps) ==
            SplitFrom(s, start, from, p + |TextOf(Generic(name, body))|, end, n.(prev := '>'), seps)
    decreases body, 2
  {
    var angle, close := p + |name|, p + |name| + 1 + |TextOfAll(body)|;
    var within := Nesting(n.depth, n.angle + 1, '<');
    hide *;
    GenericAt(s, p, name, body, angle, close);
    GenericParts(name, body);
    GenericOpens(s, start, from, p, end, n, seps, name);
    SplitPassesEnclosed(s, start, from, angle + 1, close, end, within, seps, body);
    GenericCloses(s, start, from, close, end, within.(prev := LastOfAll(body, '<')), seps);
  }

  lemma {:induction false} SplitPassesEnclosed(
      s: Text, start: nat, from: nat, p: nat, to: nat, end: nat, n: Nesting, seps: set<char>, body: seq<Piece>)
    requires start <= p && from <= p && to == p + |TextOfAll(body)| <= end <= |s| && At(s, p, TextOfAll(body))
    requires AllWellFormed(body) && n.depth >= 0 && n.angle > 0 && seps <= SEPARATORS
    ensures SplitFrom(s, start, from, p, end, n, seps) ==
            SplitFrom(s, start, from, to, end, n.(prev := LastOfAll(body, n.prev)), seps)
    decreases body, 1
  {
    assert Enclosed(n);
    hide *;
    SplitPassesAll(s, start, from, p, end, n, seps, body);
  }

  lemma {:induction false} GenericOpens(
      s: Text, start: nat, from: nat, p: nat, end: nat, n: Nesting, seps: set<char>, name: Text)
    requires start <= p && from <= p && p + |name| < end <= |s| && At(s, p, name) && s[p + |name|] == '<'
    requires IsTypeName(name) && n.depth >= 0 && n.angle >= 0 && seps <= SEPARATORS
    ensures SplitFrom(s, start, from, p, end, n, seps) ==
            SplitFrom(s, start, from, p + |name| + 1, end, Nesting(n.depth, n.angle + 1, '<'), seps)
  {
    NameAt(s, p, name);
    LastByteStands(name, n.prev);
    var named := n.(prev := LastByte(name, n.prev));
    assert Past(named, '<') == Nesting(n.depth, n.angle + 1, '<');
    hide At, SplitFrom, LastByte;
    SplitRun(s, start, from, p, end, n, seps, name);
    SplitMoves(s, start, from, p + |name|, end, named, seps);
  }

  lemma GenericCloses(s: Text, start: nat, from: nat, p: nat, end: nat, n: Nesting, seps: set<char>)
    requires start <= p < end <= |s| && from <= p && s[p] == '>' && n.depth >= 0 && n.angle > 0 && n.prev != '='
    ensures SplitFrom(s, start, from, p, end, n, seps) ==
            SplitFrom(s, start, from, p + 1, end, Nesting(n.depth, n.angle - 1, '>'), seps)
  {
    hide SplitFrom;
    SplitMoves(s, start, from, p, end, n, seps);
  }

  lemma {:induction false} LastByteStands(name: Text, prev: char)
    requires !IsSpace(LastByte(name, ' '))
    ensures LastByte(name, prev) == LastByte(name, ' ')
  {
    if name != [] && IsSpace(name[0]) {
      LastByteStands(name[1..], prev);
    }
  }

  /** Words and spaces pass. */
  lemma {:induction false} SplitRun(
      s: Text, start: nat, from: nat, p: nat, end: nat, n: Nesting, seps: set<char>, t: Text)
    requires start <= p && from <= p && p + |t| <= end <= |s| && At(s, p, t)
    requires forall k | p <= k < p + |t| :: IsWord(s[k]) || IsSpace(s[k])
    requires n.depth >= 0 && n.angle >= 0 && seps <= SEPARATORS
    ensures SplitFrom(s, start, from, p, end, n, seps) ==
            SplitFrom(s, start, from, p + |t|, end, n.(prev := LastByte(t, n.prev)), seps)
    decreases |t|
  {
    hide SplitFrom, StringEnd;
    if t != [] {
      AtIndex(s, p, t, 0);
      assert t == [t[0]] + t[1..];
      AtConcat(s, p, [t[0]], t[1..]);
      SplitMoves(s, start, from, p, end, n, seps);
      SplitRun(s, start, from, p + 1, end, Past(n, t[0]), seps, t[1..]);
    }
  }

  lemma SplitMoves(s: Text, start: nat, from: nat, p: nat, end: nat, n: Nesting, seps: set<char>)
    requires start <= p < end <= |s| && from <= p
    requires IsQuote(s[p]) || (Past(n, s[p]).depth >= 0 && !Separates(n, s[p], seps))
    requires n.depth >= 0
    ensures SplitFrom(s, start, from, p, end, n, seps) ==
            if IsQuote(s[p]) then SplitFrom(s, start, from, StringEnd(s, p + 1, s[p]), end, n.(prev := '\''), seps)
            else SplitFrom(s, start, from, p + 1, end, Past(n, s[p]), seps)
  {
  }

  lemma {:induction false} SplitPassesAll(
      s: Text, start: nat, from: nat, p: nat, end: nat, n: Nesting, seps: set<char>, pieces: seq<Piece>)
    requires start <= p && from <= p && p + |TextOfAll(pieces)| <= end <= |s| && At(s, p, TextOfAll(pieces))
    requires AllWellFormed(pieces) && n.depth >= 0 && n.angle >= 0 && seps <= SEPARATORS
    requires Enclosed(n) || AllSolid(pieces, seps)
    ensures SplitFrom(s, start, from, p, end, n, seps) ==
            SplitFrom(s, start, from, p + |TextOfAll(pieces)|, end, n.(prev := LastOfAll(pieces, n.prev)), seps)
    decreases pieces, 0
  {
    hide At, AllWellFormed, WellFormed, TextOf, SplitFrom, StringEnd, LastOf;
    if pieces != [] {
      Unfolded(s, p, pieces);
      assert Enclosed(n) || (Solid(pieces[0], seps) && AllSolid(pieces[1..], seps));
      hide Solid, AllSolid;
      var next := n.(prev := LastOf(pieces[0], n.prev));
      SplitPasses(s, start, from, p, end, n, seps, pieces[0]);
      SplitPassesAll(s, start, from, p + |TextOf(pieces[0])|, end, next, seps, pieces[1..]);
    }
  }

  // ---- comments ----------------------------------------------------------------------------

  lemma {:induction false} StripPasses(s: Text, p: nat, piece: Piece)
    requires WellFormed(piece) && At(s, p, TextOf(piece))
    ensures p + |TextOf(piece)| <= |s| && Stripped(s, p) == TextOf(piece) + Stripped(s, p + |TextOf(piece)|)
    decreases piece, 1
  {
    hide Stripped, StringEnd, TextOfAll;
    match piece
    case Chr(c) =>
      AtIndex(s, p, [c], 0);
      CodeStays(s, p);
    case Str(quote, inner) =>
      StringStays(s, p, quote, inner);
    case Group(o, c, body) =>
      GroupAt(s, p, o, c, body);
      hide At;
      StripPassesAll(s, p + 1, body);
      GroupStays(s, p, TextOfAll(body), p + 1 + |TextOfAll(body)|);
    case Generic(name, body) =>
      var angle, end := p + |name|, p + |name| + 1 + |TextOfAll(body)|;
      GenericAt(s, p, name, body, angle, end);
      NameAt(s, p, name);
      assert s[p..angle] == name;
      hide At;
      StripPassesAll(s, angle + 1, body);
      GenericStays(s, p, name, TextOfAll(body), angle, end);
    case Arrow =>
      ArrowAt(s, p);
      PlainIsKept(s, p, p + 2);
  }

  lemma StringStays(s: Text, p: nat, quote: char, inner: Text)
    requires WellFormed(Str(quote, inner)) && At(s, p, [quote] + inner + [quote])
    ensures p + |inner| + 2 <= |s| && Stripped(s, p) == [quote] + inner + [quote] + Stripped(s, p + |inner| + 2)
  {
    StrPasses(s, p, quote, inner);
    var t := [quote] + inner + [quote];
    assert s[p..p + |t|] == t;
    hide Stripped, StringEnd, At, LineEnd, BlockEnd, Blanked;
    StrippedStep(s, p, t, p + |t|);
  }

  lemma GroupStays(s: Text, p: nat, body: Text, close: nat)
    requires p < close < |s| && Opens(s[p]) && Closes(s[close])
    requires Stripped(s, p + 1) == body + Stripped(s, close)
    ensures Stripped(s, p) == [s[p]] + body + [s[close]] + Stripped(s, close + 1)
  {
    CodeStays(s, p);
    CodeStays(s, close);
    hide Stripped;
    var rest := Stripped(s, close + 1);
    assert [s[p]] + (body + ([s[close]] + rest)) == [s[p]] + body + [s[close]] + rest;
  }

  lemma GenericStays(s: Text, p: nat, name: Text, body: Text, angle: nat, end: nat)
    requires p <= angle < end < |s| && s[p..angle] == name && s[angle] == '<' && s[end] == '>'
    requires forall k | p <= k < angle :: IsWord(s[k]) || IsSpace(s[k])
    requires Stripped(s, angle + 1) == body + Stripped(s, end)
    ensures Stripped(s, p) == name + ['<'] + body + ['>'] + Stripped(s, end + 1)
  {
    PlainIsKept(s, p, angle);
    CodeStays(s, angle);
    CodeStays(s, end);
    hide *;
    Regrouped(name, ['<'], body, ['>'], Stripped(s, end + 1));
  }

  lemma Regrouped(a: Text, b: Text, c: Text, d: Text, e: Text)
    ensures a + (b + (c + (d + e))) == a + b + c + d + e
  {
    Regroup(c, d, e);
    Regroup(b, c + d, e);
    Regroup(a, b + c + d, e);
    assert a + (b + (c + d)) == a + b + c + d;
    assert b + (c + d) == b + c + d;
  }

  lemma {:induction false} StripPassesAll(s: Text, p: nat, pieces: seq<Piece>)
    requires AllWellFormed(pieces) && At(s, p, TextOfAll(pieces))
    ensures p + |TextOfAll(pieces)| <= |s| && Stripped(s, p) == TextOfAll(pieces) + Stripped(s, p + |TextOfAll(pieces)|)
    decreases pieces, 0
  {
    hide *;
    AtBound(s, p, TextOfAll(pieces));
    if pieces == [] {
      NoPieces(pieces, Stripped(s, p));
    } else {
      Unfolded(s, p, pieces);
      var first, rest := TextOf(pieces[0]), TextOfAll(pieces[1..]);
      StripPasses(s, p, pieces[0]);
      StripPassesAll(s, p + |first|, pieces[1..]);
      Regroup(first, rest, Stripped(s, p + |first| + |rest|));
    }
  }

  lemma AtBound(s: Text, p: nat, t: Text)
    requires At(s, p, t)
    ensures p + |t| <= |s|
  {
  }

  lemma NoPieces(pieces: seq<Piece>, rest: Text)
    requires pieces == []
    ensures TextOfAll(pieces) == [] && TextOfAll(pieces) + rest == rest
  {
  }
}
