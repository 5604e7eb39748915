/** Lists of cells with spaces around them, as they are written and as the reader splits and trims them. */
module CatalogLayout {
  import opened Prelude
  import opened Scanner
  import opened Splitter
  import opened Pieces
  import R = CatalogReader

  function Chars(t: Text): (pieces: seq<Piece>)
    ensures |pieces| == |t|
  {
    seq(|t|, i requires 0 <= i < |t| => Chr(t[i]))
  }

  predicate IsGap(t: Text) {
    forall i | 0 <= i < |t| :: IsSpace(t[i])
  }

  /** Starts and ends with something other than a space. */
  predicate Tight(t: Text) {
    t != [] && !IsSpace(t[0]) && !IsSpace(t[|t| - 1])
  }

  /** Bytes without quotes, brackets, angles, slashes and separators. */
  predicate IsBare(t: Text) {
    forall i | 0 <= i < |t| :: Inert(t[i]) && t[i] !in SEPARATORS
  }

  lemma {:induction false} CharsRead(t: Text)
    ensures TextOfAll(Chars(t)) == t
  {
    if t != [] {
      CharsRead(t[1..]);
      assert Chars(t)[1..] == Chars(t[1..]);
      assert TextOf(Chr(t[0])) + t[1..] == t;
    }
  }

  lemma BareIsWell(t: Text, seps: set<char>)
    requires IsBare(t) && seps <= SEPARATORS
    ensures AllWellFormed(Chars(t)) && AllSolid(Chars(t), seps)
  {
  }

  lemma GapIsBare(t: Text)
    requires IsGap(t)
    ensures IsBare(t)
  {
  }

  // ---- pieces put together -------------------------------------------------------------------

  /** Good at a list's top level: well formed, and no separator outside brackets and generic lists. */
  predicate Fits(pieces: seq<Piece>, seps: set<char>) {
    AllWellFormed(pieces) && AllSolid(pieces, seps)
  }

  lemma FitsTogether(front: seq<Piece>, back: seq<Piece>, seps: set<char>)
    requires Fits(front, seps) && Fits(back, seps)
    ensures Fits(front + back, seps)
  {
    hide WellFormed, Solid;
  }

  lemma FitsChars(t: Text, seps: set<char>)
    requires IsBare(t) && seps <= SEPARATORS
    ensures Fits(Chars(t), seps)
  {
    BareIsWell(t, seps);
  }

  lemma FitsGap(t: Text, seps: set<char>)
    requires IsGap(t) && seps <= SEPARATORS
    ensures Fits(Chars(t), seps)
  {
    GapIsBare(t);
    FitsChars(t, seps);
  }

  lemma FitsOne(piece: Piece, seps: set<char>)
    requires WellFormed(piece) && Solid(piece, seps)
    ensures Fits([piece], seps)
  {
  }

  lemma FitsFewer(pieces: seq<Piece>, seps: set<char>, fewer: set<char>)
    requires Fits(pieces, seps) && fewer <= seps
    ensures Fits(pieces, fewer)
  {
    hide WellFormed;
  }

  // ---- cells -----------------------------------------------------------------------------------

  /** One place of a list: what it holds, the spaces around it, and the separator to the next place. */
  datatype Cell = Cell(before: Text, core: seq<Piece>, after: Text, sep: char)

  function CellPieces(c: Cell): seq<Piece> {
    Chars(c.before) + c.core + Chars(c.after)
  }

  function CellText(c: Cell): Text {
    c.before + TextOfAll(c.core) + c.after
  }

  /** A blank place has no pieces. */
  predicate Tidy(c: Cell, seps: set<char>) {
    && IsGap(c.before) && IsGap(c.after) && Fits(c.core, seps) && c.sep in seps
    && (c.core == [] || Tight(TextOfAll(c.core)))
  }

  predicate AllTidy(cells: seq<Cell>, seps: set<char>) {
    forall i | 0 <= i < |cells| :: Tidy(cells[i], seps)
  }

  function Joined(cells: seq<Cell>): seq<Piece> {
    if cells == [] then []
    else if |cells| == 1 then CellPieces(cells[0])
    else CellPieces(cells[0]) + [Chr(cells[0].sep)] + Joined(cells[1..])
  }

  lemma CellTextIs(c: Cell)
    ensures TextOfAll(CellPieces(c)) == CellText(c)
  {
    hide TextOfAll, Chars;
    TextOfConcat(Chars(c.before) + c.core, Chars(c.after));
    TextOfConcat(Chars(c.before), c.core);
    CharsRead(c.before);
    CharsRead(c.after);
  }

  lemma CellFits(c: Cell, seps: set<char>)
    requires IsGap(c.before) && IsGap(c.after) && Fits(c.core, seps) && seps <= SEPARATORS
    ensures Fits(CellPieces(c), seps)
  {
    hide Fits, IsGap, Chars;
    FitsGap(c.before, seps);
    FitsGap(c.after, seps);
    FitsTogether(Chars(c.before), c.core, seps);
    FitsTogether(Chars(c.before) + c.core, Chars(c.after), seps);
  }

  lemma TextOfJoined(cells: seq<Cell>)
    requires cells != []
    ensures |cells| == 1 ==> TextOfAll(Joined(cells)) == CellText(cells[0])
    ensures |cells| > 1 ==>
      TextOfAll(Joined(cells)) == CellText(cells[0]) + [cells[0].sep] + TextOfAll(Joined(cells[1..]))
  {
    CellTextIs(cells[0]);
    if |cells| > 1 {
      var first, sep := CellPieces(cells[0]), [Chr(cells[0].sep)];
      TextOfOne(Chr(cells[0].sep));
      assert TextOfAll(sep) == [cells[0].sep];
      hide TextOfAll, TextOf, CellPieces, CellText;
      TextOfConcat(first + sep, Joined(cells[1..]));
      TextOfConcat(first, sep);
    }
  }

  /** A list keeps clear of the separators that are not its own. */
  lemma {:induction false} JoinedFits(cells: seq<Cell>, seps: set<char>, others: set<char>)
    requires AllTidy(cells, seps) && seps <= SEPARATORS && others <= SEPARATORS && seps !! others
    requires forall i | 0 <= i < |cells| :: Fits(cells[i].core, others)
    ensures Fits(Joined(cells), others)
  {
    if cells == [] {
      NothingFits(others);
    } else {
      var c := cells[0];
      assert Inert(c.sep);
      FitsOne(Chr(c.sep), others);
      hide Fits, CellPieces, Tight, IsGap, Inert;
      CellFits(c, others);
      if |cells| > 1 {
        FitsTogether(CellPieces(c), [Chr(c.sep)], others);
        JoinedFits(cells[1..], seps, others);
        FitsTogether(CellPieces(c) + [Chr(c.sep)], Joined(cells[1..]), others);
      }
    }
  }

  lemma NothingFits(seps: set<char>)
    ensures Fits([], seps)
  {
  }

  // ---- splitting a list --------------------------------------------------------------------------

  /** The cells stand in the ranges, in order. */
  predicate Stands(s: Text, parts: seq<(nat, nat)>, cells: seq<Cell>) {
    |parts| == |cells| && Within(s, parts) &&
    forall i | 0 <= i < |cells| :: StandsIn(s, parts[i], cells[i])
  }

  predicate StandsIn(s: Text, part: (nat, nat), c: Cell) {
    part.1 == part.0 + |CellText(c)| && At(s, part.0, CellText(c))
  }

  lemma StandsCons(s: Text, part: (nat, nat), c: Cell, parts: seq<(nat, nat)>, cells: seq<Cell>)
    requires StandsIn(s, part, c) && part.1 <= |s| && Stands(s, parts, cells)
    ensures Stands(s, [part] + parts, [c] + cells)
  {
    assert part.0 <= part.1;
    hide StandsIn;
    var all, list := [part] + parts, [c] + cells;
    forall i | 0 <= i < |list| ensures StandsIn(s, all[i], list[i]) {
      if i > 0 {
        assert all[i] == parts[i - 1] && list[i] == cells[i - 1];
      }
    }
  }

  lemma {:induction false} ListSplitsFrom(
      s: Text, start: nat, p: nat, end: nat, prev: char, cells: seq<Cell>, seps: set<char>)
    returns (parts: seq<(nat, nat)>)
    requires cells != [] && AllTidy(cells, seps) && seps <= SEPARATORS && start <= p
    requires At(s, p, TextOfAll(Joined(cells))) && end == p + |TextOfAll(Joined(cells))| <= |s|
    ensures SplitFrom(s, start, p, p, end, Nesting(0, 0, prev), seps) == Success(parts)
    ensures Stands(s, parts, cells)
    decreases |cells|
  {
    var c := cells[0];
    var text := CellText(c);
    var rest := TextOfAll(Joined(cells[1..]));
    var mid := p + |text|;
    hide *;
    TidyParts(cells, seps);
    if |cells| == 1 {
      OneCell(s, p, end, cells);
      var last := CellPasses(s, start, p, mid, end, prev, c, seps);
      parts := [(p, mid)];
      OnlyCell(s, start, p, end, last, cells, seps);
    } else {
      FirstCell(s, p, mid, end, cells);
      var last := CellPasses(s, start, p, mid, end, prev, c, seps);
      var next := SplitAtSeparator(s, start, p, mid, end, last, seps);
      var more := ListSplitsFrom(s, start, mid + 1, end, next, cells[1..], seps);
      parts := [(p, mid)] + more;
      MoreCells(s, p, mid, cells, more);
    }
  }

  lemma TidyParts(cells: seq<Cell>, seps: set<char>)
    requires cells != [] && AllTidy(cells, seps)
    ensures Tidy(cells[0], seps) && cells[0].sep in seps && AllTidy(cells[1..], seps)
  {
  }

  lemma OneCell(s: Text, p: nat, end: nat, cells: seq<Cell>)
    requires |cells| == 1 && At(s, p, TextOfAll(Joined(cells))) && end == p + |TextOfAll(Joined(cells))|
    ensures At(s, p, CellText(cells[0])) && p + |CellText(cells[0])| == end
  {
    TextOfJoined(cells);
  }

  /** Where the first cell, its separator and the rest of the list stand. */
  lemma FirstCell(s: Text, p: nat, mid: nat, end: nat, cells: seq<Cell>)
    requires |cells| > 1 && At(s, p, TextOfAll(Joined(cells))) && end == p + |TextOfAll(Joined(cells))|
    requires mid == p + |CellText(cells[0])|
    ensures mid < end <= |s| && At(s, p, CellText(cells[0])) && s[mid] == cells[0].sep
    ensures At(s, mid + 1, TextOfAll(Joined(cells[1..]))) && mid + 1 + |TextOfAll(Joined(cells[1..]))| == end
  {
    hide *;
    TextOfMany(cells);
    AtThree(s, p, CellText(cells[0]), cells[0].sep, TextOfAll(Joined(cells[1..])), TextOfAll(Joined(cells)));
  }

  lemma TextOfMany(cells: seq<Cell>)
    requires |cells| > 1
    ensures TextOfAll(Joined(cells)) == CellText(cells[0]) + [cells[0].sep] + TextOfAll(Joined(cells[1..]))
  {
    hide TextOfAll, CellText, Joined;
    TextOfJoined(cells);
  }

  lemma AtThree(s: Text, p: nat, front: Text, sep: char, back: Text, all: Text)
    requires all == front + [sep] + back && At(s, p, all)
    ensures |all| == |front| + 1 + |back| && p + |all| <= |s|
    ensures At(s, p, front) && s[p + |front|] == sep && At(s, p + |front| + 1, back)
  {
    AtConcat(s, p, front + [sep], back);
    AtConcat(s, p, front, [sep]);
    AtIndex(s, p + |front|, [sep], 0);
  }

  lemma CellPasses(
      s: Text, start: nat, p: nat, to: nat, end: nat, prev: char, c: Cell, seps: set<char>)
    returns (last: char)
    requires Tidy(c, seps) && seps <= SEPARATORS && start <= p && At(s, p, CellText(c))
    requires to == p + |CellText(c)| && to <= end <= |s|
    ensures SplitFrom(s, start, p, p, end, Nesting(0, 0, prev), seps) ==
            SplitFrom(s, start, p, to, end, Nesting(0, 0, last), seps)
  {
    CellTextIs(c);
    CellFits(c, seps);
    hide At, TextOfAll, CellPieces, CellText, SplitFrom, AllWellFormed, AllSolid, Tight, IsGap;
    last := LastOfAll(CellPieces(c), prev);
    SplitPassesAll(s, start, p, p, end, Nesting(0, 0, prev), seps, CellPieces(c));
  }

  lemma SplitAtSeparator(
      s: Text, start: nat, from: nat, p: nat, end: nat, prev: char, seps: set<char>)
    returns (next: char)
    requires start <= p < end <= |s| && from <= p && s[p] in seps && seps <= SEPARATORS
    ensures SplitFrom(s, start, from, p, end, Nesting(0, 0, prev), seps) ==
            Prefixed([(from, p)], SplitFrom(s, start, p + 1, p + 1, end, Nesting(0, 0, next), seps))
  {
    next := Past(Nesting(0, 0, prev), s[p]).prev;
  }

  lemma OnlyCell(s: Text, start: nat, p: nat, end: nat, prev: char, cells: seq<Cell>, seps: set<char>)
    requires |cells| == 1 && start <= p <= end <= |s| && end == p + |CellText(cells[0])| && At(s, p, CellText(cells[0]))
    ensures SplitFrom(s, start, p, end, end, Nesting(0, 0, prev), seps) == Success([(p, end)])
    ensures Stands(s, [(p, end)], cells)
  {
    hide CellText;
  }

  lemma MoreCells(s: Text, p: nat, mid: nat, cells: seq<Cell>, more: seq<(nat, nat)>)
    requires |cells| > 1 && mid == p + |CellText(cells[0])| && At(s, p, CellText(cells[0]))
    requires Stands(s, more, cells[1..])
    ensures Stands(s, [(p, mid)] + more, cells)
    ensures Prefixed([(p, mid)], Success(more)) == Success([(p, mid)] + more)
  {
    assert [cells[0]] + cells[1..] == cells;
    assert StandsIn(s, (p, mid), cells[0]) && mid <= |s|;
    hide Stands, StandsIn, CellText;
    StandsCons(s, (p, mid), cells[0], more, cells[1..]);
  }

  /** Splitting a written list finds its cells. */
  lemma ListSplits(s: Text, p: nat, end: nat, cells: seq<Cell>, seps: set<char>) returns (parts: seq<(nat, nat)>)
    requires cells != [] && AllTidy(cells, seps) && seps <= SEPARATORS
    requires At(s, p, TextOfAll(Joined(cells))) && end == p + |TextOfAll(Joined(cells))|
    ensures p <= end <= |s| && Split(s, p, end, seps) == Success(parts) && Stands(s, parts, cells)
  {
    hide AllTidy, SplitFrom, Stands, Joined, TextOfAll;
    parts := ListSplitsFrom(s, p, p, end, ' ', cells, seps);
  }

  // ---- trimming ----------------------------------------------------------------------------------

  /** Trimming takes the spaces around a text that has none at its ends. */
  lemma {:induction false} TrimsTo(s: Text, from: nat, left: nat, right: nat, to: nat)
    requires from <= left < right <= to <= |s| && !IsSpace(s[left]) && !IsSpace(s[right - 1])
    requires forall k | from <= k < left :: IsSpace(s[k])
    requires forall k | right <= k < to :: IsSpace(s[k])
    ensures R.Trim(s, from, to) == (left, right)
  {
    LeftTrims(s, from, left, to);
    RightTrims(s, left, right, to);
  }

  lemma {:induction false} LeftTrims(s: Text, from: nat, left: nat, to: nat)
    requires from <= left < to <= |s| && !IsSpace(s[left])
    requires forall k | from <= k < left :: IsSpace(s[k])
    ensures R.TrimLeft(s, from, to) == left
    decreases left - from
  {
    if from < left {
      LeftTrims(s, from + 1, left, to);
    }
  }

  lemma {:induction false} RightTrims(s: Text, from: nat, right: nat, until: nat)
    requires from < right <= until <= |s| && !IsSpace(s[right - 1])
    requires forall k | right <= k < until :: IsSpace(s[k])
    ensures R.TrimRight(s, from, until) == right
    decreases until - right
  {
    if right < until {
      RightTrims(s, from, right, until - 1);
    }
  }

  lemma {:induction false} BlankTrims(s: Text, from: nat, until: nat)
    requires from <= until <= |s| && forall k | from <= k < until :: IsSpace(s[k])
    ensures R.Trim(s, from, until) == (until, until)
    decreases until - from
  {
    if from < until {
      BlankTrims(s, from + 1, until);
    }
  }

  lemma GapAt(s: Text, p: nat, t: Text)
    requires IsGap(t) && At(s, p, t)
    ensures forall k | p <= k < p + |t| :: IsSpace(s[k])
  {
    forall k | p <= k < p + |t| ensures IsSpace(s[k]) {
      AtIndex(s, p, t, k - p);
    }
  }

  /** A tight text with gaps around it is what trimming leaves. */
  lemma GapsTrim(s: Text, p: nat, before: Text, t: Text, after: Text, left: nat, right: nat)
    requires IsGap(before) && Tight(t) && IsGap(after) && At(s, p, before + t + after)
    requires left == p + |before| && right == left + |t|
    ensures p <= left < right && right + |after| <= |s| && At(s, left, t) && s[left..right] == t
    ensures R.Trim(s, p, right + |after|) == (left, right)
    ensures s[left] == t[0] && s[right - 1] == t[|t| - 1]
  {
    AtConcat(s, p, before + t, after);
    AtConcat(s, p, before, t);
    GapAt(s, p, before);
    GapAt(s, right, after);
    AtIndex(s, left, t, 0);
    AtIndex(s, left, t, |t| - 1);
    hide IsGap;
    TrimsTo(s, p, left, right, right + |after|);
  }

  /** What trimming leaves of a cell. */
  lemma CellTrims(s: Text, part: (nat, nat), c: Cell, seps: set<char>) returns (from: nat, to: nat)
    requires StandsIn(s, part, c) && Tidy(c, seps) && part.1 <= |s|
    ensures part.0 <= from <= to <= part.1 && R.Trim(s, part.0, part.1) == (from, to)
    ensures from == to <==> c.core == []
    ensures c.core != [] ==> to == from + |TextOfAll(c.core)| && At(s, from, TextOfAll(c.core))
  {
    if c.core == [] {
      assert CellText(c) == c.before + c.after;
      AtConcat(s, part.0, c.before, c.after);
      GapAt(s, part.0, c.before);
      GapAt(s, part.0 + |c.before|, c.after);
      from, to := part.1, part.1;
      BlankTrims(s, part.0, part.1);
    } else {
      from := part.0 + |c.before|;
      to := from + |TextOfAll(c.core)|;
      hide IsGap, Tight, R.Trim, At, Fits;
      GapsTrim(s, part.0, c.before, TextOfAll(c.core), c.after, from, to);
    }
  }

  // ---- the first separator ---------------------------------------------------------------------

  lemma FindsNone(s: Text, p: nat, end: nat, pieces: seq<Piece>, sep: char)
    requires Fits(pieces, {sep}) && sep in SEPARATORS && At(s, p, TextOfAll(pieces)) && end == p + |TextOfAll(pieces)|
    ensures p <= end <= |s| && R.FindTopLevel(s, p, end, {sep}) == Success(None)
  {
    hide AllWellFormed, AllSolid, TextOfAll, SplitFrom;
    SplitPassesAll(s, p, p, p, end, OUTSIDE, {sep}, pieces);
    SplitEnds(s, p, p, end, LastOfAll(pieces, ' '), {sep});
  }

  lemma SplitEnds(s: Text, start: nat, from: nat, end: nat, prev: char, seps: set<char>)
    requires start <= end <= |s| && from <= end
    ensures SplitFrom(s, start, from, end, end, Nesting(0, 0, prev), seps) == Success([(from, end)])
  {
  }

  /** Splitting well-formed pieces never fails, whatever separators they hold. */
  lemma {:induction false} SplitSucceeds(
      s: Text, start: nat, from: nat, p: nat, end: nat, prev: char, seps: set<char>, pieces: seq<Piece>)
    requires start <= p && from <= p && AllWellFormed(pieces) && seps <= SEPARATORS
    requires At(s, p, TextOfAll(pieces)) && end == p + |TextOfAll(pieces)| <= |s|
    ensures SplitFrom(s, start, from, p, end, Nesting(0, 0, prev), seps).Success?
    decreases |pieces|
  {
    hide At, SplitFrom, StringEnd, WellFormed, TextOf, AllWellFormed, LastOf;
    if pieces == [] {
      SplitEnds(s, start, from, end, prev, seps);
    } else {
      var piece := pieces[0];
      var next := p + |TextOf(piece)|;
      Unfolded(s, p, pieces);
      if Solid(piece, seps) {
        SplitPasses(s, start, from, p, end, Nesting(0, 0, prev), seps, piece);
        SplitSucceeds(s, start, from, next, end, LastOf(piece, prev), seps, pieces[1..]);
      } else {
        ChrAt(s, p, piece);
        var after := SplitAtSeparator(s, start, from, p, end, prev, seps);
        SplitSucceeds(s, start, next, next, end, after, seps, pieces[1..]);
      }
    }
  }

  lemma ChrAt(s: Text, p: nat, piece: Piece)
    requires piece.Chr? && At(s, p, TextOf(piece))
    ensures |TextOf(piece)| == 1 && p < |s| && s[p] == piece.c
  {
    AtIndex(s, p, TextOf(piece), 0);
  }

  /** The first of the separators outside brackets and generic lists is found, whatever follows it. */
  lemma FindsFirst(s: Text, p: nat, colon: nat, end: nat, head: seq<Piece>, sep: char, tail: seq<Piece>)
    requires Fits(head, {sep}) && AllWellFormed(tail) && sep in SEPARATORS
    requires At(s, p, TextOfAll(head) + [sep] + TextOfAll(tail))
    requires colon == p + |TextOfAll(head)| && end == colon + 1 + |TextOfAll(tail)|
    ensures p <= colon < end <= |s| && s[colon] == sep && R.FindTopLevel(s, p, end, {sep}) == Success(Some(colon))
    ensures At(s, p, TextOfAll(head)) && At(s, colon + 1, TextOfAll(tail))
  {
    hide AllWellFormed, AllSolid, TextOfAll, SplitFrom, At;
    AtThree(s, p, TextOfAll(head), sep, TextOfAll(tail), TextOfAll(head) + [sep] + TextOfAll(tail));
    FirstIsCut(s, p, colon, end, head, sep, tail);
  }

  lemma FirstIsCut(s: Text, p: nat, colon: nat, end: nat, head: seq<Piece>, sep: char, tail: seq<Piece>)
    requires Fits(head, {sep}) && AllWellFormed(tail) && sep in SEPARATORS && end <= |s|
    requires colon == p + |TextOfAll(head)| && end == colon + 1 + |TextOfAll(tail)|
    requires At(s, p, TextOfAll(head)) && s[colon] == sep && At(s, colon + 1, TextOfAll(tail))
    ensures R.FindTopLevel(s, p, end, {sep}) == Success(Some(colon))
  {
    hide At, AllWellFormed, AllSolid, TextOfAll, SplitFrom;
    SplitPassesAll(s, p, p, p, end, OUTSIDE, {sep}, head);
    var next := SplitAtSeparator(s, p, p, colon, end, LastOfAll(head, ' '), {sep});
    SplitSucceeds(s, p, colon + 1, colon + 1, end, next, {sep}, tail);
    hide LastOfAll;
  }

  // ---- fields: `name : value` --------------------------------------------------------------------

  /** A name, a colon and a value, with spaces around the colon. */
  datatype Field = Field(name: seq<Piece>, before: Text, after: Text, value: seq<Piece>)

  function FieldPieces(f: Field): seq<Piece> {
    (f.name + Chars(f.before)) + [Chr(':')] + (Chars(f.after) + f.value)
  }

  predicate PlainField(f: Field) {
    && Fits(f.name, {':'}) && Tight(TextOfAll(f.name)) && IsGap(f.before)
    && IsGap(f.after) && AllWellFormed(f.value) && Tight(TextOfAll(f.value))
  }

  lemma FieldText(f: Field, head: Text, tail: Text)
    requires head == TextOfAll(f.name) + f.before && tail == f.after + TextOfAll(f.value)
    ensures TextOfAll(FieldPieces(f)) == head + [':'] + tail
    ensures TextOfAll(f.name + Chars(f.before)) == head && TextOfAll(Chars(f.after) + f.value) == tail
  {
    TextOfOne(Chr(':'));
    assert TextOfAll([Chr(':')]) == [':'];
    hide TextOfAll, TextOf, Chars;
    CharsRead(f.before);
    CharsRead(f.after);
    TextOfConcat(f.name, Chars(f.before));
    TextOfConcat(Chars(f.after), f.value);
    TextOfConcat(f.name + Chars(f.before), [Chr(':')]);
    TextOfConcat(f.name + Chars(f.before) + [Chr(':')], Chars(f.after) + f.value);
  }

  lemma FieldFits(f: Field, seps: set<char>)
    requires Fits(f.name, seps) && IsGap(f.before) && IsGap(f.after) && Fits(f.value, seps)
    requires seps <= SEPARATORS && ':' !in seps
    ensures Fits(FieldPieces(f), seps)
  {
    FitsOne(Chr(':'), seps);
    hide Fits, IsGap, Chars;
    FitsGap(f.before, seps);
    FitsGap(f.after, seps);
    FitsTogether(f.name, Chars(f.before), seps);
    FitsTogether(Chars(f.after), f.value, seps);
    FitsTogether(f.name + Chars(f.before), [Chr(':')], seps);
    FitsTogether(f.name + Chars(f.before) + [Chr(':')], Chars(f.after) + f.value, seps);
  }

  lemma FieldWellFormed(f: Field)
    requires PlainField(f)
    ensures Fits(f.name + Chars(f.before), {':'}) && AllWellFormed(Chars(f.after) + f.value)
  {
    FitsGap(f.before, {':'});
    FitsGap(f.after, {});
    assert Fits(f.value, {});
    hide AllWellFormed, AllSolid;
    FitsTogether(f.name, Chars(f.before), {':'});
    FitsTogether(Chars(f.after), f.value, {});
  }

  /** How the reader takes a field apart: where the name ends, the colon, and where the value starts. */
  predicate FieldShape(s: Text, from: nat, to: nat, f: Field, name: nat, colon: nat, value: nat) {
    && from < name <= colon < value < to <= |s|
    && R.FindTopLevel(s, from, to, {':'}) == Success(Some(colon))
    && R.Trim(s, from, colon) == (from, name) && s[from..name] == TextOfAll(f.name)
    && R.Trim(s, colon + 1, to) == (value, to) && s[value..to] == TextOfAll(f.value)
  }

  lemma FieldReads(s: Text, from: nat, to: nat, f: Field) returns (name: nat, colon: nat, value: nat)
    requires PlainField(f) && At(s, from, TextOfAll(FieldPieces(f))) && to == from + |TextOfAll(FieldPieces(f))|
    ensures FieldShape(s, from, to, f, name, colon, value)
    ensures name == from + |TextOfAll(f.name)| && At(s, value, TextOfAll(f.value))
  {
    var head, tail := TextOfAll(f.name) + f.before, f.after + TextOfAll(f.value);
    name := from + |TextOfAll(f.name)|;
    colon := from + |head|;
    value := colon + 1 + |f.after|;
    hide *;
    FieldText(f, head, tail);
    FieldWellFormed(f);
    AtThree(s, from, head, ':', tail, TextOfAll(FieldPieces(f)));
    FieldColon(s, from, colon, to, f, head, tail);
    FieldEnds(s, from, to, f, head, tail, name, colon, value);
  }

  lemma FieldColon(s: Text, from: nat, colon: nat, to: nat, f: Field, head: Text, tail: Text)
    requires At(s, from, head + [':'] + tail) && colon == from + |head| && to == colon + 1 + |tail|
    requires TextOfAll(f.name + Chars(f.before)) == head && TextOfAll(Chars(f.after) + f.value) == tail
    requires Fits(f.name + Chars(f.before), {':'}) && AllWellFormed(Chars(f.after) + f.value)
    ensures from <= colon < to <= |s| && R.FindTopLevel(s, from, to, {':'}) == Success(Some(colon))
  {
    assert ':' in SEPARATORS;
    hide *;
    FindsFirst(s, from, colon, to, f.name + Chars(f.before), ':', Chars(f.after) + f.value);
  }

  lemma FieldEnds(s: Text, from: nat, to: nat, f: Field, head: Text, tail: Text, name: nat, colon: nat, value: nat)
    requires PlainField(f) && At(s, from, head) && At(s, colon + 1, tail)
    requires head == TextOfAll(f.name) + f.before && tail == f.after + TextOfAll(f.value)
    requires name == from + |TextOfAll(f.name)| && colon == from + |head|
    requires value == colon + 1 + |f.after| && to == colon + 1 + |tail|
    ensures from < name <= colon < value < to <= |s|
    ensures R.Trim(s, from, colon) == (from, name) && s[from..name] == TextOfAll(f.name)
    ensures R.Trim(s, colon + 1, to) == (value, to) && s[value..to] == TextOfAll(f.value)
    ensures At(s, value, TextOfAll(f.value))
  {
    PlainFieldParts(f);
    hide *;
    SpacesAfter(s, from, TextOfAll(f.name), f.before, name);
    SpacesBefore(s, colon + 1, f.after, TextOfAll(f.value), value, to);
  }

  lemma PlainFieldParts(f: Field)
    requires PlainField(f)
    ensures Tight(TextOfAll(f.name)) && IsGap(f.before) && IsGap(f.after) && Tight(TextOfAll(f.value))
  {
  }

  lemma SpacesAfter(s: Text, from: nat, t: Text, gap: Text, name: nat)
    requires Tight(t) && IsGap(gap) && At(s, from, t + gap) && name == from + |t|
    ensures from < name && name + |gap| <= |s|
    ensures R.Trim(s, from, name + |gap|) == (from, name) && s[from..name] == t
  {
    assert [] + t + gap == t + gap && IsGap([]);
    hide R.Trim, At, IsGap;
    GapsTrim(s, from, [], t, gap, from, name);
  }

  lemma SpacesBefore(s: Text, from: nat, gap: Text, t: Text, left: nat, right: nat)
    requires Tight(t) && IsGap(gap) && At(s, from, gap + t) && left == from + |gap| && right == left + |t|
    ensures left < right <= |s| && R.Trim(s, from, right) == (left, right) && s[left..right] == t && At(s, left, t)
  {
    assert gap + t + [] == gap + t && IsGap([]);
    hide R.Trim, At, IsGap;
    GapsTrim(s, from, gap, t, [], left, right);
  }
}
