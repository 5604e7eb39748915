/** When the reader's offsets run past the interface it is reading. */
module CatalogOrder {
  import opened Prelude
  import opened Scanner
  import opened Splitter
  import opened CatalogReader

  // ---- inside a list every fault is a rejection --------------------------------------------------

  predicate Rejects<T>(r: Result<T, Fault>) {
    r.Failure? ==> r.error.Rejected?
  }

  lemma {:induction false} SplitRejects(s: Text, start: nat, from: nat, i: nat, end: nat, n: Nesting, seps: set<char>)
    requires start <= i <= |s| && from <= i && from <= end <= |s|
    ensures Rejects(SplitFrom(s, start, from, i, end, n, seps))
    decreases |s| - i
  {
    if i < end {
      var (next, after) := Step(s, i, n);
      if after.depth >= 0 {
        var rangeStart := if !IsQuote(s[i]) && Separates(n, s[i], seps) then i + 1 else from;
        SplitRejects(s, start, rangeStart, next, end, after, seps);
      }
    }
  }

  lemma {:induction false} FindRejects(s: Text, start: nat, end: nat, seps: set<char>)
    requires start <= end <= |s|
    ensures Rejects(Split(s, start, end, seps)) && Rejects(FindTopLevel(s, start, end, seps))
  {
    SplitRejects(s, start, start, start, end, OUTSIDE, seps);
    hide SplitFrom;
  }

  lemma {:induction false} SlotsReject(s: Text, parts: seq<(nat, nat)>, n: nat, required: nat)
    requires Within(s, parts) && required <= n
    ensures Rejects(Slots(s, parts, n, required))
    decreases |parts|
  {
    hide FindTopLevel, Trim;
    if parts != [] {
      var (from, to) := Trim(s, parts[0].0, parts[0].1);
      FindRejects(s, from, to, {':'});
      if from == to {
        SlotsReject(s, parts[1..], n, required);
      } else if IsOptional(s, from, to).Success? {
        SlotsReject(s, parts[1..], n + 1, if IsOptional(s, from, to).value then required else n + 1);
      }
    }
  }

  lemma {:induction false} TupleRejects(s: Text, from: nat, to: nat)
    requires from + 2 <= to <= |s| && s[from] == '['
    ensures Rejects(Tuple(s, from, to))
  {
    FindRejects(s, from + 1, to - 1, {','});
    hide Split, SplitFrom, Slots, Matching;
    if Split(s, from + 1, to - 1, {','}).Success? {
      SlotsReject(s, Split(s, from + 1, to - 1, {','}).value, 0, 0);
    }
  }

  lemma {:induction false} AlternativesReject(s: Text, parts: seq<(nat, nat)>, arities: seq<nat>, variadic: bool)
    requires Within(s, parts)
    ensures Rejects(Alternatives(s, parts, arities, variadic))
    decreases |parts|
  {
    hide Tuple, AddArities, Trim;
    if parts != [] {
      var (from, to) := Trim(s, parts[0].0, parts[0].1);
      if from == to {
        AlternativesReject(s, parts[1..], arities, variadic);
      } else if to - from >= 2 && s[from] == '[' && s[to - 1] == ']' {
        TupleRejects(s, from, to);
        if Tuple(s, from, to).Success? {
          var slots := Tuple(s, from, to).value;
          AlternativesReject(s, parts[1..], AddArities(arities, slots.1, slots.0), variadic);
        }
      } else {
        AlternativesReject(s, parts[1..], arities, true);
      }
    }
  }

  lemma {:induction false} MemberRejects(s: Text, part: (nat, nat), hasKey: bool, hasArgs: bool)
    requires part.0 <= part.1 <= |s|
    ensures Rejects(MemberOf(s, part, hasKey, hasArgs))
  {
    var (from, to) := Trim(s, part.0, part.1);
    FindRejects(s, from, to, {':'});
    if from < to && FindTopLevel(s, from, to, {':'}).Success? && FindTopLevel(s, from, to, {':'}).value.Some? {
      var (vf, vt) := Trim(s, FindTopLevel(s, from, to, {':'}).value.value + 1, to);
      ArgsReject(s, vf, vt);
    }
    hide FindTopLevel, Trim, ParseArgs, KeyOf;
  }

  lemma {:induction false} ArgsReject(s: Text, start: nat, end: nat)
    requires start <= end <= |s|
    ensures Rejects(ParseArgs(s, start, end))
  {
    FindRejects(s, start, end, {'|'});
    hide Split, SplitFrom, Alternatives, Normalised, Sorted;
    if Split(s, start, end, {'|'}).Success? {
      AlternativesReject(s, Split(s, start, end, {'|'}).value, [], false);
    }
  }

  lemma {:induction false} MembersReject(
      s: Text, start: nat, parts: seq<(nat, nat)>, key: Option<(KeyPattern, Text)>, args: Option<ArgsSpec>)
    requires Within(s, parts)
    ensures Rejects(Members(s, start, parts, key, args))
    decreases |parts|
  {
    hide MemberOf;
    if parts != [] {
      MemberRejects(s, parts[0], key.Some?, args.Some?);
      var member := MemberOf(s, parts[0], key.Some?, args.Some?);
      if member.Success? {
        match member.value
        case Blank => MembersReject(s, start, parts[1..], key, args);
        case KeyMember(pattern, source) => MembersReject(s, start, parts[1..], Some((pattern, source)), args);
        case ArgsMember(spec) => MembersReject(s, start, parts[1..], key, Some(spec));
      }
    }
  }

  lemma {:induction false} EntryRejects(s: Text, part: (nat, nat))
    requires part.0 <= part.1 <= |s|
    ensures Rejects(EntryOf(s, part))
  {
    var (from, to) := Trim(s, part.0, part.1);
    if to - from >= 2 {
      FindRejects(s, from + 1, to - 1, {';', ','});
      hide Split, SplitFrom, Members, Trim;
      var parts := Split(s, from + 1, to - 1, {';', ','});
      if parts.Success? {
        MembersReject(s, from + 1, parts.value, None, None);
      }
    }
  }

  lemma {:induction false} EntriesReject(s: Text, parts: seq<(nat, nat)>)
    requires Within(s, parts)
    ensures Rejects(Entries(s, parts))
    decreases |parts|
  {
    hide EntryOf;
    if parts != [] {
      EntryRejects(s, parts[0]);
      EntriesReject(s, parts[1..]);
    }
  }

  lemma {:induction false} EntryListRejects(s: Text, start: nat, end: nat)
    requires start <= end <= |s|
    ensures Rejects(ParseEntries(s, start, end))
  {
    FindRejects(s, start, end, {','});
    hide Split, SplitFrom, Entries;
    if Split(s, start, end, {','}).Success? {
      EntriesReject(s, Split(s, start, end, {','}).value);
    }
  }

  // ---- between lists the offsets stay inside the interface -----------------------------------------

  /** `pos` is where a scan for the interface's closing brace would pass. */
  ghost predicate Inside(s: Text, pos: nat, end: nat) {
    pos <= end < |s| && s[end] == '}' && exists depth: nat {:trigger Matching(s, pos, '{', '}', depth)} ::
      depth > 0 && Matching(s, pos, '{', '}', depth) == Some(end)
  }

  lemma {:induction false} InsidePasses(s: Text, pos: nat, end: nat)
    requires Inside(s, pos, end) && pos < end && s[pos] != '{' && s[pos] != '}'
    ensures Inside(s, if IsQuote(s[pos]) then StringEnd(s, pos + 1, s[pos]) else pos + 1, end)
  {
    hide StringEnd;
    var depth: nat :| depth > 0 && Matching(s, pos, '{', '}', depth) == Some(end);
    var next := if IsQuote(s[pos]) then StringEnd(s, pos + 1, s[pos]) else pos + 1;
    assert Matching(s, next, '{', '}', depth) == Some(end);
  }

  lemma {:induction false} SpaceStaysInside(s: Text, pos: nat, end: nat)
    requires Inside(s, pos, end)
    ensures Inside(s, SkipSpace(s, pos), end)
    decreases |s| - pos
  {
    if pos < end && IsSpace(s[pos]) {
      InsidePasses(s, pos, end);
      SpaceStaysInside(s, pos + 1, end);
    } else if pos == end {
      assert !IsSpace(s[end]);
    }
  }

  lemma {:induction false} SemicolonsStayInside(s: Text, pos: nat, end: nat)
    requires Inside(s, pos, end)
    ensures Inside(s, SkipSemicolons(s, pos, end), end)
    decreases |s| - pos
  {
    if pos < end && s[pos] == ';' {
      InsidePasses(s, pos, end);
      SpaceStaysInside(s, pos + 1, end);
      SemicolonsStayInside(s, SkipSpace(s, pos + 1), end);
    }
  }

  lemma {:induction false} IdentifierStaysInside(s: Text, pos: nat, end: nat)
    requires Inside(s, pos, end)
    ensures Inside(s, IdentifierEnd(s, pos, end), end)
    decreases end - pos
  {
    if pos < end && IsIdentifier(s[pos]) {
      InsidePasses(s, pos, end);
      IdentifierStaysInside(s, pos + 1, end);
    }
  }

  lemma {:induction false} NameStaysInside(s: Text, pos: nat, end: nat)
    requires Inside(s, pos, end) && pos < end
    ensures Rejects(PropertyName(s, pos, end))
    ensures PropertyName(s, pos, end).Success? ==> Inside(s, PropertyName(s, pos, end).value.1, end)
  {
    hide Matching;
    if IsQuote(s[pos]) {
      InsidePasses(s, pos, end);
    } else {
      IdentifierStaysInside(s, pos, end);
    }
  }

  lemma {:induction false} HeadStaysInside(s: Text, pos: nat, end: nat)
    requires Inside(s, pos, end) && pos < end
    ensures Rejects(StreamHead(s, pos, end))
    ensures StreamHead(s, pos, end).Success? ==> Inside(s, StreamHead(s, pos, end).value.1, end)
  {
    NameStaysInside(s, pos, end);
    hide PropertyName, Matching, Inside;
    var name := PropertyName(s, pos, end);
    if name.Success? {
      SpaceStaysInside(s, name.value.1, end);
      var colon := SkipSpace(s, name.value.1);
      InsideBounds(s, colon, end);
      if colon < end && s[colon] == ':' {
        InsidePasses(s, colon, end);
        SpaceStaysInside(s, colon + 1, end);
        InsideBounds(s, SkipSpace(s, colon + 1), end);
      }
    }
  }

  lemma InsideBounds(s: Text, pos: nat, end: nat)
    requires Inside(s, pos, end)
    ensures pos <= end < |s|
  {
  }

  /** After a list that closes before the interface does, the scan for the brace passes too. */
  lemma {:induction false} ListStaysInside(s: Text, pos: nat, end: nat, close: nat, depth: nat)
    requires Inside(s, pos, end) && (depth > 0 || (pos < |s| && s[pos] == '['))
    requires Matching(s, pos, '[', ']', depth) == Some(close) && close < end
    ensures Inside(s, close + 1, end)
    decreases |s| - pos
  {
    hide StringEnd;
    var braces: nat :| braces > 0 && Matching(s, pos, '{', '}', braces) == Some(end);
    var next := if IsQuote(s[pos]) then StringEnd(s, pos + 1, s[pos]) else pos + 1;
    var deeper := if s[pos] == '{' then braces + 1 else if s[pos] == '}' then braces - 1 else braces;
    assert pos <= close;
    assert Matching(s, next, '{', '}', deeper) == Some(end);
    assert Inside(s, next, end);
    if !(s[pos] == ']' && depth == 1) {
      ListStaysInside(s, next, end, close,
        if s[pos] == '[' then depth + 1 else if s[pos] == ']' then depth - 1 else depth);
    }
  }

  lemma {:induction false} NextStaysInside(s: Text, pos: nat, end: nat)
    requires Inside(s, pos, end)
    ensures Rejects(NextStream(s, pos, end))
    ensures (NextStream(s, pos, end).Success? && NextStream(s, pos, end).value.Some? &&
             NextStream(s, pos, end).value.value.1 <= end) ==> Inside(s, NextStream(s, pos, end).value.value.1, end)
  {
    SpaceStaysInside(s, pos, end);
    SemicolonsStayInside(s, SkipSpace(s, pos), end);
    var at := SkipSemicolons(s, SkipSpace(s, pos), end);
    InsideBounds(s, SkipSpace(s, pos), end);
    InsideBounds(s, at, end);
    hide Inside, StreamHead, ParseEntries, Matching, SkipSpace, SkipSemicolons;
    if at < end {
      HeadStaysInside(s, at, end);
      var head := StreamHead(s, at, end);
      if head.Success? && Matching(s, head.value.1, '[', ']', 0).Some? {
        var close := Matching(s, head.value.1, '[', ']', 0).value;
        ClosesLater(s, head.value.1);
        EntryListRejects(s, head.value.1 + 1, close);
        if close < end {
          ListStaysInside(s, head.value.1, end, close, 0);
        }
      }
    }
  }

  // ---- the exact condition -------------------------------------------------------------------------

  /** Some list that reads well closes only after the interface's own brace. */
  predicate Overruns(s: Text, pos: nat, end: nat)
    requires pos <= |s| && end <= |s|
    decreases |s| - pos
  {
    var next := NextStream(s, pos, end);
    next.Success? && next.value.Some? && (next.value.value.1 > end || Overruns(s, next.value.value.1, end))
  }

  /** The reader slices backwards exactly when a list closes after the interface does. */
  lemma {:induction false} OutOfOrderExactlyOnOverrun(s: Text, pos: nat, end: nat)
    requires Inside(s, pos, end)
    ensures Streams(s, pos, end) == Failure(OutOfOrder) <==> Overruns(s, pos, end)
    decreases |s| - pos
  {
    NextStaysInside(s, pos, end);
    hide NextStream, Inside;
    InsideBounds(s, pos, end);
    var next := NextStream(s, pos, end);
    if next.Success? && next.value.Some? {
      var after := next.value.value.1;
      if after > end {
        BeyondTheEnd(s, after, end);
      } else {
        OutOfOrderExactlyOnOverrun(s, after, end);
      }
    }
  }

  lemma {:induction false} BeyondTheEnd(s: Text, pos: nat, end: nat)
    requires end < pos <= |s|
    ensures Streams(s, pos, end) == Failure(OutOfOrder)
  {
    assert NextStream(s, pos, end) == Failure(OutOfOrder);
  }

  /** Where the interface's body starts and ends, if it has a name and two braces. */
  function Body(s: Text): Option<(nat, nat)> {
    match Find(s, 0, NEEDLE)
    case None => None
    case Some(start) =>
      match Find(s, start, "{")
      case None => None
      case Some(brace) =>
        match Matching(s, brace, '{', '}', 0)
        case None => None
        case Some(end) => Some((brace + 1, end))
  }

  lemma BodyIsInside(s: Text)
    requires Body(s).Some?
    ensures Inside(s, Body(s).value.0, Body(s).value.1)
    ensures Matching(s, Body(s).value.0, '{', '}', 1) == Some(Body(s).value.1)
  {
    var (first, end) := Body(s).value;
    assert "{" <= s[first - 1..];
    assert s[first - 1] == "{"[0] == '{';
    assert Matching(s, first, '{', '}', 1) == Some(end);
  }

  lemma ParseIsStreams(s: Text)
    ensures ParseStripped(s) == Failure(OutOfOrder) <==>
            Body(s).Some? && Streams(s, Body(s).value.0, Body(s).value.1) == Failure(OutOfOrder)
  {
    hide Find, Matching, Streams;
  }

  /** The whole reader, on every source: it slices backwards exactly when a list closes after the interface does. */
  lemma ParseOverrunsExactly(source: Text)
    ensures Parse(source) == Failure(OutOfOrder) <==>
            Body(Stripped(source, 0)).Some? &&
            Overruns(Stripped(source, 0), Body(Stripped(source, 0)).value.0, Body(Stripped(source, 0)).value.1)
  {
    var s := Stripped(source, 0);
    hide Stripped, Inside, Body, Overruns, ParseStripped;
    ParseIsStreams(s);
    if Body(s).Some? {
      BodyIsInside(s);
      OutOfOrderExactlyOnOverrun(s, Body(s).value.0, Body(s).value.1);
    }
  }

  // ---- properly nested brackets never overrun --------------------------------------------------------

  function Closer(open: char): char
    requires Opens(open)
  {
    if open == '{' then '}' else if open == '[' then ']' else ')'
  }

  /**
   * Outside strings, from `i` to `end` every bracket closes the last one left open, of its own kind; `stack` is
   * what is left open before `i`.
   */
  predicate Nested(s: Text, i: nat, end: nat, stack: seq<char>)
    requires i <= |s| && end <= |s|
    decreases |s| - i
  {
    if i >= end then i == end && stack == []
    else if IsQuote(s[i]) then Nested(s, StringEnd(s, i + 1, s[i]), end, stack)
    else if Opens(s[i]) then Nested(s, i + 1, end, stack + [Closer(s[i])])
    else if Closes(s[i]) then stack != [] && stack[|stack| - 1] == s[i] && Nested(s, i + 1, end, stack[..|stack| - 1])
    else Nested(s, i + 1, end, stack)
  }

  /** How many of the brackets left open from the place `base` on are square. */
  function Squares(stack: seq<char>, base: nat): nat {
    if |stack| <= base then 0
    else Squares(stack[..|stack| - 1], base) + if stack[|stack| - 1] == ']' then 1 else 0
  }

  lemma {:induction false} SquareBelow(stack: seq<char>, base: nat)
    requires base < |stack| && stack[base] == ']'
    ensures Squares(stack, base) > 0
  {
    if base + 1 < |stack| {
      SquareBelow(stack[..|stack| - 1], base);
    }
  }

  lemma SquaresPush(stack: seq<char>, c: char, base: nat)
    requires base <= |stack|
    ensures Squares(stack + [c], base) == Squares(stack, base) + if c == ']' then 1 else 0
  {
    assert (stack + [c])[..|stack|] == stack;
  }

  /** A list opened in nested text closes inside it, and leaves what was open before it. */
  lemma {:induction false} ListClosesNested(s: Text, pos: nat, end: nat, stack: seq<char>, base: nat, depth: nat)
    requires pos <= |s| && end <= |s| && Nested(s, pos, end, stack)
    requires base < |stack| && stack[base] == ']' && depth == Squares(stack, base) && depth > 0
    ensures Matching(s, pos, '[', ']', depth).Some? && Matching(s, pos, '[', ']', depth).value < end
    ensures Nested(s, Matching(s, pos, '[', ']', depth).value + 1, end, stack[..base])
    decreases |s| - pos
  {
    hide StringEnd, Squares;
    assert pos < end;
    if IsQuote(s[pos]) {
      ListClosesNested(s, StringEnd(s, pos + 1, s[pos]), end, stack, base, depth);
    } else if Opens(s[pos]) {
      var c := Closer(s[pos]);
      SquaresPush(stack, c, base);
      ListClosesNested(s, pos + 1, end, stack + [c], base, if c == ']' then depth + 1 else depth);
      assert (stack + [c])[..base] == stack[..base];
    } else if Closes(s[pos]) {
      ListClosesAt(s, pos, end, stack, base, depth);
    } else {
      ListClosesNested(s, pos + 1, end, stack, base, depth);
    }
  }

  lemma {:induction false} ListClosesAt(s: Text, pos: nat, end: nat, stack: seq<char>, base: nat, depth: nat)
    requires pos < end <= |s| && Nested(s, pos, end, stack) && !IsQuote(s[pos]) && Closes(s[pos])
    requires base < |stack| && stack[base] == ']' && depth == Squares(stack, base) && depth > 0
    ensures Matching(s, pos, '[', ']', depth).Some? && Matching(s, pos, '[', ']', depth).value < end
    ensures Nested(s, Matching(s, pos, '[', ']', depth).value + 1, end, stack[..base])
    decreases |s| - pos, 0
  {
    hide StringEnd;
    var rest := stack[..|stack| - 1];
    assert stack[|stack| - 1] == s[pos] && Nested(s, pos + 1, end, rest);
    assert depth == Squares(rest, base) + if s[pos] == ']' then 1 else 0;
    hide Squares, Nested;
    if base + 1 < |stack| {
      SquareBelow(rest, base);
      ListClosesNested(s, pos + 1, end, rest, base, if s[pos] == ']' then depth - 1 else depth);
      assert rest[..base] == stack[..base];
    } else {
      NoSquares(rest, base);
    }
  }

  lemma NoSquares(stack: seq<char>, base: nat)
    requires |stack| <= base
    ensures Squares(stack, base) == 0
  {
  }

  /** Nested text up to the interface's closing brace, with nothing left open. */
  predicate Level(s: Text, pos: nat, end: nat) {
    pos <= end < |s| && s[end] == '}' && Nested(s, pos, end, [])
  }

  lemma LevelPasses(s: Text, pos: nat, end: nat)
    requires Level(s, pos, end) && pos < end && !Opens(s[pos]) && !Closes(s[pos])
    ensures Level(s, if IsQuote(s[pos]) then StringEnd(s, pos + 1, s[pos]) else pos + 1, end)
  {
    hide StringEnd;
    var next := if IsQuote(s[pos]) then StringEnd(s, pos + 1, s[pos]) else pos + 1;
    assert Nested(s, next, end, []);
  }

  lemma {:induction false} SpaceStaysLevel(s: Text, pos: nat, end: nat)
    requires Level(s, pos, end)
    ensures Level(s, SkipSpace(s, pos), end)
    decreases |s| - pos
  {
    hide Nested;
    if pos < end && IsSpace(s[pos]) {
      LevelPasses(s, pos, end);
      SpaceStaysLevel(s, pos + 1, end);
    } else if pos == end {
      assert !IsSpace(s[end]);
    }
  }

  lemma {:induction false} SemicolonsStayLevel(s: Text, pos: nat, end: nat)
    requires Level(s, pos, end)
    ensures Level(s, SkipSemicolons(s, pos, end), end)
    decreases |s| - pos
  {
    hide Nested;
    if pos < end && s[pos] == ';' {
      LevelPasses(s, pos, end);
      SpaceStaysLevel(s, pos + 1, end);
      SemicolonsStayLevel(s, SkipSpace(s, pos + 1), end);
    }
  }

  lemma {:induction false} IdentifierStaysLevel(s: Text, pos: nat, end: nat)
    requires Level(s, pos, end)
    ensures Level(s, IdentifierEnd(s, pos, end), end)
    decreases end - pos
  {
    hide Nested;
    if pos < end && IsIdentifier(s[pos]) {
      LevelPasses(s, pos, end);
      IdentifierStaysLevel(s, pos + 1, end);
    }
  }

  lemma {:induction false} HeadStaysLevel(s: Text, pos: nat, end: nat)
    requires Level(s, pos, end) && pos < end && StreamHead(s, pos, end).Success?
    ensures Level(s, StreamHead(s, pos, end).value.1, end)
  {
    if IsQuote(s[pos]) {
      LevelPasses(s, pos, end);
    } else {
      IdentifierStaysLevel(s, pos, end);
    }
    hide Nested;
    var name := PropertyName(s, pos, end);
    SpaceStaysLevel(s, name.value.1, end);
    var colon := SkipSpace(s, name.value.1);
    LevelPasses(s, colon, end);
    SpaceStaysLevel(s, colon + 1, end);
  }

  lemma {:induction false} NextStaysLevel(s: Text, pos: nat, end: nat)
    requires Level(s, pos, end) && NextStream(s, pos, end).Success? && NextStream(s, pos, end).value.Some?
    ensures Level(s, NextStream(s, pos, end).value.value.1, end)
  {
    SpaceStaysLevel(s, pos, end);
    SemicolonsStayLevel(s, SkipSpace(s, pos), end);
    var at := SkipSemicolons(s, SkipSpace(s, pos), end);
    LevelBounds(s, SkipSpace(s, pos), end);
    LevelBounds(s, at, end);
    hide Level, StreamHead, ParseEntries, SkipSpace, SkipSemicolons, Matching;
    HeadStaysLevel(s, at, end);
    var list := StreamHead(s, at, end).value.1;
    LevelBounds(s, list, end);
    ListStaysLevel(s, list, end);
    assert NextStream(s, pos, end).value.value.1 == Matching(s, list, '[', ']', 0).value + 1;
  }

  lemma LevelBounds(s: Text, pos: nat, end: nat)
    requires Level(s, pos, end)
    ensures pos <= end < |s|
  {
  }

  lemma ListStaysLevel(s: Text, list: nat, end: nat)
    requires Level(s, list, end) && list < end && s[list] == '['
    ensures Matching(s, list, '[', ']', 0).Some? && Level(s, Matching(s, list, '[', ']', 0).value + 1, end)
  {
    var stack := [] + [Closer('[')];
    assert stack[..0] == [] && Squares(stack, 0) == Squares([], 0) + 1 by {
      SquaresPush([], ']', 0);
    }
    assert Squares(stack, 0) == 1;
    hide Squares;
    ListClosesNested(s, list + 1, end, stack, 0, 1);
  }

  lemma {:induction false} LevelNeverOverruns(s: Text, pos: nat, end: nat)
    requires Level(s, pos, end)
    ensures !Overruns(s, pos, end)
    decreases |s| - pos
  {
    LevelBounds(s, pos, end);
    hide Level, NextStream;
    var next := NextStream(s, pos, end);
    if next.Success? && next.value.Some? {
      NextStaysLevel(s, pos, end);
      LevelBounds(s, next.value.value.1, end);
      LevelNeverOverruns(s, next.value.value.1, end);
    }
  }

  /**
   * A source whose interface nests its brackets properly, all three kinds outside strings, is read or
   * rejected at an offset; the reader never slices backwards on it.
   */
  lemma NestedNeverOverruns(source: Text)
    requires var s := Stripped(source, 0); Body(s).Some? ==> Nested(s, Body(s).value.0, Body(s).value.1, [])
    ensures Parse(source) != Failure(OutOfOrder)
  {
    var s := Stripped(source, 0);
    hide Stripped, Body, Overruns, Nested, Parse;
    ParseOverrunsExactly(source);
    if Body(s).Some? {
      BodyIsInside(s);
      LevelNeverOverruns(s, Body(s).value.0, Body(s).value.1);
    }
  }
}
