/** Matching delimiters, and splitting a range at separators that no bracket or generic list encloses. */
module Splitter {
  import opened Prelude
  import opened Scanner

  /** Why reading stopped: input that is rejected at an offset, or an out-of-order slice. */
  datatype Fault = Rejected(offset: nat) | OutOfOrder

  // ---- matching delimiters -----------------------------------------------------------------

  /** The delimiter that brings `depth` back to zero, strings skipped and other brackets ignored. */
  function Matching(s: Text, i: nat, open: char, close: char, depth: nat): (at: Option<nat>)
    requires i <= |s|
    requires depth > 0 || (i < |s| && s[i] == open && !IsQuote(open))
    ensures at.Some? ==> i <= at.value < |s| && s[at.value] == close
    decreases |s| - i
  {
    if i == |s| then None
    else if IsQuote(s[i]) then Matching(s, StringEnd(s, i + 1, s[i]), open, close, depth)
    else if s[i] == open then Matching(s, i + 1, open, close, depth + 1)
    else if s[i] == close then
      if depth == 1 then Some(i) else Matching(s, i + 1, open, close, depth - 1)
    else Matching(s, i + 1, open, close, depth)
  }

  method Balanced(s: Text, openAt: nat, open: char, close: char) returns (at: Result<nat, Fault>)
    requires openAt < |s| && s[openAt] == open && !IsQuote(open) && open != close
    ensures match Matching(s, openAt, open, close, 0)
            case Some(index) => at == Success(index)
            case None => at == Failure(Rejected(openAt))
  {
    var depth: nat := 0;
    var i := openAt;
    while i < |s|
      invariant openAt <= i <= |s|
      invariant depth > 0 || i == openAt
      invariant Matching(s, openAt, open, close, 0) == Matching(s, i, open, close, depth)
      decreases |s| - i
    {
      var c := s[i];
      if IsQuote(c) {
        i := SkipString(s, i);
        continue;
      }
      if c == open {
        depth := depth + 1;
      } else if c == close {
        depth := depth - 1;
        if depth == 0 {
          return Success(i);
        }
      }
      i := i + 1;
    }
    return Failure(Rejected(openAt));
  }

  // ---- top-level splitting -----------------------------------------------------------------

  /** Bracket depth, generic-list depth, and the last byte that was not a space. */
  datatype Nesting = Nesting(depth: int, angle: int, prev: char)

  const OUTSIDE := Nesting(0, 0, ' ')

  predicate Opens(c: char) {
    c == '{' || c == '[' || c == '('
  }

  predicate Closes(c: char) {
    c == '}' || c == ']' || c == ')'
  }

  /** Only after a name, or after another list, does `<` open a generic list. */
  predicate OpensGeneric(n: Nesting, c: char) {
    c == '<' && (IsAlphanumeric(n.prev) || n.prev == '_' || n.prev == '>')
  }

  /** A `>` closes the innermost open list, but not as the head of `=>`. */
  predicate ClosesGeneric(n: Nesting, c: char) {
    c == '>' && n.angle > 0 && n.prev != '='
  }

  predicate AtTop(n: Nesting) {
    n.depth == 0 && n.angle == 0
  }

  predicate Separates(n: Nesting, c: char, seps: set<char>) {
    && !Opens(c) && !Closes(c) && !OpensGeneric(n, c) && !ClosesGeneric(n, c)
    && AtTop(n) && c in seps
  }

  function Past(n: Nesting, c: char): Nesting {
    Nesting(
      if Opens(c) then n.depth + 1 else if Closes(c) then n.depth - 1 else n.depth,
      if OpensGeneric(n, c) then n.angle + 1 else if ClosesGeneric(n, c) then n.angle - 1 else n.angle,
      if IsSpace(c) then n.prev else c)
  }

  /** The nesting after one string or one byte of code. */
  function Step(s: Text, i: nat, n: Nesting): (next: (nat, Nesting))
    requires i < |s|
    ensures i < next.0 <= |s|
  {
    if IsQuote(s[i]) then (StringEnd(s, i + 1, s[i]), n.(prev := '\'')) else (i + 1, Past(n, s[i]))
  }

  /** The separators from `i` on, in order; a failure carries the offset it is reported at. */
  function Cuts(s: Text, start: nat, i: nat, end: nat, n: Nesting, seps: set<char>): (r: Result<seq<nat>, Fault>)
    requires start <= i <= |s| && end <= |s|
    decreases |s| - i
  {
    if i >= end then
      if n.depth != 0 then Failure(Rejected(start)) else Success([])
    else
      var (next, after) := Step(s, i, n);
      if after.depth < 0 then Failure(Rejected(i))
      else
        var rest := Cuts(s, start, next, end, after, seps);
        if rest.Success? && !IsQuote(s[i]) && Separates(n, s[i], seps) then Success([i] + rest.value) else rest
  }

  /** The ranges between the separators. */
  function Ranges(from: nat, cuts: seq<nat>, end: nat): (r: seq<(nat, nat)>)
    ensures |r| == |cuts| + 1
    decreases |cuts|
  {
    if cuts == [] then [(from, end)] else [(from, cuts[0])] + Ranges(cuts[0] + 1, cuts[1..], end)
  }

  predicate Within(s: Text, parts: seq<(nat, nat)>) {
    forall k | 0 <= k < |parts| :: parts[k].0 <= parts[k].1 <= |s|
  }

  /** What splitting finds from `i` on, when the open range began at `from`. */
  function SplitFrom(s: Text, start: nat, from: nat, i: nat, end: nat, n: Nesting, seps: set<char>)
    : (r: Result<seq<(nat, nat)>, Fault>)
    requires start <= i <= |s| && from <= i && from <= end <= |s|
    ensures r.Success? ==> r.value != [] && Within(s, r.value)
    decreases |s| - i
  {
    if i >= end then
      if n.depth != 0 then Failure(Rejected(start)) else Success([(from, end)])
    else
      var (next, after) := Step(s, i, n);
      if after.depth < 0 then Failure(Rejected(i))
      else if !IsQuote(s[i]) && Separates(n, s[i], seps) then
        Prefixed([(from, i)], SplitFrom(s, start, i + 1, next, end, after, seps))
      else SplitFrom(s, start, from, next, end, after, seps)
  }

  function Prefixed<T>(front: seq<T>, rest: Result<seq<T>, Fault>): Result<seq<T>, Fault> {
    if rest.Success? then Success(front + rest.value) else rest
  }

  lemma PrefixedByNothing<T>(rest: Result<seq<T>, Fault>)
    ensures Prefixed([], rest) == rest
  {
    if rest.Success? {
      assert [] + rest.value == rest.value;
    }
  }

  function Split(s: Text, start: nat, end: nat, seps: set<char>): (r: Result<seq<(nat, nat)>, Fault>)
    requires start <= end <= |s|
    ensures r.Success? ==> r.value != [] && Within(s, r.value)
  {
    SplitFrom(s, start, start, start, end, OUTSIDE, seps)
  }

  method SplitTopLevel(s: Text, start: nat, end: nat, seps: set<char>)
    returns (parts: Result<seq<(nat, nat)>, Fault>)
    requires start <= end <= |s|
    ensures parts == Split(s, start, end, seps)
  {
    var found: seq<(nat, nat)> := [];
    var from: nat, i: nat := start, start;
    var depth, angle, prev := 0, 0, ' ';
    PrefixedByNothing(Split(s, start, end, seps));
    while i < end
      invariant start <= i <= |s| && from <= i && from <= end
      invariant Split(s, start, end, seps) ==
                Prefixed(found, SplitFrom(s, start, from, i, end, Nesting(depth, angle, prev), seps))
      decreases |s| - i
    {
      hide StringEnd;
      var c := s[i];
      if IsQuote(c) {
        i := SkipString(s, i);
        prev := '\'';
        continue;
      }
      ghost var n, open, was := Nesting(depth, angle, prev), from, found;
      if c == '{' || c == '[' || c == '(' {
        depth := depth + 1;
      } else if c == '}' || c == ']' || c == ')' {
        depth := depth - 1;
      } else if c == '<' && (IsAlphanumeric(prev) || prev == '_' || prev == '>') {
        angle := angle + 1;
      } else if c == '>' && angle > 0 && prev != '=' {
        angle := angle - 1;
      } else if depth == 0 && angle == 0 && c in seps {
        found := found + [(from, i)];
        from := i + 1;
      }
      if !IsSpace(c) {
        prev := c;
      }
      SplitStep(s, start, open, i, end, n, seps, was);
      assert Nesting(depth, angle, prev) == Past(n, c);
      if depth < 0 {
        return Failure(Rejected(i));
      }
      hide SplitFrom, Past;
      i := i + 1;
    }
    if depth != 0 {
      return Failure(Rejected(start));
    }
    return Success(found + [(from, end)]);
  }

  /** One byte of code, seen from the split as a whole. */
  lemma SplitStep(s: Text, start: nat, from: nat, i: nat, end: nat, n: Nesting, seps: set<char>, found: seq<(nat, nat)>)
    requires start <= i < end <= |s| && from <= i && !IsQuote(s[i])
    ensures var all := Prefixed(found, SplitFrom(s, start, from, i, end, n, seps));
            var after := Past(n, s[i]);
            all == if after.depth < 0 then Failure(Rejected(i))
                   else if Separates(n, s[i], seps) then
                     Prefixed(found + [(from, i)], SplitFrom(s, start, i + 1, i + 1, end, after, seps))
                   else Prefixed(found, SplitFrom(s, start, from, i + 1, end, after, seps))
  {
    var after := Past(n, s[i]);
    if after.depth >= 0 && Separates(n, s[i], seps) {
      var rest := SplitFrom(s, start, i + 1, i + 1, end, after, seps);
      if rest.Success? {
        assert found + ([(from, i)] + rest.value) == (found + [(from, i)]) + rest.value;
      }
    }
  }

  lemma {:induction false} SplitIsRanges(s: Text, start: nat, from: nat, i: nat, end: nat, n: Nesting, seps: set<char>)
    requires start <= i <= |s| && from <= i && from <= end <= |s|
    ensures SplitFrom(s, start, from, i, end, n, seps) ==
            match Cuts(s, start, i, end, n, seps)
            case Success(cuts) => Success(Ranges(from, cuts, end))
            case Failure(fault) => Failure(fault)
    decreases |s| - i
  {
    if i < end {
      var (next, after) := Step(s, i, n);
      if after.depth >= 0 {
        var rangeStart := if !IsQuote(s[i]) && Separates(n, s[i], seps) then i + 1 else from;
        SplitIsRanges(s, start, rangeStart, next, end, after, seps);
        var rest := Cuts(s, start, next, end, after, seps);
        if rest.Success? {
          assert ([i] + rest.value)[1..] == rest.value;
        }
      }
    }
  }

  // ---- what a successful split says ----------------------------------------------------------

  /** The nesting a scan from `i` has when it reaches `k`, unless `k` is inside a string. */
  function NestingAt(s: Text, i: nat, k: nat, n: Nesting): Option<Nesting>
    requires i <= |s|
    decreases |s| - i
  {
    if i == k then Some(n)
    else if i > k || i == |s| then None
    else var (next, after) := Step(s, i, n); NestingAt(s, next, k, after)
  }

  /** An offset outside strings, enclosed by no bracket and no generic list, that holds a separator. */
  predicate IsTopLevelSeparator(s: Text, i: nat, k: nat, n: Nesting, seps: set<char>)
    requires i <= |s|
  {
    k < |s| && !IsQuote(s[k]) &&
    match NestingAt(s, i, k, n)
    case Some(at) => Separates(at, s[k], seps)
    case None => false
  }

  lemma {:induction false} CutsAreTheSeparators(s: Text, start: nat, i: nat, end: nat, n: Nesting, seps: set<char>)
    requires start <= i <= |s| && end <= |s|
    requires Cuts(s, start, i, end, n, seps).Success?
    ensures var cuts := Cuts(s, start, i, end, n, seps).value;
            && (forall k :: k in cuts <==> i <= k < end && IsTopLevelSeparator(s, i, k, n, seps))
            && (forall a, b | 0 <= a < b < |cuts| :: cuts[a] < cuts[b])
    decreases |s| - i
  {
    if i < end {
      var (next, after) := Step(s, i, n);
      CutsAreTheSeparators(s, start, next, end, after, seps);
      var rest := Cuts(s, start, next, end, after, seps).value;
      var cuts := Cuts(s, start, i, end, n, seps).value;
      forall k ensures k in cuts <==> i <= k < end && IsTopLevelSeparator(s, i, k, n, seps) {
        if i < k {
          assert NestingAt(s, i, k, n) == NestingAt(s, next, k, after);
          if k < next {
            assert NestingAt(s, next, k, after).None?;
          }
        }
      }
      assert forall b | 0 <= b < |rest| :: rest[b] in rest;
    }
  }

  /** The text of the ranges, with the one byte between neighbours put back. */
  function Rejoined(s: Text, parts: seq<(nat, nat)>): Text
    requires InOrder(s, parts)
  {
    if |parts| == 1 then s[parts[0].0..parts[0].1]
    else
      assert parts[0 + 1].0 == parts[0].1 + 1;
      s[parts[0].0..parts[0].1] + [s[parts[0].1]] + Rejoined(s, parts[1..])
  }

  /** Each range starts one byte after the range before it ends. */
  predicate InOrder(s: Text, parts: seq<(nat, nat)>) {
    && parts != []
    && (forall k | 0 <= k < |parts| :: parts[k].0 <= parts[k].1 <= |s|)
    && (forall k | 0 <= k < |parts| - 1 :: parts[k + 1].0 == parts[k].1 + 1)
  }

  lemma RejoinedCons(s: Text, head: (nat, nat), rest: seq<(nat, nat)>)
    requires InOrder(s, rest) && head.0 <= head.1 && rest[0].0 == head.1 + 1
    ensures InOrder(s, [head] + rest)
    ensures Rejoined(s, [head] + rest) == s[head.0..head.1] + [s[head.1]] + Rejoined(s, rest)
  {
    assert ([head] + rest)[1..] == rest;
  }

  lemma {:induction false} RangeEnds(from: nat, cuts: seq<nat>, end: nat)
    ensures var parts := Ranges(from, cuts, end);
            && parts[0].0 == from && parts[|cuts|].1 == end
            && (forall k | 0 <= k < |cuts| :: parts[k].1 == cuts[k])
    decreases |cuts|
  {
    if cuts != [] {
      RangeEnds(cuts[0] + 1, cuts[1..], end);
    }
  }

  lemma {:induction false} RangesPartition(s: Text, from: nat, cuts: seq<nat>, end: nat)
    requires from <= end <= |s|
    requires forall k | 0 <= k < |cuts| :: from <= cuts[k] < end
    requires forall a, b | 0 <= a < b < |cuts| :: cuts[a] < cuts[b]
    ensures InOrder(s, Ranges(from, cuts, end))
    ensures Rejoined(s, Ranges(from, cuts, end)) == s[from..end]
    decreases |cuts|
  {
    if cuts != [] {
      RangesPartition(s, cuts[0] + 1, cuts[1..], end);
      RangeEnds(cuts[0] + 1, cuts[1..], end);
      hide InOrder, Rejoined;
      RejoinedCons(s, (from, cuts[0]), Ranges(cuts[0] + 1, cuts[1..], end));
      CutOut(s, from, cuts[0], end);
    }
  }

  lemma CutOut(s: Text, from: nat, at: nat, end: nat)
    requires from <= at < end <= |s|
    ensures s[from..end] == s[from..at] + [s[at]] + s[at + 1..end]
  {
  }

  /** One of the ranges, and not the last, ends at `k`. */
  ghost predicate CutsAt(parts: seq<(nat, nat)>, k: nat) {
    exists j :: 0 <= j < |parts| - 1 && parts[j].1 == k
  }

  /**
   * A successful split loses nothing: its ranges, with the single separator bytes between them,
   * rebuild the input range, and the bytes between them are exactly the top-level separators.
   */
  lemma SplitPartitions(s: Text, start: nat, end: nat, seps: set<char>)
    requires start <= end <= |s| && Split(s, start, end, seps).Success?
    ensures var parts := Split(s, start, end, seps).value;
            && InOrder(s, parts) && parts[0].0 == start && parts[|parts| - 1].1 == end
            && Rejoined(s, parts) == s[start..end]
            && forall k: nat :: CutsAt(parts, k) <==>
              start <= k < end && IsTopLevelSeparator(s, start, k, OUTSIDE, seps)
  {
    SplitIsRanges(s, start, start, start, end, OUTSIDE, seps);
    CutsAreTheSeparators(s, start, start, end, OUTSIDE, seps);
    var cuts := Cuts(s, start, start, end, OUTSIDE, seps).value;
    assert forall k | 0 <= k < |cuts| :: cuts[k] in cuts;
    RangesPartition(s, start, cuts, end);
    RangeEnds(start, cuts, end);
    var parts := Ranges(start, cuts, end);
    forall k: nat ensures CutsAt(parts, k) <==> k in cuts {
      if k in cuts {
        var j :| 0 <= j < |cuts| && cuts[j] == k;
        assert parts[j].1 == k;
      }
    }
  }

  /** How many of `chars` occur outside strings between `i` and `k`. */
  function Count(s: Text, i: nat, k: nat, chars: set<char>): nat
    requires i <= |s| && k <= |s|
    decreases |s| - i
  {
    if i >= k then 0
    else if IsQuote(s[i]) then Count(s, StringEnd(s, i + 1, s[i]), k, chars)
    else (if s[i] in chars then 1 else 0) + Count(s, i + 1, k, chars)
  }

  /** Bracket depth is what was opened less what was closed, outside strings; angle depth is never negative. */
  lemma {:induction false} NestingCounts(s: Text, i: nat, k: nat, n: Nesting)
    requires i <= k <= |s| && n.angle >= 0 && NestingAt(s, i, k, n).Some?
    ensures NestingAt(s, i, k, n).value.angle >= 0
    ensures NestingAt(s, i, k, n).value.depth ==
            n.depth + Count(s, i, k, {'{', '[', '('}) - Count(s, i, k, {'}', ']', ')'})
    decreases |s| - i
  {
    if i < k {
      var (next, after) := Step(s, i, n);
      if next <= k {
        NestingCounts(s, next, k, after);
      }
    }
  }

  predicate IsScanPosition(s: Text, i: nat, k: nat)
    requires i <= |s|
    decreases |s| - i
  {
    i == k || (i < k && i < |s| && IsScanPosition(s, if IsQuote(s[i]) then StringEnd(s, i + 1, s[i]) else i + 1, k))
  }

  /** More of `open` than of `close` has been seen at every scan position in between. */
  ghost predicate StaysOpen(s: Text, i: nat, to: nat, open: char, close: char, depth: nat)
    requires i <= |s| && to <= |s|
  {
    forall k | i < k <= to && IsScanPosition(s, i, k) :: depth + Count(s, i, k, {open}) > Count(s, i, k, {close})
  }

  /** The matching delimiter is the first place outside strings where as many close as opened; or there is none. */
  lemma {:induction false} MatchingIsTheFirstBalance(s: Text, i: nat, open: char, close: char, depth: nat)
    requires i <= |s| && !IsQuote(open) && !IsQuote(close) && open != close
    requires depth > 0 || (i < |s| && s[i] == open)
    ensures match Matching(s, i, open, close, depth)
            case Some(at) =>
              && IsScanPosition(s, i, at) && StaysOpen(s, i, at, open, close, depth)
              && depth + Count(s, i, at + 1, {open}) == Count(s, i, at + 1, {close})
            case None => StaysOpen(s, i, |s|, open, close, depth)
    decreases |s| - i
  {
    if i < |s| {
      var next := if IsQuote(s[i]) then StringEnd(s, i + 1, s[i]) else i + 1;
      var deeper := DepthPast(s, i, open, close, depth);
      if deeper > 0 {
        MatchingIsTheFirstBalance(s, next, open, close, deeper);
        match Matching(s, next, open, close, deeper)
        case Some(at) =>
          ScanMovesOn(s, next, at);
          StaysOpenStep(s, i, next, at, open, close, depth);
        case None => StaysOpenStep(s, i, next, |s|, open, close, depth);
      }
    }
  }

  function DepthPast(s: Text, i: nat, open: char, close: char, depth: nat): int
    requires i < |s|
  {
    if IsQuote(s[i]) then depth else if s[i] == open then depth + 1 else if s[i] == close then depth - 1 else depth
  }

  lemma StaysOpenStep(s: Text, i: nat, next: nat, to: nat, open: char, close: char, depth: nat)
    requires i < |s| && to <= |s| && open != close
    requires next == if IsQuote(s[i]) then StringEnd(s, i + 1, s[i]) else i + 1
    requires DepthPast(s, i, open, close, depth) > 0
    requires StaysOpen(s, next, to, open, close, DepthPast(s, i, open, close, depth))
    ensures StaysOpen(s, i, to, open, close, depth)
  {
    forall k | i < k <= to && IsScanPosition(s, i, k)
      ensures depth + Count(s, i, k, {open}) > Count(s, i, k, {close})
    {
      ScanMovesOn(s, next, k);
    }
  }

  lemma ScanMovesOn(s: Text, i: nat, k: nat)
    requires i <= |s| && IsScanPosition(s, i, k)
    ensures i <= k
  {
  }
}
