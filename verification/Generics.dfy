/** What the splitter's depths mean: which brackets balance, and which generic lists are open where. */
module Generics {
  import opened Prelude
  import opened Scanner
  import opened Splitter

  // ---- generic lists, told from the text alone -------------------------------------------------

  /** The last byte from `start` to before `k` that is not a space. */
  function LastCode(s: Text, start: nat, k: nat): char
    requires start <= k <= |s|
    decreases k
  {
    if k == start then ' ' else if IsSpace(s[k - 1]) then LastCode(s, start, k - 1) else s[k - 1]
  }

  /** A `<` after a letter, a digit, an underscore or a `>` opens a generic list. */
  predicate OpensList(s: Text, start: nat, k: nat)
    requires start <= k < |s|
  {
    s[k] == '<' &&
    (IsAlphanumeric(LastCode(s, start, k)) || LastCode(s, start, k) == '_' || LastCode(s, start, k) == '>')
  }

  /** A `>` closes one, unless it ends an arrow. */
  predicate ClosesList(s: Text, start: nat, k: nat)
    requires start <= k < |s|
  {
    s[k] == '>' && LastCode(s, start, k) != '='
  }

  /** Where, before `end` and outside strings, the last of `depth` open lists is closed. */
  function ListCloses(s: Text, start: nat, i: nat, end: nat, depth: nat): (at: Option<nat>)
    requires start <= i <= |s| && end <= |s|
    decreases |s| - i
  {
    if i >= end then None
    else if IsQuote(s[i]) then ListCloses(s, start, StringEnd(s, i + 1, s[i]), end, depth)
    else if OpensList(s, start, i) then ListCloses(s, start, i + 1, end, depth + 1)
    else if ClosesList(s, start, i) then
      if depth <= 1 then Some(i) else ListCloses(s, start, i + 1, end, depth - 1)
    else ListCloses(s, start, i + 1, end, depth)
  }

  /** A generic list opens at `k` and is not closed before `end`. */
  predicate LeftOpen(s: Text, start: nat, k: nat, end: nat)
    requires start <= k < |s| && end <= |s|
  {
    OpensList(s, start, k) && ListCloses(s, start, k + 1, end, 1).None?
  }

  /** Some generic list opens outside strings from `i` on and is not closed before `end`. */
  ghost predicate SomeLeftOpen(s: Text, start: nat, i: nat, end: nat)
    requires start <= i <= |s| && end <= |s|
  {
    exists k | i <= k < end :: IsScanPosition(s, i, k) && LeftOpen(s, start, k, end)
  }

  // ---- the splitter's angle depth is about these lists -----------------------------------------

  /** The splitter remembers a string as a quote of its own choice. */
  predicate Remembers(prev: char, last: char) {
    prev == last || (IsQuote(prev) && IsQuote(last))
  }

  function Next(s: Text, i: nat): (next: nat)
    requires i < |s|
    ensures i < next <= |s|
  {
    if IsQuote(s[i]) then StringEnd(s, i + 1, s[i]) else i + 1
  }

  lemma {:induction false} StringEndsQuoted(s: Text, i: nat, quote: char)
    requires i <= |s| && StringEnd(s, i, quote) < |s|
    ensures i < StringEnd(s, i, quote) && s[StringEnd(s, i, quote) - 1] == quote
    decreases |s| - i
  {
    if s[i] == '\\' {
      StringEndsQuoted(s, NextBoundary(s, i + 1), quote);
    } else if s[i] != quote {
      StringEndsQuoted(s, i + 1, quote);
    }
  }

  lemma StillRemembers(s: Text, start: nat, i: nat, n: Nesting)
    requires start <= i < |s| && Remembers(n.prev, LastCode(s, start, i)) && Next(s, i) < |s|
    ensures Remembers(Step(s, i, n).1.prev, LastCode(s, start, Next(s, i)))
  {
    if IsQuote(s[i]) {
      StringEndsQuoted(s, i + 1, s[i]);
    }
  }

  /** What closes a list also closes a deeper one no earlier, and nothing more is closed before an earlier end. */
  lemma {:induction false} DeeperStaysOpen(s: Text, start: nat, i: nat, end: nat, depth: nat, deeper: nat)
    requires start <= i <= |s| && end <= |s| && 0 < depth <= deeper && ListCloses(s, start, i, end, depth).None?
    ensures ListCloses(s, start, i, end, deeper).None?
    decreases |s| - i
  {
    hide StringEnd;
    if i < end {
      if IsQuote(s[i]) {
        DeeperStaysOpen(s, start, StringEnd(s, i + 1, s[i]), end, depth, deeper);
      } else if OpensList(s, start, i) {
        DeeperStaysOpen(s, start, i + 1, end, depth + 1, deeper + 1);
      } else if ClosesList(s, start, i) {
        DeeperStaysOpen(s, start, i + 1, end, depth - 1, deeper - 1);
      } else {
        DeeperStaysOpen(s, start, i + 1, end, depth, deeper);
      }
    }
  }

  lemma {:induction false} StillOpenBefore(s: Text, start: nat, i: nat, until: nat, end: nat, depth: nat)
    requires start <= i <= |s| && until <= end <= |s| && ListCloses(s, start, i, end, depth).None?
    ensures ListCloses(s, start, i, until, depth).None?
    decreases |s| - i
  {
    hide StringEnd, OpensList, ClosesList;
    if i < until {
      if IsQuote(s[i]) {
        StillOpenBefore(s, start, StringEnd(s, i + 1, s[i]), until, end, depth);
      } else if OpensList(s, start, i) {
        StillOpenBefore(s, start, i + 1, until, end, depth + 1);
      } else if ClosesList(s, start, i) {
        StillOpenBefore(s, start, i + 1, until, end, depth - 1);
      } else {
        StillOpenBefore(s, start, i + 1, until, end, depth);
      }
    }
  }

  lemma SomeLeftOpenStep(s: Text, start: nat, i: nat, end: nat)
    requires start <= i < end <= |s|
    ensures SomeLeftOpen(s, start, i, end) <==> LeftOpen(s, start, i, end) || SomeLeftOpen(s, start, Next(s, i), end)
  {
    hide LeftOpen, StringEnd;
    var next := Next(s, i);
    if SomeLeftOpen(s, start, i, end) && !LeftOpen(s, start, i, end) {
      var k :| i <= k < end && IsScanPosition(s, i, k) && LeftOpen(s, start, k, end);
      assert IsScanPosition(s, next, k);
      ScanMovesOn(s, next, k);
    }
    if LeftOpen(s, start, i, end) {
      assert IsScanPosition(s, i, i);
    }
    if SomeLeftOpen(s, start, next, end) {
      var k :| next <= k < end && IsScanPosition(s, next, k) && LeftOpen(s, start, k, end);
      assert IsScanPosition(s, i, k);
    }
  }

  /** A scan from `i` that has `n.angle` lists open is inside one at `j` exactly when one was not closed. */
  lemma {:induction false} AngleFrom(s: Text, start: nat, i: nat, j: nat, n: Nesting)
    requires start <= i <= j <= |s| && IsScanPosition(s, i, j) && n.angle >= 0
    requires i < j ==> Remembers(n.prev, LastCode(s, start, i))
    ensures NestingAt(s, i, j, n).Some?
    ensures NestingAt(s, i, j, n).value.angle > 0 <==>
            SomeLeftOpen(s, start, i, j) || (n.angle > 0 && ListCloses(s, start, i, j, n.angle).None?)
    decreases |s| - i
  {
    if i < j {
      var (next, after) := Step(s, i, n);
      assert next == Next(s, i);
      ScanMovesOn(s, next, j);
      AngleStep(s, start, i, j, n);
      if next < j {
        StillRemembers(s, start, i, n);
      }
      hide Step, StringEnd, IsScanPosition;
      AngleFrom(s, start, next, j, after);
    }
  }

  /** Bookkeeping of one step: the lists open before it, and the one it may open. */
  lemma AngleStep(s: Text, start: nat, i: nat, j: nat, n: Nesting)
    requires start <= i < j <= |s| && n.angle >= 0 && Remembers(n.prev, LastCode(s, start, i))
    ensures var after := Step(s, i, n).1;
            && after.angle >= 0
            && ((SomeLeftOpen(s, start, i, j) || (n.angle > 0 && ListCloses(s, start, i, j, n.angle).None?)) <==>
                (SomeLeftOpen(s, start, Next(s, i), j) ||
                 (after.angle > 0 && ListCloses(s, start, Next(s, i), j, after.angle).None?)))
  {
    hide StringEnd, SomeLeftOpen;
    SomeLeftOpenStep(s, start, i, j);
    if !IsQuote(s[i]) && OpensList(s, start, i) && n.angle > 0 && ListCloses(s, start, i + 1, j, 1).None? {
      DeeperStaysOpen(s, start, i + 1, j, 1, n.angle + 1);
    }
  }

  /** At every place outside strings, the angle depth is positive exactly when a generic list is open there. */
  lemma AngleMeans(s: Text, start: nat, j: nat)
    requires start <= j <= |s| && IsScanPosition(s, start, j)
    ensures NestingAt(s, start, j, OUTSIDE).Some?
    ensures NestingAt(s, start, j, OUTSIDE).value.angle > 0 <==> SomeLeftOpen(s, start, start, j)
  {
    AngleFrom(s, start, start, j, OUTSIDE);
  }

  // ---- what splitting does, in terms of brackets and generic lists --------------------------------

  const OPENING := {'{', '[', '('}
  const CLOSING := {'}', ']', ')'}

  /** Brackets opened less brackets closed outside strings between `i` and `k`, whatever their kinds. */
  function Balance(s: Text, i: nat, k: nat): int
    requires i <= |s| && k <= |s|
  {
    Count(s, i, k, OPENING) - Count(s, i, k, CLOSING)
  }

  lemma BalanceStep(s: Text, i: nat, k: nat)
    requires i < |s| && i < k <= |s|
    ensures Balance(s, i, k) == Balance(s, Next(s, i), k) +
              if IsQuote(s[i]) then 0 else if Opens(s[i]) then 1 else if Closes(s[i]) then -1 else 0
  {
  }

  ghost predicate StaysBalanced(s: Text, i: nat, end: nat, depth: int)
    requires i <= |s| && end <= |s|
  {
    depth + Balance(s, i, end) == 0 && forall k | i <= k <= end :: depth + Balance(s, i, k) >= 0
  }

  lemma StaysBalancedStep(s: Text, i: nat, end: nat, depth: int, deeper: int)
    requires i < end <= |s|
    requires deeper == depth + if IsQuote(s[i]) then 0 else if Opens(s[i]) then 1 else if Closes(s[i]) then -1 else 0
    ensures StaysBalanced(s, i, end, depth) <==> depth >= 0 && deeper >= 0 && StaysBalanced(s, Next(s, i), end, deeper)
  {
    var next := Next(s, i);
    hide Balance, Next, StringEnd;
    BalanceStep(s, i, end);
    BalanceHere(s, i);
    BalanceHere(s, next);
    if StaysBalanced(s, i, end, depth) {
      BalanceStep(s, i, i + 1);
      BalanceBefore(s, next, i + 1);
      forall k | next <= k <= end ensures deeper + Balance(s, next, k) >= 0 {
        BalanceStep(s, i, k);
      }
      if next > end {
        BalanceBefore(s, next, end);
      }
    }
    if depth >= 0 && deeper >= 0 && StaysBalanced(s, next, end, deeper) {
      forall k | i <= k <= end ensures depth + Balance(s, i, k) >= 0 {
        if i < k {
          BalanceStep(s, i, k);
          if k < next {
            BalanceBefore(s, next, k);
          }
        }
      }
    }
  }

  lemma BalanceHere(s: Text, i: nat)
    requires i <= |s|
    ensures Balance(s, i, i) == 0
  {
  }

  lemma BalanceBefore(s: Text, i: nat, k: nat)
    requires k <= i <= |s|
    ensures Balance(s, i, k) == 0
  {
  }

  lemma {:induction false} SplitFromSucceeds(
      s: Text, start: nat, from: nat, i: nat, end: nat, n: Nesting, seps: set<char>)
    requires start <= i <= |s| && from <= i && from <= end <= |s| && n.depth >= 0
    ensures SplitFrom(s, start, from, i, end, n, seps).Success? <==> StaysBalanced(s, i, end, n.depth)
    decreases |s| - i
  {
    if i < end {
      var (next, after) := Step(s, i, n);
      StaysBalancedStep(s, i, end, n.depth, after.depth);
      hide StaysBalanced, StringEnd;
      if after.depth >= 0 {
        var open := if !IsQuote(s[i]) && Separates(n, s[i], seps) then i + 1 else from;
        SplitFromSucceeds(s, start, open, next, end, after, seps);
      }
    } else if i > end {
      BalanceBefore(s, i, end);
    } else {
      BalanceHere(s, i);
    }
  }

  /**
   * A range is split, rather than rejected as unbalanced, exactly when never more brackets are closed
   * than opened and as many are closed in the end. Kinds do not matter, and neither do generic lists.
   */
  lemma SplitSucceedsExactly(s: Text, start: nat, end: nat, seps: set<char>)
    requires start <= end <= |s|
    ensures Split(s, start, end, seps).Success? <==> StaysBalanced(s, start, end, 0)
  {
    SplitFromSucceeds(s, start, start, start, end, OUTSIDE, seps);
  }

  /** Separators are neither brackets nor angles. */
  predicate Plain(seps: set<char>) {
    seps !! OPENING + CLOSING + {'<', '>'}
  }

  lemma {:induction false} ScanHasNesting(s: Text, i: nat, k: nat, n: Nesting)
    requires i <= |s|
    ensures NestingAt(s, i, k, n).Some? <==> IsScanPosition(s, i, k)
    decreases |s| - i
  {
    hide StringEnd;
    if i < k && i < |s| {
      var (next, after) := Step(s, i, n);
      ScanHasNesting(s, next, k, after);
    }
  }

  /**
   * A separator outside strings, with as many brackets closed as opened before it, and no generic list
   * open there.
   */
  ghost predicate Stands(s: Text, start: nat, k: nat, seps: set<char>)
    requires start <= |s|
  {
    && start <= k < |s| && !IsQuote(s[k]) && s[k] in seps && IsScanPosition(s, start, k)
    && Balance(s, start, k) == 0 && !SomeLeftOpen(s, start, start, k)
  }

  /** The separators that count at the top level are exactly these. */
  lemma TopLevelMeans(s: Text, start: nat, k: nat, seps: set<char>)
    requires start <= k <= |s| && Plain(seps)
    ensures IsTopLevelSeparator(s, start, k, OUTSIDE, seps) <==> Stands(s, start, k, seps)
  {
    ScanHasNesting(s, start, k, OUTSIDE);
    hide SomeLeftOpen, StringEnd;
    if IsScanPosition(s, start, k) {
      AngleMeans(s, start, k);
      NestingCounts(s, start, k, OUTSIDE);
    }
  }

  /**
   * The ranges of a successful split end exactly at the separators that no bracket and no open generic list
   * encloses.
   */
  lemma SplitMeans(s: Text, start: nat, end: nat, seps: set<char>)
    requires start <= end <= |s| && Plain(seps) && Split(s, start, end, seps).Success?
    ensures var parts := Split(s, start, end, seps).value;
            && InOrder(s, parts) && parts[0].0 == start && parts[|parts| - 1].1 == end
            && forall k: nat :: CutsAt(parts, k) <==> k < end && Stands(s, start, k, seps)
  {
    SplitPartitions(s, start, end, seps);
    var parts := Split(s, start, end, seps).value;
    hide Split, SplitFrom, InOrder, Rejoined, Stands, IsTopLevelSeparator, CutsAt;
    forall k: nat ensures CutsAt(parts, k) <==> k < end && Stands(s, start, k, seps) {
      if start <= k <= |s| {
        TopLevelMeans(s, start, k, seps);
      } else {
        StandsInside(s, start, k, seps);
      }
    }
  }

  lemma StandsInside(s: Text, start: nat, k: nat, seps: set<char>)
    requires start <= |s| && !(start <= k < |s|)
    ensures !Stands(s, start, k, seps)
  {
  }

  // ---- generic lists that are never closed ---------------------------------------------------------

  /** Where the scan stops: `end`, or past it when a string runs over it. */
  function ScanEnd(s: Text, i: nat, end: nat): (last: nat)
    requires i <= |s| && end <= |s|
    ensures i <= last <= |s| && end <= last
    decreases |s| - i
  {
    if i >= end then i else ScanEnd(s, Next(s, i), end)
  }

  lemma {:induction false} ScanEndIsReached(s: Text, i: nat, end: nat)
    requires i <= |s| && end <= |s|
    ensures IsScanPosition(s, i, ScanEnd(s, i, end))
    decreases |s| - i
  {
    hide StringEnd;
    if i < end {
      ScanEndIsReached(s, Next(s, i), end);
    }
  }

  lemma {:induction false} ClosesBeforeTheEnd(s: Text, start: nat, i: nat, end: nat, depth: nat)
    requires start <= i <= |s| && end <= |s|
    ensures ListCloses(s, start, i, ScanEnd(s, i, end), depth) == ListCloses(s, start, i, end, depth)
    decreases |s| - i
  {
    hide StringEnd, OpensList, ClosesList;
    if i < end {
      var next := Next(s, i);
      assert ScanEnd(s, i, end) == ScanEnd(s, next, end);
      ClosesBeforeTheEnd(s, start, next, end, depth);
      ClosesBeforeTheEnd(s, start, next, end, depth + 1);
      if depth > 1 {
        ClosesBeforeTheEnd(s, start, next, end, depth - 1);
      }
    }
  }

  lemma {:induction false} ScanEndFrom(s: Text, i: nat, k: nat, end: nat)
    requires i <= |s| && k <= end <= |s| && IsScanPosition(s, i, k)
    ensures ScanEnd(s, k, end) == ScanEnd(s, i, end)
    decreases |s| - i
  {
    hide StringEnd;
    if i < k {
      ScanMovesOn(s, Next(s, i), k);
      ScanEndFrom(s, Next(s, i), k, end);
    }
  }

  /** The angle depth at the end of a range is zero exactly when no generic list in it was left open. */
  lemma AngleAtTheEnd(s: Text, start: nat, end: nat, last: nat)
    requires start <= end <= |s| && last == ScanEnd(s, start, end)
    ensures NestingAt(s, start, last, OUTSIDE).Some?
    ensures NestingAt(s, start, last, OUTSIDE).value.angle == 0 <==> !SomeLeftOpen(s, start, start, end)
  {
    ScanEndIsReached(s, start, end);
    AngleMeans(s, start, last);
    ScanHasNesting(s, start, last, OUTSIDE);
    if NestingAt(s, start, last, OUTSIDE).value.angle < 0 {
      NestingCounts(s, start, last, OUTSIDE);
    }
    SameLeftOpen(s, start, end, last);
  }

  lemma SameLeftOpen(s: Text, start: nat, end: nat, last: nat)
    requires start <= end <= |s| && last == ScanEnd(s, start, end)
    ensures SomeLeftOpen(s, start, start, last) <==> SomeLeftOpen(s, start, start, end)
  {
    hide StringEnd, OpensList, ListCloses, ScanEnd;
    forall k | start <= k < end && IsScanPosition(s, start, k)
      ensures LeftOpen(s, start, k, last) <==> LeftOpen(s, start, k, end)
    {
      if OpensList(s, start, k) {
        ScanEndFrom(s, start, k, end);
        AngleIsCode(s, start, k, end);
        ClosesBeforeTheEnd(s, start, k + 1, end, 1);
      }
    }
    forall k | end <= k < last ensures !IsScanPosition(s, start, k) {
      NoneBetween(s, start, k, end);
    }
  }

  lemma AngleIsCode(s: Text, start: nat, k: nat, end: nat)
    requires start <= k < end <= |s| && OpensList(s, start, k)
    ensures ScanEnd(s, k + 1, end) == ScanEnd(s, k, end)
  {
  }

  lemma {:induction false} NoneBetween(s: Text, i: nat, k: nat, end: nat)
    requires i <= |s| && end <= |s| && end <= k < ScanEnd(s, i, end)
    ensures !IsScanPosition(s, i, k)
    decreases |s| - i
  {
    hide StringEnd;
    if i < end {
      if Next(s, i) <= k {
        NoneBetween(s, Next(s, i), k, end);
      } else if IsScanPosition(s, Next(s, i), k) {
        ScanMovesOn(s, Next(s, i), k);
      }
    }
  }

  /**
   * A generic list that is left open swallows every separator after it: the last range runs from before it to
   * the end.
   */
  lemma LeftOpenSwallowsTheRest(s: Text, start: nat, end: nat, seps: set<char>, k: nat)
    requires start <= k < end <= |s| && Plain(seps) && Split(s, start, end, seps).Success?
    requires IsScanPosition(s, start, k) && LeftOpen(s, start, k, end)
    ensures var parts := Split(s, start, end, seps).value; parts[|parts| - 1].0 <= k < parts[|parts| - 1].1 == end
  {
    var parts := Split(s, start, end, seps).value;
    SplitMeans(s, start, end, seps);
    hide Split, SplitFrom, OpensList, ListCloses, IsScanPosition, Balance, Rejoined;
    if |parts| > 1 {
      var cut := parts[|parts| - 2].1;
      assert parts[|parts| - 2 + 1].0 == cut + 1;
      assert CutsAt(parts, cut);
      assert !SomeLeftOpen(s, start, start, cut) && s[cut] in seps;
      if cut >= k {
        StillOpenAt(s, start, k, cut, end, seps);
      }
    }
  }

  lemma StillOpenAt(s: Text, start: nat, k: nat, cut: nat, end: nat, seps: set<char>)
    requires start <= k <= cut < end <= |s| && IsScanPosition(s, start, k) && LeftOpen(s, start, k, end)
    requires Plain(seps) && s[cut] in seps
    ensures SomeLeftOpen(s, start, start, cut)
  {
    StillOpenBefore(s, start, k + 1, cut, end, 1);
  }
}
