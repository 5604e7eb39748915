/** What is accepted, exactly: how a source stands that is read, and that whatever stands so is read. */
module CatalogCoverage {
  import opened Prelude
  import opened Scanner
  import opened Splitter
  import opened Pieces
  import opened CatalogReader
  import opened CatalogHeading
  import O = CatalogOrder
  import P = CatalogPrinter

  // ---- the interface: its streams, and spaces and semicolons ---------------------------------------

  /** Where a stream stands: its name, the end of the name, the colon, and the list's brackets. */
  datatype Place = Place(at: nat, name: nat, colon: nat, list: nat, close: nat)

  /** Only spaces and semicolons. */
  predicate Pause(s: Text, from: nat, to: nat) {
    from <= to <= |s| && forall k | from <= k < to :: IsSpace(s[k]) || s[k] == ';'
  }

  predicate IsBareName(name: Text) {
    name != [] && forall k | 0 <= k < |name| :: IsIdentifier(name[k])
  }

  /** In quotes of that kind, without escapes. */
  predicate IsQuotedName(name: Text, quote: char) {
    (quote == '\'' || quote == '"') && quote !in name && '\\' !in name
  }

  /** An identifier, or any text in quotes. */
  predicate NameStands(s: Text, from: nat, to: nat, name: Text) {
    from < to <= |s| &&
    ((IsBareName(name) && s[from..to] == name) ||
     (IsQuotedName(name, s[from]) && s[from..to] == [s[from]] + name + [s[from]]))
  }

  predicate StreamStands(s: Text, p: Place, stream: Stream) {
    && p.at < p.name <= p.colon < p.list < p.close < |s|
    && NameStands(s, p.at, p.name, stream.name) && Spaces(s, p.name, p.colon)
    && s[p.colon] == ':' && Spaces(s, p.colon + 1, p.list) && s[p.list] == '['
    && Matching(s, p.list, '[', ']', 0) == Some(p.close)
    && ParseEntries(s, p.list + 1, p.close) == Success(stream.events)
  }

  /** The streams in order, from `pos` to `end`, with nothing between them but spaces and semicolons. */
  predicate Covered(s: Text, pos: nat, end: nat, places: seq<Place>, streams: seq<Stream>)
    decreases |places|
  {
    if places == [] then streams == [] && Pause(s, pos, end)
    else
      && streams != [] && Pause(s, pos, places[0].at) && StreamStands(s, places[0], streams[0])
      && Covered(s, places[0].close + 1, end, places[1..], streams[1..])
  }

  // ---- what is read stands there -----------------------------------------------------------------------

  lemma {:induction false} SkippedIsSpace(s: Text, pos: nat)
    requires pos <= |s|
    ensures Spaces(s, pos, SkipSpace(s, pos))
    decreases |s| - pos
  {
    if pos < |s| && IsSpace(s[pos]) {
      SkippedIsSpace(s, pos + 1);
    }
  }

  lemma {:induction false} SkippedIsPause(s: Text, pos: nat, end: nat)
    requires pos <= |s| && end <= |s|
    ensures Pause(s, pos, SkipSemicolons(s, pos, end))
    decreases |s| - pos
  {
    if pos < end && s[pos] == ';' {
      SkippedIsSpace(s, pos + 1);
      SkippedIsPause(s, SkipSpace(s, pos + 1), end);
    }
  }

  lemma {:induction false} IdentifierRuns(s: Text, i: nat, end: nat)
    requires i <= end <= |s|
    ensures forall k | i <= k < IdentifierEnd(s, i, end) :: IsIdentifier(s[k])
    decreases end - i
  {
    if i < end && IsIdentifier(s[i]) {
      IdentifierRuns(s, i + 1, end);
    }
  }

  /** Without escapes, a string ends at its first quote. */
  lemma {:induction false} FirstQuoteEnds(s: Text, i: nat, quote: char)
    requires i <= |s| && StringEnd(s, i, quote) < |s| && quote != '\\'
    ensures i < StringEnd(s, i, quote)
    ensures s[StringEnd(s, i, quote) - 1] == quote
    ensures (forall k | i <= k < StringEnd(s, i, quote) - 1 :: s[k] != '\\') ==>
              forall k | i <= k < StringEnd(s, i, quote) - 1 :: s[k] != quote
    decreases |s| - i
  {
    if s[i] == '\\' {
      FirstQuoteEnds(s, NextBoundary(s, i + 1), quote);
    } else if s[i] != quote {
      FirstQuoteEnds(s, i + 1, quote);
    }
  }

  lemma NameIsRead(s: Text, pos: nat, end: nat)
    requires pos < end <= |s| && PropertyName(s, pos, end).Success? && PropertyName(s, pos, end).value.1 < |s|
    ensures NameStands(s, pos, PropertyName(s, pos, end).value.1, PropertyName(s, pos, end).value.0)
  {
    var (name, after) := PropertyName(s, pos, end).value;
    if IsQuote(s[pos]) {
      var quote := s[pos];
      FirstQuoteEnds(s, pos + 1, quote);
      hide StringEnd;
      assert name == s[pos + 1..after - 1];
      forall k | pos + 1 <= k < after - 1 ensures s[k] != '\\' {
        assert s[k] == name[k - pos - 1] && name[k - pos - 1] in name;
      }
      assert s[pos..after] == [quote] + name + [quote];
    } else {
      IdentifierRuns(s, pos, end);
      hide StringEnd, IdentifierEnd;
    }
  }

  lemma HeadStands(s: Text, pos: nat, end: nat) returns (p: Place)
    requires pos < end <= |s| && StreamHead(s, pos, end).Success?
    ensures p.at == pos < p.name <= p.colon < p.list < |s| && p.list == StreamHead(s, pos, end).value.1
    ensures NameStands(s, pos, p.name, StreamHead(s, pos, end).value.0) && Spaces(s, p.name, p.colon)
    ensures s[p.colon] == ':' && Spaces(s, p.colon + 1, p.list) && s[p.list] == '['
  {
    hide PropertyName, NameStands;
    var name := PropertyName(s, pos, end).value;
    var colon := SkipSpace(s, name.1);
    SkippedIsSpace(s, name.1);
    SkippedIsSpace(s, colon + 1);
    NameIsRead(s, pos, end);
    p := Place(pos, name.1, colon, SkipSpace(s, colon + 1), 0);
  }

  /** Where the name of the next stream stands. */
  lemma NextStarts(s: Text, pos: nat, end: nat) returns (at: nat)
    requires pos <= end <= |s| && NextStream(s, pos, end).Success? && NextStream(s, pos, end).value.Some?
    ensures Pause(s, pos, at) && at < end && StreamHead(s, at, end).Success?
    ensures var (stream, after) := NextStream(s, pos, end).value.value; var head := StreamHead(s, at, end).value;
            && head.0 == stream.name && Matching(s, head.1, '[', ']', 0).Some?
            && var close := Matching(s, head.1, '[', ']', 0).value;
               after == close + 1 && close > head.1 && ParseEntries(s, head.1 + 1, close) == Success(stream.events)
  {
    var first := SkipSpace(s, pos);
    at := SkipSemicolons(s, first, end);
    SkippedIsSpace(s, pos);
    SkippedIsPause(s, first, end);
    hide SkipSpace, SkipSemicolons, StreamHead, ParseEntries, Matching;
    ClosesLater(s, StreamHead(s, at, end).value.1);
  }

  lemma NextStands(s: Text, pos: nat, end: nat) returns (p: Place)
    requires pos <= end <= |s| && NextStream(s, pos, end).Success? && NextStream(s, pos, end).value.Some?
    ensures Pause(s, pos, p.at) && p.close + 1 == NextStream(s, pos, end).value.value.1
    ensures StreamStands(s, p, NextStream(s, pos, end).value.value.0)
  {
    hide NextStream, SkipSpace, SkipSemicolons, StreamHead, ParseEntries, Matching, NameStands, Pause, Spaces;
    var at := NextStarts(s, pos, end);
    p := HeadStands(s, at, end);
    p := p.(close := Matching(s, p.list, '[', ']', 0).value);
  }

  lemma LastPause(s: Text, pos: nat, end: nat)
    requires pos <= end <= |s| && NextStream(s, pos, end) == Success(None)
    ensures Pause(s, pos, end)
  {
    var first := SkipSpace(s, pos);
    SkippedIsSpace(s, pos);
    SkippedIsPause(s, first, end);
    hide SkipSpace, SkipSemicolons, StreamHead, ParseEntries, Matching;
  }

  lemma {:induction false} StreamsCover(s: Text, pos: nat, end: nat) returns (places: seq<Place>)
    requires pos <= |s| && end <= |s| && Streams(s, pos, end).Success?
    ensures Covered(s, pos, end, places, Streams(s, pos, end).value)
    decreases |s| - pos
  {
    if pos > end {
      O.BeyondTheEnd(s, pos, end);
      assert false;
    }
    hide NextStream, StreamStands, Pause;
    match NextStream(s, pos, end).value
    case None =>
      LastPause(s, pos, end);
      places := [];
    case Some((stream, after)) =>
      var p := NextStands(s, pos, end);
      var more := StreamsCover(s, after, end);
      places := [p] + more;
      assert Streams(s, pos, end).value == [stream] + Streams(s, after, end).value;
      assert places[1..] == more && Streams(s, pos, end).value[1..] == Streams(s, after, end).value;
  }

  // ---- what stands there is read -----------------------------------------------------------------------

  lemma NameReads(s: Text, from: nat, to: nat, end: nat, name: Text)
    requires NameStands(s, from, to, name) && to < end <= |s| && (IsSpace(s[to]) || s[to] == ':')
    ensures PropertyName(s, from, end) == Success((name, to))
    ensures !IsSpace(s[from]) && s[from] != ';'
  {
    var quote := s[from];
    hide PropertyName;
    assert s[from] == s[from..to][0];
    if IsBareName(name) && s[from..to] == name {
      assert |name| == to - from;
      P.BareNameReads(s, from, end, name, to);
    } else {
      assert to - from == |name| + 2;
      P.QuotedNameReads(s, from, end, quote, name);
    }
  }

  lemma HeadReads(s: Text, p: Place, stream: Stream, end: nat)
    requires StreamStands(s, p, stream) && p.close < end <= |s|
    ensures StreamHead(s, p.at, end) == Success((stream.name, p.list)) && !IsSpace(s[p.at]) && s[p.at] != ';'
  {
    hide Matching, ParseEntries, PropertyName, NameStands;
    NameReads(s, p.at, p.name, end, stream.name);
    P.SpaceSkips(s, p.name, p.colon);
    P.SpaceSkips(s, p.colon + 1, p.list);
    hide SkipSpace;
  }

  lemma NextReads(s: Text, pos: nat, end: nat, p: Place, stream: Stream)
    requires StreamStands(s, p, stream) && Pause(s, pos, p.at) && p.close < end < |s|
    ensures NextStream(s, pos, end) == Success(Some((stream, p.close + 1)))
  {
    hide StreamHead, NextStream, Matching, ParseEntries, NameStands, P.Continues;
    HeadReads(s, p, stream, end);
    P.PauseSkips(s, pos, p.at, end);
    P.StreamBy(s, pos, p.at, end, stream, p.list, p.close);
  }

  lemma CoveredParts(s: Text, pos: nat, end: nat, places: seq<Place>, streams: seq<Stream>)
    requires Covered(s, pos, end, places, streams)
    ensures places == [] ==> streams == [] && Pause(s, pos, end)
    ensures places != [] ==>
              && streams != [] && Pause(s, pos, places[0].at) && StreamStands(s, places[0], streams[0])
              && Covered(s, places[0].close + 1, end, places[1..], streams[1..])
              && streams == [streams[0]] + streams[1..]
  {
    hide Pause, StreamStands;
  }

  lemma PlaceAscends(s: Text, pos: nat, p: Place, stream: Stream)
    requires StreamStands(s, p, stream) && Pause(s, pos, p.at)
    ensures pos <= p.at < p.close < |s|
  {
    hide NameStands, Matching, ParseEntries, Spaces;
  }

  lemma PauseAscends(s: Text, from: nat, to: nat)
    requires Pause(s, from, to)
    ensures from <= to <= |s|
  {
  }

  lemma {:induction false} CoveredStays(s: Text, pos: nat, end: nat, places: seq<Place>, streams: seq<Stream>)
    requires Covered(s, pos, end, places, streams)
    ensures pos <= end <= |s|
    decreases |places|
  {
    hide *;
    CoveredParts(s, pos, end, places, streams);
    if places == [] {
      PauseAscends(s, pos, end);
    } else {
      PlaceAscends(s, pos, places[0], streams[0]);
      CoveredStays(s, places[0].close + 1, end, places[1..], streams[1..]);
    }
  }

  lemma NoneRead(s: Text, pos: nat, end: nat)
    requires Pause(s, pos, end) && end < |s| && s[end] == '}'
    ensures pos <= |s| && Streams(s, pos, end) == Success([])
  {
    hide Streams;
    P.LastPause(s, pos, end);
  }

  lemma {:induction false} CoveredReads(s: Text, pos: nat, end: nat, places: seq<Place>, streams: seq<Stream>)
    requires Covered(s, pos, end, places, streams) && end < |s| && s[end] == '}'
    ensures pos <= |s| && Streams(s, pos, end) == Success(streams)
    decreases |places|
  {
    hide *;
    CoveredStays(s, pos, end, places, streams);
    CoveredParts(s, pos, end, places, streams);
    if places == [] {
      NoneRead(s, pos, end);
    } else {
      var next := places[0].close + 1;
      CoveredStays(s, next, end, places[1..], streams[1..]);
      NextReads(s, pos, end, places[0], streams[0]);
      CoveredReads(s, next, end, places[1..], streams[1..]);
      P.StreamsBy(s, pos, end, streams[0], next, streams[1..]);
    }
  }

  // ---- the whole source --------------------------------------------------------------------------------

  /**
   * How a source stands that is read as these streams: the name is first mentioned at `start`, the first
   * brace after that is at `brace` and matches the one at `end`, and between the two are exactly the
   * streams, in order, and spaces and semicolons.
   */
  predicate Stands(s: Text, start: nat, brace: nat, end: nat, places: seq<Place>, streams: seq<Stream>) {
    streams != [] && Taken(s, start, brace, end) && Covered(s, brace + 1, end, places, streams)
  }

  /** Whatever is read stands so: in the braces that are taken, nothing is skipped. */
  lemma NothingIsSkipped(source: Text) returns (start: nat, brace: nat, end: nat, places: seq<Place>)
    requires Parse(source).Success?
    ensures Stands(Stripped(source, 0), start, brace, end, places, Parse(source).value)
  {
    var s := Stripped(source, 0);
    start, brace, end := BodyRead(s);
    hide Stripped, Taken;
    places := StreamsCover(s, brace + 1, end);
  }

  lemma BodyFound(s: Text)
    requires ParseStripped(s).Success?
    ensures Find(s, 0, NEEDLE).Some? && O.Body(s).Some?
  {
    hide Find, Matching, Streams;
  }

  lemma BodyStarts(s: Text)
    requires O.Body(s).Some?
    ensures O.Body(s).value.0 > 0
  {
    hide Find, Matching;
  }

  lemma BodyRead(s: Text) returns (start: nat, brace: nat, end: nat)
    requires ParseStripped(s).Success?
    ensures Taken(s, start, brace, end) && brace < end < |s|
    ensures Streams(s, brace + 1, end) == ParseStripped(s) && ParseStripped(s).value != []
  {
    hide *;
    BodyFound(s);
    BodyStarts(s);
    start, brace, end := Find(s, 0, NEEDLE).value, O.Body(s).value.0 - 1, O.Body(s).value.1;
    BodyIsTaken(s, start, brace, end);
    TakenBounds(s, start, brace, end);
    P.ParseBy(s, start, brace, end, Streams(s, brace + 1, end));
  }

  lemma TakenBounds(s: Text, start: nat, brace: nat, end: nat)
    requires Taken(s, start, brace, end)
    ensures start <= brace < end < |s| && s[brace] == '{' && s[end] == '}'
    ensures Find(s, 0, NEEDLE) == Some(start) && Find(s, start, "{") == Some(brace)
    ensures Matching(s, brace, '{', '}', 0) == Some(end)
  {
    FindIsFirst(s, 0, NEEDLE, start);
    FindIsFirst(s, start, "{", brace);
    AtIndex(s, brace, "{", 0);
    hide Find, NEEDLE, At;
  }

  /** Whatever stands so is read. */
  lemma WhatStandsIsRead(
      source: Text, start: nat, brace: nat, end: nat, places: seq<Place>, streams: seq<Stream>)
    requires Stands(Stripped(source, 0), start, brace, end, places, streams)
    ensures Parse(source) == Success(streams)
  {
    var s := Stripped(source, 0);
    assert Parse(source) == ParseStripped(s);
    assert Taken(s, start, brace, end) && Covered(s, brace + 1, end, places, streams) && streams != [];
    hide *;
    TakenBounds(s, start, brace, end);
    CoveredReads(s, brace + 1, end, places, streams);
    P.ParseBy(s, start, brace, end, Success(streams));
  }

  /** A source is read as these streams if and only if it stands so. */
  lemma SourceReadsExactly(source: Text, streams: seq<Stream>)
    ensures Parse(source) == Success(streams) <==>
            exists start: nat, brace: nat, end: nat, places: seq<Place> ::
              Stands(Stripped(source, 0), start, brace, end, places, streams)
  {
    hide Stripped, Parse, Stands;
    if Parse(source) == Success(streams) {
      var start, brace, end, places := NothingIsSkipped(source);
    }
    forall start: nat, brace: nat, end: nat, places: seq<Place> |
      Stands(Stripped(source, 0), start, brace, end, places, streams)
      ensures Parse(source) == Success(streams)
    {
      WhatStandsIsRead(source, start, brace, end, places, streams);
    }
  }
}
