/** The reader of `interface StreamerEvents`: streams, their entries, key patterns and arities. */
module CatalogReader {
  import opened Prelude
  import opened Scanner
  import opened Sequences
  import opened Splitter

  datatype KeyPattern = Literal(text: Text) | Suffix(text: Text) | Prefix(text: Text) | Any

  datatype ArgsSpec = ArgsSpec(source: Text, arities: seq<nat>, variadic: bool)

  datatype Event = Event(key: KeyPattern, keySource: Text, args: ArgsSpec)

  datatype Stream = Stream(name: Text, events: seq<Event>)

  const NEEDLE: Text := "interface StreamerEvents"

  const HOLE: Text := "${string}"

  // ---- spaces --------------------------------------------------------------------------------

  function SkipSpace(s: Text, pos: nat): (at: nat)
    requires pos <= |s|
    ensures pos <= at <= |s|
    decreases |s| - pos
  {
    if pos < |s| && IsSpace(s[pos]) then SkipSpace(s, pos + 1) else pos
  }

  function TrimLeft(s: Text, from: nat, until: nat): (at: nat)
    requires from <= until <= |s|
    ensures from <= at <= until
    decreases until - from
  {
    if from < until && IsSpace(s[from]) then TrimLeft(s, from + 1, until) else from
  }

  function TrimRight(s: Text, from: nat, until: nat): (at: nat)
    requires from <= until <= |s|
    ensures from <= at <= until
    decreases until - from
  {
    if from < until && IsSpace(s[until - 1]) then TrimRight(s, from, until - 1) else until
  }

  function Trim(s: Text, from: nat, until: nat): (r: (nat, nat))
    requires from <= until <= |s|
    ensures from <= r.0 <= r.1 <= until
  {
    var left := TrimLeft(s, from, until);
    (left, TrimRight(s, left, until))
  }

  method SkipWhitespace(s: Text, pos: nat) returns (at: nat)
    requires pos <= |s|
    ensures at == SkipSpace(s, pos)
  {
    at := pos;
    while at < |s| && IsSpace(s[at])
      invariant pos <= at <= |s|
      invariant SkipSpace(s, pos) == SkipSpace(s, at)
    {
      at := at + 1;
    }
  }

  method TrimRange(s: Text, from: nat, to: nat) returns (left: nat, right: nat)
    requires from <= to <= |s|
    ensures (left, right) == Trim(s, from, to)
  {
    left, right := from, to;
    while left < right && IsSpace(s[left])
      invariant from <= left <= to
      invariant TrimLeft(s, from, to) == TrimLeft(s, left, to)
    {
      left := left + 1;
    }
    while right > left && IsSpace(s[right - 1])
      invariant left <= right <= to
      invariant TrimRight(s, left, to) == TrimRight(s, left, right)
    {
      right := right - 1;
    }
  }

  /** Whitespace runs collapsed to one space, none at either end. */
  function Normalised(text: Text, i: nat, out: Text, space: bool): Text
    requires i <= |text|
    decreases |text| - i
  {
    if i == |text| then out
    else if IsSpace(text[i]) then Normalised(text, i + 1, out, out != [])
    else Normalised(text, i + 1, (if space then out + [' '] else out) + [text[i]], false)
  }

  method Normalise(text: Text) returns (out: Text)
    ensures out == Normalised(text, 0, [], false)
  {
    out := [];
    var space := false;
    for i := 0 to |text|
      invariant Normalised(text, 0, [], false) == Normalised(text, i, out, space)
    {
      if IsSpace(text[i]) {
        space := out != [];
      } else {
        if space {
          out := out + [' '];
        }
        space := false;
        out := out + [text[i]];
      }
    }
  }

  // ---- what collapsing keeps -----------------------------------------------------------------

  function WordEnd(text: Text, i: nat): (end: nat)
    requires i <= |text|
    ensures i <= end <= |text|
    decreases |text| - i
  {
    if i < |text| && !IsSpace(text[i]) then WordEnd(text, i + 1) else i
  }

  /** The runs of bytes that are not spaces, from `i` on. */
  function WordsFrom(text: Text, i: nat): seq<Text>
    requires i <= |text|
    decreases |text| - i
  {
    if i == |text| then []
    else if IsSpace(text[i]) then WordsFrom(text, i + 1)
    else [text[i..WordEnd(text, i)]] + WordsFrom(text, WordEnd(text, i))
  }

  function Words(text: Text): seq<Text> {
    WordsFrom(text, 0)
  }

  /** Each word after a single space. */
  function Trailing(words: seq<Text>): Text {
    if words == [] then [] else [' '] + words[0] + Trailing(words[1..])
  }

  /** The words with single spaces between them. */
  function Spaced(words: seq<Text>): Text {
    if words == [] then [] else words[0] + Trailing(words[1..])
  }

  function AfterWords(out: Text, words: seq<Text>): Text {
    if out == [] then Spaced(words) else out + Trailing(words)
  }

  /** Collapsing between words: a space is due if something was written. */
  lemma {:induction false} BetweenWords(text: Text, i: nat, out: Text)
    requires i <= |text|
    ensures Normalised(text, i, out, out != []) == AfterWords(out, WordsFrom(text, i))
    decreases |text| - i
  {
    if i == |text| {
      assert out + [] == out;
    } else if IsSpace(text[i]) {
      BetweenWords(text, i + 1, out);
    } else {
      var spaced := (if out == [] then [] else out + [' ']) + [text[i]];
      var word, rest := text[i..WordEnd(text, i)], WordsFrom(text, WordEnd(text, i));
      InsideWord(text, i + 1, spaced);
      WordStarts(text, i);
      hide Trailing, WordsFrom, WordEnd, Normalised;
      WordJoins(out, text[i], word, rest);
    }
  }

  /** Collapsing inside a word. */
  lemma {:induction false} InsideWord(text: Text, i: nat, out: Text)
    requires i <= |text| && out != []
    ensures Normalised(text, i, out, false) ==
        out + (text[i..WordEnd(text, i)] + Trailing(WordsFrom(text, WordEnd(text, i))))
    decreases |text| - i
  {
    if i == |text| {
      assert text[i..i] + text[i..i] == text[i..i] == [] && out + [] == out;
    } else if IsSpace(text[i]) {
      BetweenWords(text, i + 1, out);
      assert text[i..i] == [] && [] + Trailing(WordsFrom(text, i)) == Trailing(WordsFrom(text, i));
    } else {
      var rest := Trailing(WordsFrom(text, WordEnd(text, i)));
      InsideWord(text, i + 1, out + [text[i]]);
      WordStarts(text, i);
      hide Trailing, WordsFrom, WordEnd, Normalised;
      ByteJoins(out, text[i], text[i + 1..WordEnd(text, i)], rest);
    }
  }

  lemma WordStarts(text: Text, i: nat)
    requires i < |text| && !IsSpace(text[i])
    ensures i < WordEnd(text, i) == WordEnd(text, i + 1)
    ensures text[i..WordEnd(text, i)] == [text[i]] + text[i + 1..WordEnd(text, i)]
    ensures WordsFrom(text, i) == [text[i..WordEnd(text, i)]] + WordsFrom(text, WordEnd(text, i))
  {
  }

  lemma ByteJoins(out: Text, c: char, word: Text, rest: Text)
    ensures (out + [c]) + (word + rest) == out + (([c] + word) + rest)
  {
  }

  lemma WordJoins(out: Text, c: char, word: Text, rest: seq<Text>)
    requires word != [] && word[0] == c
    ensures AfterWords(out, [word] + rest) ==
            ((if out == [] then [] else out + [' ']) + [c]) + (word[1..] + Trailing(rest))
  {
    assert ([word] + rest)[1..] == rest && [c] + word[1..] == word;
    var tail := Trailing(rest);
    assert Trailing([word] + rest) == [' '] + word + tail;
    hide Trailing;
    assert [] + [c] + (word[1..] + tail) == word + tail;
    assert out + ([' '] + word + tail) == out + [' '] + [c] + (word[1..] + tail);
  }

  /** Collapsed text is the words in order with single spaces between them. */
  lemma NormalisedIsSpaced(text: Text)
    ensures Normalised(text, 0, [], false) == Spaced(Words(text))
  {
    BetweenWords(text, 0, []);
  }

  // ---- keys ----------------------------------------------------------------------------------

  function StripQuotes(text: Text, quote: char): Option<Text> {
    if |text| >= 2 && text[0] == quote && text[|text| - 1] == quote && quote !in text[1..|text| - 1]
    then Some(text[1..|text| - 1])
    else None
  }

  predicate HasHole(text: Text) {
    exists i | 0 <= i < |text| - 1 :: text[i] == '$' && text[i + 1] == '{'
  }

  function TemplateKey(inner: Text): Option<KeyPattern> {
    var n := |HOLE|;
    if inner == HOLE then Some(Any)
    else if HOLE <= inner && |inner| > n + 1 && inner[n] == '/' && !HasHole(inner[n + 1..]) then
      Some(Suffix(inner[n + 1..]))
    else if |inner| > n + 1 && inner[|inner| - n..] == HOLE && inner[|inner| - n - 1] == '/'
            && !HasHole(inner[..|inner| - n - 1]) then
      Some(Prefix(inner[..|inner| - n - 1]))
    else None
  }

  function KeyOf(text: Text): Option<KeyPattern> {
    var single := StripQuotes(text, '\'');
    var quoted := if single.Some? then single else StripQuotes(text, '"');
    if quoted.Some? then
      if '$' in quoted.value || '\\' in quoted.value then None else Some(Literal(quoted.value))
    else if text == "string" then Some(Any)
    else
      match StripQuotes(text, '`')
      case Some(inner) => TemplateKey(inner)
      case None => None
  }

  function ParseKey(s: Text, start: nat, end: nat): Result<KeyPattern, Fault>
    requires start <= end <= |s|
  {
    match KeyOf(s[start..end])
    case Some(key) => Success(key)
    case None => Failure(Rejected(start))
  }

  // ---- arguments -----------------------------------------------------------------------------

  function FindTopLevel(s: Text, start: nat, end: nat, seps: set<char>): (r: Result<Option<nat>, Fault>)
    requires start <= end <= |s|
    ensures r.Success? && r.value.Some? ==> start <= r.value.value < end
  {
    var parts :- Split(s, start, end, seps);
    if |parts| > 1 then
      SplitPartitions(s, start, end, seps);
      assert parts[0 + 1].0 == parts[0].1 + 1;
      assert parts[0].1 < end by {
        assert CutsAt(parts, parts[0].1);
      }
      Success(Some(parts[0].1))
    else Success(None)
  }

  /** What is found is the first separator outside brackets and generic lists, and nothing only if there is none. */
  lemma FoundIsTheFirst(s: Text, start: nat, end: nat, seps: set<char>)
    requires start <= end <= |s| && FindTopLevel(s, start, end, seps).Success?
    ensures match FindTopLevel(s, start, end, seps).value
            case Some(at) =>
              && start <= at < end && IsTopLevelSeparator(s, start, at, OUTSIDE, seps)
              && forall k | start <= k < at :: !IsTopLevelSeparator(s, start, k, OUTSIDE, seps)
            case None => forall k | start <= k < end :: !IsTopLevelSeparator(s, start, k, OUTSIDE, seps)
  {
    SplitPartitions(s, start, end, seps);
    var parts := Split(s, start, end, seps).value;
    hide Split, SplitFrom, IsTopLevelSeparator, Rejoined;
    if |parts| > 1 {
      assert CutsAt(parts, parts[0].1);
      forall k: nat | start <= k < parts[0].1 ensures !CutsAt(parts, k) {
        if j :| 0 <= j < |parts| - 1 && parts[j].1 == k {
          PartsAscend(s, parts, j);
        }
      }
    } else {
      forall k: nat ensures !CutsAt(parts, k) { }
    }
  }

  lemma {:induction false} PartsAscend(s: Text, parts: seq<(nat, nat)>, j: nat)
    requires InOrder(s, parts) && j < |parts|
    ensures parts[0].1 <= parts[j].1
  {
    if j > 0 {
      PartsAscend(s, parts, j - 1);
      assert parts[j - 1 + 1].0 == parts[j - 1].1 + 1;
    }
  }

  /** An element is optional by a question mark at the end of its label, or of the whole. */
  function IsOptional(s: Text, from: nat, to: nat): Result<bool, Fault>
    requires from <= to <= |s|
  {
    var colon :- FindTopLevel(s, from, to, {':'});
    var mark := Trim(s, from, if colon.Some? then colon.value else to).1;
    Success(from < mark && s[mark - 1] == '?')
  }

  /** The slots of a tuple, and how many of them must be there. */
  function Slots(s: Text, parts: seq<(nat, nat)>, n: nat, required: nat): (r: Result<(nat, nat), Fault>)
    requires Within(s, parts) && required <= n
    ensures r.Success? ==> r.value.1 <= r.value.0
    decreases |parts|
  {
    if parts == [] then Success((n, required))
    else
      var (from, to) := Trim(s, parts[0].0, parts[0].1);
      if from == to then Slots(s, parts[1..], n, required)
      else if "..." <= s[from..to] then Failure(Rejected(from))
      else
        var optional :- IsOptional(s, from, to);
        Slots(s, parts[1..], n + 1, if optional then required else n + 1)
  }

  /** The lengths `lo..=hi`, each added once. */
  function AddArities(arities: seq<nat>, lo: nat, hi: nat): seq<nat>
    decreases hi + 1 - lo
  {
    if lo > hi then arities
    else AddArities(if lo in arities then arities else arities + [lo], lo + 1, hi)
  }

  function Alternatives(s: Text, parts: seq<(nat, nat)>, arities: seq<nat>, variadic: bool)
    : Result<(seq<nat>, bool), Fault>
    requires Within(s, parts)
    decreases |parts|
  {
    if parts == [] then Success((arities, variadic))
    else
      var (from, to) := Trim(s, parts[0].0, parts[0].1);
      if from == to then Alternatives(s, parts[1..], arities, variadic)
      else if to - from >= 2 && s[from] == '[' && s[to - 1] == ']' then
        var slots :- Tuple(s, from, to);
        Alternatives(s, parts[1..], AddArities(arities, slots.1, slots.0), variadic)
      else if to - from >= 2 && s[to - 2] == '[' && s[to - 1] == ']' then
        Alternatives(s, parts[1..], arities, true)
      else Failure(Rejected(from))
  }

  function Tuple(s: Text, from: nat, to: nat): (r: Result<(nat, nat), Fault>)
    requires from + 2 <= to <= |s| && s[from] == '['
    ensures r.Success? ==> r.value.1 <= r.value.0
  {
    match Matching(s, from, '[', ']', 0)
    case None => Failure(Rejected(from))
    case Some(close) =>
      if close + 1 != to then Failure(Rejected(from))
      else
        var elements :- Split(s, from + 1, to - 1, {','});
        Slots(s, elements, 0, 0)
  }

  function Inserted(x: nat, ascending: seq<nat>): seq<nat> {
    if ascending == [] || x <= ascending[0] then [x] + ascending
    else [ascending[0]] + Inserted(x, ascending[1..])
  }

  function Sorted(items: seq<nat>): seq<nat> {
    if items == [] then [] else Inserted(items[0], Sorted(items[1..]))
  }

  function ParseArgs(s: Text, start: nat, end: nat): Result<ArgsSpec, Fault>
    requires start <= end <= |s|
  {
    var parts :- Split(s, start, end, {'|'});
    var found :- Alternatives(s, parts, [], false);
    if found.0 == [] && !found.1 then Failure(Rejected(start))
    else Success(ArgsSpec(Normalised(s[start..end], 0, [], false), Sorted(found.0), found.1))
  }

  // ---- entries -------------------------------------------------------------------------------

  /** What one range between member separators holds. */
  datatype Member = Blank | KeyMember(pattern: KeyPattern, source: Text) | ArgsMember(spec: ArgsSpec)

  function MemberOf(s: Text, part: (nat, nat), hasKey: bool, hasArgs: bool): Result<Member, Fault>
    requires part.0 <= part.1 <= |s|
  {
    var (from, to) := Trim(s, part.0, part.1);
    if from == to then Success(Blank)
    else
      var found :- FindTopLevel(s, from, to, {':'});
      if found.None? then Failure(Rejected(from))
      else
        var (nf, nt) := Trim(s, from, found.value);
        var (vf, vt) := Trim(s, found.value + 1, to);
        if s[nf..nt] == "key" then
          if hasKey then Failure(Rejected(from))
          else var pattern :- ParseKey(s, vf, vt); Success(KeyMember(pattern, s[vf..vt]))
        else if s[nf..nt] == "args" then
          if hasArgs then Failure(Rejected(from))
          else var spec :- ParseArgs(s, vf, vt); Success(ArgsMember(spec))
        else Failure(Rejected(from))
  }

  /** The members of an entry still to be read, given the key and args already seen. */
  function Members(s: Text, start: nat, parts: seq<(nat, nat)>, key: Option<(KeyPattern, Text)>, args: Option<ArgsSpec>)
    : Result<Event, Fault>
    requires Within(s, parts)
    decreases |parts|
  {
    if parts == [] then
      if key.None? || args.None? then Failure(Rejected(start))
      else Success(Event(key.value.0, key.value.1, args.value))
    else
      var member :- MemberOf(s, parts[0], key.Some?, args.Some?);
      match member
      case Blank => Members(s, start, parts[1..], key, args)
      case KeyMember(pattern, source) => Members(s, start, parts[1..], Some((pattern, source)), args)
      case ArgsMember(spec) => Members(s, start, parts[1..], key, Some(spec))
  }

  function ParseEntry(s: Text, start: nat, end: nat): Result<Event, Fault>
    requires start <= end <= |s|
  {
    var parts :- Split(s, start, end, {';', ','});
    Members(s, start, parts, None, None)
  }

  /** One range between commas: blank after a trailing comma, or an entry object. */
  function EntryOf(s: Text, part: (nat, nat)): Result<Option<Event>, Fault>
    requires part.0 <= part.1 <= |s|
  {
    var (from, to) := Trim(s, part.0, part.1);
    if from == to then Success(None)
    else if to - from < 2 || s[from] != '{' || s[to - 1] != '}' then Failure(Rejected(from))
    else var event :- ParseEntry(s, from + 1, to - 1); Success(Some(event))
  }

  function Entries(s: Text, parts: seq<(nat, nat)>): Result<seq<Event>, Fault>
    requires Within(s, parts)
    decreases |parts|
  {
    if parts == [] then Success([])
    else
      var event :- EntryOf(s, parts[0]);
      Prefixed(if event.Some? then [event.value] else [], Entries(s, parts[1..]))
  }

  function ParseEntries(s: Text, start: nat, end: nat): Result<seq<Event>, Fault>
    requires start <= end <= |s|
  {
    var parts :- Split(s, start, end, {','});
    var events :- Entries(s, parts);
    if events == [] then Failure(Rejected(start)) else Success(events)
  }

  // ---- streams -------------------------------------------------------------------------------

  predicate IsIdentifier(c: char) {
    IsAlphanumeric(c) || c == '_' || c == '$'
  }

  function IdentifierEnd(s: Text, i: nat, end: nat): (at: nat)
    requires end <= |s|
    ensures i <= end ==> i <= at <= end
    decreases end - i
  {
    if i < end && IsIdentifier(s[i]) then IdentifierEnd(s, i + 1, end) else i
  }

  function PropertyName(s: Text, start: nat, end: nat): (r: Result<(Text, nat), Fault>)
    requires start < end <= |s|
    ensures r.Success? ==> start < r.value.1 <= |s|
  {
    if s[start] == '`' then Failure(Rejected(start))
    else if IsQuote(s[start]) then
      var after := StringEnd(s, start + 1, s[start]);
      if after < start + 2 then Failure(OutOfOrder)
      else if '\\' in s[start + 1..after - 1] then Failure(Rejected(start))
      else Success((s[start + 1..after - 1], after))
    else
      var after := IdentifierEnd(s, start, end);
      if after == start then Failure(Rejected(start)) else Success((s[start..after], after))
  }

  function SkipSemicolons(s: Text, pos: nat, end: nat): (at: nat)
    requires pos <= |s| && end <= |s|
    ensures pos <= at <= |s|
    decreases |s| - pos
  {
    if pos < end && s[pos] == ';' then SkipSemicolons(s, SkipSpace(s, pos + 1), end) else pos
  }

  /** `name : [`, up to the opening bracket; a slice that would run backwards is reported as such. */
  function StreamHead(s: Text, pos: nat, end: nat): (r: Result<(Text, nat), Fault>)
    requires pos < end <= |s|
    ensures r.Success? ==> pos < r.value.1 < end && s[r.value.1] == '['
  {
    var name :- PropertyName(s, pos, end);
    var colon := SkipSpace(s, name.1);
    if colon > end then Failure(OutOfOrder)
    else if colon == end || s[colon] != ':' then Failure(Rejected(colon))
    else
      var list := SkipSpace(s, colon + 1);
      if list > end then Failure(OutOfOrder)
      else if list == end || s[list] != '[' then Failure(Rejected(list))
      else Success((name.0, list))
  }

  /** The next stream and where reading goes on, or nothing at the end of the interface. */
  function NextStream(s: Text, pos: nat, end: nat): (r: Result<Option<(Stream, nat)>, Fault>)
    requires pos <= |s| && end <= |s|
    ensures r.Success? && r.value.Some? ==> pos < r.value.value.1 <= |s|
  {
    var first := SkipSpace(s, pos);
    if first > end then Failure(OutOfOrder)
    else
      var at := SkipSemicolons(s, first, end);
      if at > end then Failure(OutOfOrder)
      else if at == end then Success(None)
      else
        var head :- StreamHead(s, at, end);
        match Matching(s, head.1, '[', ']', 0)
        case None => Failure(Rejected(head.1))
        case Some(close) =>
          assert close > head.1 by { ClosesLater(s, head.1); }
          var events :- ParseEntries(s, head.1 + 1, close);
          Success(Some((Stream(head.0, events), close + 1)))
  }

  function Streams(s: Text, pos: nat, end: nat): Result<seq<Stream>, Fault>
    requires pos <= |s| && end <= |s|
    decreases |s| - pos
  {
    var next :- NextStream(s, pos, end);
    match next
    case None => Success([])
    case Some((stream, after)) => Prefixed([stream], Streams(s, after, end))
  }

  lemma ClosesLater(s: Text, at: nat)
    requires at < |s| && s[at] == '[' && Matching(s, at, '[', ']', 0).Some?
    ensures Matching(s, at, '[', ']', 0).value > at
  {
  }

  function Find(s: Text, i: nat, part: Text): (at: Option<nat>)
    requires i <= |s|
    ensures at.Some? ==> i <= at.value && at.value + |part| <= |s| && part <= s[at.value..]
    decreases |s| - i
  {
    if part <= s[i..] then Some(i)
    else if i == |s| then None
    else Find(s, i + 1, part)
  }

  /** The interface whose opening brace is at `brace`. */
  function ParseBraces(s: Text, brace: nat): Result<seq<Stream>, Fault>
    requires brace < |s| && s[brace] == '{'
  {
    match Matching(s, brace, '{', '}', 0)
    case None => Failure(Rejected(brace))
    case Some(end) =>
      var streams :- Streams(s, brace + 1, end);
      if streams == [] then Failure(Rejected(brace + 1)) else Success(streams)
  }

  /** The whole reader, on text whose comments are already blanked. */
  function ParseStripped(s: Text): Result<seq<Stream>, Fault> {
    match Find(s, 0, NEEDLE)
    case None => Failure(Rejected(0))
    case Some(start) =>
      match Find(s, start, "{")
      case None => Failure(Rejected(start))
      case Some(brace) => ParseBraces(s, brace)
  }

  function Parse(source: Text): Result<seq<Stream>, Fault> {
    ParseStripped(Stripped(source, 0))
  }

  // ---- arities are a set in ascending order -----------------------------------------------------

  ghost predicate Ascending(items: seq<nat>) {
    forall i, j | 0 <= i < j < |items| :: items[i] < items[j]
  }

  lemma {:induction false} AddingKeepsDistinct(arities: seq<nat>, lo: nat, hi: nat)
    requires NoRepeats(arities)
    ensures NoRepeats(AddArities(arities, lo, hi))
    ensures forall n: nat :: n in AddArities(arities, lo, hi) <==> n in arities || lo <= n <= hi
    decreases hi + 1 - lo
  {
    if lo <= hi {
      var more := if lo in arities then arities else arities + [lo];
      assert forall n :: n in more <==> n in arities || n == lo;
      AddingKeepsDistinct(more, lo + 1, hi);
    }
  }

  lemma {:induction false} InsertedKeepsOrder(x: nat, ascending: seq<nat>)
    requires Ascending(ascending) && x !in ascending
    ensures Ascending(Inserted(x, ascending))
    ensures forall n: nat :: n in Inserted(x, ascending) <==> n == x || n in ascending
  {
    if ascending != [] && x > ascending[0] {
      var rest := Inserted(x, ascending[1..]);
      assert ascending == [ascending[0]] + ascending[1..];
      InsertedKeepsOrder(x, ascending[1..]);
      assert forall i | 0 <= i < |ascending[1..]| :: ascending[0] < ascending[1..][i];
      AscendingCons(ascending[0], rest);
    } else {
      AscendingCons(x, ascending);
    }
  }

  lemma {:induction false} AscendingCons(head: nat, tail: seq<nat>)
    requires Ascending(tail) && forall n | n in tail :: head < n
    ensures Ascending([head] + tail)
  {
    assert forall i | 0 <= i < |tail| :: tail[i] in tail;
  }

  lemma {:induction false} SortedIsAscending(items: seq<nat>)
    requires NoRepeats(items)
    ensures Ascending(Sorted(items))
    ensures forall n: nat :: n in Sorted(items) <==> n in items
  {
    if items != [] {
      assert items == [items[0]] + items[1..];
      SortedIsAscending(items[1..]);
      InsertedKeepsOrder(items[0], Sorted(items[1..]));
    }
  }

  lemma {:induction false} AlternativesStayDistinct(s: Text, parts: seq<(nat, nat)>, arities: seq<nat>, variadic: bool)
    requires Within(s, parts) && NoRepeats(arities) && Alternatives(s, parts, arities, variadic).Success?
    ensures NoRepeats(Alternatives(s, parts, arities, variadic).value.0)
    decreases |parts|
  {
    hide Tuple, AddArities, NoRepeats, Trim;
    if parts != [] {
      var (from, to) := Trim(s, parts[0].0, parts[0].1);
      if from == to {
        AlternativesStayDistinct(s, parts[1..], arities, variadic);
      } else if to - from >= 2 && s[from] == '[' && s[to - 1] == ']' {
        var slots := Tuple(s, from, to).value;
        AddingKeepsDistinct(arities, slots.1, slots.0);
        AlternativesStayDistinct(s, parts[1..], AddArities(arities, slots.1, slots.0), variadic);
      } else {
        AlternativesStayDistinct(s, parts[1..], arities, true);
      }
    }
  }

  /** Whatever is read, the reported tuple lengths are ascending and without repeats. */
  lemma {:induction false} AritiesAscend(s: Text, start: nat, end: nat)
    requires start <= end <= |s| && ParseArgs(s, start, end).Success?
    ensures Ascending(ParseArgs(s, start, end).value.arities)
    ensures ParseArgs(s, start, end).value.arities != [] || ParseArgs(s, start, end).value.variadic
  {
    var parts := Split(s, start, end, {'|'}).value;
    var found := Alternatives(s, parts, [], false).value;
    AlternativesStayDistinct(s, parts, [], false);
    SortedIsAscending(found.0);
    assert found.0 != [] ==> found.0[0] in Sorted(found.0);
  }
}
