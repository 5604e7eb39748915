/** The reader as it runs: loops over ranges, with the first fault ending the whole reading. */
module CatalogParser {
  import opened Prelude
  import opened Scanner
  import opened Splitter
  import R = CatalogReader

  method FindTopLevel(s: Text, start: nat, end: nat, seps: set<char>) returns (at: Result<Option<nat>, Fault>)
    requires start <= end <= |s|
    ensures at == R.FindTopLevel(s, start, end, seps)
  {
    var parts :- SplitTopLevel(s, start, end, seps);
    at := Success(if |parts| > 1 then Some(parts[0].1) else None);
  }

  method IsOptionalElement(s: Text, from: nat, to: nat) returns (r: Result<bool, Fault>)
    requires from <= to <= |s|
    ensures r == R.IsOptional(s, from, to)
  {
    var colon :- FindTopLevel(s, from, to, {':'});
    var _, mark := R.TrimRange(s, from, if colon.Some? then colon.value else to);
    r := Success(from < mark && s[mark - 1] == '?');
  }

  method CountSlots(s: Text, parts: seq<(nat, nat)>) returns (r: Result<(nat, nat), Fault>)
    requires Within(s, parts)
    ensures r == R.Slots(s, parts, 0, 0)
  {
    var n: nat, required: nat := 0, 0;
    for k := 0 to |parts|
      invariant required <= n
      invariant R.Slots(s, parts, 0, 0) == R.Slots(s, parts[k..], n, required)
    {
      assert parts[k..][1..] == parts[k + 1..];
      var from, to := R.TrimRange(s, parts[k].0, parts[k].1);
      if from == to {
        continue;
      }
      if "..." <= s[from..to] {
        return Failure(Rejected(from));
      }
      n := n + 1;
      var optional :- IsOptionalElement(s, from, to);
      if !optional {
        required := n;
      }
    }
    return Success((n, required));
  }

  method PushArities(arities: seq<nat>, lo: nat, hi: nat) returns (more: seq<nat>)
    requires lo <= hi
    ensures more == R.AddArities(arities, lo, hi)
  {
    more := arities;
    for arity := lo to hi + 1
      invariant R.AddArities(arities, lo, hi) == R.AddArities(more, arity, hi)
    {
      if arity !in more {
        more := more + [arity];
      }
    }
  }

  method ReadTuple(s: Text, from: nat, to: nat) returns (r: Result<(nat, nat), Fault>)
    requires from + 2 <= to <= |s| && s[from] == '['
    ensures r == R.Tuple(s, from, to)
  {
    var close :- Balanced(s, from, '[', ']');
    if close + 1 != to {
      return Failure(Rejected(from));
    }
    var elements :- SplitTopLevel(s, from + 1, to - 1, {','});
    r := CountSlots(s, elements);
  }

  method ReadAlternatives(s: Text, parts: seq<(nat, nat)>) returns (r: Result<(seq<nat>, bool), Fault>)
    requires Within(s, parts)
    ensures r == R.Alternatives(s, parts, [], false)
  {
    var arities: seq<nat>, variadic := [], false;
    for k := 0 to |parts|
      invariant R.Alternatives(s, parts, [], false) == R.Alternatives(s, parts[k..], arities, variadic)
    {
      hide R.Tuple, R.AddArities;
      assert parts[k..][1..] == parts[k + 1..];
      var from, to := R.TrimRange(s, parts[k].0, parts[k].1);
      if from == to {
        continue;
      }
      if to - from >= 2 && s[from] == '[' && s[to - 1] == ']' {
        var slots :- ReadTuple(s, from, to);
        arities := PushArities(arities, slots.1, slots.0);
      } else if to - from >= 2 && s[to - 2] == '[' && s[to - 1] == ']' {
        variadic := true;
      } else {
        return Failure(Rejected(from));
      }
    }
    return Success((arities, variadic));
  }

  method ParseArgs(s: Text, start: nat, end: nat) returns (r: Result<R.ArgsSpec, Fault>)
    requires start <= end <= |s|
    ensures r == R.ParseArgs(s, start, end)
  {
    var parts :- SplitTopLevel(s, start, end, {'|'});
    var found :- ReadAlternatives(s, parts);
    if found.0 == [] && !found.1 {
      return Failure(Rejected(start));
    }
    var source := R.Normalise(s[start..end]);
    r := Success(R.ArgsSpec(source, R.Sorted(found.0), found.1));
  }

  method ReadMember(s: Text, part: (nat, nat), hasKey: bool, hasArgs: bool) returns (r: Result<R.Member, Fault>)
    requires part.0 <= part.1 <= |s|
    ensures r == R.MemberOf(s, part, hasKey, hasArgs)
  {
    hide R.ParseArgs, R.ParseKey, R.FindTopLevel;
    var from, to := R.TrimRange(s, part.0, part.1);
    if from == to {
      return Success(R.Blank);
    }
    var found :- FindTopLevel(s, from, to, {':'});
    if found.None? {
      return Failure(Rejected(from));
    }
    var nf, nt := R.TrimRange(s, from, found.value);
    var vf, vt := R.TrimRange(s, found.value + 1, to);
    if s[nf..nt] == "key" {
      if hasKey {
        return Failure(Rejected(from));
      }
      var pattern :- R.ParseKey(s, vf, vt);
      return Success(R.KeyMember(pattern, s[vf..vt]));
    } else if s[nf..nt] == "args" {
      if hasArgs {
        return Failure(Rejected(from));
      }
      var spec :- ParseArgs(s, vf, vt);
      return Success(R.ArgsMember(spec));
    }
    return Failure(Rejected(from));
  }

  method ParseEntry(s: Text, start: nat, end: nat) returns (r: Result<R.Event, Fault>)
    requires start <= end <= |s|
    ensures r == R.ParseEntry(s, start, end)
  {
    hide R.MemberOf;
    var parts :- SplitTopLevel(s, start, end, {';', ','});
    var key: Option<(R.KeyPattern, Text)>, args: Option<R.ArgsSpec> := None, None;
    for k := 0 to |parts|
      invariant R.ParseEntry(s, start, end) == R.Members(s, start, parts[k..], key, args)
    {
      assert parts[k..][1..] == parts[k + 1..];
      var member :- ReadMember(s, parts[k], key.Some?, args.Some?);
      match member {
        case KeyMember(pattern, source) => key := Some((pattern, source));
        case ArgsMember(spec) => args := Some(spec);
        case Blank =>
      }
    }
    if key.None? || args.None? {
      return Failure(Rejected(start));
    }
    return Success(R.Event(key.value.0, key.value.1, args.value));
  }

  method ReadEntry(s: Text, part: (nat, nat)) returns (r: Result<Option<R.Event>, Fault>)
    requires part.0 <= part.1 <= |s|
    ensures r == R.EntryOf(s, part)
  {
    hide R.ParseEntry;
    var from, to := R.TrimRange(s, part.0, part.1);
    if from == to {
      return Success(None);
    }
    if to - from < 2 || s[from] != '{' || s[to - 1] != '}' {
      return Failure(Rejected(from));
    }
    var event :- ParseEntry(s, from + 1, to - 1);
    return Success(Some(event));
  }

  method ParseEntries(s: Text, start: nat, end: nat) returns (r: Result<seq<R.Event>, Fault>)
    requires start <= end <= |s|
    ensures r == R.ParseEntries(s, start, end)
  {
    hide R.EntryOf;
    var parts :- SplitTopLevel(s, start, end, {','});
    var events: seq<R.Event> := [];
    PrefixedByNothing(R.Entries(s, parts));
    for k := 0 to |parts|
      invariant R.Entries(s, parts) == Prefixed(events, R.Entries(s, parts[k..]))
    {
      assert parts[k..][1..] == parts[k + 1..];
      var event :- ReadEntry(s, parts[k]);
      var more := if event.Some? then [event.value] else [];
      PrefixedTwice(events, more, R.Entries(s, parts[k + 1..]));
      hide Prefixed;
      events := events + more;
    }
    assert events + [] == events;
    if events == [] {
      return Failure(Rejected(start));
    }
    return Success(events);
  }

  lemma PrefixedTwice<T>(front: seq<T>, next: seq<T>, rest: Result<seq<T>, Fault>)
    ensures Prefixed(front, Prefixed(next, rest)) == Prefixed(front + next, rest)
  {
    if rest.Success? {
      assert front + (next + rest.value) == front + next + rest.value;
    }
  }

  method ReadName(s: Text, start: nat, end: nat) returns (r: Result<(Text, nat), Fault>)
    requires start < end <= |s|
    ensures r == R.PropertyName(s, start, end)
  {
    if IsQuote(s[start]) {
      if s[start] == '`' {
        return Failure(Rejected(start));
      }
      var after := SkipString(s, start);
      if after < start + 2 {
        return Failure(OutOfOrder);
      }
      if '\\' in s[start + 1..after - 1] {
        return Failure(Rejected(start));
      }
      return Success((s[start + 1..after - 1], after));
    }
    var i := start;
    while i < end && R.IsIdentifier(s[i])
      invariant start <= i <= end
      invariant R.IdentifierEnd(s, start, end) == R.IdentifierEnd(s, i, end)
    {
      i := i + 1;
    }
    if i == start {
      return Failure(Rejected(start));
    }
    return Success((s[start..i], i));
  }

  method ReadHead(s: Text, pos: nat, end: nat) returns (r: Result<(Text, nat), Fault>)
    requires pos < end <= |s|
    ensures r == R.StreamHead(s, pos, end)
  {
    var name :- ReadName(s, pos, end);
    var at := R.SkipWhitespace(s, name.1);
    if at > end {
      return Failure(OutOfOrder);
    }
    if at == end || s[at] != ':' {
      return Failure(Rejected(at));
    }
    at := R.SkipWhitespace(s, at + 1);
    if at > end {
      return Failure(OutOfOrder);
    }
    if at == end || s[at] != '[' {
      return Failure(Rejected(at));
    }
    return Success((name.0, at));
  }

  method ReadStream(s: Text, from: nat, end: nat) returns (r: Result<Option<(R.Stream, nat)>, Fault>)
    requires from <= |s| && end <= |s|
    ensures r == R.NextStream(s, from, end)
  {
    hide R.ParseEntries, R.StreamHead, R.SkipSpace, R.SkipSemicolons;
    var pos := R.SkipWhitespace(s, from);
    if pos > end {
      return Failure(OutOfOrder);
    }
    pos := SkipSemis(s, pos, end);
    if pos > end {
      return Failure(OutOfOrder);
    }
    if pos == end {
      return Success(None);
    }
    var head :- ReadHead(s, pos, end);
    var close :- Balanced(s, head.1, '[', ']');
    R.ClosesLater(s, head.1);
    var events :- ParseEntries(s, head.1 + 1, close);
    return Success(Some((R.Stream(head.0, events), close + 1)));
  }

  method ReadStreams(s: Text, bodyStart: nat, end: nat) returns (r: Result<seq<R.Stream>, Fault>)
    requires bodyStart <= |s| && end <= |s|
    ensures r == R.Streams(s, bodyStart, end)
  {
    hide R.NextStream;
    var streams: seq<R.Stream> := [];
    var pos := bodyStart;
    PrefixedByNothing(R.Streams(s, bodyStart, end));
    while true
      invariant bodyStart <= pos <= |s|
      invariant R.Streams(s, bodyStart, end) == Prefixed(streams, R.Streams(s, pos, end))
      decreases |s| - pos
    {
      var next :- ReadStream(s, pos, end);
      if next.None? {
        assert streams + [] == streams;
        return Success(streams);
      }
      var (stream, after) := next.value;
      PrefixedTwice(streams, [stream], R.Streams(s, after, end));
      streams := streams + [stream];
      pos := after;
    }
  }

  method SkipSemis(s: Text, pos: nat, end: nat) returns (at: nat)
    requires pos <= |s| && end <= |s|
    ensures at == R.SkipSemicolons(s, pos, end)
  {
    at := pos;
    while at < end && s[at] == ';'
      invariant pos <= at <= |s|
      invariant R.SkipSemicolons(s, pos, end) == R.SkipSemicolons(s, at, end)
      decreases |s| - at
    {
      at := R.SkipWhitespace(s, at + 1);
    }
  }

  method FindText(s: Text, from: nat, part: Text) returns (at: Option<nat>)
    requires from <= |s|
    ensures at == R.Find(s, from, part)
  {
    for i := from to |s| + 1
      invariant R.Find(s, from, part) == if i <= |s| then R.Find(s, i, part) else None
    {
      if part <= s[i..] {
        return Some(i);
      }
    }
    return None;
  }

  method Parse(source: Text) returns (r: Result<seq<R.Stream>, Fault>)
    ensures r == R.Parse(source)
  {
    hide Stripped, R.Streams, R.Find, Matching;
    var s := StripComments(source);
    var found := FindText(s, 0, R.NEEDLE);
    if found.None? {
      return Failure(Rejected(0));
    }
    var brace := FindText(s, found.value, "{");
    if brace.None? {
      return Failure(Rejected(found.value));
    }
    var end :- Balanced(s, brace.value, '{', '}');
    var streams :- ReadStreams(s, brace.value + 1, end);
    if streams == [] {
      return Failure(Rejected(brace.value + 1));
    }
    return Success(streams);
  }
}
