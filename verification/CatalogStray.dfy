/** Malformed interfaces that the reader does not reject. */
module CatalogStray {
  import opened Prelude
  import opened Scanner
  import opened Splitter
  import opened Pieces
  import opened CatalogLayout
  import R = CatalogReader
  import O = CatalogOrder
  import P = CatalogPrinter

  const KEY: Text := "key:string"
  const ARGS: Text := "args:"
  const FRONT: Text := "{a:[{" + KEY + ";" + ARGS

  /** One stream with one entry, whose args type is `tail`. */
  function Source(tail: Text): Text {
    R.NEEDLE + (FRONT + tail + "}]}")
  }

  /** A parenthesis that only the entry's brace closes, for a splitter. */
  const STRAY: Text := "(}[]"

  /** A generic list that nothing closes. */
  const UNCLOSED: Text := "[A<B,C]"

  /** Brackets of two kinds that cross. */
  const MIXED: Text := "[({A)}]"

  predicate IsTail(tail: Text) {
    tail == STRAY || tail == UNCLOSED || tail == MIXED
  }

  /** The interface's braces from `b` on, with the tail up to `e`. */
  predicate Standing(s: Text, b: nat, tail: Text, e: nat) {
    IsTail(tail) && e == b + 21 + |tail| && At(s, b, FRONT) && At(s, b + 21, tail) && At(s, e, "}]}") && |s| == e + 3
  }

  lemma SourceStands(tail: Text, b: nat, e: nat)
    requires IsTail(tail) && b == |R.NEEDLE| && e == b + 21 + |tail|
    ensures Standing(Source(tail), b, tail, e) && At(Source(tail), 0, R.NEEDLE)
  {
    var s := Source(tail);
    assert |FRONT| == 21 && |s| == e + 3;
    assert s[0..0 + |s|] == s;
    hide FRONT, IsTail, R.NEEDLE;
    AtConcat(s, 0, R.NEEDLE, FRONT + tail + "}]}");
    AtConcat(s, b, FRONT + tail, "}]}");
    AtConcat(s, b, FRONT, tail);
  }

  lemma FrontStands(s: Text, b: nat)
    requires At(s, b, FRONT)
    ensures |s| >= b + 21 && s[b] == '{' && s[b + 1] == 'a' && s[b + 2] == ':' && s[b + 3] == '[' && s[b + 4] == '{'
    ensures At(s, b + 5, KEY) && s[b + 15] == ';' && At(s, b + 16, ARGS)
  {
    AtConcat(s, b, "{a:[{" + KEY + ";", ARGS);
    AtConcat(s, b, "{a:[{" + KEY, ";");
    AtConcat(s, b, "{a:[{", KEY);
    AtIndex(s, b, "{a:[{", 0);
    AtIndex(s, b, "{a:[{", 1);
    AtIndex(s, b, "{a:[{", 2);
    AtIndex(s, b, "{a:[{", 3);
    AtIndex(s, b, "{a:[{", 4);
    AtIndex(s, b + 15, ";", 0);
  }

  lemma EndStands(s: Text, e: nat)
    requires At(s, e, "}]}")
    ensures e + 3 <= |s| && s[e] == '}' && s[e + 1] == ']' && s[e + 2] == '}'
  {
    AtIndex(s, e, "}]}", 0);
    AtIndex(s, e, "}]}", 1);
    AtIndex(s, e, "}]}", 2);
  }

  // ---- splitting around and over the tail --------------------------------------------------------

  function Through(n: Nesting, t: Text): Nesting
    decreases |t|
  {
    if t == [] then n else Through(Past(n, t[0]), t[1..])
  }

  /** Code that a splitter passes without cutting or failing. */
  predicate Passable(n: Nesting, t: Text, seps: set<char>)
    decreases |t|
  {
    t != [] ==>
      && !IsQuote(t[0]) && Past(n, t[0]).depth >= 0 && !Separates(n, t[0], seps)
      && Passable(Past(n, t[0]), t[1..], seps)
  }

  lemma {:induction false} TextPasses(
      s: Text, start: nat, from: nat, p: nat, end: nat, n: Nesting, seps: set<char>, t: Text)
    requires start <= p && from <= p && p + |t| <= end <= |s| && At(s, p, t) && n.depth >= 0 && Passable(n, t, seps)
    ensures SplitFrom(s, start, from, p, end, n, seps) == SplitFrom(s, start, from, p + |t|, end, Through(n, t), seps)
    decreases |t|
  {
    hide SplitFrom, StringEnd, Past, Separates;
    if t != [] {
      AtIndex(s, p, t, 0);
      assert t == [t[0]] + t[1..];
      AtConcat(s, p, [t[0]], t[1..]);
      SplitMoves(s, start, from, p, end, n, seps);
      TextPasses(s, start, from, p + 1, end, Past(n, t[0]), seps, t[1..]);
    }
  }

  /** Passing `t` is passing its first byte and then the rest, at the nesting `to`. */
  predicate Passes(n: Nesting, t: Text, seps: set<char>, to: Nesting) {
    Passable(n, t, seps) && Through(n, t) == to
  }

  lemma PassesNext(n: Nesting, c: char, rest: Text, seps: set<char>, mid: Nesting, to: Nesting)
    requires mid == Past(n, c) && mid.depth >= 0 && !IsQuote(c) && seps <= SEPARATORS
    requires n.depth > 0 || n.angle > 0 || c !in seps
    requires Passes(mid, rest, seps, to)
    ensures Passes(n, [c] + rest, seps, to)
  {
    assert ([c] + rest)[1..] == rest;
  }

  lemma PassesTogether(n: Nesting, front: Text, back: Text, seps: set<char>, mid: Nesting, to: Nesting)
    requires Passes(n, front, seps, mid) && Passes(mid, back, seps, to)
    ensures Passes(n, front + back, seps, to)
    decreases |front|
  {
    if front == [] {
      assert front + back == back;
    } else {
      assert (front + back)[1..] == front[1..] + back;
      hide Past, Separates;
      PassesTogether(Past(n, front[0]), front[1..], back, seps, mid, to);
    }
  }

  lemma StrayPasses(n: Nesting, seps: set<char>)
    requires n.depth >= 0 && n.angle == 0 && seps <= SEPARATORS
    ensures Passes(n, STRAY, seps, Nesting(n.depth, 0, ']'))
  {
    var to := Nesting(n.depth, 0, ']');
    PassesNext(Nesting(n.depth + 1, 0, '['), ']', [], seps, to, to);
    PassesNext(Nesting(n.depth, 0, '}'), '[', "]", seps, Nesting(n.depth + 1, 0, '['), to);
    PassesNext(Nesting(n.depth + 1, 0, '('), '}', "[]", seps, Nesting(n.depth, 0, '}'), to);
    PassesNext(n, '(', "}[]", seps, Nesting(n.depth + 1, 0, '('), to);
  }

  /** The comma of an open generic list is no separator, so nothing in `A<B,C` is. */
  lemma OpenListPasses(n: Nesting, seps: set<char>)
    requires n.depth >= 0 && n.angle == 0 && seps <= SEPARATORS
    ensures Passes(n, "A<B,C", seps, Nesting(n.depth, 1, 'C'))
  {
    var to := Nesting(n.depth, 1, 'C');
    PassesNext(Nesting(n.depth, 1, ','), 'C', [], seps, to, to);
    PassesNext(Nesting(n.depth, 1, 'B'), ',', "C", seps, Nesting(n.depth, 1, ','), to);
    PassesNext(Nesting(n.depth, 1, '<'), 'B', ",C", seps, Nesting(n.depth, 1, 'B'), to);
    PassesNext(Nesting(n.depth, 0, 'A'), '<', "B,C", seps, Nesting(n.depth, 1, '<'), to);
    PassesNext(n, 'A', "<B,C", seps, Nesting(n.depth, 0, 'A'), to);
  }

  lemma CrossingPasses(n: Nesting, seps: set<char>)
    requires n.depth >= 0 && n.angle == 0 && seps <= SEPARATORS
    ensures Passes(n, "({A)}", seps, Nesting(n.depth, 0, '}'))
  {
    var to := Nesting(n.depth, 0, '}');
    PassesNext(Nesting(n.depth + 1, 0, ')'), '}', [], seps, to, to);
    PassesNext(Nesting(n.depth + 2, 0, 'A'), ')', "}", seps, Nesting(n.depth + 1, 0, ')'), to);
    PassesNext(Nesting(n.depth + 2, 0, '{'), 'A', ")}", seps, Nesting(n.depth + 2, 0, 'A'), to);
    PassesNext(Nesting(n.depth + 1, 0, '('), '{', "A)}", seps, Nesting(n.depth + 2, 0, '{'), to);
    PassesNext(n, '(', "{A)}", seps, Nesting(n.depth + 1, 0, '('), to);
  }

  /** A tuple with one passable text in it. */
  lemma TuplePasses(n: Nesting, inner: Text, seps: set<char>, within: Nesting)
    requires n.depth >= 0 && seps <= SEPARATORS && within.depth == n.depth + 1
    requires Passes(Nesting(n.depth + 1, n.angle, '['), inner, seps, within)
    ensures Passes(n, "[" + inner + "]", seps, Nesting(n.depth, within.angle, ']'))
  {
    var to := Nesting(n.depth, within.angle, ']');
    PassesNext(within, ']', [], seps, to, to);
    PassesTogether(Nesting(n.depth + 1, n.angle, '['), inner, "]", seps, within, to);
    PassesNext(n, '[', inner + "]", seps, Nesting(n.depth + 1, n.angle, '['), to);
    assert ['['] + (inner + "]") == "[" + inner + "]";
  }

  /** A splitter passes the tail and is as deep in brackets as before. */
  lemma TailPasses(tail: Text, n: Nesting, seps: set<char>) returns (to: Nesting)
    requires IsTail(tail) && n.depth >= 0 && n.angle == 0 && seps <= SEPARATORS
    ensures Passes(n, tail, seps, to) && to.depth == n.depth && to.angle >= 0
  {
    var within := Nesting(n.depth + 1, 0, '[');
    if tail == STRAY {
      to := Nesting(n.depth, 0, ']');
      StrayPasses(n, seps);
    } else if tail == UNCLOSED {
      to := Nesting(n.depth, 1, ']');
      assert UNCLOSED == "[" + "A<B,C" + "]";
      OpenListPasses(within, seps);
      TuplePasses(n, "A<B,C", seps, Nesting(n.depth + 1, 1, 'C'));
    } else {
      to := Nesting(n.depth, 0, ']');
      assert MIXED == "[" + "({A)}" + "]";
      CrossingPasses(within, seps);
      TuplePasses(n, "({A)}", seps, Nesting(n.depth + 1, 0, '}'));
    }
  }

  lemma WordsPass(n: Nesting, t: Text, seps: set<char>) returns (to: Nesting)
    requires n.depth >= 0 && seps <= SEPARATORS
    requires forall k | 0 <= k < |t| :: Inert(t[k]) && (n.depth > 0 || n.angle > 0 || t[k] !in seps)
    ensures Passes(n, t, seps, to) && to.depth == n.depth && to.angle == n.angle
    decreases |t|
  {
    if t == [] {
      to := n;
    } else {
      var mid := Past(n, t[0]);
      to := WordsPass(mid, t[1..], seps);
      PassesNext(n, t[0], t[1..], seps, mid, to);
      assert [t[0]] + t[1..] == t;
    }
  }

  lemma OnePart(s: Text, from: nat, to: nat, t: Text, seps: set<char>, n: Nesting)
    requires At(s, from, t) && to == from + |t| && Passes(OUTSIDE, t, seps, n) && n.depth == 0
    ensures to <= |s| && Split(s, from, to, seps) == Success([(from, to)])
  {
    hide SplitFrom, Passable;
    TextPasses(s, from, from, from, to, OUTSIDE, seps, t);
    Ends(s, from, from, to, n, seps);
  }

  lemma Ends(s: Text, start: nat, from: nat, end: nat, n: Nesting, seps: set<char>)
    requires start <= end <= |s| && from <= end && n.depth == 0
    ensures SplitFrom(s, start, from, end, end, n, seps) == Success([(from, end)])
  {
  }

  lemma TwoParts(s: Text, from: nat, mid: nat, to: nat, a: Text, b: Text, seps: set<char>, n: Nesting, m: Nesting)
    requires At(s, from, a) && mid == from + |a| < |s| && s[mid] in seps && At(s, mid + 1, b) && to == mid + 1 + |b|
    requires seps <= SEPARATORS && Passes(OUTSIDE, a, seps, n) && AtTop(n)
    requires Passes(Past(n, s[mid]), b, seps, m) && m.depth == 0
    ensures to <= |s| && Split(s, from, to, seps) == Success([(from, mid), (mid + 1, to)])
  {
    assert to <= |s| && Past(n, s[mid]).depth == 0;
    hide SplitFrom, Passable, At;
    TextPasses(s, from, from, from, to, OUTSIDE, seps, a);
    Cuts(s, from, mid, to, n, seps);
    TextPasses(s, from, mid + 1, mid + 1, to, Past(n, s[mid]), seps, b);
    Ends(s, from, mid + 1, to, m, seps);
    assert [(from, mid)] + [(mid + 1, to)] == [(from, mid), (mid + 1, to)];
  }

  lemma Cuts(s: Text, start: nat, p: nat, end: nat, n: Nesting, seps: set<char>)
    requires start <= p < end <= |s| && AtTop(n) && s[p] in seps && seps <= SEPARATORS
    ensures SplitFrom(s, start, start, p, end, n, seps) ==
            Prefixed([(start, p)], SplitFrom(s, start, p + 1, p + 1, end, Past(n, s[p]), seps))
  {
  }

  lemma AtTogether(s: Text, p: nat, front: Text, back: Text)
    requires At(s, p, front) && At(s, p + |front|, back)
    ensures At(s, p, front + back)
  {
    var to := p + |front| + |back|;
    assert s[p..to] == s[p..p + |front|] + s[p + |front|..to];
  }

  // ---- reading the entry ---------------------------------------------------------------------------

  lemma Words(seps: set<char>)
    requires seps <= {',', ';', '|'}
    ensures forall k | 0 <= k < |KEY| :: Inert(KEY[k]) && KEY[k] !in seps
    ensures forall k | 0 <= k < |ARGS| :: Inert(ARGS[k]) && ARGS[k] !in seps
  {
  }

  lemma KeyPass(n: Nesting, seps: set<char>) returns (to: Nesting)
    requires n.depth >= 0 && n.angle == 0 && seps <= {',', ';', '|'}
    ensures Passes(n, KEY, seps, to) && to.depth == n.depth && to.angle == n.angle
  {
    Words(seps);
    to := WordsPass(n, KEY, seps);
  }

  /** A splitter passes `args:` and the tail. */
  lemma ArgsPass(tail: Text, n: Nesting, seps: set<char>) returns (to: Nesting)
    requires IsTail(tail) && n.depth >= 0 && n.angle == 0 && seps <= {',', ';', '|'}
    ensures Passes(n, ARGS + tail, seps, to) && to.depth == n.depth && to.angle >= 0
  {
    Words(seps);
    var mid := WordsPass(n, ARGS, seps);
    to := TailPasses(tail, mid, seps);
    hide Passable, Through, ARGS;
    PassesTogether(n, ARGS, tail, seps, mid, to);
  }

  lemma TwoMembers(s: Text, b: nat, tail: Text, e: nat)
    requires Standing(s, b, tail, e)
    ensures Split(s, b + 5, e, {';', ','}) == Success([(b + 5, b + 15), (b + 16, e)])
  {
    var seps, args := {';', ','}, ARGS + tail;
    assert IsTail(tail);
    hide At, Passes, FRONT, SplitFrom, KEY, ARGS, IsTail, Standing;
    var n := KeyPass(OUTSIDE, seps);
    var to := ArgsPass(tail, Past(n, ';'), seps);
    MembersStand(s, b, tail, e, args);
    TwoParts(s, b + 5, b + 15, e, KEY, args, seps, n, to);
  }

  lemma MembersStand(s: Text, b: nat, tail: Text, e: nat, args: Text)
    requires Standing(s, b, tail, e) && args == ARGS + tail
    ensures At(s, b + 5, KEY) && s[b + 15] == ';' && At(s, b + 16, args) && e == b + 16 + |args| < |s|
  {
    FrontStands(s, b);
    EndStands(s, e);
    hide FRONT, IsTail, At;
    AtTogether(s, b + 16, ARGS, tail);
  }

  lemma PassesNothing(n: Nesting, seps: set<char>)
    ensures Passes(n, [], seps, n)
  {
  }

  /** A splitter for `,` passes the whole entry. */
  lemma EntryPasses(tail: Text, args: Text, body: Text) returns (to: Nesting)
    requires IsTail(tail) && args == ARGS + tail && body == KEY + ([';'] + (args + "}"))
    ensures Passes(OUTSIDE, ['{'] + body, {','}, to) && to.depth == 0
  {
    var seps, within := {','}, Past(OUTSIDE, '{');
    hide Passes, KEY, ARGS, IsTail;
    var n := KeyPass(within, seps);
    var mid := ArgsPass(tail, Past(n, ';'), seps);
    to := Past(mid, '}');
    PassesNothing(to, seps);
    assert ['}'] + [] == "}";
    PassesNext(mid, '}', [], seps, to, to);
    PassesTogether(Past(n, ';'), args, "}", seps, mid, to);
    PassesNext(n, ';', args + "}", seps, Past(n, ';'), to);
    PassesTogether(within, KEY, [';'] + (args + "}"), seps, n, to);
    PassesNext(OUTSIDE, '{', body, seps, within, to);
  }

  lemma EntryStands(s: Text, b: nat, tail: Text, e: nat, args: Text, body: Text)
    requires Standing(s, b, tail, e) && args == ARGS + tail && body == KEY + ([';'] + (args + "}"))
    ensures At(s, b + 4, ['{'] + body) && e + 1 == b + 4 + |['{'] + body|
  {
    MembersStand(s, b, tail, e, args);
    FrontStands(s, b);
    EndStands(s, e);
    assert At(s, b + 4, ['{']) && At(s, b + 15, [';']) && At(s, e, "}");
    hide FRONT, Standing, At;
    AtTogether(s, b + 16, args, "}");
    AtTogether(s, b + 15, [';'], args + "}");
    AtTogether(s, b + 5, KEY, [';'] + (args + "}"));
    AtTogether(s, b + 4, ['{'], body);
  }

  lemma OneEntry(s: Text, b: nat, tail: Text, e: nat)
    requires Standing(s, b, tail, e)
    ensures Split(s, b + 4, e + 1, {','}) == Success([(b + 4, e + 1)])
  {
    var args := ARGS + tail;
    var body := KEY + ([';'] + (args + "}"));
    var to := EntryPasses(tail, args, body);
    hide *;
    EntryStands(s, b, tail, e, args, body);
    OnePart(s, b + 4, e + 1, ['{'] + body, {','}, to);
  }

  lemma KeyText() returns (m: P.Member)
    ensures m == P.KeyMember("", "", P.Key(R.Any, None)) && P.PlainMember(m)
    ensures TextOfAll(FieldPieces(P.MemberField(m))) == KEY
  {
    m := P.KeyMember("", "", P.Key(R.Any, None));
    CharsRead("string");
    CharsRead("key");
    hide TextOfAll, Chars;
    FieldText(P.MemberField(m), "key", "string");
    assert "key" + [':'] + "string" == KEY;
  }

  lemma KeyReads(s: Text, b: nat)
    requires At(s, b + 5, KEY)
    ensures R.MemberOf(s, (b + 5, b + 15), false, false) == Success(R.KeyMember(R.Any, "string"))
  {
    var m := KeyText();
    CharsRead("string");
    assert P.MemberRead(m) == R.KeyMember(R.Any, "string");
    assert b + 15 <= |s|;
    AtIndex(s, b + 5, KEY, 0);
    AtIndex(s, b + 5, KEY, 9);
    TrimsTo(s, b + 5, b + 5, b + 15, b + 15);
    hide At, R.MemberOf, R.Trim, FieldPieces, TextOfAll, P.PlainMember, P.MemberField, P.MemberRead;
    P.MemberReads(s, (b + 5, b + 15), b + 5, b + 15, m, false, false);
  }

  lemma ArgsMemberReads(s: Text, b: nat, tail: Text, e: nat, spec: R.ArgsSpec)
    requires Standing(s, b, tail, e) && R.ParseArgs(s, b + 21, e) == Success(spec)
    ensures R.MemberOf(s, (b + 16, e), true, false) == Success(R.ArgsMember(spec))
  {
    ColonFound(s, b, tail, e);
    FrontStands(s, b);
    AtIndex(s, b + 16, ARGS, 0);
    AtIndex(s, b + 16, ARGS, 3);
    TailEnds(s, b, tail, e);
    assert s[b + 16..b + 20] == s[b + 16..b + 21][..4] == "args";
    hide At, R.ParseArgs, R.Trim, R.FindTopLevel, FRONT, IsTail;
    TrimsTo(s, b + 16, b + 16, e, e);
    TrimsTo(s, b + 16, b + 16, b + 20, b + 20);
    TrimsTo(s, b + 21, b + 21, e, e);
    P.ArgsMemberBy(s, (b + 16, e), b + 16, e, true, b + 20, b + 20, b + 21, spec);
  }

  lemma TailEnds(s: Text, b: nat, tail: Text, e: nat)
    requires Standing(s, b, tail, e)
    ensures b + 21 < e <= |s| && !IsSpace(s[b + 21]) && !IsSpace(s[e - 1])
  {
    AtIndex(s, b + 21, tail, 0);
    AtIndex(s, b + 21, tail, |tail| - 1);
  }

  lemma ColonFound(s: Text, b: nat, tail: Text, e: nat)
    requires Standing(s, b, tail, e)
    ensures b + 20 < e <= |s| && R.FindTopLevel(s, b + 16, e, {':'}) == Success(Some(b + 20))
  {
    FrontStands(s, b);
    assert ARGS == "args" + ":";
    AtConcat(s, b + 16, "args", ":");
    AtIndex(s, b + 20, ":", 0);
    assert forall k | 0 <= k < 4 :: Inert("args"[k]) && "args"[k] != ':';
    var n := WordsPass(OUTSIDE, "args", {':'});
    var to := TailPasses(tail, Past(n, ':'), {':'});
    hide At, Passable, Through, FRONT, SplitFrom;
    TwoParts(s, b + 16, b + 20, e, "args", tail, {':'}, n, to);
  }

  lemma EntryReads(s: Text, b: nat, tail: Text, e: nat, spec: R.ArgsSpec)
    requires Standing(s, b, tail, e) && R.ParseArgs(s, b + 21, e) == Success(spec)
    ensures R.ParseEntries(s, b + 4, e + 1) == Success([R.Event(R.Any, "string", spec)])
  {
    var event := R.Event(R.Any, "string", spec);
    FrontStands(s, b);
    EndStands(s, e);
    TrimsTo(s, b + 4, b + 4, e + 1, e + 1);
    hide At, R.ParseArgs, R.Trim, Split, SplitFrom, FRONT, R.MemberOf, R.Members, R.EntryOf, R.Entries, R.ParseEntries;
    hide Standing;
    KeyReads(s, b);
    ArgsMemberReads(s, b, tail, e, spec);
    TwoMembers(s, b, tail, e);
    OneEntry(s, b, tail, e);
    MembersAre(s, b + 5, [(b + 5, b + 15), (b + 16, e)], spec);
    P.EntryBy(s, (b + 4, e + 1), b + 4, e + 1, [(b + 5, b + 15), (b + 16, e)], event);
    EntriesAre(s, [(b + 4, e + 1)], event);
    P.EntryListBy(s, b + 4, e + 1, [(b + 4, e + 1)], [event]);
  }

  lemma MembersAre(s: Text, start: nat, parts: seq<(nat, nat)>, spec: R.ArgsSpec)
    requires |parts| == 2 && Within(s, parts)
    requires R.MemberOf(s, parts[0], false, false) == Success(R.KeyMember(R.Any, "string"))
    requires R.MemberOf(s, parts[1], true, false) == Success(R.ArgsMember(spec))
    ensures R.Members(s, start, parts, None, None) == Success(R.Event(R.Any, "string", spec))
  {
    var last := parts[1..];
    assert last[0] == parts[1] && last[1..] == [];
    assert R.Members(s, start, [], Some((R.Any, "string")), Some(spec)) == Success(R.Event(R.Any, "string", spec));
    hide R.MemberOf, R.Members;
    P.MembersStep(s, start, parts, None, None, R.KeyMember(R.Any, "string"));
    P.MembersStep(s, start, last, Some((R.Any, "string")), None, R.ArgsMember(spec));
  }

  lemma EntriesAre(s: Text, parts: seq<(nat, nat)>, event: R.Event)
    requires |parts| == 1 && Within(s, parts) && R.EntryOf(s, parts[0]) == Success(Some(event))
    ensures R.Entries(s, parts) == Success([event])
  {
    hide R.EntryOf;
    assert R.Entries(s, parts[1..]) == Success([]) && [event] + [] == [event];
    P.EntriesBy(s, parts, event, []);
  }

  // ---- matching delimiters around and over the tail -------------------------------------------------

  lemma Matched(s: Text, b: nat, tail: Text, e: nat)
    requires Standing(s, b, tail, e)
    ensures Matching(s, b + 3, '[', ']', 0) == Some(e + 1)
    ensures Matching(s, b, '{', '}', 0) == if tail == STRAY then Some(e) else Some(e + 2)
  {
    FrontStands(s, b);
    EndStands(s, e);
    FrontIsPlain(s, b);
    assert IsTail(tail) && At(s, b + 21, tail) && e == b + 21 + |tail|;
    hide At, StringEnd, FRONT, IsTail, Standing, Matching;
    MatchingOpens(s, b + 3, '[', ']');
    MatchingRun(s, b + 4, b + 21, '[', ']', 1);
    TailMatches(s, b + 21, tail, e);
    MatchingRun(s, e, e + 1, '[', ']', 1);
    MatchingCloses(s, e + 1, '[', ']');
    MatchingOpens(s, b, '{', '}');
    MatchingRun(s, b + 1, b + 4, '{', '}', 1);
    MatchingMoves(s, b + 4, '{', '}', 1);
    MatchingRun(s, b + 5, b + 21, '{', '}', 2);
    if tail == STRAY {
      MatchingCloses(s, e, '{', '}');
    } else {
      MatchingMoves(s, e, '{', '}', 2);
      MatchingRun(s, e + 1, e + 2, '{', '}', 1);
      MatchingCloses(s, e + 2, '{', '}');
    }
  }

  lemma FrontIsPlain(s: Text, b: nat)
    requires At(s, b, FRONT)
    ensures b + 21 <= |s|
    ensures forall k | b + 4 < k < b + 21 :: !IsQuote(s[k]) && !Opens(s[k]) && !Closes(s[k])
  {
    FrontStands(s, b);
    Words({});
    forall k | b + 4 < k < b + 21 ensures !IsQuote(s[k]) && !Opens(s[k]) && !Closes(s[k]) {
      if k < b + 15 {
        AtIndex(s, b + 5, KEY, k - b - 5);
      } else if k > b + 15 {
        AtIndex(s, b + 16, ARGS, k - b - 16);
      }
    }
  }

  lemma TailMatches(s: Text, p: nat, tail: Text, e: nat)
    requires IsTail(tail) && At(s, p, tail) && e == p + |tail| <= |s|
    ensures Matching(s, p, '[', ']', 1) == Matching(s, e, '[', ']', 1)
    ensures Matching(s, p, '{', '}', 2) == Matching(s, e, '{', '}', if tail == STRAY then 1 else 2)
  {
    forall k | 0 <= k < |tail| ensures s[p + k] == tail[k] {
      AtIndex(s, p, tail, k);
    }
    if tail == STRAY {
      StrayMatches(s, p);
    } else if tail == UNCLOSED {
      UnclosedMatches(s, p);
    } else {
      CrossingMatches(s, p);
    }
  }

  lemma StrayMatches(s: Text, p: nat)
    requires p + 4 <= |s| && s[p] == '(' && s[p + 1] == '}' && s[p + 2] == '[' && s[p + 3] == ']'
    ensures Matching(s, p, '[', ']', 1) == Matching(s, p + 4, '[', ']', 1)
    ensures Matching(s, p, '{', '}', 2) == Matching(s, p + 4, '{', '}', 1)
  {
    hide Matching, StringEnd;
    MatchingRun(s, p, p + 2, '[', ']', 1);
    MatchingMoves(s, p + 2, '[', ']', 1);
    MatchingMoves(s, p + 3, '[', ']', 2);
    MatchingRun(s, p, p + 1, '{', '}', 2);
    MatchingMoves(s, p + 1, '{', '}', 2);
    MatchingRun(s, p + 2, p + 4, '{', '}', 1);
  }

  lemma UnclosedMatches(s: Text, p: nat)
    requires p + 7 <= |s| && s[p] == '[' && s[p + 6] == ']'
    requires s[p + 1] == 'A' && s[p + 2] == '<' && s[p + 3] == 'B' && s[p + 4] == ',' && s[p + 5] == 'C'
    ensures Matching(s, p, '[', ']', 1) == Matching(s, p + 7, '[', ']', 1)
    ensures Matching(s, p, '[', ']', 0) == Some(p + 6)
    ensures Matching(s, p, '{', '}', 2) == Matching(s, p + 7, '{', '}', 2)
  {
    hide Matching, StringEnd;
    MatchingMoves(s, p, '[', ']', 1);
    MatchingRun(s, p + 1, p + 6, '[', ']', 2);
    MatchingMoves(s, p + 6, '[', ']', 2);
    MatchingOpens(s, p, '[', ']');
    MatchingRun(s, p + 1, p + 6, '[', ']', 1);
    MatchingCloses(s, p + 6, '[', ']');
    MatchingRun(s, p, p + 7, '{', '}', 2);
  }

  lemma CrossingMatches(s: Text, p: nat)
    requires p + 7 <= |s| && s[p] == '[' && s[p + 6] == ']'
    requires s[p + 1] == '(' && s[p + 2] == '{' && s[p + 3] == 'A' && s[p + 4] == ')' && s[p + 5] == '}'
    ensures Matching(s, p, '[', ']', 1) == Matching(s, p + 7, '[', ']', 1)
    ensures Matching(s, p, '[', ']', 0) == Some(p + 6)
    ensures Matching(s, p, '{', '}', 2) == Matching(s, p + 7, '{', '}', 2)
  {
    hide Matching, StringEnd;
    MatchingMoves(s, p, '[', ']', 1);
    MatchingRun(s, p + 1, p + 6, '[', ']', 2);
    MatchingMoves(s, p + 6, '[', ']', 2);
    MatchingOpens(s, p, '[', ']');
    MatchingRun(s, p + 1, p + 6, '[', ']', 1);
    MatchingCloses(s, p + 6, '[', ']');
    MatchingRun(s, p, p + 2, '{', '}', 2);
    MatchingMoves(s, p + 2, '{', '}', 2);
    MatchingRun(s, p + 3, p + 5, '{', '}', 3);
    MatchingMoves(s, p + 5, '{', '}', 3);
    MatchingRun(s, p + 6, p + 7, '{', '}', 2);
  }

  // ---- reading the args ----------------------------------------------------------------------------

  lemma ArgsStand(s: Text, b: nat, tail: Text, e: nat)
    requires Standing(s, b, tail, e)
    ensures b + 23 <= e <= |s| && R.Trim(s, b + 21, e) == (b + 21, e)
    ensures Split(s, b + 21, e, {'|'}) == Success([(b + 21, e)])
  {
    var to := TailPasses(tail, OUTSIDE, {'|'});
    TailEnds(s, b, tail, e);
    hide At, Passes;
    TrimsTo(s, b + 21, b + 21, e, e);
    OnePart(s, b + 21, e, tail, {'|'}, to);
  }

  lemma StrayArgs(s: Text, b: nat, e: nat)
    requires Standing(s, b, STRAY, e)
    ensures R.ParseArgs(s, b + 21, e) == Success(R.ArgsSpec(R.Normalised(s[b + 21..e], 0, [], false), [], true))
  {
    ArgsStand(s, b, STRAY, e);
    AtIndex(s, b + 21, STRAY, 0);
    AtIndex(s, b + 21, STRAY, 2);
    AtIndex(s, b + 21, STRAY, 3);
    var parts := [(b + 21, e)];
    assert parts[1..] == [] && R.Alternatives(s, [], [], true) == Success(([], true)) && R.Sorted([]) == [];
    hide At, SplitFrom, Split, R.Normalised, R.Trim, R.Alternatives;
    P.ManyBy(s, parts, [], false, b + 21, e);
    ArgsBy(s, b + 21, e, parts, ([], true));
  }

  lemma ArgsBy(s: Text, from: nat, to: nat, parts: seq<(nat, nat)>, found: (seq<nat>, bool))
    requires from <= to <= |s| && Split(s, from, to, {'|'}) == Success(parts)
    requires Within(s, parts) && R.Alternatives(s, parts, [], false) == Success(found) && (found.0 != [] || found.1)
    ensures R.ParseArgs(s, from, to) ==
        Success(R.ArgsSpec(R.Normalised(s[from..to], 0, [], false), R.Sorted(found.0), found.1))
  {
    hide Split, SplitFrom, R.Alternatives, R.Normalised, R.Sorted;
  }

  /** A tuple that the splitter takes for a single slot. */
  lemma OneSlot(s: Text, b: nat, tail: Text, e: nat, inner: Text, n: Nesting)
    requires Standing(s, b, tail, e) && tail == ['['] + inner + [']'] && Matching(s, b + 21, '[', ']', 0) == Some(e - 1)
    requires inner != [] && !IsSpace(inner[0]) && inner[0] != '.'
    requires !IsSpace(inner[|inner| - 1]) && inner[|inner| - 1] != '?'
    requires Passes(OUTSIDE, inner, {','}, n) && Passes(OUTSIDE, inner, {':'}, n) && n.depth == 0
    ensures R.ParseArgs(s, b + 21, e) == Success(R.ArgsSpec(R.Normalised(s[b + 21..e], 0, [], false), [1], false))
  {
    ArgsStand(s, b, tail, e);
    AtThree(s, b + 21, [], '[', inner + [']'], ['['] + inner + [']']) by {
      assert [] + ['['] + (inner + [']']) == ['['] + inner + [']'];
    }
    AtThree(s, b + 22, inner, ']', [], inner + [']']) by {
      assert inner + [']'] + [] == inner + [']'];
    }
    assert s[b + 21] == '[' && s[e - 1] == ']' && At(s, b + 22, inner) && e - 1 == b + 22 + |inner|;
    hide At, SplitFrom, Split, R.Normalised, R.Trim, R.Alternatives, Passes, Standing, Matching, R.Tuple;
    OneElement(s, b + 22, e - 1, inner, n);
    P.TupleBy(s, b + 21, e, [(b + 22, e - 1)], (1, 1));
    OneTuple(s, b + 21, e, [(b + 21, e)]);
    ArgsBy(s, b + 21, e, [(b + 21, e)], ([1], false));
    assert R.Sorted([1]) == [1];
  }

  lemma OneElement(s: Text, from: nat, to: nat, inner: Text, n: Nesting)
    requires At(s, from, inner) && to == from + |inner| && inner != [] && !IsSpace(inner[0]) && inner[0] != '.'
    requires !IsSpace(inner[|inner| - 1]) && inner[|inner| - 1] != '?'
    requires Passes(OUTSIDE, inner, {','}, n) && Passes(OUTSIDE, inner, {':'}, n) && n.depth == 0
    ensures to <= |s| && Split(s, from, to, {','}) == Success([(from, to)]) && Within(s, [(from, to)])
    ensures R.Slots(s, [(from, to)], 0, 0) == Success((1, 1))
  {
    OnePart(s, from, to, inner, {','}, n);
    AtIndex(s, from, inner, 0);
    assert s[from..to][0] == s[from];
    var parts := [(from, to)];
    assert parts[1..] == [];
    hide At, SplitFrom, Split, Passes;
    NotOptional(s, from, to, inner, n);
    hide R.Trim, R.IsOptional, R.Slots;
    P.SlotCounts(s, parts, 0, 0, from, to, false);
    NoSlots(s);
  }

  lemma NoSlots(s: Text)
    ensures R.Slots(s, [], 1, 1) == Success((1, 1))
  {
  }

  lemma NotOptional(s: Text, from: nat, to: nat, inner: Text, n: Nesting)
    requires At(s, from, inner) && to == from + |inner| <= |s| && inner != [] && !IsSpace(inner[0])
    requires !IsSpace(inner[|inner| - 1]) && inner[|inner| - 1] != '?'
    requires Passes(OUTSIDE, inner, {':'}, n) && n.depth == 0
    ensures R.Trim(s, from, to) == (from, to) && R.IsOptional(s, from, to) == Success(false)
  {
    AtIndex(s, from, inner, 0);
    AtIndex(s, from, inner, |inner| - 1);
    TrimsTo(s, from, from, to, to);
    hide At, SplitFrom, Passes, R.Trim;
    OnePart(s, from, to, inner, {':'}, n);
    hide Split;
  }

  lemma OneTuple(s: Text, from: nat, to: nat, parts: seq<(nat, nat)>)
    requires parts == [(from, to)] && from + 2 <= to <= |s| && R.Trim(s, from, to) == (from, to)
    requires s[from] == '[' && s[to - 1] == ']' && R.Tuple(s, from, to) == Success((1, 1))
    ensures R.Alternatives(s, parts, [], false) == Success(([1], false))
  {
    assert parts[1..] == [] && R.AddArities([], 1, 1) == [1] by {
      assert R.AddArities([1], 2, 1) == [1] && [] + [1] == [1];
    }
    hide R.Trim, R.Tuple;
    P.SlotsBy(s, parts, [], false, from, to, (1, 1));
    assert R.Alternatives(s, [], [1], false) == Success(([1], false));
  }

  // ---- reading the interface -------------------------------------------------------------------------

  lemma StreamReads(s: Text, b: nat, tail: Text, e: nat, spec: R.ArgsSpec, end: nat)
    requires Standing(s, b, tail, e) && R.ParseArgs(s, b + 21, e) == Success(spec) && e <= end <= |s|
    ensures R.NextStream(s, b + 1, end) == Success(Some((R.Stream("a", [R.Event(R.Any, "string", spec)]), e + 2)))
  {
    FrontStands(s, b);
    HeadReads(s, b, end);
    assert b + 21 <= e;
    hide At, R.ParseArgs, R.ParseEntries, R.StreamHead, R.NextStream, Standing, P.Continues, FRONT;
    Matched(s, b, tail, e);
    EntryReads(s, b, tail, e, spec);
    P.StreamBy(s, b + 1, b + 1, end, R.Stream("a", [R.Event(R.Any, "string", spec)]), b + 3, e + 1);
  }

  lemma HeadReads(s: Text, b: nat, end: nat)
    requires At(s, b, FRONT) && b + 21 <= end <= |s|
    ensures R.StreamHead(s, b + 1, end) == Success(("a", b + 3)) && P.Continues(s, b + 1, b + 1, end)
  {
    FrontStands(s, b);
    assert At(s, b + 1, "a");
    hide At, R.PropertyName, FRONT;
    P.BareNameReads(s, b + 1, end, "a", b + 2);
    P.SpaceSkips(s, b + 1, b + 1);
    P.SpaceSkips(s, b + 2, b + 2);
    P.SpaceSkips(s, b + 3, b + 3);
  }

  lemma SourceStrips(tail: Text)
    requires IsTail(tail)
    ensures Stripped(Source(tail), 0) == Source(tail)
  {
    Words({});
    assert forall k | 0 <= k < |FRONT| :: !IsQuote(FRONT[k]) && FRONT[k] != '/';
    assert forall k | 0 <= k < |R.NEEDLE| :: !IsQuote(R.NEEDLE[k]) && R.NEEDLE[k] != '/';
    var s := Source(tail);
    hide StringEnd, LineEnd, BlockEnd, RegionAt;
    PlainIsKept(s, 0, |s|);
  }

  lemma HeadFound(s: Text, b: nat)
    requires b == |R.NEEDLE| && At(s, 0, R.NEEDLE) && b < |s| && s[b] == '{'
    ensures R.Find(s, 0, R.NEEDLE) == Some(0) && R.Find(s, 0, "{") == Some(b)
  {
    assert R.NEEDLE + [] == R.NEEDLE && R.NEEDLE <= s[0..];
    P.FindsAt(s, 0, 0, R.NEEDLE);
    hide At, R.Find;
    P.FindsBrace(s, 0, b, [], R.NEEDLE);
  }

  /** A concrete malformed source that makes the reader slice backwards instead of rejecting it. */
  lemma StrayParenthesisOverruns()
    ensures R.Parse(Source(STRAY)) == Failure(OutOfOrder)
  {
    var s, b := Source(STRAY), |R.NEEDLE|;
    var e := b + 25;
    assert e == b + 21 + |STRAY|;
    hide Source, FRONT, R.NEEDLE, Standing, At, Stripped, Matching, R.Find, R.NextStream, R.Parse, R.ParseArgs, STRAY;
    SourceStands(STRAY, b, e);
    StandingMeans(s, b, STRAY, e);
    SourceStrips(STRAY);
    HeadFound(s, b);
    Matched(s, b, STRAY, e);
    StrayArgs(s, b, e);
    StreamReads(s, b, STRAY, e, R.ArgsSpec(R.Normalised(s[b + 21..e], 0, [], false), [], true), e);
    BodyIs(s, b, e);
    hide O.Body;
    O.ParseOverrunsExactly(s);
  }

  lemma BodyIs(s: Text, b: nat, e: nat)
    requires b < |s| && s[b] == '{' && R.Find(s, 0, R.NEEDLE) == Some(0) && R.Find(s, 0, "{") == Some(b)
    requires Matching(s, b, '{', '}', 0) == Some(e)
    ensures O.Body(s) == Some((b + 1, e))
  {
    hide R.Find, Matching;
  }

  lemma StandingMeans(s: Text, b: nat, tail: Text, e: nat)
    requires Standing(s, b, tail, e)
    ensures b + 21 < e && e + 3 == |s| && s[b] == '{' && s[e + 2] == '}'
  {
    FrontStands(s, b);
    EndStands(s, e);
  }

  /** What reading a source makes of its args, once they are read. */
  lemma SourceReads(tail: Text, b: nat, e: nat, spec: R.ArgsSpec)
    requires IsTail(tail) && tail != STRAY && b == |R.NEEDLE| && e == b + 21 + |tail| <= |Source(tail)|
    requires R.ParseArgs(Source(tail), b + 21, e) == Success(spec)
    ensures R.Parse(Source(tail)) == Success([R.Stream("a", [R.Event(R.Any, "string", spec)])])
  {
    var s := Source(tail);
    var streams := [R.Stream("a", [R.Event(R.Any, "string", spec)])];
    hide *;
    SourceStands(tail, b, e);
    StandingMeans(s, b, tail, e);
    SourceStrips(tail);
    HeadFound(s, b);
    Matched(s, b, tail, e);
    StreamReads(s, b, tail, e, spec, e + 2);
    P.LastPause(s, e + 2, e + 2);
    P.StreamsBy(s, b + 1, e + 2, streams[0], e + 2, []);
    assert [streams[0]] + [] == streams;
    P.ParseBy(s, 0, b, e + 2, Success(streams));
    ParseIs(s, streams);
  }

  lemma ParseIs(s: Text, streams: seq<R.Stream>)
    requires Stripped(s, 0) == s && R.ParseStripped(s) == Success(streams)
    ensures R.Parse(s) == Success(streams)
  {
    hide Stripped, R.ParseStripped;
  }

  /** One stream with one entry, reported with exactly one slot. */
  predicate ReadsOneSlot(r: Result<seq<R.Stream>, Fault>) {
    r.Success? && |r.value| == 1 && |r.value[0].events| == 1 && r.value[0].events[0].args.arities == [1]
  }

  /** The reader takes `[A<B,C]` for a tuple of one, although nothing closes the generic list. */
  lemma UnclosedGenericIsAccepted()
    ensures ReadsOneSlot(R.Parse(Source(UNCLOSED)))
  {
    var s, b := Source(UNCLOSED), |R.NEEDLE|;
    var e := b + 28;
    assert e == b + 21 + |UNCLOSED| && UNCLOSED == ['['] + "A<B,C" + [']'];
    hide Source, FRONT, R.NEEDLE, Matching, Standing, R.Parse, R.ParseArgs, Passes, R.Normalised;
    SourceStands(UNCLOSED, b, e);
    TailCloses(s, b, UNCLOSED, e);
    OpenListPasses(OUTSIDE, {','});
    OpenListPasses(OUTSIDE, {':'});
    OneSlot(s, b, UNCLOSED, e, "A<B,C", Nesting(0, 1, 'C'));
    StandingMeans(s, b, UNCLOSED, e);
    SourceReads(UNCLOSED, b, e, R.ArgsSpec(R.Normalised(s[b + 21..e], 0, [], false), [1], false));
  }

  /** The reader takes `[({A)}]` for a tuple of one, although its brackets cross. */
  lemma CrossedBracketsAreAccepted()
    ensures ReadsOneSlot(R.Parse(Source(MIXED)))
  {
    var s, b := Source(MIXED), |R.NEEDLE|;
    var e := b + 28;
    assert e == b + 21 + |MIXED| && MIXED == ['['] + "({A)}" + [']'];
    hide Source, FRONT, R.NEEDLE, Matching, Standing, R.Parse, R.ParseArgs, Passes, R.Normalised;
    SourceStands(MIXED, b, e);
    TailCloses(s, b, MIXED, e);
    CrossingPasses(OUTSIDE, {','});
    CrossingPasses(OUTSIDE, {':'});
    OneSlot(s, b, MIXED, e, "({A)}", Nesting(0, 0, '}'));
    StandingMeans(s, b, MIXED, e);
    SourceReads(MIXED, b, e, R.ArgsSpec(R.Normalised(s[b + 21..e], 0, [], false), [1], false));
  }

  lemma TailCloses(s: Text, b: nat, tail: Text, e: nat)
    requires Standing(s, b, tail, e) && tail != STRAY
    ensures b + 21 < |s| && s[b + 21] == '[' && Matching(s, b + 21, '[', ']', 0) == Some(e - 1)
  {
    var p := b + 21;
    assert tail == UNCLOSED || tail == MIXED;
    forall k | 0 <= k < |tail| ensures s[p + k] == tail[k] {
      AtIndex(s, p, tail, k);
    }
    hide Matching, At;
    if tail == UNCLOSED {
      UnclosedMatches(s, p);
    } else {
      CrossingMatches(s, p);
    }
  }
}
