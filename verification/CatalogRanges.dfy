/** Lists, entries, args types and tuples: exactly which text is read, and that no range of it is skipped. */
module CatalogRanges {
  import opened Prelude
  import opened Scanner
  import opened Sequences
  import opened Splitter
  import opened Generics
  import opened CatalogKeys
  import opened CatalogReader

  // ---- lists: every range that is not blank is read ----------------------------------------------

  /** The ranges without the spaces around them, blank ones left out. */
  function Content(s: Text, parts: seq<(nat, nat)>): (content: seq<(nat, nat)>)
    requires Within(s, parts)
    ensures Within(s, content)
    decreases |parts|
  {
    if parts == [] then []
    else
      var trimmed := Trim(s, parts[0].0, parts[0].1);
      (if trimmed.0 == trimmed.1 then [] else [trimmed]) + Content(s, parts[1..])
  }

  lemma ContentStep(s: Text, parts: seq<(nat, nat)>)
    requires Within(s, parts) && parts != []
    ensures var part := Trim(s, parts[0].0, parts[0].1);
            Content(s, parts) == if part.0 == part.1 then Content(s, parts[1..]) else [part] + Content(s, parts[1..])
  {
    hide Trim;
  }

  // ---- tuples ----------------------------------------------------------------------------------------

  /** No rest element, and its brackets balance. */
  ghost predicate IsSlot(s: Text, part: (nat, nat)) {
    part.0 <= part.1 <= |s| && !("..." <= s[part.0..part.1]) && StaysBalanced(s, part.0, part.1, 0)
  }

  ghost predicate Optional(s: Text, part: (nat, nat)) {
    MarkedOptional(s, part.0, part.1)
  }

  ghost predicate AreSlots(s: Text, content: seq<(nat, nat)>) {
    forall i | 0 <= i < |content| :: IsSlot(s, content[i])
  }

  /** With `n` slots before these, the last that is not optional is number `required`, or the one `before` says. */
  ghost predicate LastRequired(s: Text, content: seq<(nat, nat)>, n: nat, before: nat, required: nat) {
    && (forall i | 0 <= i < |content| && required <= n + i :: Optional(s, content[i]))
    && (required == before || (n < required <= n + |content| && !Optional(s, content[required - n - 1])))
  }

  lemma SlotsCons(s: Text, part: (nat, nat), rest: seq<(nat, nat)>, all: seq<(nat, nat)>)
    requires all == [part] + rest
    ensures AreSlots(s, all) <==> IsSlot(s, part) && AreSlots(s, rest)
  {
    hide IsSlot;
    assert all[0] == part && forall i | 0 <= i < |rest| :: all[i + 1] == rest[i];
    if AreSlots(s, all) {
      forall i | 0 <= i < |rest| ensures IsSlot(s, rest[i]) {
        assert IsSlot(s, all[i + 1]);
      }
      assert IsSlot(s, all[0]);
    }
  }

  lemma RequiredCons(
      s: Text, part: (nat, nat), rest: seq<(nat, nat)>, all: seq<(nat, nat)>, n: nat, before: nat, next: nat,
      required: nat)
    requires before <= n && all == [part] + rest && next == if Optional(s, part) then before else n + 1
    requires LastRequired(s, rest, n + 1, next, required)
    ensures LastRequired(s, all, n, before, required)
  {
    hide Optional;
    assert all[0] == part && forall i | 0 <= i < |rest| :: all[i + 1] == rest[i];
  }

  lemma SlotsStep(s: Text, parts: seq<(nat, nat)>, n: nat, required: nat)
    requires Within(s, parts) && parts != [] && required <= n
    ensures var part := Trim(s, parts[0].0, parts[0].1);
            if part.0 == part.1 then Slots(s, parts, n, required) == Slots(s, parts[1..], n, required)
            else if !IsSlot(s, part) then Slots(s, parts, n, required).Failure?
            else Slots(s, parts, n, required) ==
                 Slots(s, parts[1..], n + 1, if Optional(s, part) then required else n + 1)
  {
    var part := Trim(s, parts[0].0, parts[0].1);
    OptionalExactly(s, part.0, part.1);
    hide Trim, IsOptional, StaysBalanced, MarkedOptional;
  }

  /** What the slots of a range come to, once they are read. */
  ghost predicate Counted(s: Text, content: seq<(nat, nat)>, n: nat, before: nat, slots: (nat, nat)) {
    slots.0 == n + |content| && LastRequired(s, content, n, before, slots.1)
  }

  /** Reading the range counts its content, or fails if some of that is no slot. */
  ghost predicate Counts(s: Text, content: seq<(nat, nat)>, n: nat, before: nat, r: Result<(nat, nat), Fault>) {
    if AreSlots(s, content) then r.Success? && Counted(s, content, n, before, r.value) else r.Failure?
  }

  lemma CountsCons(
      s: Text, part: (nat, nat), rest: seq<(nat, nat)>, all: seq<(nat, nat)>, n: nat, before: nat, next: nat,
      r: Result<(nat, nat), Fault>)
    requires before <= n && all == [part] + rest && next == if Optional(s, part) then before else n + 1
    requires if IsSlot(s, part) then Counts(s, rest, n + 1, next, r) else r.Failure?
    ensures Counts(s, all, n, before, r)
  {
    hide Optional, LastRequired, AreSlots, IsSlot;
    SlotsCons(s, part, rest, all);
    if AreSlots(s, all) {
      RequiredCons(s, part, rest, all, n, before, next, r.value.1);
    }
  }

  /** The slots of a tuple are its elements that are not blank, and it is rejected exactly if one is no slot. */
  lemma {:induction false} SlotsExactly(s: Text, parts: seq<(nat, nat)>, n: nat, required: nat)
    requires Within(s, parts) && required <= n
    ensures Counts(s, Content(s, parts), n, required, Slots(s, parts, n, required))
    decreases |parts|
  {
    if parts != [] {
      hide *;
      WithinTail(s, parts);
      ContentStep(s, parts);
      SlotsStep(s, parts, n, required);
      var part := Trim(s, parts[0].0, parts[0].1);
      if part.0 == part.1 {
        SlotsExactly(s, parts[1..], n, required);
      } else {
        var next := if Optional(s, part) then required else n + 1;
        SlotsExactly(s, parts[1..], n + 1, next);
        CountsCons(s, part, Content(s, parts[1..]), Content(s, parts), n, required, next, Slots(s, parts, n, required));
      }
    }
  }

  lemma WithinTail(s: Text, parts: seq<(nat, nat)>)
    requires Within(s, parts) && parts != []
    ensures Within(s, parts[1..]) && parts[0].0 <= parts[0].1 <= |s|
  {
  }

  /** A tuple is read exactly if its brackets match and its elements are slots. */
  lemma TupleReadsExactly(s: Text, from: nat, to: nat)
    requires from + 2 <= to <= |s| && s[from] == '['
    ensures Tuple(s, from, to).Success? <==>
              && Matching(s, from, '[', ']', 0) == Some(to - 1)
              && Split(s, from + 1, to - 1, {','}).Success?
              && AreSlots(s, Content(s, Split(s, from + 1, to - 1, {','}).value))
    ensures Tuple(s, from, to).Success? ==>
              Counted(s, Content(s, Split(s, from + 1, to - 1, {','}).value), 0, 0, Tuple(s, from, to).value)
  {
    hide Split, SplitFrom, Slots, Content, Matching, AreSlots, Counted;
    if Split(s, from + 1, to - 1, {','}).Success? {
      SlotsExactly(s, Split(s, from + 1, to - 1, {','}).value, 0, 0);
    }
  }

  // ---- args types --------------------------------------------------------------------------------------

  predicate InBrackets(s: Text, part: (nat, nat)) {
    part.0 + 2 <= part.1 <= |s| && s[part.0] == '[' && s[part.1 - 1] == ']'
  }

  predicate IsTuple(s: Text, part: (nat, nat)) {
    InBrackets(s, part) && Tuple(s, part.0, part.1).Success?
  }

  predicate IsArray(s: Text, part: (nat, nat)) {
    !InBrackets(s, part) && part.0 + 2 <= part.1 <= |s| && s[part.1 - 2] == '[' && s[part.1 - 1] == ']'
  }

  predicate IsAlternative(s: Text, part: (nat, nat)) {
    IsTuple(s, part) || IsArray(s, part)
  }

  predicate AreAlternatives(s: Text, content: seq<(nat, nat)>) {
    forall i | 0 <= i < |content| :: IsAlternative(s, content[i])
  }

  /** A tuple whose required slots and all slots are at most and at least `n`. */
  predicate TupleAllows(s: Text, part: (nat, nat), n: nat) {
    IsTuple(s, part) && Tuple(s, part.0, part.1).value.1 <= n <= Tuple(s, part.0, part.1).value.0
  }

  ghost predicate SomeTupleAllows(s: Text, content: seq<(nat, nat)>, n: nat) {
    exists i :: 0 <= i < |content| && TupleAllows(s, content[i], n)
  }

  ghost predicate SomeArray(s: Text, content: seq<(nat, nat)>) {
    exists i :: 0 <= i < |content| && IsArray(s, content[i])
  }

  lemma AlternativesCons(s: Text, part: (nat, nat), rest: seq<(nat, nat)>)
    ensures forall n: nat ::
              SomeTupleAllows(s, [part] + rest, n) <==> TupleAllows(s, part, n) || SomeTupleAllows(s, rest, n)
    ensures SomeArray(s, [part] + rest) <==> IsArray(s, part) || SomeArray(s, rest)
    ensures AreAlternatives(s, [part] + rest) <==> IsAlternative(s, part) && AreAlternatives(s, rest)
  {
    hide TupleAllows, IsArray, IsAlternative;
    var all := [part] + rest;
    assert all[0] == part && forall i | 0 <= i < |rest| :: all[i + 1] == rest[i];
    forall n: nat ensures SomeTupleAllows(s, all, n) <==> TupleAllows(s, part, n) || SomeTupleAllows(s, rest, n) {
      if TupleAllows(s, part, n) {
        assert TupleAllows(s, all[0], n);
      }
      if SomeTupleAllows(s, rest, n) {
        var i :| 0 <= i < |rest| && TupleAllows(s, rest[i], n);
        assert TupleAllows(s, all[i + 1], n);
      }
    }
    if IsArray(s, part) {
      assert IsArray(s, all[0]);
    }
    if SomeArray(s, rest) {
      var i :| 0 <= i < |rest| && IsArray(s, rest[i]);
      assert IsArray(s, all[i + 1]);
    }
    if AreAlternatives(s, all) {
      forall i | 0 <= i < |rest| ensures IsAlternative(s, rest[i]) {
        assert IsAlternative(s, all[i + 1]);
      }
      assert IsAlternative(s, all[0]);
    }
  }

  /** What one alternative adds: the lengths a tuple allows, or the array mark. */
  lemma AlternativesStep(s: Text, parts: seq<(nat, nat)>, arities: seq<nat>, variadic: bool)
    requires Within(s, parts) && parts != []
    ensures var part := Trim(s, parts[0].0, parts[0].1); var found := Alternatives(s, parts, arities, variadic);
            if part.0 == part.1 then found == Alternatives(s, parts[1..], arities, variadic)
            else if IsTuple(s, part) then
              var slots := Tuple(s, part.0, part.1).value;
              found == Alternatives(s, parts[1..], AddArities(arities, slots.1, slots.0), variadic)
            else if IsArray(s, part) then found == Alternatives(s, parts[1..], arities, true)
            else found.Failure?
  {
    hide Trim, Tuple, AddArities;
  }

  lemma TupleAddsArities(s: Text, part: (nat, nat), arities: seq<nat>) returns (more: seq<nat>)
    requires NoRepeats(arities) && IsTuple(s, part)
    ensures more == AddArities(arities, Tuple(s, part.0, part.1).value.1, Tuple(s, part.0, part.1).value.0)
    ensures NoRepeats(more) && (forall n: nat :: n in more <==> n in arities || TupleAllows(s, part, n))
    ensures !IsArray(s, part)
  {
    hide Tuple, NoRepeats, AddArities;
    var slots := Tuple(s, part.0, part.1).value;
    more := AddArities(arities, slots.1, slots.0);
    AddingKeepsDistinct(arities, slots.1, slots.0);
  }

  lemma ArrayIsNoTuple(s: Text, part: (nat, nat))
    requires !IsTuple(s, part)
    ensures forall n: nat :: !TupleAllows(s, part, n)
    ensures IsAlternative(s, part) <==> IsArray(s, part)
  {
  }

  ghost predicate Found(s: Text, content: seq<(nat, nat)>, arities: seq<nat>, variadic: bool, found: (seq<nat>, bool)) {
    && (forall n: nat :: n in found.0 <==> n in arities || SomeTupleAllows(s, content, n))
    && (found.1 <==> variadic || SomeArray(s, content))
  }

  /** A union is read exactly if its alternatives are tuples and arrays, and all of them make the arities. */
  lemma {:induction false} AlternativesExactly(s: Text, parts: seq<(nat, nat)>, arities: seq<nat>, variadic: bool)
    requires Within(s, parts) && NoRepeats(arities)
    ensures Alternatives(s, parts, arities, variadic).Success? <==> AreAlternatives(s, Content(s, parts))
    ensures Alternatives(s, parts, arities, variadic).Success? ==>
              Found(s, Content(s, parts), arities, variadic, Alternatives(s, parts, arities, variadic).value)
    decreases |parts|
  {
    if parts != [] {
      hide *;
      WithinTail(s, parts);
      ContentStep(s, parts);
      AlternativesStep(s, parts, arities, variadic);
      var part, rest := Trim(s, parts[0].0, parts[0].1), Content(s, parts[1..]);
      if part.0 == part.1 {
        AlternativesExactly(s, parts[1..], arities, variadic);
      } else {
        AlternativesCons(s, part, rest);
        if IsTuple(s, part) {
          var more := TupleAddsArities(s, part, arities);
          AlternativesExactly(s, parts[1..], more, variadic);
          TupleIsAlternative(s, part);
          FoundWithTuple(s, part, rest, arities, more, variadic);
        } else {
          ArrayIsNoTuple(s, part);
          if IsArray(s, part) {
            AlternativesExactly(s, parts[1..], arities, true);
            FoundWithArray(s, part, rest, arities, variadic);
          }
        }
      }
    }
  }

  lemma TupleIsAlternative(s: Text, part: (nat, nat))
    requires IsTuple(s, part)
    ensures IsAlternative(s, part)
  {
  }

  lemma FoundWithTuple(
      s: Text, part: (nat, nat), rest: seq<(nat, nat)>, arities: seq<nat>, more: seq<nat>, variadic: bool)
    requires IsTuple(s, part) && forall n: nat :: n in more <==> n in arities || TupleAllows(s, part, n)
    ensures forall found :: Found(s, rest, more, variadic, found) ==> Found(s, [part] + rest, arities, variadic, found)
  {
    AlternativesCons(s, part, rest);
    hide TupleAllows, SomeTupleAllows, SomeArray, Tuple;
  }

  lemma FoundWithArray(s: Text, part: (nat, nat), rest: seq<(nat, nat)>, arities: seq<nat>, variadic: bool)
    requires IsArray(s, part)
    ensures forall found :: Found(s, rest, arities, true, found) ==> Found(s, [part] + rest, arities, variadic, found)
  {
    AlternativesCons(s, part, rest);
    hide SomeTupleAllows, SomeArray;
  }

  lemma HasMember(a: seq<nat>)
    ensures a != [] ==> exists n: nat :: n in a
  {
    if a != [] {
      assert a[0] in a;
    }
  }

  /** Ascending lists with the same members are the same. */
  lemma {:induction false} AscendingIsUnique(a: seq<nat>, b: seq<nat>)
    requires Ascending(a) && Ascending(b) && forall n: nat :: n in a <==> n in b
    ensures a == b
    decreases |a|
  {
    if a == [] {
      HasMember(b);
    } else {
      assert a[0] in a && a[0] in b && b[0] in b && b[0] in a;
      assert a[0] == b[0];
      assert a == [a[0]] + a[1..] && b == [b[0]] + b[1..];
      forall n: nat ensures n in a[1..] <==> n in b[1..] {
        assert n in a[1..] <==> n in a && n != a[0];
        assert n in b[1..] <==> n in b && n != b[0];
      }
      AscendingIsUnique(a[1..], b[1..]);
    }
  }

  /** The type as it is reported: its words, and what its alternatives allow. */
  ghost predicate SpecStands(s: Text, start: nat, end: nat, content: seq<(nat, nat)>, spec: ArgsSpec)
    requires start <= end <= |s|
  {
    && spec.source == Normalised(s[start..end], 0, [], false)
    && Ascending(spec.arities) && (forall n: nat :: n in spec.arities <==> SomeTupleAllows(s, content, n))
    && (spec.variadic <==> SomeArray(s, content))
  }

  lemma SpecIsUnique(s: Text, start: nat, end: nat, content: seq<(nat, nat)>, a: ArgsSpec, b: ArgsSpec)
    requires start <= end <= |s| && SpecStands(s, start, end, content, a) && SpecStands(s, start, end, content, b)
    ensures a == b
  {
    hide SomeTupleAllows, SomeArray, Normalised, Ascending;
    AscendingIsUnique(a.arities, b.arities);
  }

  /** A union with an alternative has an arity or is an array. */
  lemma SomethingIsFound(s: Text, content: seq<(nat, nat)>, found: (seq<nat>, bool))
    requires AreAlternatives(s, content) && Found(s, content, [], false, found)
    ensures found.0 == [] && !found.1 <==> content == []
  {
    if content != [] {
      assert IsAlternative(s, content[0]);
      hide Tuple, Alternatives;
      if IsTuple(s, content[0]) {
        var n := Tuple(s, content[0].0, content[0].1).value.0;
        assert TupleAllows(s, content[0], n);
        assert SomeTupleAllows(s, content, n);
      }
    } else {
      HasMember(found.0);
    }
  }

  /**
   * An args type is read exactly if its alternatives that are not blank are tuples and arrays and there
   * is one, and what is reported of it are exactly the lengths and the mark these allow.
   */
  lemma ArgsReadExactly(s: Text, start: nat, end: nat, spec: ArgsSpec)
    requires start <= end <= |s|
    ensures ParseArgs(s, start, end) == Success(spec) <==>
              && Split(s, start, end, {'|'}).Success?
              && Content(s, Split(s, start, end, {'|'}).value) != []
              && AreAlternatives(s, Content(s, Split(s, start, end, {'|'}).value))
              && SpecStands(s, start, end, Content(s, Split(s, start, end, {'|'}).value), spec)
  {
    var split := Split(s, start, end, {'|'});
    assert NoRepeats<nat>([]);
    if split.Success? {
      var content, found := Content(s, split.value), Alternatives(s, split.value, [], false);
      AlternativesExactly(s, split.value, [], false);
      if found.Success? {
        AlternativesStayDistinct(s, split.value, [], false);
        hide *;
        SomethingIsFound(s, content, found.value);
        SortedIsAscending(found.value.0);
        var read := ArgsSpec(Normalised(s[start..end], 0, [], false), Sorted(found.value.0), found.value.1);
        ArgsBy(s, start, end, split.value, found.value, read);
        ReportStands(s, start, end, content, found.value, read);
        if SpecStands(s, start, end, content, spec) {
          SpecIsUnique(s, start, end, content, spec, read);
        }
      } else {
        hide Split, Alternatives;
      }
    }
  }

  lemma ArgsBy(s: Text, start: nat, end: nat, parts: seq<(nat, nat)>, found: (seq<nat>, bool), read: ArgsSpec)
    requires start <= end <= |s| && Split(s, start, end, {'|'}) == Success(parts) && Within(s, parts)
    requires Alternatives(s, parts, [], false) == Success(found)
    requires read == ArgsSpec(Normalised(s[start..end], 0, [], false), Sorted(found.0), found.1)
    ensures ParseArgs(s, start, end) ==
            if found.0 == [] && !found.1 then Failure(Rejected(start)) else Success(read)
  {
    hide Split, Alternatives, Normalised, Sorted;
  }

  lemma ReportStands(
      s: Text, start: nat, end: nat, content: seq<(nat, nat)>, found: (seq<nat>, bool), read: ArgsSpec)
    requires start <= end <= |s| && Found(s, content, [], false, found)
    requires Ascending(Sorted(found.0)) && forall n: nat :: n in Sorted(found.0) <==> n in found.0
    requires read == ArgsSpec(Normalised(s[start..end], 0, [], false), Sorted(found.0), found.1)
    ensures SpecStands(s, start, end, content, read)
  {
    hide Ascending, Sorted, Normalised, SomeTupleAllows, SomeArray;
  }

  // ---- entries -----------------------------------------------------------------------------------------

  lemma {:induction false} TrimEnds(s: Text, from: nat, until: nat)
    requires from <= until <= |s|
    ensures var (left, right) := Trim(s, from, until); left < right ==> !IsSpace(s[left]) && !IsSpace(s[right - 1])
    decreases until - from
  {
    LeftEnd(s, from, until);
    RightEnd(s, TrimLeft(s, from, until), until);
  }

  lemma {:induction false} LeftEnd(s: Text, from: nat, until: nat)
    requires from <= until <= |s|
    ensures TrimLeft(s, from, until) < until ==> !IsSpace(s[TrimLeft(s, from, until)])
    decreases until - from
  {
    if from < until && IsSpace(s[from]) {
      LeftEnd(s, from + 1, until);
    }
  }

  lemma {:induction false} RightEnd(s: Text, from: nat, until: nat)
    requires from <= until <= |s|
    ensures from < TrimRight(s, from, until) ==> !IsSpace(s[TrimRight(s, from, until) - 1])
    decreases until - from
  {
    if from < until && IsSpace(s[until - 1]) {
      RightEnd(s, from, until - 1);
    }
  }

  lemma TrimmedIsTrim(s: Text, from: nat, until: nat)
    requires from <= until <= |s|
    ensures Trim(s, Trim(s, from, until).0, Trim(s, from, until).1) == Trim(s, from, until)
  {
    TrimEnds(s, from, until);
  }

  /** A range that is not blank, without the spaces around it. */
  predicate Stripped(s: Text, part: (nat, nat)) {
    part.0 < part.1 <= |s| && Tight(s[part.0..part.1])
  }

  /** The range is the event's key member: the word, the first colon, and the text of a key with the event's pattern. */
  ghost predicate SaysKey(s: Text, part: (nat, nat), event: Event) {
    Stripped(s, part) && IsMember(s, part, "key", event.keySource) && IsKey(event.keySource, event.key)
  }

  /** After the colon, the args type stands between `from` and `to`. */
  ghost predicate ArgsStand(s: Text, part: (nat, nat), at: nat, from: nat, to: nat) {
    && FirstColon(s, part.0, part.1, at) && Holds(s[part.0..at], "args") && at < from < to <= part.1
    && AllSpaces(s[at + 1..from]) && Tight(s[from..to]) && AllSpaces(s[to..part.1])
  }

  /** The range is the event's args member: the word, the first colon, and an args type that is read as the event's. */
  ghost predicate SaysArgs(s: Text, part: (nat, nat), event: Event) {
    Stripped(s, part) &&
    exists at: nat, from: nat, to: nat ::
      ArgsStand(s, part, at, from, to) && ParseArgs(s, from, to) == Success(event.args)
  }

  lemma StrippedIsTrimmed(s: Text, part: (nat, nat))
    requires part.0 <= part.1 <= |s|
    ensures Stripped(s, part) <==> part.0 < part.1 && Trim(s, part.0, part.1) == part
  {
    var (left, right) := Trim(s, part.0, part.1);
    TrimmedIs(s, part.0, part.1);
    var whole := s[part.0..part.1];
    if Stripped(s, part) {
      assert Padded(whole, [], whole, []);
      TightIsUnique(whole, [], whole, [], s[part.0..left], s[left..right], s[right..part.1]);
      assert |s[part.0..left]| == 0 && |s[right..part.1]| == 0;
    }
  }

  /** A trimmed range that is not empty is the one with only spaces around it. */
  lemma TrimIs(s: Text, a: nat, b: nat, from: nat, to: nat)
    requires a <= from < to <= b <= |s|
    ensures Trim(s, a, b) == (from, to) <==> AllSpaces(s[a..from]) && Tight(s[from..to]) && AllSpaces(s[to..b])
  {
    var (left, right) := Trim(s, a, b);
    TrimmedIs(s, a, b);
    if AllSpaces(s[a..from]) && Tight(s[from..to]) && AllSpaces(s[to..b]) {
      assert s[a..b] == s[a..from] + s[from..to] + s[to..b];
      TightIsUnique(s[a..b], s[a..from], s[from..to], s[to..b], s[a..left], s[left..right], s[right..b]);
      assert |s[a..from]| == |s[a..left]| && |s[to..b]| == |s[right..b]|;
    }
  }

  lemma KeysAreTight(text: Text, pattern: KeyPattern)
    requires IsKey(text, pattern)
    ensures Tight(text) && text != []
  {
    if inner: Text :| Quotes(text, '`', inner) {
    }
  }

  /** What a member with the colon at `at` is. */
  lemma MemberAt(s: Text, part: (nat, nat), at: nat)
    requires Stripped(s, part) && FirstColon(s, part.0, part.1, at)
    ensures var (nf, nt) := Trim(s, part.0, at); var (vf, vt) := Trim(s, at + 1, part.1);
            MemberOf(s, part, false, false) ==
            if s[nf..nt] == "key" then
              if KeyOf(s[vf..vt]).None? then Failure(Rejected(vf))
              else Success(KeyMember(KeyOf(s[vf..vt]).value, s[vf..vt]))
            else if s[nf..nt] == "args" then
              if ParseArgs(s, vf, vt).Success? then Success(ArgsMember(ParseArgs(s, vf, vt).value))
              else Failure(ParseArgs(s, vf, vt).error)
            else Failure(Rejected(part.0))
  {
    StrippedIsTrimmed(s, part);
    ColonExactly(s, part.0, part.1, at);
    hide FirstColon, Trim, FindTopLevel, KeyOf, ParseArgs;
  }

  lemma NoMemberWithout(s: Text, part: (nat, nat))
    requires Stripped(s, part) && forall at: nat :: !FirstColon(s, part.0, part.1, at)
    ensures MemberOf(s, part, false, false).Failure?
  {
    StrippedIsTrimmed(s, part);
    ColonFound(s, part.0, part.1);
    hide FirstColon, Trim, FindTopLevel, KeyOf, ParseArgs, NoColon;
  }

  /** There is one first colon. */
  lemma FirstColonIsUnique(s: Text, from: nat, to: nat, a: nat, b: nat)
    requires FirstColon(s, from, to, a) && FirstColon(s, from, to, b)
    ensures a == b
  {
    hide Stands, StaysBalanced;
  }

  lemma KeyValue(s: Text, from: nat, to: nat, pattern: KeyPattern, source: Text)
    requires from <= to <= |s|
    ensures var (vf, vt) := Trim(s, from, to);
            s[vf..vt] == source && KeyOf(s[vf..vt]) == Some(pattern) <==>
              Holds(s[from..to], source) && IsKey(source, pattern)
  {
    KeysReadExactly(source, pattern);
    hide KeyOf, Trim, Holds;
    if IsKey(source, pattern) {
      KeysAreTight(source, pattern);
      hide IsKey, Tight;
      TrimExactly(s, from, to, source);
    }
  }

  lemma KeyMemberAt(s: Text, part: (nat, nat), at: nat, pattern: KeyPattern, source: Text)
    requires Stripped(s, part) && FirstColon(s, part.0, part.1, at)
    ensures MemberOf(s, part, false, false) == Success(KeyMember(pattern, source)) <==>
            Holds(s[part.0..at], "key") && Holds(s[at + 1..part.1], source) && IsKey(source, pattern)
  {
    hide MemberOf, FirstColon, Trim, KeyOf, ParseArgs, IsKey, Holds;
    MemberAt(s, part, at);
    TrimExactly(s, part.0, at, "key");
    KeyValue(s, at + 1, part.1, pattern, source);
  }

  lemma KeyMemberExactly(s: Text, part: (nat, nat), event: Event)
    requires Stripped(s, part)
    ensures SaysKey(s, part, event) <==>
            MemberOf(s, part, false, false) == Success(KeyMember(event.key, event.keySource))
  {
    hide MemberOf, FirstColon, Holds, IsKey, Stripped;
    if at: nat :| FirstColon(s, part.0, part.1, at) {
      KeyMemberAt(s, part, at, event.key, event.keySource);
      forall b: nat | FirstColon(s, part.0, part.1, b) ensures b == at {
        FirstColonIsUnique(s, part.0, part.1, at, b);
      }
    } else {
      NoMemberWithout(s, part);
    }
  }

  /** AllSpaces text is no args type. */
  lemma NothingIsNoArgs(s: Text, at: nat)
    requires at <= |s|
    ensures ParseArgs(s, at, at).Failure?
  {
    assert Split(s, at, at, {'|'}) == Success([(at, at)]);
    hide Split, SplitFrom;
    assert Trim(s, at, at) == (at, at);
    hide Trim;
    assert Alternatives(s, [(at, at)], [], false) == Alternatives(s, [], [], false);
  }

  lemma ArgsStandWhere(s: Text, part: (nat, nat), at: nat, from: nat, to: nat)
    requires part.1 <= |s| && FirstColon(s, part.0, part.1, at)
    ensures ArgsStand(s, part, at, from, to) <==>
            Holds(s[part.0..at], "args") && from < to && Trim(s, at + 1, part.1) == (from, to)
  {
    hide FirstColon, Holds, Trim, AllSpaces, Tight;
    if at + 1 <= from < to <= part.1 {
      TrimIs(s, at + 1, part.1, from, to);
    }
  }

  lemma ArgsMemberAt(s: Text, part: (nat, nat), at: nat, spec: ArgsSpec)
    requires Stripped(s, part) && FirstColon(s, part.0, part.1, at)
    ensures MemberOf(s, part, false, false) == Success(ArgsMember(spec)) <==>
            exists from: nat, to: nat :: ArgsStand(s, part, at, from, to) && ParseArgs(s, from, to) == Success(spec)
  {
    MemberAt(s, part, at);
    TrimExactly(s, part.0, at, "args");
    var (vf, vt) := Trim(s, at + 1, part.1);
    NothingIsNoArgs(s, vf);
    forall from: nat, to: nat
      ensures ArgsStand(s, part, at, from, to) <==>
              Holds(s[part.0..at], "args") && from < to && Trim(s, at + 1, part.1) == (from, to)
    {
      ArgsStandWhere(s, part, at, from, to);
    }
    hide MemberOf, FirstColon, ParseArgs, Holds, ArgsStand, Trim, KeyOf;
  }

  lemma ArgsMemberExactly(s: Text, part: (nat, nat), event: Event)
    requires Stripped(s, part)
    ensures SaysArgs(s, part, event) <==> MemberOf(s, part, false, false) == Success(ArgsMember(event.args))
  {
    hide MemberOf, FirstColon, Holds, ParseArgs, Stripped, AllSpaces, Tight;
    if at: nat :| FirstColon(s, part.0, part.1, at) {
      ArgsMemberAt(s, part, at, event.args);
      forall b: nat | FirstColon(s, part.0, part.1, b) ensures b == at {
        FirstColonIsUnique(s, part.0, part.1, at, b);
      }
    } else {
      NoMemberWithout(s, part);
    }
  }

  /** One range is the event's key and one its args, in either order; there is no other. */
  ghost predicate OneOfEach(s: Text, content: seq<(nat, nat)>, event: Event) {
    |content| == 2 &&
    ((SaysKey(s, content[0], event) && SaysArgs(s, content[1], event)) ||
     (SaysArgs(s, content[0], event) && SaysKey(s, content[1], event)))
  }

  /** The ranges are what is still missing of the event. */
  ghost predicate Completes(
      s: Text, content: seq<(nat, nat)>, key: Option<(KeyPattern, Text)>, args: Option<ArgsSpec>, event: Event)
    decreases |content|
  {
    if content == [] then key == Some((event.key, event.keySource)) && args == Some(event.args)
    else if SaysKey(s, content[0], event) then
      key.None? && Completes(s, content[1..], Some((event.key, event.keySource)), args, event)
    else
      SaysArgs(s, content[0], event) && args.None? && Completes(s, content[1..], key, Some(event.args), event)
  }

  lemma CompletesCons(
      s: Text, part: (nat, nat), rest: seq<(nat, nat)>, key: Option<(KeyPattern, Text)>, args: Option<ArgsSpec>,
      event: Event)
    ensures Completes(s, [part] + rest, key, args, event) <==>
            if SaysKey(s, part, event) then
              key.None? && Completes(s, rest, Some((event.key, event.keySource)), args, event)
            else SaysArgs(s, part, event) && args.None? && Completes(s, rest, key, Some(event.args), event)
  {
    hide SaysKey, SaysArgs;
    assert ([part] + rest)[1..] == rest;
  }

  lemma CompletesKeeps(
      s: Text, content: seq<(nat, nat)>, key: Option<(KeyPattern, Text)>, args: Option<ArgsSpec>, event: Event)
    requires Completes(s, content, key, args, event)
    ensures key.Some? ==> key == Some((event.key, event.keySource))
    ensures args.Some? ==> args == Some(event.args)
    decreases |content|
  {
    hide SaysKey, SaysArgs;
    if content != [] {
      if SaysKey(s, content[0], event) {
        CompletesKeeps(s, content[1..], Some((event.key, event.keySource)), args, event);
      } else {
        CompletesKeeps(s, content[1..], key, Some(event.args), event);
      }
    }
  }

  lemma CompletesFromNothing(s: Text, content: seq<(nat, nat)>, event: Event)
    ensures Completes(s, content, None, None, event) <==> OneOfEach(s, content, event)
  {
    KeyIsNotArgs(s, content, event);
    var key, args := Some((event.key, event.keySource)), Some(event.args);
    hide SaysKey, SaysArgs;
    if content != [] {
      assert content == [content[0]] + content[1..];
      CompletesCons(s, content[0], content[1..], None, None, event);
      OneMissing(s, content[1..], key, None, event);
      OneMissing(s, content[1..], None, args, event);
    }
  }

  lemma KeyIsNotArgs(s: Text, content: seq<(nat, nat)>, event: Event)
    ensures forall i | 0 <= i < |content| :: !(SaysKey(s, content[i], event) && SaysArgs(s, content[i], event))
  {
    hide MemberOf, IsMember, IsKey, ArgsStand, Tight;
    forall i | 0 <= i < |content| && Stripped(s, content[i])
      ensures !(SaysKey(s, content[i], event) && SaysArgs(s, content[i], event))
    {
      KeyMemberExactly(s, content[i], event);
      ArgsMemberExactly(s, content[i], event);
    }
  }

  lemma OneMissing(
      s: Text, content: seq<(nat, nat)>, key: Option<(KeyPattern, Text)>, args: Option<ArgsSpec>, event: Event)
    requires key.None? || key == Some((event.key, event.keySource))
    requires args.None? || args == Some(event.args)
    requires key.Some? != args.Some?
    ensures Completes(s, content, key, args, event) <==>
            |content| == 1 && if key.Some? then SaysArgs(s, content[0], event) else SaysKey(s, content[0], event)
  {
    KeyIsNotArgs(s, content, event);
    hide SaysKey, SaysArgs;
    if content != [] {
      assert content == [content[0]] + content[1..];
      CompletesCons(s, content[0], content[1..], key, args, event);
    }
  }

  lemma SameMember(s: Text, part: (nat, nat), trimmed: (nat, nat))
    requires part.0 <= part.1 <= |s| && trimmed.0 <= trimmed.1 <= |s|
    requires Trim(s, part.0, part.1) == Trim(s, trimmed.0, trimmed.1) == trimmed
    ensures MemberOf(s, trimmed, false, false) == MemberOf(s, part, false, false)
    ensures MemberOf(s, part, false, false) == Success(Blank) <==> trimmed.0 == trimmed.1
  {
    hide Trim, FindTopLevel, ParseKey, ParseArgs;
  }

  /** A second member of its kind is rejected. */
  lemma SecondMember(s: Text, part: (nat, nat), hasKey: bool, hasArgs: bool)
    requires part.0 <= part.1 <= |s|
    ensures var alone := MemberOf(s, part, false, false);
            if alone.Success? && !(hasKey && alone.value.KeyMember?) && !(hasArgs && alone.value.ArgsMember?)
            then MemberOf(s, part, hasKey, hasArgs) == alone
            else MemberOf(s, part, hasKey, hasArgs).Failure?
  {
    hide Trim, FindTopLevel, ParseKey, ParseArgs;
  }

  /** A member reads the same without the spaces around it; a second one of its kind is rejected. */
  lemma MemberIsItself(s: Text, part: (nat, nat), hasKey: bool, hasArgs: bool)
    requires part.0 <= part.1 <= |s|
    ensures var alone := MemberOf(s, Trim(s, part.0, part.1), false, false);
            if alone.Success? && !(hasKey && alone.value.KeyMember?) && !(hasArgs && alone.value.ArgsMember?)
            then MemberOf(s, part, hasKey, hasArgs) == alone
            else MemberOf(s, part, hasKey, hasArgs).Failure?
    ensures MemberOf(s, part, hasKey, hasArgs) == Success(Blank) <==>
            Trim(s, part.0, part.1).0 == Trim(s, part.0, part.1).1
  {
    hide Trim, MemberOf;
    TrimmedIsTrim(s, part.0, part.1);
    SameMember(s, part, Trim(s, part.0, part.1));
    SecondMember(s, part, hasKey, hasArgs);
  }

  lemma MembersStep(
      s: Text, start: nat, parts: seq<(nat, nat)>, key: Option<(KeyPattern, Text)>, args: Option<ArgsSpec>)
    requires Within(s, parts) && parts != []
    ensures var m := MemberOf(s, parts[0], key.Some?, args.Some?);
            Members(s, start, parts, key, args) ==
            if m.Failure? then Failure(m.error)
            else if m.value.KeyMember? then Members(s, start, parts[1..], Some((m.value.pattern, m.value.source)), args)
            else if m.value.ArgsMember? then Members(s, start, parts[1..], key, Some(m.value.spec))
            else Members(s, start, parts[1..], key, args)
  {
    hide MemberOf;
  }

  /** An entry is read as an event exactly if its members that are not blank are what is missing of it. */
  lemma {:induction false} MembersExactly(
      s: Text, start: nat, parts: seq<(nat, nat)>, key: Option<(KeyPattern, Text)>, args: Option<ArgsSpec>,
      event: Event)
    requires Within(s, parts)
    ensures Members(s, start, parts, key, args) == Success(event) <==>
            Completes(s, Content(s, parts), key, args, event)
    decreases |parts|
  {
    if parts != [] {
      hide *;
      WithinTail(s, parts);
      ContentStep(s, parts);
      MembersStep(s, start, parts, key, args);
      MemberIsItself(s, parts[0], key.Some?, args.Some?);
      var part, rest := Trim(s, parts[0].0, parts[0].1), Content(s, parts[1..]);
      var m := MemberOf(s, parts[0], key.Some?, args.Some?);
      if m == Success(Blank) {
        MembersExactly(s, start, parts[1..], key, args, event);
      } else {
        TrimmedIsTrim(s, parts[0].0, parts[0].1);
        StrippedIsTrimmed(s, part);
        KeyMemberExactly(s, part, event);
        ArgsMemberExactly(s, part, event);
        CompletesCons(s, part, rest, key, args, event);
        if m.Success? && m.value.KeyMember? {
          MembersExactly(s, start, parts[1..], Some((m.value.pattern, m.value.source)), args, event);
          KeyKept(s, rest, (m.value.pattern, m.value.source), args, event);
        } else if m.Success? {
          MembersExactly(s, start, parts[1..], key, Some(m.value.spec), event);
          ArgsKept(s, rest, key, m.value.spec, event);
        }
      }
    }
  }

  lemma KeyKept(s: Text, content: seq<(nat, nat)>, key: (KeyPattern, Text), args: Option<ArgsSpec>, event: Event)
    ensures Completes(s, content, Some(key), args, event) ==> key == (event.key, event.keySource)
  {
    hide Completes;
    if Completes(s, content, Some(key), args, event) {
      CompletesKeeps(s, content, Some(key), args, event);
    }
  }

  lemma ArgsKept(s: Text, content: seq<(nat, nat)>, key: Option<(KeyPattern, Text)>, args: ArgsSpec, event: Event)
    ensures Completes(s, content, key, Some(args), event) ==> args == event.args
  {
    hide Completes;
    if Completes(s, content, key, Some(args), event) {
      CompletesKeeps(s, content, key, Some(args), event);
    }
  }

  /** An entry is read as an event exactly if what it holds, blank places left out, is its key and its args. */
  lemma EntryReadsExactly(s: Text, start: nat, end: nat, event: Event)
    requires start <= end <= |s|
    ensures ParseEntry(s, start, end) == Success(event) <==>
              && Split(s, start, end, {';', ','}).Success?
              && OneOfEach(s, Content(s, Split(s, start, end, {';', ','}).value), event)
  {
    hide Split, SplitFrom, Members, OneOfEach, Content, Completes;
    var split := Split(s, start, end, {';', ','});
    if split.Success? {
      MembersExactly(s, start, split.value, None, None, event);
      CompletesFromNothing(s, Content(s, split.value), event);
    }
  }

  // ---- lists of entries ----------------------------------------------------------------------------------

  /** An entry in its braces. */
  predicate IsEntry(s: Text, part: (nat, nat), event: Event) {
    && part.0 + 2 <= part.1 <= |s| && s[part.0] == '{' && s[part.1 - 1] == '}'
    && ParseEntry(s, part.0 + 1, part.1 - 1) == Success(event)
  }

  predicate AreEntries(s: Text, content: seq<(nat, nat)>, events: seq<Event>) {
    |events| == |content| && forall i | 0 <= i < |content| :: IsEntry(s, content[i], events[i])
  }

  lemma EntriesCons(s: Text, part: (nat, nat), rest: seq<(nat, nat)>, all: seq<(nat, nat)>, events: seq<Event>)
    requires all == [part] + rest
    ensures AreEntries(s, all, events) <==>
            events != [] && IsEntry(s, part, events[0]) && AreEntries(s, rest, events[1..])
  {
    hide IsEntry;
    assert all[0] == part && forall i | 0 <= i < |rest| :: all[i + 1] == rest[i];
    if AreEntries(s, all, events) {
      forall i | 0 <= i < |rest| ensures IsEntry(s, rest[i], events[1..][i]) {
        assert IsEntry(s, all[i + 1], events[i + 1]);
      }
      assert IsEntry(s, all[0], events[0]);
    }
    if events != [] && IsEntry(s, part, events[0]) && AreEntries(s, rest, events[1..]) {
      forall i | 0 <= i < |all| ensures IsEntry(s, all[i], events[i]) {
        assert i > 0 ==> IsEntry(s, rest[i - 1], events[1..][i - 1]);
      }
    }
  }

  lemma EntryIsItself(s: Text, part: (nat, nat), event: Event)
    requires part.0 <= part.1 <= |s|
    ensures EntryOf(s, part) == Success(Some(event)) <==> IsEntry(s, Trim(s, part.0, part.1), event)
  {
    hide Trim, ParseEntry;
  }

  lemma EntriesStep(s: Text, parts: seq<(nat, nat)>, events: seq<Event>)
    requires Within(s, parts) && parts != []
    ensures var e := EntryOf(s, parts[0]);
            Entries(s, parts) == Success(events) <==>
            e.Success? &&
            if e.value.None? then Entries(s, parts[1..]) == Success(events)
            else events != [] && e.value.value == events[0] && Entries(s, parts[1..]) == Success(events[1..])
  {
    hide EntryOf, Prefixed;
    var e, rest := EntryOf(s, parts[0]), Entries(s, parts[1..]);
    if e.Success? {
      assert Entries(s, parts) == Prefixed(if e.value.Some? then [e.value.value] else [], rest);
      hide Entries;
      if e.value.Some? {
        PrefixedIs(e.value.value, rest, events);
      } else {
        PrefixedByNothing(rest);
      }
    }
  }

  lemma PrefixedIs(event: Event, rest: Result<seq<Event>, Fault>, events: seq<Event>)
    ensures Prefixed([event], rest) == Success(events) <==>
            events != [] && event == events[0] && rest == Success(events[1..])
  {
    if rest.Success? {
      assert ([event] + rest.value)[1..] == rest.value;
    }
    assert events != [] ==> events == [events[0]] + events[1..];
  }

  /** A list is read exactly if its places that are not blank are the events, in order. */
  lemma {:induction false} EntriesExactly(s: Text, parts: seq<(nat, nat)>, events: seq<Event>)
    requires Within(s, parts)
    ensures Entries(s, parts) == Success(events) <==> AreEntries(s, Content(s, parts), events)
    decreases |parts|
  {
    if parts != [] {
      hide *;
      WithinTail(s, parts);
      ContentStep(s, parts);
      EntriesStep(s, parts, events);
      var part := Trim(s, parts[0].0, parts[0].1);
      forall event: Event
        ensures EntryOf(s, parts[0]) == Success(Some(event)) <==> IsEntry(s, part, event)
      {
        EntryIsItself(s, parts[0], event);
      }
      BlankOrNot(s, parts[0]);
      if part.0 == part.1 {
        EntriesExactly(s, parts[1..], events);
      } else {
        EntriesCons(s, part, Content(s, parts[1..]), Content(s, parts), events);
        if events != [] {
          EntriesExactly(s, parts[1..], events[1..]);
        }
      }
    }
  }

  lemma BlankOrNot(s: Text, part: (nat, nat))
    requires part.0 <= part.1 <= |s|
    ensures EntryOf(s, part) == Success(None) <==> Trim(s, part.0, part.1).0 == Trim(s, part.0, part.1).1
  {
    hide Trim, ParseEntry;
  }

  /** A stream's list is read exactly if its places that are not blank are the events, in order, and there is one. */
  lemma ListReadsExactly(s: Text, start: nat, end: nat, events: seq<Event>)
    requires start <= end <= |s|
    ensures ParseEntries(s, start, end) == Success(events) <==>
              && Split(s, start, end, {','}).Success? && events != []
              && AreEntries(s, Content(s, Split(s, start, end, {','}).value), events)
  {
    hide Split, SplitFrom, Entries, AreEntries, Content;
    if Split(s, start, end, {','}).Success? {
      EntriesExactly(s, Split(s, start, end, {','}).value, events);
    }
  }
}
