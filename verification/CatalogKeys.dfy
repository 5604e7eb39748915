/** Keys, labels and member names: exactly which text is read as which, said without the functions that read it. */
module CatalogKeys {
  import opened Prelude
  import opened Scanner
  import opened Splitter
  import opened Generics
  import opened CatalogReader

  /** The classes of bytes the reader tells apart, by their ASCII codes. */
  lemma BytesAreTold(c: char)
    ensures IsSpace(c) <==> c as int in {9, 10, 12, 13, 32}
    ensures IsQuote(c) <==> c as int in {34, 39, 96}
    ensures IsAlphanumeric(c) <==> 48 <= c as int <= 57 || 65 <= c as int <= 90 || 97 <= c as int <= 122
    ensures IsIdentifier(c) <==> IsAlphanumeric(c) || c as int in {36, 95}
  {
  }

  // ---- keys ------------------------------------------------------------------------------------------------

  /** The text is this one between two of these quotes, and has none of them itself. */
  predicate Quotes(text: Text, quote: char, inner: Text) {
    quote !in inner && text == [quote] + inner + [quote]
  }

  /** A template hole opens somewhere in the text. */
  ghost predicate OpensHole(text: Text) {
    exists before, after: Text :: HoleBetween(text, before, after)
  }

  predicate HoleBetween(text: Text, before: Text, after: Text) {
    text == before + "${" + after
  }

  /** A template: the hole, the hole and a fixed suffix, or a fixed prefix and the hole. */
  ghost predicate Template(inner: Text, pattern: KeyPattern) {
    match pattern
    case Any => inner == "${string}"
    case Suffix(fixed) => inner == "${string}" + "/" + fixed && fixed != [] && !OpensHole(fixed)
    case Prefix(fixed) => inner == fixed + "/" + "${string}" && fixed != [] && !OpensHole(fixed)
    case Literal(_) => false
  }

  /** The text is a key with this pattern: any string, a plain string, or a template. */
  ghost predicate IsKey(text: Text, pattern: KeyPattern) {
    || (text == "string" && pattern == Any)
    || (pattern.Literal? && '$' !in pattern.text && '\\' !in pattern.text &&
        (Quotes(text, '\'', pattern.text) || Quotes(text, '"', pattern.text)))
    || exists inner: Text :: Quotes(text, '`', inner) && Template(inner, pattern)
  }

  lemma StripsExactly(text: Text, quote: char, inner: Text)
    ensures StripQuotes(text, quote) == Some(inner) <==> Quotes(text, quote, inner)
  {
    if Quotes(text, quote, inner) {
      assert text[1..|text| - 1] == inner;
    }
    if StripQuotes(text, quote) == Some(inner) {
      assert text == [quote] + inner + [quote];
    }
  }

  lemma HoleExactly(text: Text)
    ensures HasHole(text) <==> OpensHole(text)
  {
    if HasHole(text) {
      var i :| 0 <= i < |text| - 1 && text[i] == '$' && text[i + 1] == '{';
      assert text == text[..i] + "${" + text[i + 2..];
      assert HoleBetween(text, text[..i], text[i + 2..]);
    }
    if before, after: Text :| HoleBetween(text, before, after) {
      assert text[|before|] == '$' && text[|before| + 1] == '{';
    }
  }

  lemma SuffixExactly(inner: Text, fixed: Text)
    ensures inner == "${string}" + "/" + fixed <==>
            HOLE <= inner && |inner| >= |HOLE| + 1 && inner[|HOLE|] == '/' && fixed == inner[|HOLE| + 1..]
  {
    var front := "${string}" + "/";
    assert |front| == 10;
    if inner == front + fixed {
      assert inner[..9] == HOLE && inner[10..] == fixed && inner[9] == '/';
    }
    if HOLE <= inner && |inner| >= 10 && inner[9] == '/' && fixed == inner[10..] {
      assert inner == inner[..9] + [inner[9]] + inner[10..];
    }
  }

  lemma PrefixExactly(inner: Text, fixed: Text)
    ensures inner == fixed + "/" + "${string}" <==>
            && |inner| >= |HOLE| + 1 && inner[|inner| - |HOLE|..] == HOLE && inner[|inner| - |HOLE| - 1] == '/'
            && fixed == inner[..|inner| - |HOLE| - 1]
  {
    var n := |inner| - 10;
    if inner == fixed + "/" + "${string}" {
      assert inner[n + 1..] == HOLE && inner[..n] == fixed && inner[n] == '/';
    }
    if n >= 0 && inner[n + 1..] == HOLE && inner[n] == '/' && fixed == inner[..n] {
      assert inner == inner[..n] + [inner[n]] + inner[n + 1..];
    }
  }

  /** What starts with the hole and ends with it has it in its prefix. */
  lemma NotBothEnds(inner: Text, prefix: Text, suffix: Text)
    requires inner == "${string}" + "/" + suffix && inner == prefix + "/" + "${string}" && prefix != []
    ensures OpensHole(prefix)
  {
    assert inner[0] == '$' && inner[1] == '{';
    assert inner[|prefix|] == '/';
    assert prefix[0] == '$' && prefix[1] == '{';
    assert prefix == [] + "${" + prefix[2..];
    assert HoleBetween(prefix, [], prefix[2..]);
  }

  lemma TemplateExactly(inner: Text, pattern: KeyPattern)
    ensures TemplateKey(inner) == Some(pattern) <==> Template(inner, pattern)
  {
    assert |HOLE| == 9;
    var suffix := if |inner| >= 10 then inner[10..] else [];
    var prefix := if |inner| >= 10 then inner[..|inner| - 10] else [];
    SuffixExactly(inner, if pattern.Suffix? then pattern.text else suffix);
    PrefixExactly(inner, if pattern.Prefix? then pattern.text else prefix);
    SuffixExactly(inner, suffix);
    PrefixExactly(inner, prefix);
    HoleExactly(suffix);
    HoleExactly(prefix);
    hide HasHole, OpensHole;
    if inner == "${string}" + "/" + suffix && inner == prefix + "/" + "${string}" && prefix != [] {
      NotBothEnds(inner, prefix, suffix);
    }
  }

  lemma QuotesOnce(text: Text, a: char, x: Text, b: char, y: Text)
    requires Quotes(text, a, x) && Quotes(text, b, y)
    ensures a == b && x == y
  {
    assert text[0] == a && text[0] == b;
    assert text[1..|text| - 1] == x && text[1..|text| - 1] == y;
  }

  lemma NotAnyString(text: Text, quote: char, inner: Text)
    requires Quotes(text, quote, inner) && IsQuote(quote)
    ensures text != "string"
  {
    assert text[0] == quote;
  }

  /** What stripping a kind of quote means. */
  lemma StripMeans(text: Text, quote: char)
    ensures match StripQuotes(text, quote)
            case Some(inner) => Quotes(text, quote, inner)
            case None => forall inner :: !Quotes(text, quote, inner)
  {
    forall inner ensures StripQuotes(text, quote) == Some(inner) <==> Quotes(text, quote, inner) {
      StripsExactly(text, quote, inner);
    }
    hide Quotes, StripQuotes;
  }

  /** For every text and pattern: the text is read as the pattern exactly if it is such a key. */
  lemma KeysReadExactly(text: Text, pattern: KeyPattern)
    ensures KeyOf(text) == Some(pattern) <==> IsKey(text, pattern)
  {
    StripMeans(text, '\'');
    StripMeans(text, '"');
    StripMeans(text, '`');
    forall inner: Text ensures TemplateKey(inner) == Some(pattern) <==> Template(inner, pattern) {
      TemplateExactly(inner, pattern);
    }
    var single, double, back := StripQuotes(text, '\''), StripQuotes(text, '"'), StripQuotes(text, '`');
    if single.Some? { NotAnyString(text, '\'', single.value); }
    if double.Some? { NotAnyString(text, '"', double.value); }
    if back.Some? { NotAnyString(text, '`', back.value); }
    if single.Some? && double.Some? { QuotesOnce(text, '\'', single.value, '"', double.value); }
    if single.Some? && back.Some? { QuotesOnce(text, '\'', single.value, '`', back.value); }
    if double.Some? && back.Some? { QuotesOnce(text, '"', double.value, '`', back.value); }
    forall x, y | Quotes(text, '`', x) && Quotes(text, '`', y) ensures x == y { QuotesOnce(text, '`', x, '`', y); }
    forall x, y | Quotes(text, '"', x) && Quotes(text, '"', y) ensures x == y { QuotesOnce(text, '"', x, '"', y); }
    forall x, y | Quotes(text, '\'', x) && Quotes(text, '\'', y) ensures x == y { QuotesOnce(text, '\'', x, '\'', y); }
    hide Quotes, StripQuotes, TemplateKey, Template;
  }

  // ---- spaces ----------------------------------------------------------------------------------------------

  predicate AllSpaces(text: Text) {
    forall c | c in text :: IsSpace(c)
  }

  /** The text stands in the whole with nothing but spaces around it. */
  predicate Padded(whole: Text, before: Text, text: Text, after: Text) {
    whole == before + text + after && AllSpaces(before) && AllSpaces(after)
  }

  /** The text is what is left of the whole without the spaces around it. */
  ghost predicate Holds(whole: Text, text: Text) {
    exists before, after :: Padded(whole, before, text, after)
  }

  /** No spaces at its ends. */
  predicate Tight(text: Text) {
    text != [] ==> !IsSpace(text[0]) && !IsSpace(text[|text| - 1])
  }

  lemma {:induction false} LeftIsBlank(s: Text, from: nat, until: nat)
    requires from <= until <= |s|
    ensures AllSpaces(s[from..TrimLeft(s, from, until)])
    ensures TrimLeft(s, from, until) < until ==> !IsSpace(s[TrimLeft(s, from, until)])
    decreases until - from
  {
    if from < until && IsSpace(s[from]) {
      LeftIsBlank(s, from + 1, until);
      assert s[from..TrimLeft(s, from, until)] == [s[from]] + s[from + 1..TrimLeft(s, from, until)];
    }
  }

  lemma {:induction false} RightIsBlank(s: Text, from: nat, until: nat)
    requires from <= until <= |s|
    ensures AllSpaces(s[TrimRight(s, from, until)..until])
    ensures from < TrimRight(s, from, until) ==> !IsSpace(s[TrimRight(s, from, until) - 1])
    decreases until - from
  {
    if from < until && IsSpace(s[until - 1]) {
      RightIsBlank(s, from, until - 1);
      assert s[TrimRight(s, from, until)..until] == s[TrimRight(s, from, until)..until - 1] + [s[until - 1]];
    }
  }

  /** A range without the spaces around it: these alone are cut off, and all of them. */
  lemma TrimmedIs(s: Text, from: nat, until: nat)
    requires from <= until <= |s|
    ensures var (left, right) := Trim(s, from, until);
            && Padded(s[from..until], s[from..left], s[left..right], s[right..until]) && Tight(s[left..right])
  {
    var left := TrimLeft(s, from, until);
    var right := TrimRight(s, left, until);
    LeftIsBlank(s, from, until);
    RightIsBlank(s, left, until);
    assert s[from..until] == s[from..left] + s[left..right] + s[right..until];
    if left < right {
      assert s[left..right][0] == s[left] && s[left..right][right - left - 1] == s[right - 1];
    }
    hide TrimLeft, TrimRight, AllSpaces;
  }

  lemma OutsideIsSpace(whole: Text, before: Text, text: Text, after: Text, i: nat)
    requires Padded(whole, before, text, after) && i < |whole| && !(|before| <= i < |before| + |text|)
    ensures IsSpace(whole[i])
  {
    assert whole[i] == if i < |before| then before[i] else after[i - |before| - |text|];
  }

  /** Whatever is no space stands in the text. */
  lemma NoSpaceIsInside(whole: Text, before: Text, text: Text, after: Text, i: nat)
    requires Padded(whole, before, text, after) && i < |whole| && !IsSpace(whole[i])
    ensures |before| <= i < |before| + |text|
  {
    if !(|before| <= i < |before| + |text|) {
      OutsideIsSpace(whole, before, text, after, i);
    }
  }

  lemma EndsAreInside(whole: Text, b: Text, x: Text, a: Text, b': Text, y: Text, a': Text)
    requires Padded(whole, b, x, a) && Padded(whole, b', y, a') && Tight(x) && x != []
    ensures |b'| <= |b| && |b| + |x| <= |b'| + |y|
  {
    assert whole[|b|] == x[0] && whole[|b| + |x| - 1] == x[|x| - 1];
    NoSpaceIsInside(whole, b', y, a', |b|);
    NoSpaceIsInside(whole, b', y, a', |b| + |x| - 1);
  }

  /** Only one tight text stands in a whole with nothing but spaces around it. */
  lemma TightIsUnique(whole: Text, b: Text, x: Text, a: Text, b': Text, y: Text, a': Text)
    requires Padded(whole, b, x, a) && Padded(whole, b', y, a') && Tight(x) && Tight(y)
    ensures x == y
    ensures x != [] ==> b == b' && a == a'
  {
    if x != [] { EndsAreInside(whole, b, x, a, b', y, a'); }
    if y != [] { EndsAreInside(whole, b', y, a', b, x, a); }
    if x != [] {
      assert x == whole[|b|..|b| + |x|] && y == whole[|b'|..|b'| + |y|];
      assert b == whole[..|b|] && b' == whole[..|b'|] && a == whole[|b| + |x|..] && a' == whole[|b'| + |y|..];
    }
  }

  /** What is left of a range without the spaces around it is this text exactly if only spaces stand around that. */
  lemma TrimExactly(s: Text, from: nat, until: nat, text: Text)
    requires from <= until <= |s| && Tight(text)
    ensures s[Trim(s, from, until).0..Trim(s, from, until).1] == text <==> Holds(s[from..until], text)
  {
    var (left, right) := Trim(s, from, until);
    TrimmedIs(s, from, until);
    if before, after :| Padded(s[from..until], before, text, after) {
      TightIsUnique(s[from..until], before, text, after, s[from..left], s[left..right], s[right..until]);
    }
  }

  // ---- members and labels ------------------------------------------------------------------------------------

  /** The first colon outside strings, brackets and generic lists, in a range whose brackets balance. */
  ghost predicate FirstColon(s: Text, from: nat, to: nat, at: nat) {
    && from <= at < to <= |s| && StaysBalanced(s, from, to, 0)
    && Stands(s, from, at, {':'}) && forall k | from <= k < at :: !Stands(s, from, k, {':'})
  }

  ghost predicate NoColon(s: Text, from: nat, to: nat) {
    from <= to <= |s| && StaysBalanced(s, from, to, 0) && forall k | from <= k < to :: !Stands(s, from, k, {':'})
  }

  lemma ColonFound(s: Text, from: nat, to: nat)
    requires from <= to <= |s|
    ensures FindTopLevel(s, from, to, {':'}).Success? <==> StaysBalanced(s, from, to, 0)
    ensures FindTopLevel(s, from, to, {':'}).Success? ==>
              match FindTopLevel(s, from, to, {':'}).value
              case Some(at) => FirstColon(s, from, to, at)
              case None => NoColon(s, from, to)
  {
    SplitSucceedsExactly(s, from, to, {':'});
    forall k: nat | from <= k <= |s|
      ensures IsTopLevelSeparator(s, from, k, OUTSIDE, {':'}) <==> Stands(s, from, k, {':'})
    {
      TopLevelMeans(s, from, k, {':'});
    }
    hide Stands, StaysBalanced, IsTopLevelSeparator, Split, SplitFrom;
    if FindTopLevel(s, from, to, {':'}).Success? {
      FoundIsTheFirst(s, from, to, {':'});
      hide FindTopLevel;
    }
  }

  /** The colon that is found is the first, and none is found only if there is none. */
  lemma ColonExactly(s: Text, from: nat, to: nat, at: nat)
    requires from <= to <= |s|
    ensures FindTopLevel(s, from, to, {':'}) == Success(Some(at)) <==> FirstColon(s, from, to, at)
    ensures FindTopLevel(s, from, to, {':'}) == Success(None) <==> NoColon(s, from, to)
  {
    ColonFound(s, from, to);
    hide FindTopLevel, StaysBalanced, Stands;
  }

  /** A member: its name, the first colon, and its value, with any spaces around both. */
  ghost predicate IsMember(s: Text, part: (nat, nat), name: Text, value: Text) {
    exists at: nat :: FirstColon(s, part.0, part.1, at) && Holds(s[part.0..at], name) && Holds(s[at + 1..part.1], value)
  }

  /** The element's label, or the whole of it, ends with a question mark. */
  ghost predicate EndsOptional(s: Text, from: nat, until: nat) {
    from <= until <= |s| && exists at: nat :: from <= at < until && s[at] == '?' && AllSpaces(s[at + 1..until])
  }

  ghost predicate MarkedOptional(s: Text, from: nat, to: nat) {
    || (exists at: nat :: FirstColon(s, from, to, at) && EndsOptional(s, from, at))
    || (NoColon(s, from, to) && EndsOptional(s, from, to))
  }

  lemma BlankHas(s: Text, from: nat, until: nat, i: nat)
    requires from <= until <= |s| && i < until && AllSpaces(s[from..until])
    ensures from <= i ==> IsSpace(s[i])
  {
    if from <= i {
      assert s[i] == s[from..until][i - from];
    }
  }

  /** A question mark with only spaces after it is the last of the range without the spaces around it. */
  lemma LastMark(s: Text, from: nat, until: nat, at: nat)
    requires from <= at < until <= |s| && s[at] == '?' && AllSpaces(s[at + 1..until])
    ensures Trim(s, from, until).1 == at + 1
  {
    var (left, mark) := Trim(s, from, until);
    TrimmedIs(s, from, until);
    RightIsBlank(s, left, until);
    hide TrimLeft, TrimRight, AllSpaces, Padded, Tight;
    assert s[from..until][at - from] == '?';
    NoSpaceIsInside(s[from..until], s[from..left], s[left..mark], s[mark..until], at - from);
    BlankHas(s, at + 1, until, mark - 1);
  }

  lemma AfterTheMark(s: Text, from: nat, until: nat)
    requires from <= until <= |s|
    ensures AllSpaces(s[Trim(s, from, until).1..until])
  {
    RightIsBlank(s, TrimLeft(s, from, until), until);
    hide TrimLeft, TrimRight, AllSpaces;
  }

  lemma MarkExactly(s: Text, from: nat, until: nat)
    requires from <= until <= |s|
    ensures var mark := Trim(s, from, until).1; (from < mark && s[mark - 1] == '?') <==> EndsOptional(s, from, until)
  {
    hide Trim, AllSpaces;
    AfterTheMark(s, from, until);
    var mark := Trim(s, from, until).1;
    if from < mark && s[mark - 1] == '?' {
      assert s[mark - 1 + 1..until] == s[mark..until];
    }
    if at: nat :| from <= at < until && s[at] == '?' && AllSpaces(s[at + 1..until]) {
      LastMark(s, from, until, at);
    }
  }

  /** An element is optional exactly if its label, or an element without one, ends with a question mark. */
  lemma OptionalExactly(s: Text, from: nat, to: nat)
    requires from <= to <= |s|
    ensures IsOptional(s, from, to).Success? <==> StaysBalanced(s, from, to, 0)
    ensures IsOptional(s, from, to) == Success(true) <==> MarkedOptional(s, from, to)
  {
    ColonFound(s, from, to);
    forall at: nat ensures FindTopLevel(s, from, to, {':'}) == Success(Some(at)) <==> FirstColon(s, from, to, at) {
      if from <= at {
        ColonExactly(s, from, to, at);
      }
    }
    MarkExactly(s, from, to);
    hide FindTopLevel, StaysBalanced, Stands, EndsOptional;
    if FindTopLevel(s, from, to, {':'}).Success? && FindTopLevel(s, from, to, {':'}).value.Some? {
      MarkExactly(s, from, FindTopLevel(s, from, to, {':'}).value.value);
      hide Trim;
    } else {
      hide Trim;
    }
  }
}
