/** Which interface is read: the first mention of the name, and the braces that follow it. */
module CatalogHeading {
  import opened Prelude
  import opened Scanner
  import opened Splitter
  import opened Pieces
  import opened CatalogReader
  import O = CatalogOrder
  import P = CatalogPrinter

  // ---- what the reader takes ---------------------------------------------------------------------

  /** The first place from `from` on where `part` stands. */
  predicate FirstFrom(s: Text, from: nat, at: nat, part: Text) {
    from <= at && At(s, at, part) && forall k | from <= k < at :: !At(s, k, part)
  }

  lemma PrefixStands(s: Text, i: nat, part: Text)
    requires i <= |s|
    ensures part <= s[i..] <==> At(s, i, part)
  {
    if At(s, i, part) {
      assert s[i..][..|part|] == s[i..i + |part|];
    }
  }

  lemma {:induction false} FindIsFirst(s: Text, i: nat, part: Text, at: nat)
    requires i <= |s|
    ensures Find(s, i, part) == Some(at) <==> FirstFrom(s, i, at, part)
    decreases |s| - i
  {
    PrefixStands(s, i, part);
    if !At(s, i, part) && i < |s| {
      FindIsFirst(s, i + 1, part, at);
    }
  }

  /** Where the name is first mentioned, and the braces from the first `{` after that on. */
  predicate Taken(s: Text, start: nat, brace: nat, end: nat) {
    && FirstFrom(s, 0, start, NEEDLE) && FirstFrom(s, start, brace, "{")
    && brace < |s| && Matching(s, brace, '{', '}', 0) == Some(end)
  }

  lemma BodyBy(s: Text, start: nat, found: Option<nat>)
    requires start <= |s| && Find(s, 0, NEEDLE) == Some(start) && Find(s, start, "{") == found
    ensures O.Body(s) == if found.None? || Matching(s, found.value, '{', '}', 0).None? then None
                         else Some((found.value + 1, Matching(s, found.value, '{', '}', 0).value))
  {
    hide Matching, Find, NEEDLE;
  }

  /** The body that is read is that of the braces taken. */
  lemma BodyIsTaken(s: Text, start: nat, brace: nat, end: nat)
    ensures Taken(s, start, brace, end) <==> O.Body(s) == Some((brace + 1, end)) && Find(s, 0, NEEDLE) == Some(start)
  {
    FindIsFirst(s, 0, NEEDLE, start);
    hide Matching, Find, NEEDLE, FirstFrom, O.Body, Taken;
    if Find(s, 0, NEEDLE) == Some(start) {
      var found := Find(s, start, "{");
      BodyBy(s, start, found);
      FindIsFirst(s, start, "{", brace);
      TakenMeans(s, start, brace, end, found == Some(brace));
    } else {
      TakenMeans(s, start, brace, end, FirstFrom(s, start, brace, "{"));
    }
  }

  lemma TakenMeans(s: Text, start: nat, brace: nat, end: nat, found: bool)
    requires found <==> FirstFrom(s, start, brace, "{")
    ensures Taken(s, start, brace, end) <==>
            FirstFrom(s, 0, start, NEEDLE) && found && brace < |s| && Matching(s, brace, '{', '}', 0) == Some(end)
  {
    hide Matching, NEEDLE, FirstFrom;
  }

  // ---- whose body it is --------------------------------------------------------------------------

  const KEYWORD: Text := "interface "

  const NAME: Text := "StreamerEvents"

  /** Outside strings, reading from `i`. */
  predicate InCode(s: Text, i: nat, at: nat)
    requires i <= |s|
    decreases |s| - i
  {
    if i >= at || i == |s| then i == at
    else InCode(s, if IsQuote(s[i]) then StringEnd(s, i + 1, s[i]) else i + 1, at)
  }

  /** A word of code starts at `at`. */
  predicate StartsWord(s: Text, at: nat) {
    at < |s| && InCode(s, 0, at) && (at > 0 ==> !IsIdentifier(s[at - 1]))
  }

  predicate Spaces(s: Text, from: nat, to: nat) {
    to <= |s| && forall k | from <= k < to :: IsSpace(s[k])
  }

  /**
   * At `at` an interface of that very name is declared, and only spaces stand between the name and its
   * brace: it has no type parameters and inherits nothing.
   */
  predicate Declares(s: Text, at: nat, name: Text, brace: nat) {
    var from := at + |KEYWORD|;
    && StartsWord(s, at) && At(s, at, KEYWORD)
    && from < IdentifierEnd(s, from, |s|) <= brace < |s| && s[from..IdentifierEnd(s, from, |s|)] == name
    && Spaces(s, IdentifierEnd(s, from, |s|), brace) && s[brace] == '{'
  }

  lemma NeedleIsBoth(s: Text, at: nat)
    ensures At(s, at, NEEDLE) <==> At(s, at, KEYWORD) && At(s, at + |KEYWORD|, NAME)
  {
    assert NEEDLE == KEYWORD + NAME;
    if At(s, at, NEEDLE) {
      AtConcat(s, at, KEYWORD, NAME);
    }
    if At(s, at, KEYWORD) && At(s, at + |KEYWORD|, NAME) {
      assert s[at..at + |NEEDLE|] == s[at..at + |KEYWORD|] + s[at + |KEYWORD|..at + |NEEDLE|];
    }
  }

  lemma NameIsWord(s: Text, at: nat)
    requires At(s, at, NAME)
    ensures forall k | at <= k < at + |NAME| :: IsIdentifier(s[k])
  {
    forall k | at <= k < at + |NAME| ensures IsIdentifier(s[k]) {
      AtIndex(s, at, NAME, k - at);
      assert IsIdentifier(NAME[k - at]);
    }
  }

  /**
   * A declaration of the name is where the name stands as a whole word of code with nothing but spaces
   * up to a brace.
   */
  lemma DeclaresExactly(s: Text, at: nat, brace: nat)
    ensures Declares(s, at, NAME, brace) <==>
            && StartsWord(s, at) && At(s, at, NEEDLE) && at + |NEEDLE| <= brace < |s| && s[brace] == '{'
            && Spaces(s, at + |NEEDLE|, brace)
  {
    var from, after := at + |KEYWORD|, at + |NEEDLE|;
    NeedleIsBoth(s, at);
    assert |NEEDLE| == |KEYWORD| + |NAME|;
    hide StartsWord;
    if At(s, at, NEEDLE) && after <= brace < |s| && s[brace] == '{' && Spaces(s, after, brace) {
      NameIsWord(s, from);
      assert IsSpace(s[after]) || s[after] == '{';
      hide At, KEYWORD, NAME, NEEDLE;
      P.IdentifierPasses(s, from, after, |s|);
    }
  }

  /**
   * The body that is read is that of an interface of exactly this name, without type parameters and
   * heritage, if and only if the first mention of the name is a word of code with nothing but spaces
   * up to the brace.
   */
  lemma OwnHeadingExactly(s: Text, start: nat, brace: nat, end: nat)
    requires Taken(s, start, brace, end)
    ensures Declares(s, start, NAME, brace) <==> StartsWord(s, start) && Spaces(s, start + |NEEDLE|, brace)
  {
    DeclaresExactly(s, start, brace);
    BraceAfterName(s, start, brace);
  }

  lemma BraceAfterName(s: Text, start: nat, brace: nat)
    requires At(s, start, NEEDLE) && FirstFrom(s, start, brace, "{")
    ensures start + |NEEDLE| <= brace < |s| && s[brace] == '{'
  {
    AtIndex(s, brace, "{", 0);
    if brace < start + |NEEDLE| {
      AtIndex(s, start, NEEDLE, brace - start);
      P.NoBraceInNeedle(brace - start);
    }
  }

  /**
   * Given a declaration of the name: its body is the one that is read if and only if its braces match
   * and no `{` stands between the first mention of the name, wherever that is, and its own brace.
   */
  lemma DeclarationIsTakenExactly(s: Text, start: nat, at: nat, brace: nat, end: nat)
    requires Declares(s, at, NAME, brace) && FirstFrom(s, 0, start, NEEDLE)
    ensures O.Body(s) == Some((brace + 1, end)) <==>
            Matching(s, brace, '{', '}', 0) == Some(end) && forall k | start <= k < brace :: s[k] != '{'
  {
    DeclaresExactly(s, at, brace);
    BodyIsTaken(s, start, brace, end);
    FindIsFirst(s, 0, NEEDLE, start);
    assert start <= at;
    OneByte(s, start, brace, '{');
    hide O.Body, Matching, Find, Declares, At, NEEDLE;
    if O.Body(s) == Some((brace + 1, end)) {
      assert Taken(s, start, brace, end);
    }
  }

  lemma OneByte(s: Text, from: nat, at: nat, c: char)
    requires from <= at < |s| && s[at] == c
    ensures FirstFrom(s, from, at, [c]) <==> forall k | from <= k < at :: s[k] != c
  {
    assert At(s, at, [c]) by {
      assert s[at..at + 1] == [c];
    }
    forall k | from <= k < at ensures At(s, k, [c]) <==> s[k] == c {
      assert s[k..k + 1] == [s[k]];
    }
  }
}
