/** Interfaces with comments between their tokens. */
module CatalogComments {
  import opened Prelude
  import opened Scanner
  import opened Splitter
  import opened Pieces
  import opened CatalogPrinter
  import R = CatalogReader

  /** A source as a comment reader sees it: bytes, strings, `//` notes with their newline, and block notes. */
  datatype Token =
    | Byte(c: char)
    | StringLiteral(quote: char, inner: Text)
    | LineNote(text: Text)
    | BlockNote(text: Text)

  function Written(token: Token): (t: Text)
    ensures t != []
  {
    match token
    case Byte(c) => [c]
    case StringLiteral(quote, inner) => [quote] + inner + [quote]
    case LineNote(text) => "//" + text + "\n"
    case BlockNote(text) => "/*" + text + "*/"
  }

  function WithoutNote(token: Token): Text {
    if token.LineNote? || token.BlockNote? then Blanked(Written(token)) else Written(token)
  }

  predicate Proper(token: Token) {
    match token
    case Byte(c) => !IsQuote(c) && c != '/'
    case StringLiteral(quote, inner) => IsQuote(quote) && Quotable(inner, 0, quote)
    case LineNote(text) => '\n' !in text
    case BlockNote(text) => forall k | 0 <= k < |text| :: text[k] == '*' ==> k + 1 < |text| ==> text[k + 1] != '/'
  }

  predicate AllProper(tokens: seq<Token>) {
    forall i | 0 <= i < |tokens| :: Proper(tokens[i])
  }

  function WrittenAll(tokens: seq<Token>): Text {
    if tokens == [] then [] else Written(tokens[0]) + WrittenAll(tokens[1..])
  }

  function WithoutNotes(tokens: seq<Token>): Text {
    if tokens == [] then [] else WithoutNote(tokens[0]) + WithoutNotes(tokens[1..])
  }

  lemma {:induction false} LineEndsAt(s: Text, i: nat, stop: nat)
    requires i <= stop < |s| && s[stop] == '\n' && forall k | i <= k < stop :: s[k] != '\n'
    ensures LineEnd(s, i) == stop
    decreases stop - i
  {
    if i < stop {
      LineEndsAt(s, i + 1, stop);
    }
  }

  lemma {:induction false} BlockEndsAt(s: Text, i: nat, stop: nat)
    requires i <= stop && stop + 1 < |s| && s[stop] == '*' && s[stop + 1] == '/'
    requires forall k | i <= k < stop :: !(s[k] == '*' && s[k + 1] == '/')
    ensures BlockEnd(s, i) == stop + 2
    decreases stop - i
  {
    if i < stop {
      BlockEndsAt(s, i + 1, stop);
    }
  }

  lemma LineNoteEnds(s: Text, p: nat, text: Text, stop: nat)
    requires Proper(LineNote(text)) && stop == p + 2 + |text| && At(s, p, Written(LineNote(text)))
    ensures p + 1 < stop < |s| && s[p] == '/' && s[p + 1] == '/' && s[stop] == '\n' && LineEnd(s, p + 1) == stop
    ensures s[p..stop] == "//" + text
  {
    var t := Written(LineNote(text));
    forall k | p + 1 <= k < stop ensures s[k] != '\n' {
      AtIndex(s, p, t, k - p);
      assert k - p >= 2 ==> t[k - p] == text[k - p - 2] && text[k - p - 2] in text;
    }
    AtIndex(s, p, t, 0);
    AtIndex(s, p, t, 1);
    AtIndex(s, p, t, 2 + |text|);
    AtConcat(s, p, "//" + text, "\n");
    hide At;
    LineEndsAt(s, p + 1, stop);
  }

  /** A newline is kept, so a line note may be taken together with it. */
  lemma LineNoteVanishes(s: Text, p: nat, text: Text)
    requires Proper(LineNote(text)) && At(s, p, Written(LineNote(text)))
    ensures p + |text| + 3 <= |s| && Stripped(s, p) == Blanked(Written(LineNote(text))) + Stripped(s, p + |text| + 3)
  {
    var stop, note := p + 2 + |text|, "//" + text;
    hide *;
    LineNoteEnds(s, p, text, stop);
    LineIsBlanked(s, p, note, stop);
    NewlineStays(s, stop);
    BlankedLine(text, note);
    Regroup(Blanked(note), ['\n'], Stripped(s, stop + 1));
  }

  lemma LineIsBlanked(s: Text, p: nat, note: Text, stop: nat)
    requires p + 1 < stop < |s| && s[p] == '/' && s[p + 1] == '/' && LineEnd(s, p + 1) == stop && s[p..stop] == note
    ensures Stripped(s, p) == Blanked(note) + Stripped(s, stop)
  {
    hide LineEnd, BlockEnd, StringEnd, Stripped, Blanked;
    StrippedStep(s, p, Blanked(note), stop);
  }

  lemma NewlineStays(s: Text, p: nat)
    requires p < |s| && s[p] == '\n'
    ensures Stripped(s, p) == ['\n'] + Stripped(s, p + 1)
  {
    hide Stripped;
    CodeStays(s, p);
  }

  lemma BlankedLine(text: Text, note: Text)
    requires note == "//" + text
    ensures Blanked(Written(LineNote(text))) == Blanked(note) + ['\n']
  {
    assert Written(LineNote(text)) == note + ['\n'];
  }

  lemma BlockNoteEnds(s: Text, p: nat, text: Text, stop: nat)
    requires Proper(BlockNote(text)) && stop == p + 2 + |text| && At(s, p, Written(BlockNote(text)))
    ensures stop + 2 <= |s| && BlockEnd(s, p + 2) == stop + 2
  {
    var t := Written(BlockNote(text));
    forall k | p + 2 <= k < stop ensures !(s[k] == '*' && s[k + 1] == '/') {
      AtIndex(s, p, t, k - p);
      AtIndex(s, p, t, k + 1 - p);
    }
    AtIndex(s, p, t, 2 + |text|);
    AtIndex(s, p, t, 3 + |text|);
    BlockEndsAt(s, p + 2, stop);
  }

  lemma BlockNoteVanishes(s: Text, p: nat, text: Text)
    requires Proper(BlockNote(text)) && At(s, p, Written(BlockNote(text)))
    ensures p + |text| + 4 <= |s| && Stripped(s, p) == Blanked(Written(BlockNote(text))) + Stripped(s, p + |text| + 4)
  {
    var t, stop := Written(BlockNote(text)), p + 2 + |text|;
    AtIndex(s, p, t, 0);
    AtIndex(s, p, t, 1);
    assert s[p..stop + 2] == t;
    hide LineEnd, BlockEnd, StringEnd, At, Stripped, Blanked;
    BlockNoteEnds(s, p, text, stop);
    StrippedStep(s, p, Blanked(t), stop + 2);
  }

  lemma StringPasses(s: Text, p: nat, quote: char, inner: Text)
    requires Proper(StringLiteral(quote, inner)) && At(s, p, Written(StringLiteral(quote, inner)))
    ensures p + |inner| + 2 <= |s|
    ensures Stripped(s, p) == Written(StringLiteral(quote, inner)) + Stripped(s, p + |inner| + 2)
  {
    assert WellFormed(Str(quote, inner));
    hide Stripped, At, Quotable;
    StringStays(s, p, quote, inner);
  }

  lemma TokenPasses(s: Text, p: nat, token: Token)
    requires Proper(token) && At(s, p, Written(token))
    ensures p + |Written(token)| <= |s| && Stripped(s, p) == WithoutNote(token) + Stripped(s, p + |Written(token)|)
  {
    hide Stripped, Quotable, Blanked, At;
    match token
    case Byte(c) =>
      AtIndex(s, p, [c], 0);
      AtBound(s, p, [c]);
      CodeStays(s, p);
    case StringLiteral(quote, inner) => StringPasses(s, p, quote, inner);
    case LineNote(text) => LineNoteVanishes(s, p, text);
    case BlockNote(text) => BlockNoteVanishes(s, p, text);
  }

  lemma Unrolled(s: Text, p: nat, tokens: seq<Token>)
    requires tokens != [] && AllProper(tokens) && At(s, p, WrittenAll(tokens))
    ensures Proper(tokens[0]) && AllProper(tokens[1..])
    ensures At(s, p, Written(tokens[0])) && At(s, p + |Written(tokens[0])|, WrittenAll(tokens[1..]))
    ensures WrittenAll(tokens) == Written(tokens[0]) + WrittenAll(tokens[1..])
    ensures WithoutNotes(tokens) == WithoutNote(tokens[0]) + WithoutNotes(tokens[1..])
  {
    hide At, Written, WithoutNote, Proper;
    AtConcat(s, p, Written(tokens[0]), WrittenAll(tokens[1..]));
  }

  lemma NoTokens(tokens: seq<Token>, rest: Text)
    requires tokens == []
    ensures WrittenAll(tokens) == [] && WithoutNotes(tokens) + rest == rest
  {
  }

  /** Blanking comments blanks the notes and nothing else. */
  lemma {:induction false} NotesVanish(s: Text, p: nat, tokens: seq<Token>)
    requires AllProper(tokens) && At(s, p, WrittenAll(tokens))
    ensures p + |WrittenAll(tokens)| <= |s|
    ensures Stripped(s, p) == WithoutNotes(tokens) + Stripped(s, p + |WrittenAll(tokens)|)
    decreases |tokens|
  {
    hide *;
    AtBound(s, p, WrittenAll(tokens));
    if tokens == [] {
      NoTokens(tokens, Stripped(s, p));
    } else {
      var first, rest := Written(tokens[0]), WrittenAll(tokens[1..]);
      Unrolled(s, p, tokens);
      TokenPasses(s, p, tokens[0]);
      NotesVanish(s, p + |first|, tokens[1..]);
      Regroup(WithoutNote(tokens[0]), WithoutNotes(tokens[1..]), Stripped(s, p + |first| + |rest|));
    }
  }

  lemma AtStart(front: Text, rest: Text)
    ensures At(front + rest, 0, front)
  {
  }

  /** A written interface with comments in it, and anything at all after it, is read as the interface. */
  lemma CommentedTextReads(tokens: seq<Token>, before: Text, i: Interface, rest: Text)
    requires PlainInterface(i) && !Mentions(before, R.NEEDLE)
    requires AllProper(tokens) && WithoutNotes(tokens) == before + Print(i)
    ensures ReadsAs(R.Parse(WrittenAll(tokens) + rest), i.declarations)
  {
    hide *;
    var s, end := WrittenAll(tokens) + rest, |WrittenAll(tokens)|;
    AtStart(WrittenAll(tokens), rest);
    NotesVanish(s, 0, tokens);
    assert Stripped(s, 0) == before + Print(i) + Stripped(s, end);
    RoundTrip(s, before, i, Stripped(s, end));
  }
}
