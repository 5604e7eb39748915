/** Sources that a stricter reader would reject: headings that are not looked at, and what a body may hold. */
module CatalogLoose {
  import opened Prelude
  import opened Scanner
  import opened Splitter
  import opened Pieces
  import opened CatalogLayout
  import opened CatalogPrinter
  import opened CatalogSamples
  import R = CatalogReader
  import G = CatalogRanges

  // ---- one stream with one event, as text --------------------------------------------------------------

  /** `key:string;args:` and the args. */
  function SlimMembers(args: seq<Padded<Alternative>>): seq<Padded<Member>> {
    [Only(KeyMember([], [], Key(R.Any, None)), ';'), Only(ArgsMember([], [], args), ';')]
  }

  function SlimEntries(args: seq<Padded<Alternative>>): seq<Padded<Entry>> {
    [Only(Entry(SlimMembers(args)), ',')]
  }

  function SlimStream(name: Text, args: seq<Padded<Alternative>>): Declaration {
    Declaration(name, None, [], [], SlimEntries(args), [])
  }

  function SlimText(name: Text, args: Text): Text {
    name + ":[{key:string;args:" + args + "}]"
  }

  lemma SlimIsPlain(name: Text, args: seq<Padded<Alternative>>)
    requires PlainArgs(args) && name != [] && forall i | 0 <= i < |name| :: R.IsIdentifier(name[i])
    ensures PlainDeclaration(SlimStream(name, args))
    ensures Items(SlimEntries(args)) == [Entry(SlimMembers(args))] && PlainEntry(Entry(SlimMembers(args)))
    ensures TheArgs(Entry(SlimMembers(args))) == args
  {
    hide PlainArgs;
    var members := SlimMembers(args);
    assert members[1..] == [members[1]] && [members[1]][1..] == [];
    assert Items([members[1]]) == [members[1].item.value];
    assert Items(members) == [members[0].item.value, members[1].item.value];
    assert PlainMember(members[0].item.value) && PlainMember(members[1].item.value);
    assert SlimEntries(args)[1..] == [];
  }

  lemma MemberText(m: Member, name: Text, value: Text)
    requires TextOfAll(MemberField(m).name) == name && TextOfAll(MemberField(m).value) == value
    requires MemberField(m).before == [] == MemberField(m).after
    ensures CellText(MemberCell(Only(m, ';'))) == name + ":" + value
  {
    hide TextOfAll, FieldPieces;
    FieldText(MemberField(m), name, value);
  }

  lemma MembersText(args: seq<Padded<Alternative>>, t: Text)
    requires TextOfAll(PrintArgs(args)) == t
    ensures TextOfAll(Joined(MemberCells(SlimMembers(args)))) == "key:string;args:" + t
  {
    var members := SlimMembers(args);
    var cells := MemberCells(members);
    CharsRead("key");
    CharsRead("string");
    CharsRead("args");
    hide TextOfAll, Joined, CellText, PrintArgs;
    MemberText(members[0].item.value, "key", "string");
    MemberText(members[1].item.value, "args", t);
    TextOfJoined(cells);
    TextOfJoined(cells[1..]);
    KeyThenArgs(t);
  }

  lemma KeyThenArgs(t: Text)
    ensures "key" + ":" + "string" + [';'] + ("args" + ":" + t) == "key:string;args:" + t
  {
  }

  lemma SlimReads(name: Text, args: seq<Padded<Alternative>>, t: Text)
    requires TextOfAll(PrintArgs(args)) == t
    ensures TextOfAll(FieldPieces(DeclarationField(SlimStream(name, args)))) == SlimText(name, t)
  {
    var cells := EntryCells(SlimEntries(args));
    var f := DeclarationField(SlimStream(name, args));
    var list := Group('[', ']', Joined(cells));
    MembersText(args, t);
    CharsRead(name);
    EntryText(Entry(SlimMembers(args)));
    TextOfOne(list);
    hide TextOfAll, FieldPieces, Joined, CellText, PrintArgs, MemberCells, SlimMembers;
    SlimCell(args, t);
    TextOfJoined(cells);
    FieldText(f, name + [], [] + TextOfAll(f.value));
    SlimTextIs(name, t);
  }

  lemma SlimCell(args: seq<Padded<Alternative>>, t: Text)
    requires TextOfAll(PrintEntry(Entry(SlimMembers(args)))) == ['{'] + ("key:string;args:" + t) + ['}']
    ensures EntryCells(SlimEntries(args)) == [EntryCell(SlimEntries(args)[0])]
    ensures CellText(EntryCell(SlimEntries(args)[0])) == ['{'] + ("key:string;args:" + t) + ['}']
  {
    hide TextOfAll, PrintEntry;
  }

  lemma SlimTextIs(name: Text, t: Text)
    ensures (name + []) + [':'] + ([] + (['['] + (['{'] + ("key:string;args:" + t) + ['}']) + [']'])) ==
        SlimText(name, t)
  {
  }

  // ---- bodies of such streams ----------------------------------------------------------------------------

  function Slim(ds: seq<Declaration>): Interface {
    Interface([], [], ds)
  }

  lemma BlockText(ds: seq<Declaration>, t: Text)
    requires TextOfAll(PrintBody(ds)) == t
    ensures TextOfAll(PrintBlock(Slim(ds))) == "{" + t + "}"
  {
    PrintIs(Slim(ds));
    assert [] + t == t;
    hide TextOfAll, PrintBody, PrintBlock;
  }

  lemma OneStream(d: Declaration, t: Text)
    requires TextOfAll(FieldPieces(DeclarationField(d))) == t && d.tail == []
    ensures TextOfAll(PrintBody([d])) == t
  {
    BodyCons([d]);
    assert [d][1..] == [] && TextOfAll(PrintBody([])) == [];
    assert t + ([] + []) == t;
  }

  lemma TwoStreams(d: Declaration, t: Text)
    requires TextOfAll(FieldPieces(DeclarationField(d))) == t && d.tail == []
    ensures TextOfAll(PrintBody([d, d])) == t + t
  {
    BodyCons([d, d]);
    OneStream(d, t);
    assert [d, d][1..] == [d];
    hide TextOfAll, PrintBody, FieldPieces, DeclarationField;
    assert [] + t == t;
  }

  /** No quotes and no slashes, so no strings and no comments. */
  predicate IsQuiet(t: Text) {
    forall k | 0 <= k < |t| :: !IsQuote(t[k]) && t[k] != '/'
  }

  lemma NoNotes(s: Text)
    requires IsQuiet(s)
    ensures Stripped(s, 0) == s
  {
    hide StringEnd, LineEnd, BlockEnd, RegionAt;
    PlainIsKept(s, 0, |s|);
  }

  lemma QuietTogether(a: Text, b: Text)
    ensures IsQuiet(a + b) <==> IsQuiet(a) && IsQuiet(b)
  {
    var all := a + b;
    if IsQuiet(all) {
      assert forall k | 0 <= k < |a| :: a[k] == all[k];
      assert forall k | 0 <= k < |b| :: b[k] == all[|a| + k];
    }
  }

  lemma NeedleIsQuiet()
    ensures IsQuiet(R.NEEDLE)
  {
  }

  lemma SlimIsQuiet(name: Text, args: Text)
    requires IsQuiet(name) && IsQuiet(args)
    ensures IsQuiet(SlimText(name, args))
  {
    var colon := ":[{key:string;args:";
    assert IsQuiet(colon) && IsQuiet("}]");
    hide IsQuiet;
    QuietTogether(name, colon);
    QuietTogether(name + colon, args);
    QuietTogether(name + colon + args, "}]");
  }

  lemma BracedIsQuiet(t: Text)
    requires IsQuiet(t)
    ensures IsQuiet("{" + t + "}")
  {
  }

  /** The names of the streams that are read, in order. */
  predicate ReadsNames(r: Result<seq<R.Stream>, Fault>, names: seq<Text>) {
    r.Success? && |r.value| == |names| && forall i | 0 <= i < |names| :: r.value[i].name == names[i]
  }

  // ---- headings --------------------------------------------------------------------------------------------

  const WORD := Element(Chars("A"), None, None)

  const ONE_WORD: seq<Padded<Alternative>> := [Only(Slots([Only(WORD, ',')]), '|')]

  /** `{a:[{key:string;args:[A]}]}` with that name for `a`. */
  function Braces(name: Text): Text {
    "{" + SlimText(name, "[A]") + "}"
  }

  lemma WordIsPlain(t: Text)
    requires |t| == 1 && R.IsIdentifier(t[0])
    ensures PlainElement(Element(Chars(t), None, None)) && TextOfAll(Chars(t)) == t
  {
    CharsRead(t);
    assert IsBare(t);
    FitsChars(t, {',', ':'});
  }

  lemma OneWordIsPlain()
    ensures PlainArgs(ONE_WORD) && TextOfAll(PrintArgs(ONE_WORD)) == "[A]"
  {
    WordIsPlain("A");
    hide TextOfAll, PlainAlternatives;
    TupleOfOne(WORD, "A");
    assert Items(ONE_WORD) == [Slots([Only(WORD, ',')])] by {
      assert ONE_WORD[1..] == [];
    }
  }

  lemma BracesArePlain(name: Text)
    requires |name| == 1 && R.IsIdentifier(name[0])
    ensures PlainInterface(Slim([SlimStream(name, ONE_WORD)]))
    ensures TextOfAll(PrintBlock(Slim([SlimStream(name, ONE_WORD)]))) == Braces(name)
    ensures IsQuiet(Braces(name))
  {
    assert IsQuiet(name) && IsQuiet("[A]");
    OneWordIsPlain();
    hide ONE_WORD, TextOfAll, PlainDeclaration, PrintBody, FieldPieces, PrintBlock, PrintArgs, PlainArgs, IsQuiet;
    hide SlimText;
    SlimIsPlain(name, ONE_WORD);
    SlimReads(name, ONE_WORD, "[A]");
    OneStream(SlimStream(name, ONE_WORD), SlimText(name, "[A]"));
    BlockText([SlimStream(name, ONE_WORD)], SlimText(name, "[A]"));
    SlimIsQuiet(name, "[A]");
    BracedIsQuiet(SlimText(name, "[A]"));
  }

  /** Whatever heading stands before these braces, and whatever after them. */
  lemma BracesRead(name: Text, heading: Text, after: Text)
    requires |name| == 1 && R.IsIdentifier(name[0]) && '{' !in heading && IsQuiet(heading) && IsQuiet(after)
    ensures ReadsNames(R.Parse(R.NEEDLE + heading + Braces(name) + after), [name])
  {
    var i, text := Slim([SlimStream(name, ONE_WORD)]), R.NEEDLE + heading + Braces(name);
    hide *;
    BracesArePlain(name);
    NeedleIsQuiet();
    QuietTogether(R.NEEDLE, heading);
    QuietTogether(R.NEEDLE + heading, Braces(name));
    QuietTogether(text, after);
    NoNotes(text + after);
    NothingBefore(text, after);
    HeadingIsIgnored(text + after, [], heading, i, after);
    NamesRead(R.Parse(text + after), name, ONE_WORD);
  }

  lemma NothingBefore(text: Text, after: Text)
    ensures [] + text + after == text + after && !Mentions([], R.NEEDLE)
  {
    assert [] + text == text;
  }

  lemma Flattens(front: Text, back: Text)
    ensures front + [] + back == front + back && front + back + [] == front + back
    ensures '{' !in []
  {
  }

  lemma NamesRead(r: Result<seq<R.Stream>, Fault>, name: Text, args: seq<Padded<Alternative>>)
    requires ReadsAs(r, Slim([SlimStream(name, args)]).declarations)
    ensures ReadsNames(r, [name])
  {
    hide SameEntry, PlainEntry, Items;
  }

  /** A heritage clause is not looked at: whatever `Base` declares is missing from the catalog. */
  lemma InheritedStreamsAreLost()
    ensures ReadsNames(R.Parse(R.NEEDLE + " extends Base" + Braces("a")), ["a"])
  {
    var text := R.NEEDLE + " extends Base" + Braces("a");
    assert IsQuiet(" extends Base") && '{' !in " extends Base" && IsQuiet([]) && R.IsIdentifier('a');
    hide R.NEEDLE, Braces, IsQuiet, ReadsNames, R.Parse;
    assert text + [] == text;
    BracesRead("a", " extends Base", []);
  }

  /**
   * An interface whose name only starts like that one is read in its place: the stream `b`, which the
   * interface itself declares and which is read when it stands alone, is missing.
   */
  lemma LongerNameIsTaken()
    ensures ReadsNames(R.Parse(R.NEEDLE + Braces("b")), ["b"])
    ensures ReadsNames(R.Parse(R.NEEDLE + "Old" + Braces("a") + (R.NEEDLE + Braces("b"))), ["a"])
  {
    assert IsQuiet("Old") && '{' !in "Old" && IsQuiet([]) && R.IsIdentifier('a') && R.IsIdentifier('b');
    hide *;
    NeedleIsQuiet();
    BracesArePlain("b");
    QuietTogether(R.NEEDLE, Braces("b"));
    Flattens(R.NEEDLE, Braces("b"));
    BracesRead("b", [], []);
    BracesRead("a", "Old", R.NEEDLE + Braces("b"));
  }

  // ---- bodies ------------------------------------------------------------------------------------------------

  const SLOTS: seq<Padded<Element>> := [
    Only(Element(Chars("A"), None, None), ','),
    Padded([], None, [], ','),
    Only(Element(Chars("B"), None, None), ',')]

  const GAPPED: seq<Padded<Alternative>> := [Only(Slots(SLOTS), '|')]

  lemma SlotsText()
    ensures TextOfAll(Joined(ElementCells(SLOTS))) == "A,,B"
  {
    var cells := ElementCells(SLOTS);
    CharsRead("A");
    CharsRead("B");
    assert CellText(cells[1]) == [];
    TextIsLabel(SLOTS[0].item.value, "A");
    TextIsLabel(SLOTS[2].item.value, "B");
    hide TextOfAll, Joined;
    TextOfJoined(cells);
    TextOfJoined(cells[1..]);
    TextOfJoined(cells[1..][1..]);
    assert "A" + [','] + ([] + [','] + "B") == "A,,B";
  }

  lemma TextIsLabel(e: Element, t: Text)
    requires e.mark.None? && e.rest.None? && TextOfAll(e.head) == t
    ensures CellText(ElementCell(Only(e, ','))) == t
  {
    assert e.head + [] == e.head;
    assert [] + t + [] == t;
  }

  lemma SlotsArePlain()
    ensures PlainElements(SLOTS) && Items(SLOTS) == [SLOTS[0].item.value, SLOTS[2].item.value]
  {
    WordIsPlain("A");
    WordIsPlain("B");
    hide PlainElement;
    assert SLOTS[1..][1..] == [SLOTS[2]] && [SLOTS[2]][1..] == [] && SLOTS[1..][0] == SLOTS[1];
    assert Items([SLOTS[2]]) == [SLOTS[2].item.value];
    assert Items(SLOTS[1..]) == [SLOTS[2].item.value];
  }

  lemma SlotsInBrackets()
    ensures TextOfAll(PrintAlternative(Slots(SLOTS))) == "[A,,B]"
  {
    SlotsText();
    hide TextOfAll, SLOTS, Joined, ElementCells;
    TextOfOne(Group('[', ']', Joined(ElementCells(SLOTS))));
  }

  lemma OneAlternative(a: Alternative, t: Text)
    requires TextOfAll(PrintAlternative(a)) == t
    ensures TextOfAll(PrintArgs([Only(a, '|')])) == t && Items([Only(a, '|')]) == [a]
  {
    hide TextOfAll, PrintAlternative;
    assert [Only(a, '|')][1..] == [];
    TextOfJoined(AlternativeCells([Only(a, '|')]));
    assert [] + t + [] == t;
  }

  lemma GappedIsPlain()
    ensures PlainArgs(GAPPED) && TextOfAll(PrintArgs(GAPPED)) == "[A,,B]"
  {
    SlotsArePlain();
    SlotsInBrackets();
    assert SLOTS != [];
    hide TextOfAll, SLOTS, PlainElements, PrintArgs, PrintAlternative;
    OneAlternative(Slots(SLOTS), "[A,,B]");
  }

  /** Two streams of one name, nothing between them, and blank places between the slots. */
  const CROWDED: Text := "{" + (SlimText("a", "[A,,B]") + SlimText("a", "[A,,B]")) + "}"

  predicate ReadsTwoSlots(stream: R.Stream) {
    stream.name == "a" && |stream.events| == 1 && stream.events[0].args.arities == [2]
  }

  lemma CrowdedIs(t: Text)
    requires t == SlimText("a", "[A,,B]")
    ensures CROWDED == "{" + (t + t) + "}"
  {
    hide SlimText;
  }

  lemma QuietNames()
    ensures IsQuiet("a") && IsQuiet("[A,,B]") && R.IsIdentifier('a')
  {
  }

  lemma CrowdedIsQuiet()
    ensures IsQuiet(CROWDED)
  {
    var t := SlimText("a", "[A,,B]");
    hide *;
    QuietNames();
    CrowdedIs(t);
    SlimIsQuiet("a", "[A,,B]");
    QuietTogether(t, t);
    BracedIsQuiet(t + t);
  }

  lemma Twice(d: Declaration)
    requires PlainDeclaration(d)
    ensures PlainInterface(Slim([d, d])) && Slim([d, d]).declarations == [d, d]
  {
    hide PlainDeclaration;
  }

  lemma CrowdedIsPlain(d: Declaration)
    requires d == SlimStream("a", GAPPED)
    ensures PlainInterface(Slim([d, d])) && TextOfAll(PrintBlock(Slim([d, d]))) == CROWDED
  {
    var t := SlimText("a", "[A,,B]");
    assert d.tail == [];
    hide *;
    QuietNames();
    GappedIsPlain();
    CrowdedIs(t);
    SlimNamed("a", GAPPED);
    SlimReads("a", GAPPED, "[A,,B]");
    TwoStreams(d, t);
    Twice(d);
    BlockText([d, d], t + t);
  }

  lemma SlimNamed(name: Text, args: seq<Padded<Alternative>>)
    requires PlainArgs(args) && |name| == 1 && R.IsIdentifier(name[0])
    ensures PlainDeclaration(SlimStream(name, args))
  {
    hide PlainArgs, SlimStream, PlainDeclaration;
    SlimIsPlain(name, args);
  }

  lemma TwoAllowed(n: nat)
    ensures Allows(Items(GAPPED), n) <==> n == 2
  {
    SlotsArePlain();
    assert Items(GAPPED) == [Slots(SLOTS)] by {
      assert GAPPED[1..] == [];
    }
    hide PlainElements;
    var elements := Items(SLOTS);
    assert elements == [SLOTS[0].item.value, SLOTS[2].item.value];
    assert AllowedBy(Items(GAPPED)[0], n) <==> n == 2;
  }

  lemma TwoSlotsRead(stream: R.Stream)
    requires SameStream(stream, SlimStream("a", GAPPED))
    ensures ReadsTwoSlots(stream)
  {
    var e := Entry(SlimMembers(GAPPED));
    GappedIsPlain();
    assert R.IsIdentifier('a');
    hide GAPPED, TextOfAll, PrintArgs, PlainArgs, PlainEntry, Allows, R.Ascending, SlimMembers, TheArgs;
    SlimIsPlain("a", GAPPED);
    assert SameEntry(stream.events[0], e);
    var arities := stream.events[0].args.arities;
    forall n: nat ensures n in arities <==> n == 2 {
      TwoAllowed(n);
    }
    G.AscendingIsUnique(arities, [2]);
  }

  lemma BothRead(r: Result<seq<R.Stream>, Fault>, d: Declaration)
    requires ReadsAs(r, Slim([d, d]).declarations)
    ensures r.Success? && |r.value| == 2 && SameStream(r.value[0], d) && SameStream(r.value[1], d)
  {
    hide SameStream;
  }

  /** A name may be declared twice, the semicolon may be missing, and `[A,,B]` is a tuple of two. */
  lemma CrowdedTextIsAccepted()
    ensures var r := R.Parse(R.NEEDLE + CROWDED);
            r.Success? && |r.value| == 2 && ReadsTwoSlots(r.value[0]) && ReadsTwoSlots(r.value[1])
  {
    var d, text := SlimStream("a", GAPPED), R.NEEDLE + CROWDED;
    hide *;
    CrowdedIsPlain(d);
    CrowdedIsQuiet();
    NeedleIsQuiet();
    QuietTogether(R.NEEDLE, CROWDED);
    NoNotes(text);
    Flattens(R.NEEDLE, CROWDED);
    NothingBefore(text, []);
    HeadingIsIgnored(text, [], [], Slim([d, d]), []);
    BothRead(R.Parse(text), d);
    TwoSlotsRead(R.Parse(text).value[0]);
    TwoSlotsRead(R.Parse(text).value[1]);
  }
}
