/** A written interface with an argument type that is easily misread, and what is reported of it. */
module CatalogSamples {
  import opened Prelude
  import opened Scanner
  import opened Splitter
  import opened Pieces
  import opened CatalogLayout
  import opened CatalogPrinter
  import R = CatalogReader

  function Only<T>(item: T, sep: char): Padded<T> {
    Padded([], Some(item), [], sep)
  }

  /** `Foo<() => void, Bar>`: the comma belongs to the generic list, and the arrow does not close it. */
  const CALLBACK: seq<Piece> :=
    [Generic("Foo", [Group('(', ')', []), Chr(' '), Arrow] + Chars(" void, Bar"))]

  const CALLBACK_TUPLE := [Only(Slots([Only(Element(CALLBACK, None, None), ',')]), '|')]

  lemma CallbackText()
    ensures TextOfAll(CALLBACK) == "Foo<() => void, Bar>"
  {
    var front, back := [Group('(', ')', []), Chr(' '), Arrow], Chars(" void, Bar");
    FrontText();
    CharsRead(" void, Bar");
    TextOfConcat(front, back);
    TextOfOne(Generic("Foo", front + back));
    hide Chars, TextOfAll;
    assert TextOf(Generic("Foo", front + back)) == "Foo" + ['<'] + TextOfAll(front + back) + ['>'];
    assert "Foo" + ['<'] + ("() =>" + " void, Bar") + ['>'] == "Foo<() => void, Bar>";
  }

  lemma FrontText()
    ensures TextOfAll([Group('(', ')', []), Chr(' '), Arrow]) == "() =>"
  {
    TextOfOne(Arrow);
    assert [Group('(', ')', []), Chr(' '), Arrow][1..] == [Chr(' '), Arrow] && [Chr(' '), Arrow][1..] == [Arrow];
    assert TextOfAll([Chr(' '), Arrow]) == [' '] + TextOfAll([Arrow]);
    assert TextOf(Group('(', ')', [])) == "()";
  }

  lemma CallbackFits()
    ensures Fits(CALLBACK, {',', ':'})
  {
    var body := [Group('(', ')', []), Chr(' '), Arrow] + Chars(" void, Bar");
    assert AllWellFormed(body);
    LastOfCallback();
    assert LastByte("Foo", ' ') == 'o' by {
      assert "Foo"[1..] == "oo" && "oo"[1..] == "o" && "o"[1..] == [];
    }
  }

  lemma {:induction false} LastOfChars(front: seq<Piece>, t: Text, prev: char)
    requires t != [] && !IsSpace(t[|t| - 1])
    ensures LastOfAll(front + Chars(t), prev) == t[|t| - 1]
    decreases |front| + |t|
  {
    if front != [] {
      assert (front + Chars(t))[1..] == front[1..] + Chars(t);
      LastOfChars(front[1..], t, LastOf(front[0], prev));
    } else if |t| > 1 {
      assert Chars(t)[1..] == Chars(t[1..]) && [] + Chars(t) == Chars(t) && [] + Chars(t[1..]) == Chars(t[1..]);
      LastOfChars([], t[1..], LastOf(Chr(t[0]), prev));
    } else {
      assert [] + Chars(t) == Chars(t) && Chars(t)[1..] == [];
    }
  }

  lemma LastOfCallback()
    ensures LastOfAll([Group('(', ')', []), Chr(' '), Arrow] + Chars(" void, Bar"), '<') != '='
  {
    LastOfChars([Group('(', ')', []), Chr(' '), Arrow], " void, Bar", '<');
  }

  /** A tuple of one callback type is a tuple of one. */
  lemma CallbackIsOneSlot()
    ensures PlainAlternatives(CALLBACK_TUPLE)
    ensures TextOfAll(PrintArgs(CALLBACK_TUPLE)) == "[Foo<() => void, Bar>]"
    ensures SpecOf(CALLBACK_TUPLE).arities == [1] && !SpecOf(CALLBACK_TUPLE).variadic
  {
    CallbackText();
    CallbackFits();
    hide CALLBACK, TextOfAll, AllWellFormed, AllSolid;
    assert PlainElement(Element(CALLBACK, None, None));
    TupleOfOne(Element(CALLBACK, None, None), "Foo<() => void, Bar>");
  }

  lemma TupleOfOne(e: Element, t: Text)
    requires PlainElement(e) && e.mark.None? && e.rest.None? && TextOfAll(e.head) == t
    ensures var args := [Only(Slots([Only(e, ',')]), '|')];
            && PlainAlternatives(args) && TextOfAll(PrintArgs(args)) == "[" + t + "]"
            && SpecOf(args).arities == [1] && !SpecOf(args).variadic
  {
    var slots := [Only(e, ',')];
    var args := [Only(Slots(slots), '|')];
    hide TextOfAll, Fits, R.Normalised, Gathered;
    TupleText(e, slots, t);
    OneArity(e, slots, args);
    assert R.Sorted([1]) == [1];
  }

  lemma TupleText(e: Element, slots: seq<Padded<Element>>, t: Text)
    requires PlainElement(e) && e.mark.None? && e.rest.None? && TextOfAll(e.head) == t && slots == [Only(e, ',')]
    ensures TextOfAll(PrintArgs([Only(Slots(slots), '|')])) == "[" + t + "]"
  {
    var group := Group('[', ']', Joined(ElementCells(slots)));
    LabelText(e);
    TextOfOne(group);
    assert t + [] == t && [] + t + [] == t;
    TextOfJoined(ElementCells(slots));
    assert TextOf(group) == ['['] + t + [']'];
    hide TextOfAll, TextOf;
    TextOfJoined(AlternativeCells([Only(Slots(slots), '|')]));
    assert [] + ("[" + t + "]") + [] == "[" + t + "]";
  }

  lemma OneArity(e: Element, slots: seq<Padded<Element>>, args: seq<Padded<Alternative>>)
    requires e.mark.None? && slots == [Only(e, ',')] && args == [Only(Slots(slots), '|')]
    ensures Gathered(Items(args), [], false) == ([1], false)
  {
    assert slots[1..] == [] && args[1..] == [];
    assert Items(slots) == [e] && Items(args) == [Slots(slots)];
    assert Needed([e]) == 1 && Items(args)[1..] == [];
    assert R.AddArities([1], 2, 1) == [1] && [] + [1] == [1];
    assert R.AddArities([], 1, 1) == [1];
    assert Gathered([], [1], false) == ([1], false);
  }

  /** `'s': [ { args: [Foo<() => void, Bar>]; key: 'k'; }, ];`: args first, and blank places after both lists. */
  const MEMBERS: seq<Padded<Member>> :=
    [Padded(" ", Some(ArgsMember("", " ", CALLBACK_TUPLE)), "", ';'),
     Padded(" ", Some(KeyMember("", " ", Key(R.Literal("k"), Some('\'')))), "", ';'),
     Padded(" ", None, "", ';')]

  const ENTRIES: seq<Padded<Entry>> := [Padded(" ", Some(Entry(MEMBERS)), "", ','), Padded(" ", None, "", ',')]

  const SAMPLE := Interface(" ", "\n\t", [Declaration("s", Some('\''), "", " ", ENTRIES, ";\n")])

  lemma MembersArePlain()
    ensures PlainEntry(Entry(MEMBERS))
  {
    CallbackIsOneSlot();
    hide CALLBACK_TUPLE, PlainAlternatives, SpecOf, TextOfAll, PrintArgs;
    OnlyItem();
    assert MEMBERS[1..][1..] == [MEMBERS[2]] && MEMBERS[1..][0] == MEMBERS[1] && [MEMBERS[2]][1..] == [];
    assert Items([MEMBERS[2]]) == [];
    assert Items(MEMBERS[1..]) == [MEMBERS[1].item.value];
    assert Items(MEMBERS) == [MEMBERS[0].item.value, MEMBERS[1].item.value];
    assert PlainMember(MEMBERS[0].item.value) && PlainMember(MEMBERS[1].item.value);
  }

  lemma OnlyItem()
    ensures Items(CALLBACK_TUPLE) != []
  {
  }

  /** The sample is a written interface, and so it is read back. */
  lemma SampleReads()
    ensures PlainInterface(SAMPLE) && ReadsAs(R.Parse(Print(SAMPLE)), SAMPLE.declarations)
  {
    MembersArePlain();
    hide MEMBERS, PlainEntry, ReadsAs, Print, R.Parse;
    assert Items(ENTRIES) != [];
    assert PlainDeclaration(SAMPLE.declarations[0]);
    PrintedTextReads(SAMPLE);
  }
}
