/** Interfaces as they may be written: names, keys and types, with spaces, blank places and either order of members. */
module CatalogPrinter {
  import opened Prelude
  import opened Scanner
  import opened Sequences
  import opened Splitter
  import opened Pieces
  import opened CatalogLayout
  import R = CatalogReader

  // ---- what is written -------------------------------------------------------------------------

  /** One place of a list; blank after a trailing comma or before a leading `|`. */
  datatype Padded<T> = Padded(before: Text, item: Option<T>, after: Text, sep: char)

  function Items<T>(list: seq<Padded<T>>): seq<T> {
    if list == [] then []
    else (if list[0].item.Some? then [list[0].item.value] else []) + Items(list[1..])
  }

  datatype Annotation = Annotation(before: Text, after: Text, kind: seq<Piece>)

  /** A tuple element: `A`, `A?`, `a: A` or `a?: A`; the mark keeps the spaces before it. */
  datatype Element = Element(head: seq<Piece>, mark: Option<Text>, rest: Option<Annotation>)

  /** A tuple `[A, b?: B]` or an unbounded array `A[]`. */
  datatype Alternative = Slots(elements: seq<Padded<Element>>) | Many(kind: seq<Piece>)

  /** A key pattern, and the quote it is written with; without one, `string`. */
  datatype Key = Key(pattern: R.KeyPattern, quote: Option<char>)

  datatype Member =
    | KeyMember(before: Text, after: Text, key: Key)
    | ArgsMember(before: Text, after: Text, args: seq<Padded<Alternative>>)

  datatype Entry = Entry(members: seq<Padded<Member>>)

  /** A stream, and the spaces and semicolons after it. */
  datatype Declaration = Declaration(
    name: Text, quote: Option<char>, before: Text, after: Text, entries: seq<Padded<Entry>>, tail: Text)

  datatype Interface = Interface(gap: Text, lead: Text, declarations: seq<Declaration>)

  // ---- how it is written -----------------------------------------------------------------------

  function Mark(e: Element): Text {
    match e.mark
    case Some(gap) => gap + "?"
    case None => ""
  }

  function Label(e: Element): seq<Piece> {
    e.head + Chars(Mark(e))
  }

  function AnnotationField(e: Element): Field
    requires e.rest.Some?
  {
    Field(Label(e), e.rest.value.before, e.rest.value.after, e.rest.value.kind)
  }

  function PrintElement(e: Element): seq<Piece> {
    if e.rest.Some? then FieldPieces(AnnotationField(e)) else Label(e)
  }

  function ElementCell(p: Padded<Element>): Cell {
    Cell(p.before, if p.item.Some? then PrintElement(p.item.value) else [], p.after, p.sep)
  }

  function ElementCells(list: seq<Padded<Element>>): (cells: seq<Cell>)
    ensures |cells| == |list|
  {
    seq(|list|, i requires 0 <= i < |list| => ElementCell(list[i]))
  }

  function PrintAlternative(a: Alternative): seq<Piece> {
    match a
    case Slots(elements) => [Group('[', ']', Joined(ElementCells(elements)))]
    case Many(kind) => kind + [Group('[', ']', [])]
  }

  function AlternativeCell(p: Padded<Alternative>): Cell {
    Cell(p.before, if p.item.Some? then PrintAlternative(p.item.value) else [], p.after, p.sep)
  }

  function AlternativeCells(list: seq<Padded<Alternative>>): (cells: seq<Cell>)
    ensures |cells| == |list|
  {
    seq(|list|, i requires 0 <= i < |list| => AlternativeCell(list[i]))
  }

  function PrintArgs(args: seq<Padded<Alternative>>): seq<Piece> {
    Joined(AlternativeCells(args))
  }

  function PrintKey(key: Key): seq<Piece> {
    match key.quote
    case None => Chars("string")
    case Some(quote) =>
      match key.pattern
      case Literal(t) => [Str(quote, t)]
      case Suffix(t) => [Str(quote, R.HOLE + "/" + t)]
      case Prefix(t) => [Str(quote, t + "/" + R.HOLE)]
      case Any => [Str(quote, R.HOLE)]
  }

  function MemberField(m: Member): Field {
    match m
    case KeyMember(before, after, key) => Field(Chars("key"), before, after, PrintKey(key))
    case ArgsMember(before, after, args) => Field(Chars("args"), before, after, PrintArgs(args))
  }

  function MemberCell(p: Padded<Member>): Cell {
    Cell(p.before, if p.item.Some? then FieldPieces(MemberField(p.item.value)) else [], p.after, p.sep)
  }

  function MemberCells(list: seq<Padded<Member>>): (cells: seq<Cell>)
    ensures |cells| == |list|
  {
    seq(|list|, i requires 0 <= i < |list| => MemberCell(list[i]))
  }

  function PrintEntry(e: Entry): seq<Piece> {
    [Group('{', '}', Joined(MemberCells(e.members)))]
  }

  function EntryCell(p: Padded<Entry>): Cell {
    Cell(p.before, if p.item.Some? then PrintEntry(p.item.value) else [], p.after, p.sep)
  }

  function EntryCells(list: seq<Padded<Entry>>): (cells: seq<Cell>)
    ensures |cells| == |list|
  {
    seq(|list|, i requires 0 <= i < |list| => EntryCell(list[i]))
  }

  function PrintName(d: Declaration): seq<Piece> {
    match d.quote
    case None => Chars(d.name)
    case Some(quote) => [Str(quote, d.name)]
  }

  function DeclarationField(d: Declaration): Field {
    Field(PrintName(d), d.before, d.after, [Group('[', ']', Joined(EntryCells(d.entries)))])
  }

  function PrintDeclaration(d: Declaration): seq<Piece> {
    FieldPieces(DeclarationField(d)) + Chars(d.tail)
  }

  function PrintBody(ds: seq<Declaration>): seq<Piece> {
    if ds == [] then [] else PrintDeclaration(ds[0]) + PrintBody(ds[1..])
  }

  function PrintBlock(i: Interface): seq<Piece> {
    [Group('{', '}', Chars(i.lead) + PrintBody(i.declarations))]
  }

  function PrintAll(i: Interface): seq<Piece> {
    Chars(R.NEEDLE) + Chars(i.gap) + PrintBlock(i)
  }

  function Print(i: Interface): Text {
    TextOfAll(PrintAll(i))
  }

  // ---- what may be written ---------------------------------------------------------------------

  predicate Padding<T>(p: Padded<T>, seps: set<char>) {
    IsGap(p.before) && IsGap(p.after) && p.sep in seps
  }

  /** The head of an element that is not optional does not end in `?`; a rest element `...A` is no element. */
  predicate PlainElement(e: Element) {
    && Fits(e.head, {',', ':'}) && Tight(TextOfAll(e.head)) && TextOfAll(e.head)[0] != '.'
    && (match e.mark case Some(gap) => IsGap(gap) case None => TextOfAll(e.head)[|TextOfAll(e.head)| - 1] != '?')
    && (match e.rest
        case Some(a) => IsGap(a.before) && IsGap(a.after) && Fits(a.kind, {','}) && Tight(TextOfAll(a.kind))
        case None => true)
  }

  predicate PlainElements(list: seq<Padded<Element>>) {
    forall i | 0 <= i < |list| :: Padding(list[i], {','}) && (list[i].item.Some? ==> PlainElement(list[i].item.value))
  }

  /** An array of tuples `[A][]` is not understood, so an array's element type does not start with `[`. */
  predicate PlainAlternative(a: Alternative) {
    match a
    case Slots(elements) => elements != [] && PlainElements(elements)
    case Many(kind) =>
      Fits(kind, {'|', ',', ';'}) && TextOfAll(kind) != [] && !IsSpace(TextOfAll(kind)[0]) && TextOfAll(kind)[0] != '['
  }

  predicate PlainAlternatives(list: seq<Padded<Alternative>>) {
    forall i | 0 <= i < |list| ::
      Padding(list[i], {'|'}) && (list[i].item.Some? ==> PlainAlternative(list[i].item.value))
  }

  /** The spaces around the whole type belong to the member. */
  predicate PlainArgs(args: seq<Padded<Alternative>>) {
    PlainAlternatives(args) && Items(args) != [] && Tight(TextOfAll(PrintArgs(args)))
  }

  predicate PlainKey(key: Key) {
    match key.quote
    case None => key.pattern == R.Any
    case Some(quote) =>
      match key.pattern
      case Literal(t) => (quote == '\'' || quote == '"') && quote !in t && '$' !in t && '\\' !in t
      case Suffix(t) => quote == '`' && t != [] && '`' !in t && !R.HasHole(t) && Quotable(R.HOLE + "/" + t, 0, '`')
      case Prefix(t) => quote == '`' && t != [] && '`' !in t && !R.HasHole(t) && Quotable(t + "/" + R.HOLE, 0, '`')
      case Any => quote == '`'
  }

  predicate PlainMember(m: Member) {
    IsGap(m.before) && IsGap(m.after) &&
    match m case KeyMember(_, _, key) => PlainKey(key) case ArgsMember(_, _, args) => PlainArgs(args)
  }

  predicate PlainMembers(list: seq<Padded<Member>>) {
    forall i | 0 <= i < |list| ::
      Padding(list[i], {';', ','}) && (list[i].item.Some? ==> PlainMember(list[i].item.value))
  }

  /** One key and one args member, in either order. */
  predicate PlainEntry(e: Entry) {
    PlainMembers(e.members) && |Items(e.members)| == 2 &&
      Items(e.members)[0].KeyMember? != Items(e.members)[1].KeyMember?
  }

  predicate PlainEntries(list: seq<Padded<Entry>>) {
    forall i | 0 <= i < |list| :: Padding(list[i], {','}) && (list[i].item.Some? ==> PlainEntry(list[i].item.value))
  }

  predicate PlainName(d: Declaration) {
    match d.quote
    case None => d.name != [] && forall i | 0 <= i < |d.name| :: R.IsIdentifier(d.name[i])
    case Some(quote) => (quote == '\'' || quote == '"') && quote !in d.name && '\\' !in d.name
  }

  /** Spaces and semicolons. */
  predicate IsPause(t: Text) {
    forall i | 0 <= i < |t| :: IsSpace(t[i]) || t[i] == ';'
  }

  predicate PlainDeclaration(d: Declaration) {
    && PlainName(d) && IsGap(d.before) && IsGap(d.after) && IsPause(d.tail)
    && PlainEntries(d.entries) && Items(d.entries) != []
  }

  predicate PlainDeclarations(ds: seq<Declaration>) {
    forall i | 0 <= i < |ds| :: PlainDeclaration(ds[i])
  }

  predicate PlainInterface(i: Interface) {
    IsGap(i.gap) && IsPause(i.lead) && i.declarations != [] && PlainDeclarations(i.declarations)
  }

  // ---- elements --------------------------------------------------------------------------------

  lemma MarkIsBare(e: Element, seps: set<char>)
    requires PlainElement(e) && seps <= SEPARATORS
    ensures Fits(Chars(Mark(e)), seps)
  {
    assert Inert('?') && '?' !in SEPARATORS;
    assert IsBare(Mark(e));
    FitsChars(Mark(e), seps);
  }

  lemma LabelFits(e: Element)
    requires PlainElement(e)
    ensures Fits(Label(e), {',', ':'})
  {
    MarkIsBare(e, {',', ':'});
    hide Fits, Mark, Tight;
    FitsTogether(e.head, Chars(Mark(e)), {',', ':'});
  }

  lemma LabelText(e: Element)
    requires PlainElement(e)
    ensures TextOfAll(Label(e)) == TextOfAll(e.head) + Mark(e) && Tight(TextOfAll(Label(e)))
    ensures TextOfAll(Label(e))[0] != '.'
    ensures TextOfAll(Label(e))[|TextOfAll(Label(e))| - 1] == '?' <==> e.mark.Some?
  {
    hide TextOfAll, Fits;
    TextOfConcat(e.head, Chars(Mark(e)));
    CharsRead(Mark(e));
  }

  lemma AnnotationIsPlain(e: Element)
    requires PlainElement(e) && e.rest.Some?
    ensures PlainField(AnnotationField(e))
  {
    LabelFits(e);
    LabelText(e);
    hide TextOfAll, Tight, WellFormed;
    FitsFewer(Label(e), {',', ':'}, {':'});
  }

  lemma ElementFits(e: Element)
    requires PlainElement(e)
    ensures Fits(PrintElement(e), {','})
  {
    LabelFits(e);
    hide AllWellFormed, AllSolid, TextOfAll, Tight, Label, Mark;
    FitsFewer(Label(e), {',', ':'}, {','});
    if e.rest.Some? {
      FieldFits(AnnotationField(e), {','});
    }
  }

  /** An element's text is tight, and no rest element. */
  lemma ElementIsTight(e: Element)
    requires PlainElement(e)
    ensures Tight(TextOfAll(PrintElement(e))) && TextOfAll(PrintElement(e))[0] != '.'
  {
    LabelText(e);
    if e.rest.Some? {
      var f := AnnotationField(e);
      assert Tight(TextOfAll(f.value));
      hide TextOfAll, FieldPieces;
      FieldText(f, TextOfAll(f.name) + f.before, f.after + TextOfAll(f.value));
    }
  }

  /** The reader finds an element optional exactly when it is marked so. */
  lemma ElementReads(s: Text, from: nat, to: nat, e: Element)
    requires PlainElement(e) && At(s, from, TextOfAll(PrintElement(e))) && to == from + |TextOfAll(PrintElement(e))|
    ensures from < to <= |s| && !("..." <= s[from..to]) && R.IsOptional(s, from, to) == Success(e.mark.Some?)
  {
    hide *;
    ElementIsTight(e);
    NoRest(s, from, to, TextOfAll(PrintElement(e)));
    if e.rest.Some? {
      AnnotatedReads(s, from, to, e);
    } else {
      BareReads(s, from, to, e);
    }
  }

  lemma NoRest(s: Text, from: nat, to: nat, t: Text)
    requires Tight(t) && t[0] != '.' && At(s, from, t) && to == from + |t|
    ensures from < to <= |s| && !("..." <= s[from..to]) && s[from..to] == t
  {
    assert s[from..to][0] == t[0];
  }

  lemma AnnotatedReads(s: Text, from: nat, to: nat, e: Element)
    requires PlainElement(e) && e.rest.Some? && At(s, from, TextOfAll(PrintElement(e)))
    requires to == from + |TextOfAll(PrintElement(e))| <= |s|
    ensures R.IsOptional(s, from, to) == Success(e.mark.Some?)
  {
    var f := AnnotationField(e);
    hide *;
    AnnotationIsPlain(e);
    AnnotatedText(e);
    var name, colon, value := FieldReads(s, from, to, f);
    LabelText(e);
    LabelBeforeColon(s, from, to, f, name, colon, value, TextOfAll(Label(e)));
  }

  lemma AnnotatedText(e: Element)
    requires e.rest.Some?
    ensures PrintElement(e) == FieldPieces(AnnotationField(e)) && AnnotationField(e).name == Label(e)
  {
  }

  lemma LabelBeforeColon(s: Text, from: nat, to: nat, f: Field, name: nat, colon: nat, value: nat, t: Text)
    requires FieldShape(s, from, to, f, name, colon, value) && t == TextOfAll(f.name) && t != []
    ensures R.IsOptional(s, from, to) == Success(t[|t| - 1] == '?')
  {
    hide TextOfAll, R.Trim, R.FindTopLevel;
    assert s[from..name][name - from - 1] == s[name - 1];
  }

  lemma BareReads(s: Text, from: nat, to: nat, e: Element)
    requires PlainElement(e) && e.rest.None? && At(s, from, TextOfAll(PrintElement(e)))
    requires to == from + |TextOfAll(PrintElement(e))| <= |s|
    ensures R.IsOptional(s, from, to) == Success(e.mark.Some?)
  {
    var pieces := Label(e);
    assert PrintElement(e) == pieces && ':' in SEPARATORS;
    hide *;
    LabelFits(e);
    LabelText(e);
    FitsFewer(pieces, {',', ':'}, {':'});
    FindsNone(s, from, to, pieces, ':');
    TightEnds(s, from, to, TextOfAll(pieces));
    LabelIsAll(s, from, to);
  }

  lemma TightEnds(s: Text, from: nat, to: nat, t: Text)
    requires Tight(t) && At(s, from, t) && to == from + |t|
    ensures from < to <= |s| && !IsSpace(s[from]) && !IsSpace(s[to - 1]) && s[to - 1] == t[|t| - 1]
  {
    AtIndex(s, from, t, 0);
    AtIndex(s, from, t, |t| - 1);
  }

  lemma LabelIsAll(s: Text, from: nat, to: nat)
    requires from < to <= |s| && !IsSpace(s[from]) && !IsSpace(s[to - 1])
    requires R.FindTopLevel(s, from, to, {':'}) == Success(None)
    ensures R.IsOptional(s, from, to) == Success(s[to - 1] == '?')
  {
    TrimsTo(s, from, from, to, to);
    hide R.Trim, R.FindTopLevel;
  }

  // ---- tuples ----------------------------------------------------------------------------------

  /** How many leading slots a tuple needs: up to its last element that is not optional. */
  function Needed(elements: seq<Element>): (n: nat)
    ensures n <= |elements|
  {
    if elements == [] then 0
    else if elements[|elements| - 1].mark.None? then |elements|
    else Needed(elements[..|elements| - 1])
  }

  lemma {:induction false} NeededCons(elements: seq<Element>)
    requires elements != []
    ensures Needed(elements) ==
            if Needed(elements[1..]) > 0 then Needed(elements[1..]) + 1 else if elements[0].mark.Some? then 0 else 1
    decreases |elements|
  {
    var last := elements[|elements| - 1];
    if |elements| > 1 && last.mark.Some? {
      NeededCons(elements[..|elements| - 1]);
      assert elements[..|elements| - 1][1..] == elements[1..][..|elements| - 2];
    } else if |elements| == 1 {
      assert elements[..0] == [];
    }
  }

  lemma ElementsTidy(list: seq<Padded<Element>>)
    requires PlainElements(list)
    ensures AllTidy(ElementCells(list), {','})
  {
    forall i | 0 <= i < |list| ensures Tidy(ElementCells(list)[i], {','}) {
      if list[i].item.Some? {
        ElementFits(list[i].item.value);
        ElementIsTight(list[i].item.value);
      } else {
        NothingFits({','});
      }
      hide Fits, PlainElement, PrintElement;
    }
  }

  lemma SlotCounts(s: Text, parts: seq<(nat, nat)>, n: nat, required: nat, from: nat, to: nat, optional: bool)
    requires Within(s, parts) && required <= n && parts != [] && R.Trim(s, parts[0].0, parts[0].1) == (from, to)
    requires from < to <= |s| && !("..." <= s[from..to]) && R.IsOptional(s, from, to) == Success(optional)
    ensures R.Slots(s, parts, n, required) == R.Slots(s, parts[1..], n + 1, if optional then required else n + 1)
  {
    hide R.IsOptional, R.Trim;
  }

  /** What counting these elements after `n` others makes of the slots and of how many are required. */
  function Counted(elements: seq<Element>, n: nat, required: nat): (nat, nat) {
    (n + |elements|, if Needed(elements) > 0 then n + Needed(elements) else required)
  }

  lemma CountedCons(e: Element, elements: seq<Element>, n: nat, required: nat)
    ensures Counted([e] + elements, n, required) ==
            Counted(elements, n + 1, if e.mark.Some? then required else n + 1)
  {
    assert ([e] + elements)[1..] == elements;
    hide Needed;
    NeededCons([e] + elements);
  }

  lemma ItemsCons<T>(list: seq<Padded<T>>)
    requires list != []
    ensures list[0].item.None? ==> Items(list) == Items(list[1..])
    ensures list[0].item.Some? ==> Items(list) == [list[0].item.value] + Items(list[1..])
  {
  }

  lemma {:induction false} SlotsRead(s: Text, parts: seq<(nat, nat)>, list: seq<Padded<Element>>, n: nat, required: nat)
    requires Within(s, parts) && Stands(s, parts, ElementCells(list)) && PlainElements(list) && required <= n
    ensures R.Slots(s, parts, n, required) == Success(Counted(Items(list), n, required))
    decreases |list|
  {
    if list != [] {
      assert parts != [] && Within(s, parts[1..]);
      hide *;
      var from, to := FirstSlot(s, parts, list);
      ItemsCons(list);
      if list[0].item.None? {
        BlankSlot(s, parts, n, required);
        SlotsRead(s, parts[1..], list[1..], n, required);
      } else {
        var e := list[0].item.value;
        CountedCons(e, Items(list[1..]), n, required);
        SlotCounts(s, parts, n, required, from, to, e.mark.Some?);
        SlotsRead(s, parts[1..], list[1..], n + 1, if e.mark.Some? then required else n + 1);
      }
    } else {
      assert R.Slots(s, parts, n, required) == Success((n, required));
    }
  }

  lemma BlankSlot(s: Text, parts: seq<(nat, nat)>, n: nat, required: nat)
    requires Within(s, parts) && required <= n && parts != []
    requires R.Trim(s, parts[0].0, parts[0].1).0 == R.Trim(s, parts[0].0, parts[0].1).1
    ensures R.Slots(s, parts, n, required) == R.Slots(s, parts[1..], n, required)
  {
    hide R.IsOptional, R.Trim;
  }

  lemma FirstSlot(s: Text, parts: seq<(nat, nat)>, list: seq<Padded<Element>>) returns (from: nat, to: nat)
    requires list != [] && Stands(s, parts, ElementCells(list)) && PlainElements(list)
    ensures from <= to <= |s| && R.Trim(s, parts[0].0, parts[0].1) == (from, to)
    ensures list[0].item.None? <==> from == to
    ensures list[0].item.Some? ==>
        !("..." <= s[from..to]) && R.IsOptional(s, from, to) == Success(list[0].item.value.mark.Some?)
    ensures Stands(s, parts[1..], ElementCells(list[1..])) && PlainElements(list[1..])
  {
    var cells := ElementCells(list);
    ElementsTidy(list);
    assert Tidy(cells[0], {','}) && StandsIn(s, parts[0], cells[0]);
    assert cells[1..] == ElementCells(list[1..]);
    hide R.IsOptional, R.Trim, Tidy, StandsIn, PlainElement, PrintElement, At;
    from, to := CellTrims(s, parts[0], cells[0], {','});
    if list[0].item.Some? {
      ElementIsTight(list[0].item.value);
      ElementReads(s, from, to, list[0].item.value);
    }
  }

  lemma TupleReads(s: Text, from: nat, to: nat, list: seq<Padded<Element>>)
    requires list != [] && PlainElements(list) && to == from + |TextOf(Group('[', ']', Joined(ElementCells(list))))|
    requires At(s, from, TextOf(Group('[', ']', Joined(ElementCells(list)))))
    ensures from + 2 <= to <= |s| && s[from] == '[' && s[to - 1] == ']'
    ensures R.Tuple(s, from, to) == Success(Counted(Items(list), 0, 0))
  {
    assert {','} <= SEPARATORS && ElementCells(list) != [] && Pair('[', ']');
    hide *;
    ElementsTidy(list);
    var parts := BracketsRead(s, from, to, '[', ']', ElementCells(list), {','});
    SlotsRead(s, parts, list, 0, 0);
    TupleBy(s, from, to, parts, Counted(Items(list), 0, 0));
  }

  /** A bracketed list of cells: its delimiters, which match, and what splitting its body finds. */
  lemma BracketsRead(s: Text, from: nat, to: nat, open: char, close: char, cells: seq<Cell>, seps: set<char>)
    returns (parts: seq<(nat, nat)>)
    requires Pair(open, close) && cells != [] && AllTidy(cells, seps) && seps <= SEPARATORS
    requires At(s, from, TextOf(Group(open, close, Joined(cells))))
    requires to == from + |TextOf(Group(open, close, Joined(cells)))|
    ensures from + 2 <= to <= |s| && s[from] == open && s[to - 1] == close
    ensures Matching(s, from, open, close, 0) == Some(to - 1)
    ensures Split(s, from + 1, to - 1, seps) == Success(parts) && Stands(s, parts, cells) && Within(s, parts)
  {
    hide *;
    ListWellFormed(cells, seps);
    ListAt(s, from, to, open, close, Joined(cells));
    parts := ListSplits(s, from + 1, to - 1, cells, seps);
    StandsWithin(s, parts, cells);
  }

  /** A bracketed list: its delimiters, which match, and its body. */
  lemma ListAt(s: Text, from: nat, to: nat, open: char, close: char, body: seq<Piece>)
    requires Pair(open, close) && AllWellFormed(body) && At(s, from, TextOf(Group(open, close, body)))
    requires to == from + |TextOf(Group(open, close, body))|
    ensures from + 2 <= to <= |s| && s[from] == open && s[to - 1] == close
    ensures Matching(s, from, open, close, 0) == Some(to - 1)
    ensures At(s, from + 1, TextOfAll(body)) && to - 1 == from + 1 + |TextOfAll(body)|
  {
    assert |TextOf(Group(open, close, body))| == |TextOfAll(body)| + 2;
    hide *;
    GroupAt(s, from, open, close, body);
    GroupCloses(s, from, open, close, body);
  }

  lemma StandsWithin(s: Text, parts: seq<(nat, nat)>, cells: seq<Cell>)
    requires Stands(s, parts, cells)
    ensures Within(s, parts)
  {
  }

  lemma ListWellFormed(cells: seq<Cell>, seps: set<char>)
    requires AllTidy(cells, seps) && seps <= SEPARATORS
    ensures AllWellFormed(Joined(cells))
  {
    forall i | 0 <= i < |cells| ensures Fits(cells[i].core, {}) {
      FitsFewer(cells[i].core, seps, {});
    }
    hide Tidy, AllWellFormed, AllSolid, AllTidy, Joined;
    JoinedFits(cells, seps, {});
  }

  lemma TupleBy(s: Text, from: nat, to: nat, parts: seq<(nat, nat)>, slots: (nat, nat))
    requires from + 2 <= to <= |s| && s[from] == '[' && Matching(s, from, '[', ']', 0) == Some(to - 1)
    requires Split(s, from + 1, to - 1, {','}) == Success(parts)
    requires Within(s, parts) && R.Slots(s, parts, 0, 0) == Success(slots)
    ensures R.Tuple(s, from, to) == Success(slots)
  {
    hide Matching, Split, SplitFrom, R.Slots;
  }

  // ---- argument types --------------------------------------------------------------------------

  /** The arities of a union, in the order its alternatives are read. */
  function Gathered(args: seq<Alternative>, arities: seq<nat>, variadic: bool): (seq<nat>, bool) {
    if args == [] then (arities, variadic)
    else
      match args[0]
      case Slots(list) => Gathered(args[1..], R.AddArities(arities, Needed(Items(list)), |Items(list)|), variadic)
      case Many(_) => Gathered(args[1..], arities, true)
  }

  lemma ManyText(kind: seq<Piece>)
    ensures TextOfAll(kind + [Group('[', ']', [])]) == TextOfAll(kind) + "[]"
  {
    TextOfConcat(kind, [Group('[', ']', [])]);
    TextOfOne(Group('[', ']', []));
    assert TextOf(Group('[', ']', [])) == "[]";
  }

  lemma AlternativeFits(a: Alternative)
    requires PlainAlternative(a)
    ensures Fits(PrintAlternative(a), {'|', ',', ';'}) && Tight(TextOfAll(PrintAlternative(a)))
  {
    match a
    case Slots(list) =>
      ElementsTidy(list);
      ListWellFormed(ElementCells(list), {','});
      FitsOne(Group('[', ']', Joined(ElementCells(list))), {'|', ',', ';'});
      TextOfOne(Group('[', ']', Joined(ElementCells(list))));
      hide Fits, TextOfAll, PlainElements;
    case Many(kind) =>
      FitsOne(Group('[', ']', []), {'|', ',', ';'});
      ManyText(kind);
      hide AllWellFormed, AllSolid, TextOfAll;
      FitsTogether(kind, [Group('[', ']', [])], {'|', ',', ';'});
  }

  lemma AlternativesTidy(list: seq<Padded<Alternative>>)
    requires PlainAlternatives(list)
    ensures AllTidy(AlternativeCells(list), {'|'})
    ensures Fits(PrintArgs(list), {',', ';'})
  {
    var cells := AlternativeCells(list);
    forall i | 0 <= i < |list| ensures Tidy(cells[i], {'|'}) && Fits(cells[i].core, {',', ';'}) {
      if list[i].item.Some? {
        var pieces := PrintAlternative(list[i].item.value);
        AlternativeFits(list[i].item.value);
        hide AllWellFormed, AllSolid, PlainAlternative, PrintAlternative;
        FitsFewer(pieces, {'|', ',', ';'}, {'|'});
        FitsFewer(pieces, {'|', ',', ';'}, {',', ';'});
      } else {
        NothingFits({'|'});
        NothingFits({',', ';'});
      }
    }
    hide Fits, Tidy, Joined, PlainAlternatives, AlternativeCells;
    JoinedFits(cells, {'|'}, {',', ';'});
  }

  /** What reading one alternative adds to the arities. */
  lemma AlternativeReads(
      s: Text, from: nat, to: nat, a: Alternative, parts: seq<(nat, nat)>, arities: seq<nat>, variadic: bool)
    requires PlainAlternative(a) && At(s, from, TextOfAll(PrintAlternative(a)))
    requires to == from + |TextOfAll(PrintAlternative(a))|
    requires Within(s, parts) && parts != [] && R.Trim(s, parts[0].0, parts[0].1) == (from, to) && to <= |s|
    ensures R.Alternatives(s, parts, arities, variadic) ==
            if a.Slots? then
              R.Alternatives(s, parts[1..], R.AddArities(arities, Needed(Items(a.elements)), |Items(a.elements)|),
                variadic)
            else R.Alternatives(s, parts[1..], arities, true)
  {
    match a
    case Slots(list) =>
      var group := Group('[', ']', Joined(ElementCells(list)));
      TextOfOne(group);
      hide At, TextOfAll, TextOf, R.AddArities, R.Alternatives, PlainElements, R.Trim, R.Tuple, Needed;
      TupleReads(s, from, to, list);
      SlotsBy(s, parts, arities, variadic, from, to, Counted(Items(list), 0, 0));
    case Many(kind) =>
      ManyRange(s, from, to, kind);
      hide At, TextOfAll, R.AddArities, R.Alternatives, R.Trim, AllWellFormed, AllSolid;
      ManyBy(s, parts, arities, variadic, from, to);
  }

  lemma ManyRange(s: Text, from: nat, to: nat, kind: seq<Piece>)
    requires PlainAlternative(Many(kind)) && At(s, from, TextOfAll(PrintAlternative(Many(kind))))
    requires to == from + |TextOfAll(PrintAlternative(Many(kind)))|
    ensures from + 2 <= to <= |s| && s[from] != '[' && s[to - 2] == '[' && s[to - 1] == ']'
  {
    var t := TextOfAll(kind);
    ManyText(kind);
    assert to <= |s|;
    hide TextOfAll, At, AllWellFormed, AllSolid;
    AtIndex(s, from, t + "[]", 0);
    AtIndex(s, from, t + "[]", |t|);
    AtIndex(s, from, t + "[]", |t| + 1);
  }

  lemma SlotsBy(
      s: Text, parts: seq<(nat, nat)>, arities: seq<nat>, variadic: bool, from: nat, to: nat, slots: (nat, nat))
    requires Within(s, parts) && parts != [] && R.Trim(s, parts[0].0, parts[0].1) == (from, to) && from + 2 <= to <= |s|
    requires s[from] == '[' && s[to - 1] == ']' && R.Tuple(s, from, to) == Success(slots)
    ensures R.Alternatives(s, parts, arities, variadic) ==
            R.Alternatives(s, parts[1..], R.AddArities(arities, slots.1, slots.0), variadic)
  {
    hide R.AddArities, R.Tuple, R.Trim;
  }

  lemma ManyBy(s: Text, parts: seq<(nat, nat)>, arities: seq<nat>, variadic: bool, from: nat, to: nat)
    requires Within(s, parts) && parts != [] && R.Trim(s, parts[0].0, parts[0].1) == (from, to) && from + 2 <= to <= |s|
    requires s[from] != '[' && s[to - 2] == '[' && s[to - 1] == ']'
    ensures R.Alternatives(s, parts, arities, variadic) == R.Alternatives(s, parts[1..], arities, true)
  {
    hide R.AddArities, R.Tuple, R.Trim;
  }

  lemma BlankAlternative(s: Text, parts: seq<(nat, nat)>, arities: seq<nat>, variadic: bool)
    requires Within(s, parts) && parts != []
    requires R.Trim(s, parts[0].0, parts[0].1).0 == R.Trim(s, parts[0].0, parts[0].1).1
    ensures R.Alternatives(s, parts, arities, variadic) == R.Alternatives(s, parts[1..], arities, variadic)
  {
    hide R.Tuple, R.Trim;
  }

  lemma FirstAlternative(s: Text, parts: seq<(nat, nat)>, list: seq<Padded<Alternative>>) returns (from: nat, to: nat)
    requires list != [] && Stands(s, parts, AlternativeCells(list)) && PlainAlternatives(list)
    ensures from <= to <= |s| && R.Trim(s, parts[0].0, parts[0].1) == (from, to)
    ensures list[0].item.None? ==> from == to
    ensures list[0].item.Some? ==> PlainAlternative(list[0].item.value)
    ensures list[0].item.Some? ==> At(s, from, TextOfAll(PrintAlternative(list[0].item.value)))
    ensures list[0].item.Some? ==> to == from + |TextOfAll(PrintAlternative(list[0].item.value))|
    ensures Stands(s, parts[1..], AlternativeCells(list[1..])) && PlainAlternatives(list[1..])
  {
    var cells := AlternativeCells(list);
    AlternativesTidy(list);
    assert Tidy(cells[0], {'|'}) && StandsIn(s, parts[0], cells[0]);
    assert cells[1..] == AlternativeCells(list[1..]);
    if list[0].item.Some? {
      AlternativeFits(list[0].item.value);
      assert TextOfAll(PrintAlternative(list[0].item.value)) != [];
    }
    hide R.Trim, Tidy, StandsIn, PlainAlternative, PrintAlternative, At;
    from, to := CellTrims(s, parts[0], cells[0], {'|'});
  }

  lemma GatheredCons(a: Alternative, args: seq<Alternative>, arities: seq<nat>, variadic: bool)
    ensures Gathered([a] + args, arities, variadic) ==
            if a.Slots? then
              Gathered(args, R.AddArities(arities, Needed(Items(a.elements)), |Items(a.elements)|), variadic)
            else Gathered(args, arities, true)
  {
    assert ([a] + args)[1..] == args;
  }

  lemma {:induction false} AlternativesRead(
      s: Text, parts: seq<(nat, nat)>, list: seq<Padded<Alternative>>, arities: seq<nat>, variadic: bool)
    requires Within(s, parts) && Stands(s, parts, AlternativeCells(list)) && PlainAlternatives(list)
    ensures R.Alternatives(s, parts, arities, variadic) == Success(Gathered(Items(list), arities, variadic))
    decreases |list|
  {
    if list != [] {
      assert parts != [] && Within(s, parts[1..]);
      hide *;
      var from, to := FirstAlternative(s, parts, list);
      ItemsCons(list);
      if list[0].item.None? {
        BlankAlternative(s, parts, arities, variadic);
        AlternativesRead(s, parts[1..], list[1..], arities, variadic);
      } else {
        var a := list[0].item.value;
        AlternativeReads(s, from, to, a, parts, arities, variadic);
        GatheredCons(a, Items(list[1..]), arities, variadic);
        if a.Slots? {
          AlternativesRead(s, parts[1..], list[1..],
            R.AddArities(arities, Needed(Items(a.elements)), |Items(a.elements)|), variadic);
        } else {
          AlternativesRead(s, parts[1..], list[1..], arities, true);
        }
      }
    } else {
      assert R.Alternatives(s, parts, arities, variadic) == Success((arities, variadic));
    }
  }

  /** What the reader makes of a written args type. */
  function SpecOf(args: seq<Padded<Alternative>>): R.ArgsSpec {
    var found := Gathered(Items(args), [], false);
    R.ArgsSpec(R.Normalised(TextOfAll(PrintArgs(args)), 0, [], false), R.Sorted(found.0), found.1)
  }

  lemma {:induction false} SomethingGathered(args: seq<Alternative>, arities: seq<nat>, variadic: bool)
    requires args != [] || arities != [] || variadic
    ensures Gathered(args, arities, variadic).0 != [] || Gathered(args, arities, variadic).1
    decreases |args|
  {
    if args != [] {
      match args[0]
      case Slots(list) =>
        SomeArity(arities, Needed(Items(list)), |Items(list)|);
        SomethingGathered(args[1..], R.AddArities(arities, Needed(Items(list)), |Items(list)|), variadic);
      case Many(_) => SomethingGathered(args[1..], arities, true);
    }
  }

  lemma {:induction false} SomeArity(arities: seq<nat>, lo: nat, hi: nat)
    requires lo <= hi || arities != []
    ensures R.AddArities(arities, lo, hi) != []
    decreases hi + 1 - lo
  {
    if lo <= hi {
      SomeArity(if lo in arities then arities else arities + [lo], lo + 1, hi);
    }
  }

  lemma ArgsRead(s: Text, from: nat, to: nat, args: seq<Padded<Alternative>>)
    requires PlainArgs(args) && At(s, from, TextOfAll(PrintArgs(args))) && to == from + |TextOfAll(PrintArgs(args))|
    ensures from <= to <= |s| && R.ParseArgs(s, from, to) == Success(SpecOf(args))
  {
    assert args != [] && AlternativeCells(args) != [] && {'|'} <= SEPARATORS;
    assert s[from..to] == TextOfAll(PrintArgs(args));
    assert PlainAlternatives(args) && Items(args) != [];
    hide *;
    AlternativesTidy(args);
    ArgsAreJoined(args);
    var parts := ListSplits(s, from, to, AlternativeCells(args), {'|'});
    StandsWithin(s, parts, AlternativeCells(args));
    AlternativesRead(s, parts, args, [], false);
    SomethingGathered(Items(args), [], false);
    ArgsBy(s, from, to, args, parts);
  }

  lemma ArgsAreJoined(args: seq<Padded<Alternative>>)
    ensures PrintArgs(args) == Joined(AlternativeCells(args))
  {
  }

  lemma ArgsBy(s: Text, from: nat, to: nat, args: seq<Padded<Alternative>>, parts: seq<(nat, nat)>)
    requires from <= to <= |s| && Split(s, from, to, {'|'}) == Success(parts)
    requires s[from..to] == TextOfAll(PrintArgs(args))
    requires Within(s, parts) && R.Alternatives(s, parts, [], false) == Success(Gathered(Items(args), [], false))
    requires Gathered(Items(args), [], false).0 != [] || Gathered(Items(args), [], false).1
    ensures R.ParseArgs(s, from, to) == Success(SpecOf(args))
  {
    hide Split, SplitFrom, R.Alternatives, R.Normalised, R.Sorted, Gathered, PrintArgs;
  }

  // ---- keys ------------------------------------------------------------------------------------

  lemma QuotedText(quote: char, inner: Text)
    requires quote !in inner
    ensures TextOfAll([Str(quote, inner)]) == [quote] + inner + [quote]
    ensures R.StripQuotes([quote] + inner + [quote], quote) == Some(inner)
    ensures forall other | other != quote :: R.StripQuotes([quote] + inner + [quote], other) == None
  {
    var t := [quote] + inner + [quote];
    TextOfOne(Str(quote, inner));
    assert t[1..|t| - 1] == inner;
  }

  lemma HoleFree(t: Text, i: nat)
    requires !R.HasHole(t) && i + 1 < |t|
    ensures !(t[i] == '$' && t[i + 1] == '{')
  {
  }

  lemma SuffixKey(t: Text)
    requires t != [] && !R.HasHole(t)
    ensures R.TemplateKey(R.HOLE + "/" + t) == Some(R.Suffix(t))
  {
    var inner := R.HOLE + "/" + t;
    assert inner[..9] == R.HOLE && inner[9] == '/' && inner[10..] == t;
  }

  lemma PrefixKey(t: Text)
    requires t != [] && !R.HasHole(t)
    ensures R.TemplateKey(t + "/" + R.HOLE) == Some(R.Prefix(t))
  {
    var inner := t + "/" + R.HOLE;
    assert inner[|inner| - 9..] == R.HOLE && inner[|t|] == '/' && inner[..|t|] == t;
    if |t| > 1 {
      HoleFree(t, 0);
    }
    assert !(inner[0] == R.HOLE[0] && inner[1] == R.HOLE[1]);
  }

  /** Every key pattern reads back as itself, however it is quoted. */
  lemma KeyReads(key: Key)
    requires PlainKey(key)
    ensures R.KeyOf(TextOfAll(PrintKey(key))) == Some(key.pattern)
  {
    if key.quote.None? {
      CharsRead("string");
    } else {
      var quote := key.quote.value;
      match key.pattern
      case Literal(t) => QuotedText(quote, t);
      case Suffix(t) =>
        QuotedText(quote, R.HOLE + "/" + t);
        SuffixKey(t);
      case Prefix(t) =>
        QuotedText(quote, t + "/" + R.HOLE);
        PrefixKey(t);
      case Any => QuotedText(quote, R.HOLE);
    }
  }

  lemma {:induction false} NoEscapes(inner: Text, i: nat, quote: char)
    requires i <= |inner| && quote !in inner && '\\' !in inner
    ensures Quotable(inner, i, quote)
    decreases |inner| - i
  {
    if i < |inner| {
      NoEscapes(inner, i + 1, quote);
    }
  }

  lemma QuotedFits(quote: char, inner: Text)
    requires IsQuote(quote) && quote !in inner && Quotable(inner, 0, quote)
    ensures Fits([Str(quote, inner)], SEPARATORS) && Tight(TextOfAll([Str(quote, inner)]))
  {
    QuotedText(quote, inner);
    FitsOne(Str(quote, inner), SEPARATORS);
  }

  lemma KeyFits(key: Key)
    requires PlainKey(key)
    ensures Fits(PrintKey(key), SEPARATORS) && Tight(TextOfAll(PrintKey(key)))
  {
    hide TextOfAll, Fits, R.HasHole, Quotable, Tight;
    if key.quote.None? {
      StringFits();
    } else {
      var quote := key.quote.value;
      match key.pattern
      case Literal(t) =>
        NoEscapes(t, 0, quote);
        QuotedFits(quote, t);
      case Suffix(t) => QuotedFits(quote, R.HOLE + "/" + t);
      case Prefix(t) => QuotedFits(quote, t + "/" + R.HOLE);
      case Any =>
        NoEscapes(R.HOLE, 0, quote);
        QuotedFits(quote, R.HOLE);
    }
  }

  lemma StringFits()
    ensures Fits(Chars("string"), SEPARATORS) && Tight(TextOfAll(Chars("string")))
  {
    CharsRead("string");
    FitsChars("string", SEPARATORS);
  }

  // ---- members ---------------------------------------------------------------------------------

  function NameOf(m: Member): Text {
    if m.KeyMember? then "key" else "args"
  }

  lemma NamePieces(m: Member)
    ensures MemberField(m).name == Chars(NameOf(m)) && TextOfAll(Chars(NameOf(m))) == NameOf(m)
    ensures Fits(Chars(NameOf(m)), SEPARATORS) && Tight(NameOf(m))
  {
    CharsRead(NameOf(m));
    FitsChars(NameOf(m), SEPARATORS);
  }

  lemma MemberIsPlain(m: Member)
    requires PlainMember(m)
    ensures PlainField(MemberField(m))
    ensures Fits(FieldPieces(MemberField(m)), {';', ','})
  {
    var f := MemberField(m);
    NamePieces(m);
    match m {
      case KeyMember(_, _, key) => KeyFits(key);
      case ArgsMember(_, _, args) => AlternativesTidy(args);
    }
    hide AllWellFormed, AllSolid, TextOfAll, Tight, PrintKey, PrintArgs, PlainKey, PlainArgs, FieldPieces, Chars;
    FitsFewer(f.name, SEPARATORS, {':'});
    FitsFewer(f.name, SEPARATORS, {';', ','});
    if m.KeyMember? {
      FitsFewer(f.value, SEPARATORS, {';', ','});
    }
    FieldFits(f, {';', ','});
  }

  lemma MemberIsTight(m: Member)
    requires PlainMember(m)
    ensures Tight(TextOfAll(FieldPieces(MemberField(m))))
  {
    var f := MemberField(m);
    MemberIsPlain(m);
    assert Tight(TextOfAll(f.name)) && Tight(TextOfAll(f.value));
    hide TextOfAll, FieldPieces, PlainMember, PlainField, Fits, MemberField;
    FieldText(f, TextOfAll(f.name) + f.before, f.after + TextOfAll(f.value));
  }

  /** What the reader makes of a member. */
  function MemberRead(m: Member): R.Member {
    match m
    case KeyMember(_, _, key) => R.KeyMember(key.pattern, TextOfAll(PrintKey(key)))
    case ArgsMember(_, _, args) => R.ArgsMember(SpecOf(args))
  }

  lemma MemberReads(s: Text, part: (nat, nat), from: nat, to: nat, m: Member, hasKey: bool, hasArgs: bool)
    requires part.0 <= part.1 <= |s| && R.Trim(s, part.0, part.1) == (from, to) && to <= |s|
    requires PlainMember(m) && At(s, from, TextOfAll(FieldPieces(MemberField(m))))
    requires to == from + |TextOfAll(FieldPieces(MemberField(m)))| && if m.KeyMember? then !hasKey else !hasArgs
    ensures R.MemberOf(s, part, hasKey, hasArgs) == Success(MemberRead(m))
  {
    var f := MemberField(m);
    hide *;
    MemberIsPlain(m);
    var name, colon, value := FieldReads(s, from, to, f);
    NamePieces(m);
    ShapeMeans(s, from, to, f, name, colon, value);
    if m.KeyMember? {
      KeyMemberReads(s, part, from, to, m, hasKey, hasArgs, name, colon, value);
    } else {
      ArgsMemberReads(s, part, from, to, m, hasKey, hasArgs, name, colon, value);
    }
  }

  lemma ShapeMeans(s: Text, from: nat, to: nat, f: Field, name: nat, colon: nat, value: nat)
    requires FieldShape(s, from, to, f, name, colon, value)
    ensures from < name <= colon < value < to <= |s| && s[value..to] == TextOfAll(f.value)
    ensures to == value + |TextOfAll(f.value)|
  {
  }

  lemma KeyMemberReads(
      s: Text, part: (nat, nat), from: nat, to: nat, m: Member, hasKey: bool, hasArgs: bool, name: nat, colon: nat,
      value: nat)
    requires part.0 <= part.1 <= |s| && R.Trim(s, part.0, part.1) == (from, to) && to <= |s|
    requires PlainMember(m) && m.KeyMember? && !hasKey && FieldShape(s, from, to, MemberField(m), name, colon, value)
    ensures R.MemberOf(s, part, hasKey, hasArgs) == Success(MemberRead(m))
  {
    NamePieces(m);
    KeyReads(m.key);
    ShapeMeans(s, from, to, MemberField(m), name, colon, value);
    hide R.Trim, R.FindTopLevel, R.KeyOf, R.ParseArgs, TextOfAll, PrintKey, PlainKey, Chars, Fits, Tight, IsGap;
    KeyBy(s, part, from, to, hasArgs, name, colon, value, m.key.pattern, TextOfAll(PrintKey(m.key)));
  }

  lemma KeyBy(
      s: Text, part: (nat, nat), from: nat, to: nat, hasArgs: bool, name: nat, colon: nat, value: nat,
      key: R.KeyPattern, text: Text)
    requires part.0 <= part.1 <= |s| && R.Trim(s, part.0, part.1) == (from, to)
    requires from < name <= colon < value < to <= |s|
    requires R.FindTopLevel(s, from, to, {':'}) == Success(Some(colon))
    requires R.Trim(s, from, colon) == (from, name) && s[from..name] == "key"
    requires R.Trim(s, colon + 1, to) == (value, to) && s[value..to] == text && R.KeyOf(text) == Some(key)
    ensures R.MemberOf(s, part, false, hasArgs) == Success(R.KeyMember(key, text))
  {
    hide R.Trim, R.FindTopLevel, R.KeyOf, R.ParseArgs;
  }

  lemma ArgsMemberReads(
      s: Text, part: (nat, nat), from: nat, to: nat, m: Member, hasKey: bool, hasArgs: bool, name: nat, colon: nat,
      value: nat)
    requires part.0 <= part.1 <= |s| && R.Trim(s, part.0, part.1) == (from, to) && to <= |s|
    requires PlainMember(m) && m.ArgsMember? && !hasArgs && FieldShape(s, from, to, MemberField(m), name, colon, value)
    requires At(s, value, TextOfAll(MemberField(m).value)) && to == value + |TextOfAll(MemberField(m).value)|
    ensures R.MemberOf(s, part, hasKey, hasArgs) == Success(MemberRead(m))
  {
    NamePieces(m);
    ShapeMeans(s, from, to, MemberField(m), name, colon, value);
    hide R.Trim, R.FindTopLevel, R.ParseArgs, TextOfAll, PrintArgs, PlainArgs, Chars, SpecOf, At, Fits, Tight, IsGap;
    ArgsRead(s, value, to, m.args);
    ArgsMemberBy(s, part, from, to, hasKey, name, colon, value, SpecOf(m.args));
  }

  lemma ArgsMemberBy(
      s: Text, part: (nat, nat), from: nat, to: nat, hasKey: bool, name: nat, colon: nat, value: nat, spec: R.ArgsSpec)
    requires part.0 <= part.1 <= |s| && R.Trim(s, part.0, part.1) == (from, to)
    requires from < name <= colon < value < to <= |s|
    requires R.FindTopLevel(s, from, to, {':'}) == Success(Some(colon))
    requires R.Trim(s, from, colon) == (from, name) && s[from..name] == "args"
    requires R.Trim(s, colon + 1, to) == (value, to) && R.ParseArgs(s, value, to) == Success(spec)
    ensures R.MemberOf(s, part, hasKey, false) == Success(R.ArgsMember(spec))
  {
    hide R.Trim, R.FindTopLevel, R.KeyOf, R.ParseArgs, R.ParseKey;
    var text := s[from..name];
    assert text == "args" && "args" != "key";
  }

  // ---- entries ---------------------------------------------------------------------------------

  /** The event that a key and an args member make, whichever comes first. */
  function Assembled(
      members: seq<Member>, key: Option<(R.KeyPattern, Text)>, args: Option<R.ArgsSpec>): Option<R.Event>
  {
    if members == [] then
      if key.Some? && args.Some? then Some(R.Event(key.value.0, key.value.1, args.value)) else None
    else
      match members[0]
      case KeyMember(_, _, k) =>
        if key.Some? then None else Assembled(members[1..], Some((k.pattern, TextOfAll(PrintKey(k)))), args)
      case ArgsMember(_, _, a) => if args.Some? then None else Assembled(members[1..], key, Some(SpecOf(a)))
  }

  lemma MembersTidy(list: seq<Padded<Member>>)
    requires PlainMembers(list)
    ensures AllTidy(MemberCells(list), {';', ','})
  {
    forall i | 0 <= i < |list| ensures Tidy(MemberCells(list)[i], {';', ','}) {
      if list[i].item.Some? {
        MemberIsPlain(list[i].item.value);
        MemberIsTight(list[i].item.value);
      } else {
        NothingFits({';', ','});
      }
      hide Fits, PlainMember, FieldPieces;
    }
  }

  lemma FirstMember(s: Text, parts: seq<(nat, nat)>, list: seq<Padded<Member>>) returns (from: nat, to: nat)
    requires list != [] && Stands(s, parts, MemberCells(list)) && PlainMembers(list)
    ensures from <= to <= |s| && parts != [] && parts[0].0 <= parts[0].1 <= |s|
    ensures R.Trim(s, parts[0].0, parts[0].1) == (from, to)
    ensures list[0].item.None? ==> from == to
    ensures list[0].item.Some? ==> PlainMember(list[0].item.value)
    ensures list[0].item.Some? ==> At(s, from, TextOfAll(FieldPieces(MemberField(list[0].item.value))))
    ensures list[0].item.Some? ==> to == from + |TextOfAll(FieldPieces(MemberField(list[0].item.value)))|
    ensures Stands(s, parts[1..], MemberCells(list[1..])) && PlainMembers(list[1..])
  {
    var cells := MemberCells(list);
    MembersTidy(list);
    assert Tidy(cells[0], {';', ','}) && StandsIn(s, parts[0], cells[0]);
    assert cells[1..] == MemberCells(list[1..]);
    if list[0].item.Some? {
      MemberIsTight(list[0].item.value);
      assert TextOfAll(FieldPieces(MemberField(list[0].item.value))) != [];
    }
    hide R.Trim, Tidy, StandsIn, PlainMember, FieldPieces, At;
    from, to := CellTrims(s, parts[0], cells[0], {';', ','});
  }

  lemma MembersBlank(
      s: Text, start: nat, parts: seq<(nat, nat)>, key: Option<(R.KeyPattern, Text)>, args: Option<R.ArgsSpec>)
    requires Within(s, parts) && parts != []
    requires R.Trim(s, parts[0].0, parts[0].1).0 == R.Trim(s, parts[0].0, parts[0].1).1
    ensures R.Members(s, start, parts, key, args) == R.Members(s, start, parts[1..], key, args)
  {
    hide R.Trim, R.FindTopLevel, R.ParseArgs, R.ParseKey;
  }

  lemma MembersStep(
      s: Text, start: nat, parts: seq<(nat, nat)>, key: Option<(R.KeyPattern, Text)>, args: Option<R.ArgsSpec>,
      m: R.Member)
    requires Within(s, parts) && parts != [] && R.MemberOf(s, parts[0], key.Some?, args.Some?) == Success(m)
    ensures R.Members(s, start, parts, key, args) ==
            if m.KeyMember? then R.Members(s, start, parts[1..], Some((m.pattern, m.source)), args)
            else if m.ArgsMember? then R.Members(s, start, parts[1..], key, Some(m.spec))
            else R.Members(s, start, parts[1..], key, args)
  {
    hide R.MemberOf;
  }

  lemma AssembledCons(m: Member, members: seq<Member>, key: Option<(R.KeyPattern, Text)>, args: Option<R.ArgsSpec>)
    requires Assembled([m] + members, key, args).Some?
    ensures if m.KeyMember? then
              key.None? && Assembled([m] + members, key, args) ==
                Assembled(members, Some((m.key.pattern, TextOfAll(PrintKey(m.key)))), args)
            else
              args.None? && Assembled([m] + members, key, args) == Assembled(members, key, Some(SpecOf(m.args)))
  {
    assert ([m] + members)[1..] == members;
    hide TextOfAll, PrintKey, SpecOf;
  }

  lemma {:induction false} MembersRead(
      s: Text, start: nat, parts: seq<(nat, nat)>, list: seq<Padded<Member>>, key: Option<(R.KeyPattern, Text)>,
      args: Option<R.ArgsSpec>)
    requires Within(s, parts) && Stands(s, parts, MemberCells(list)) && PlainMembers(list)
    requires Assembled(Items(list), key, args).Some?
    ensures R.Members(s, start, parts, key, args) == Success(Assembled(Items(list), key, args).value)
    decreases |list|
  {
    if list != [] {
      assert parts != [] && Within(s, parts[1..]);
      hide *;
      var from, to := FirstMember(s, parts, list);
      ItemsCons(list);
      if list[0].item.None? {
        MembersBlank(s, start, parts, key, args);
        MembersRead(s, start, parts[1..], list[1..], key, args);
      } else {
        var m := list[0].item.value;
        AssembledCons(m, Items(list[1..]), key, args);
        MemberReads(s, parts[0], from, to, m, key.Some?, args.Some?);
        MembersStep(s, start, parts, key, args, MemberRead(m));
        MemberReadIs(m);
        if m.KeyMember? {
          MembersRead(s, start, parts[1..], list[1..], Some((m.key.pattern, TextOfAll(PrintKey(m.key)))), args);
        } else {
          MembersRead(s, start, parts[1..], list[1..], key, Some(SpecOf(m.args)));
        }
      }
    } else {
      hide Items, TextOfAll, SpecOf;
      assert Items(list) == [];
    }
  }

  lemma MemberReadIs(m: Member)
    ensures MemberRead(m) == if m.KeyMember? then R.KeyMember(m.key.pattern, TextOfAll(PrintKey(m.key)))
                             else R.ArgsMember(SpecOf(m.args))
  {
  }

  function TheKey(e: Entry): Key
    requires PlainEntry(e)
  {
    if Items(e.members)[0].KeyMember? then Items(e.members)[0].key else Items(e.members)[1].key
  }

  function TheArgs(e: Entry): seq<Padded<Alternative>>
    requires PlainEntry(e)
  {
    if Items(e.members)[0].ArgsMember? then Items(e.members)[0].args else Items(e.members)[1].args
  }

  /** What the reader makes of a written entry. */
  function EventOf(e: Entry): R.Event
    requires PlainEntry(e)
  {
    R.Event(TheKey(e).pattern, TextOfAll(PrintKey(TheKey(e))), SpecOf(TheArgs(e)))
  }

  lemma EntryAssembles(e: Entry)
    requires PlainEntry(e)
    ensures Assembled(Items(e.members), None, None) == Some(EventOf(e))
  {
    var members := Items(e.members);
    var last := members[1..];
    assert members[1] == last[0] && last[1..] == [];
    hide Items, PlainMembers, TextOfAll, PrintKey, SpecOf;
    if members[0].KeyMember? {
      var key := (members[0].key.pattern, TextOfAll(PrintKey(members[0].key)));
      assert Assembled(last, Some(key), None) == Assembled([], Some(key), Some(SpecOf(last[0].args)));
    } else {
      var args := SpecOf(members[0].args);
      var key := (last[0].key.pattern, TextOfAll(PrintKey(last[0].key)));
      assert Assembled(last, None, Some(args)) == Assembled([], Some(key), Some(args));
    }
  }

  lemma EntryReads(s: Text, part: (nat, nat), from: nat, to: nat, e: Entry)
    requires part.0 <= part.1 <= |s| && R.Trim(s, part.0, part.1) == (from, to) && PlainEntry(e)
    requires At(s, from, TextOfAll(PrintEntry(e))) && to == from + |TextOfAll(PrintEntry(e))|
    ensures R.EntryOf(s, part) == Success(Some(EventOf(e)))
  {
    var cells := MemberCells(e.members);
    assert Pair('{', '}') && {';', ','} <= SEPARATORS && cells != [] && PlainMembers(e.members);
    hide *;
    EntryText(e);
    MembersTidy(e.members);
    var parts := BracketsRead(s, from, to, '{', '}', cells, {';', ','});
    EntryAssembles(e);
    MembersRead(s, from + 1, parts, e.members, None, None);
    EntryBy(s, part, from, to, parts, EventOf(e));
  }

  lemma EntryText(e: Entry)
    ensures TextOfAll(PrintEntry(e)) == TextOf(Group('{', '}', Joined(MemberCells(e.members))))
  {
    TextOfOne(Group('{', '}', Joined(MemberCells(e.members))));
  }

  lemma EntryBy(s: Text, part: (nat, nat), from: nat, to: nat, parts: seq<(nat, nat)>, event: R.Event)
    requires part.0 <= part.1 <= |s| && R.Trim(s, part.0, part.1) == (from, to)
    requires from + 2 <= to <= |s| && s[from] == '{' && s[to - 1] == '}'
    requires Split(s, from + 1, to - 1, {';', ','}) == Success(parts) && Within(s, parts)
    requires R.Members(s, from + 1, parts, None, None) == Success(event)
    ensures R.EntryOf(s, part) == Success(Some(event))
  {
    hide Split, SplitFrom, R.Members, R.Trim;
  }

  // ---- lists of entries ------------------------------------------------------------------------

  function EventsOf(entries: seq<Entry>): (events: seq<R.Event>)
    requires forall i | 0 <= i < |entries| :: PlainEntry(entries[i])
    ensures |events| == |entries|
  {
    seq(|entries|, i requires 0 <= i < |entries| => EventOf(entries[i]))
  }

  lemma {:induction false} ItemsArePlain(list: seq<Padded<Entry>>)
    requires PlainEntries(list)
    ensures forall i | 0 <= i < |Items(list)| :: PlainEntry(Items(list)[i])
  {
    hide PlainEntry;
    if list != [] {
      ItemsArePlain(list[1..]);
    }
  }

  lemma EntryFits(e: Entry)
    requires PlainEntry(e)
    ensures Fits(PrintEntry(e), SEPARATORS) && Tight(TextOfAll(PrintEntry(e)))
  {
    var cells := MemberCells(e.members);
    MembersTidy(e.members);
    ListWellFormed(cells, {';', ','});
    hide AllWellFormed, MemberCells, Joined, AllTidy;
    FitsOne(Group('{', '}', Joined(cells)), SEPARATORS);
    TextOfOne(Group('{', '}', Joined(cells)));
  }

  lemma EntriesTidy(list: seq<Padded<Entry>>)
    requires PlainEntries(list)
    ensures AllTidy(EntryCells(list), {','})
  {
    forall i | 0 <= i < |list| ensures Tidy(EntryCells(list)[i], {','}) {
      if list[i].item.Some? {
        EntryFits(list[i].item.value);
        hide AllWellFormed, AllSolid, PlainEntry, PrintEntry;
        FitsFewer(PrintEntry(list[i].item.value), SEPARATORS, {','});
      } else {
        NothingFits({','});
      }
    }
  }

  lemma FirstEntry(s: Text, parts: seq<(nat, nat)>, list: seq<Padded<Entry>>) returns (from: nat, to: nat)
    requires list != [] && Stands(s, parts, EntryCells(list)) && PlainEntries(list)
    ensures from <= to <= |s| && parts != [] && parts[0].0 <= parts[0].1 <= |s|
    ensures R.Trim(s, parts[0].0, parts[0].1) == (from, to)
    ensures list[0].item.None? ==> from == to
    ensures list[0].item.Some? ==>
        PlainEntry(list[0].item.value) && At(s, from, TextOfAll(PrintEntry(list[0].item.value)))
    ensures list[0].item.Some? ==> to == from + |TextOfAll(PrintEntry(list[0].item.value))|
    ensures Stands(s, parts[1..], EntryCells(list[1..])) && PlainEntries(list[1..])
  {
    var cells := EntryCells(list);
    EntriesTidy(list);
    assert Tidy(cells[0], {','}) && StandsIn(s, parts[0], cells[0]);
    assert cells[1..] == EntryCells(list[1..]);
    if list[0].item.Some? {
      EntryFits(list[0].item.value);
      assert TextOfAll(PrintEntry(list[0].item.value)) != [];
    }
    hide R.Trim, Tidy, StandsIn, PlainEntry, PrintEntry, At;
    from, to := CellTrims(s, parts[0], cells[0], {','});
  }

  lemma EntriesBlank(s: Text, parts: seq<(nat, nat)>)
    requires Within(s, parts) && parts != []
    requires R.Trim(s, parts[0].0, parts[0].1).0 == R.Trim(s, parts[0].0, parts[0].1).1
    ensures R.Entries(s, parts) == R.Entries(s, parts[1..])
  {
    hide R.Trim, R.ParseEntry;
    PrefixedByNothing(R.Entries(s, parts[1..]));
  }

  lemma EntriesBy(s: Text, parts: seq<(nat, nat)>, event: R.Event, events: seq<R.Event>)
    requires Within(s, parts) && parts != [] && R.EntryOf(s, parts[0]) == Success(Some(event))
    requires R.Entries(s, parts[1..]) == Success(events)
    ensures R.Entries(s, parts) == Success([event] + events)
  {
    hide R.EntryOf;
  }

  lemma EventsCons(e: Entry, entries: seq<Entry>)
    requires PlainEntry(e) && forall i | 0 <= i < |entries| :: PlainEntry(entries[i])
    ensures forall i | 0 <= i < |[e] + entries| :: PlainEntry(([e] + entries)[i])
    ensures EventsOf([e] + entries) == [EventOf(e)] + EventsOf(entries)
  {
    hide PlainEntry, EventOf;
  }

  lemma {:induction false} EntriesRead(s: Text, parts: seq<(nat, nat)>, list: seq<Padded<Entry>>)
    requires Within(s, parts) && Stands(s, parts, EntryCells(list)) && PlainEntries(list)
    requires forall i | 0 <= i < |Items(list)| :: PlainEntry(Items(list)[i])
    ensures R.Entries(s, parts) == Success(EventsOf(Items(list)))
    decreases |list|
  {
    if list != [] {
      assert parts != [] && Within(s, parts[1..]);
      hide *;
      var from, to := FirstEntry(s, parts, list);
      ItemsCons(list);
      ItemsArePlain(list[1..]);
      EntriesRead(s, parts[1..], list[1..]);
      if list[0].item.None? {
        EntriesBlank(s, parts);
      } else {
        var e := list[0].item.value;
        EntryReads(s, parts[0], from, to, e);
        EntriesBy(s, parts, EventOf(e), EventsOf(Items(list[1..])));
        EventsCons(e, Items(list[1..]));
      }
    } else {
      hide PlainEntry, EventOf;
      assert Items(list) == [];
    }
  }

  lemma EntryListReads(s: Text, from: nat, to: nat, list: seq<Padded<Entry>>)
    requires PlainEntries(list) && Items(list) != []
    requires forall i | 0 <= i < |Items(list)| :: PlainEntry(Items(list)[i])
    requires At(s, from, TextOfAll(Joined(EntryCells(list)))) && to == from + |TextOfAll(Joined(EntryCells(list)))|
    ensures from <= to <= |s| && R.ParseEntries(s, from, to) == Success(EventsOf(Items(list)))
  {
    assert EntryCells(list) != [] && {','} <= SEPARATORS;
    hide *;
    EntriesTidy(list);
    var parts := ListSplits(s, from, to, EntryCells(list), {','});
    StandsWithin(s, parts, EntryCells(list));
    EntriesRead(s, parts, list);
    EntryListBy(s, from, to, parts, EventsOf(Items(list)));
  }

  lemma EntryListBy(s: Text, from: nat, to: nat, parts: seq<(nat, nat)>, events: seq<R.Event>)
    requires from <= to <= |s| && Split(s, from, to, {','}) == Success(parts) && events != []
    requires Within(s, parts) && R.Entries(s, parts) == Success(events)
    ensures R.ParseEntries(s, from, to) == Success(events)
  {
    hide Split, SplitFrom, R.Entries;
  }

  // ---- streams -----------------------------------------------------------------------------------

  /** What the reader makes of a written stream. */
  function StreamOf(d: Declaration): R.Stream
    requires PlainDeclaration(d)
  {
    ItemsArePlain(d.entries);
    R.Stream(d.name, EventsOf(Items(d.entries)))
  }

  function StreamsOf(ds: seq<Declaration>): (streams: seq<R.Stream>)
    requires PlainDeclarations(ds)
    ensures |streams| == |ds|
  {
    seq(|ds|, i requires 0 <= i < |ds| => StreamOf(ds[i]))
  }

  lemma NameFits(d: Declaration)
    requires PlainName(d)
    ensures Fits(PrintName(d), SEPARATORS) && Tight(TextOfAll(PrintName(d)))
    ensures TextOfAll(PrintName(d)) == match d.quote case None => d.name case Some(quote) => [quote] + d.name + [quote]
  {
    if d.quote.None? {
      CharsRead(d.name);
      assert R.IsIdentifier(d.name[0]) && R.IsIdentifier(d.name[|d.name| - 1]);
      FitsChars(d.name, SEPARATORS);
    } else {
      NoEscapes(d.name, 0, d.quote.value);
      QuotedText(d.quote.value, d.name);
      QuotedFits(d.quote.value, d.name);
    }
  }

  lemma EntryListFits(list: seq<Padded<Entry>>)
    requires PlainEntries(list)
    ensures Fits([Group('[', ']', Joined(EntryCells(list)))], SEPARATORS)
    ensures TextOfAll([Group('[', ']', Joined(EntryCells(list)))]) == TextOf(Group('[', ']', Joined(EntryCells(list))))
    ensures Tight(TextOfAll([Group('[', ']', Joined(EntryCells(list)))]))
  {
    var cells := EntryCells(list);
    EntriesTidy(list);
    ListWellFormed(cells, {','});
    hide AllWellFormed, EntryCells, Joined, AllTidy;
    FitsOne(Group('[', ']', Joined(cells)), SEPARATORS);
    TextOfOne(Group('[', ']', Joined(cells)));
  }

  lemma {:induction false} SpaceSkips(s: Text, p: nat, stop: nat)
    requires p <= stop <= |s| && (stop < |s| ==> !IsSpace(s[stop]))
    requires forall k | p <= k < stop :: IsSpace(s[k])
    ensures R.SkipSpace(s, p) == stop
    decreases stop - p
  {
    if p < stop {
      SpaceSkips(s, p + 1, stop);
    }
  }

  lemma {:induction false} IdentifierPasses(s: Text, i: nat, stop: nat, end: nat)
    requires i <= stop < end <= |s| && !R.IsIdentifier(s[stop])
    requires forall k | i <= k < stop :: R.IsIdentifier(s[k])
    ensures R.IdentifierEnd(s, i, end) == stop
    decreases stop - i
  {
    if i < stop {
      IdentifierPasses(s, i + 1, stop, end);
    }
  }

  lemma NameReads(s: Text, p: nat, end: nat, d: Declaration, after: nat)
    requires PlainName(d) && At(s, p, TextOfAll(PrintName(d))) && after == p + |TextOfAll(PrintName(d))| < end <= |s|
    requires IsSpace(s[after]) || s[after] == ':'
    ensures R.PropertyName(s, p, end) == Success((d.name, after))
  {
    NameFits(d);
    if d.quote.None? {
      assert R.IsIdentifier(d.name[0]);
      hide TextOfAll, PrintName;
      BareNameReads(s, p, end, d.name, after);
    } else {
      hide TextOfAll, PrintName, At;
      QuotedNameReads(s, p, end, d.quote.value, d.name);
    }
  }

  lemma BareNameReads(s: Text, p: nat, end: nat, name: Text, after: nat)
    requires name != [] && At(s, p, name) && after == p + |name| < end <= |s| && (IsSpace(s[after]) || s[after] == ':')
    requires forall k | 0 <= k < |name| :: R.IsIdentifier(name[k])
    ensures R.PropertyName(s, p, end) == Success((name, after))
  {
    forall k | p <= k < after ensures R.IsIdentifier(s[k]) {
      AtIndex(s, p, name, k - p);
    }
    hide StringEnd;
    IdentifierPasses(s, p, after, end);
    assert R.IsIdentifier(s[p]);
  }

  lemma QuotedNameReads(s: Text, p: nat, end: nat, quote: char, name: Text)
    requires (quote == '\'' || quote == '"') && quote !in name && '\\' !in name
    requires At(s, p, [quote] + name + [quote]) && p < end <= |s|
    ensures R.PropertyName(s, p, end) == Success((name, p + |name| + 2))
  {
    NoEscapes(name, 0, quote);
    StrPasses(s, p, quote, name);
    AtConcat(s, p, [quote] + name, [quote]);
    AtConcat(s, p, [quote], name);
    assert s[p + 1..p + 1 + |name|] == name;
    hide StringEnd, At, R.IdentifierEnd;
  }

  /** Where the parts of a declaration stand. */
  predicate Places(s: Text, p: nat, d: Declaration, after: nat, colon: nat, list: nat, close: nat) {
    && p < after <= colon < list < close < |s| && s[colon] == ':' && s[list] == '[' && s[close] == ']'
    && after == p + |TextOfAll(PrintName(d))| && At(s, p, TextOfAll(PrintName(d)))
    && (forall k | after <= k < colon :: IsSpace(s[k])) && (forall k | colon < k < list :: IsSpace(s[k]))
  }

  lemma HeadReads(s: Text, p: nat, end: nat, d: Declaration, after: nat, colon: nat, list: nat, close: nat)
    requires PlainName(d) && Places(s, p, d, after, colon, list, close) && close < end <= |s|
    ensures R.StreamHead(s, p, end) == Success((d.name, list))
  {
    NameReads(s, p, end, d, after);
    hide R.PropertyName, At, TextOfAll, PrintName, PlainName;
    SpaceSkips(s, after, colon);
    SpaceSkips(s, colon + 1, list);
  }

  lemma DeclarationStands(s: Text, p: nat, d: Declaration) returns (after: nat, colon: nat, list: nat, close: nat)
    requires PlainDeclaration(d) && At(s, p, TextOfAll(FieldPieces(DeclarationField(d))))
    ensures Places(s, p, d, after, colon, list, close) && p + |TextOfAll(FieldPieces(DeclarationField(d)))| == close + 1
    ensures At(s, list, TextOf(Group('[', ']', Joined(EntryCells(d.entries)))))
    ensures close + 1 == list + |TextOf(Group('[', ']', Joined(EntryCells(d.entries))))|
    ensures Matching(s, list, '[', ']', 0) == Some(close)
    ensures At(s, list + 1, TextOfAll(Joined(EntryCells(d.entries))))
    ensures close == list + 1 + |TextOfAll(Joined(EntryCells(d.entries)))|
  {
    var name, group := TextOfAll(PrintName(d)), TextOf(Group('[', ']', Joined(EntryCells(d.entries))));
    var head, tail := name + d.before, d.after + group;
    hide *;
    DeclarationText(d, head, tail);
    DeclarationParts(d);
    AtThree(s, p, head, ':', tail, TextOfAll(FieldPieces(DeclarationField(d))));
    after, colon := NameStands(s, p, name, d.before, head);
    list := ListStands(s, colon + 1, d.after, group, tail);
    close := list + |group| - 1;
    ListAt(s, list, close + 1, '[', ']', Joined(EntryCells(d.entries)));
    PlacesBy(s, p, d, after, colon, list, close);
  }

  lemma NameStands(s: Text, p: nat, name: Text, gap: Text, head: Text) returns (after: nat, colon: nat)
    requires head == name + gap && IsGap(gap) && At(s, p, head)
    ensures after == p + |name| <= colon == p + |head| <= |s| && At(s, p, name)
    ensures forall k | after <= k < colon :: IsSpace(s[k])
  {
    after, colon := p + |name|, p + |head|;
    AtConcat(s, p, name, gap);
    GapAt(s, after, gap);
  }

  lemma ListStands(s: Text, p: nat, gap: Text, group: Text, tail: Text) returns (list: nat)
    requires tail == gap + group && IsGap(gap) && At(s, p, tail)
    ensures p <= list && list + |group| == p + |tail| <= |s| && At(s, list, group)
    ensures forall k | p <= k < list :: IsSpace(s[k])
  {
    list := p + |gap|;
    AtConcat(s, p, gap, group);
    GapAt(s, p, gap);
  }

  lemma DeclarationText(d: Declaration, head: Text, tail: Text)
    requires PlainDeclaration(d) && head == TextOfAll(PrintName(d)) + d.before
    requires tail == d.after + TextOf(Group('[', ']', Joined(EntryCells(d.entries))))
    ensures TextOfAll(FieldPieces(DeclarationField(d))) == head + [':'] + tail
    ensures TextOf(Group('[', ']', Joined(EntryCells(d.entries)))) != []
  {
    var f := DeclarationField(d);
    EntryListFits(d.entries);
    hide TextOfAll, TextOf, FieldPieces, PrintName, EntryCells, Joined, PlainDeclaration;
    FieldText(f, head, tail);
  }

  lemma DeclarationParts(d: Declaration)
    requires PlainDeclaration(d)
    ensures TextOfAll(PrintName(d)) != [] && IsGap(d.before) && IsGap(d.after)
    ensures AllWellFormed(Joined(EntryCells(d.entries))) && Pair('[', ']')
  {
    NameFits(d);
    EntryListFits(d.entries);
    EntriesTidy(d.entries);
    ListWellFormed(EntryCells(d.entries), {','});
    hide TextOfAll, TextOf, PrintName, AllWellFormed, EntryCells, Joined, AllTidy, AllSolid, IsGap;
  }

  lemma PlacesBy(s: Text, p: nat, d: Declaration, after: nat, colon: nat, list: nat, close: nat)
    requires p < after <= colon < list < close < |s| && s[colon] == ':' && s[list] == '[' && s[close] == ']'
    requires after == p + |TextOfAll(PrintName(d))| && At(s, p, TextOfAll(PrintName(d)))
    requires forall k | after <= k < colon :: IsSpace(s[k])
    requires forall k | colon < k < list :: IsSpace(s[k])
    ensures Places(s, p, d, after, colon, list, close)
  {
    hide TextOfAll, PrintName, At;
  }

  /** From `q`, spaces and semicolons are skipped up to `p`. */
  predicate Continues(s: Text, q: nat, p: nat, end: nat)
    requires end <= |s|
  {
    q <= |s| && R.SkipSpace(s, q) <= end && R.SkipSemicolons(s, R.SkipSpace(s, q), end) == p
  }

  lemma ContinuesBounds(s: Text, q: nat, p: nat, end: nat)
    requires end <= |s| && Continues(s, q, p, end)
    ensures q <= |s|
  {
  }

  lemma {:induction false} PauseSkips(s: Text, q: nat, p: nat, end: nat)
    requires q <= p <= end < |s| && !IsSpace(s[p]) && s[p] != ';'
    requires forall k | q <= k < p :: IsSpace(s[k]) || s[k] == ';'
    ensures Continues(s, q, p, end)
    decreases p - q
  {
    if q < p && IsSpace(s[q]) {
      PauseSkips(s, q + 1, p, end);
    } else if q < p {
      PauseSkips(s, q + 1, p, end);
      assert R.SkipSpace(s, q) == q;
    } else {
      assert R.SkipSpace(s, q) == q;
    }
  }

  lemma DeclarationReads(s: Text, q: nat, p: nat, end: nat, d: Declaration, next: nat)
    requires PlainDeclaration(d) && At(s, p, TextOfAll(FieldPieces(DeclarationField(d))))
    requires next == p + |TextOfAll(FieldPieces(DeclarationField(d)))| <= end < |s| && Continues(s, q, p, end)
    ensures q <= |s| && R.NextStream(s, q, end) == Success(Some((StreamOf(d), next)))
  {
    hide *;
    ContinuesBounds(s, q, p, end);
    var list, close := DeclarationParses(s, p, end, d, next);
    StreamBy(s, q, p, end, StreamOf(d), list, close);
  }

  lemma DeclarationParses(s: Text, p: nat, end: nat, d: Declaration, next: nat) returns (list: nat, close: nat)
    requires PlainDeclaration(d) && At(s, p, TextOfAll(FieldPieces(DeclarationField(d))))
    requires next == p + |TextOfAll(FieldPieces(DeclarationField(d)))| <= end < |s|
    ensures p < list < close < end && next == close + 1
    ensures R.StreamHead(s, p, end) == Success((StreamOf(d).name, list))
    ensures Matching(s, list, '[', ']', 0) == Some(close)
    ensures R.ParseEntries(s, list + 1, close) == Success(StreamOf(d).events)
  {
    hide *;
    StreamParts(d);
    var after, colon;
    after, colon, list, close := DeclarationStands(s, p, d);
    PlacesMean(s, p, d, after, colon, list, close);
    HeadReads(s, p, end, d, after, colon, list, close);
    ListReads(s, d, list, close);
  }

  lemma StreamParts(d: Declaration)
    requires PlainDeclaration(d)
    ensures PlainName(d) && StreamOf(d).name == d.name
  {
  }

  lemma ListReads(s: Text, d: Declaration, list: nat, close: nat)
    requires PlainDeclaration(d) && At(s, list + 1, TextOfAll(Joined(EntryCells(d.entries))))
    requires close == list + 1 + |TextOfAll(Joined(EntryCells(d.entries)))|
    ensures close <= |s| && R.ParseEntries(s, list + 1, close) == Success(StreamOf(d).events)
  {
    hide *;
    EventsAre(d);
    EntryListReads(s, list + 1, close, d.entries);
  }

  lemma EventsAre(d: Declaration)
    requires PlainDeclaration(d)
    ensures PlainEntries(d.entries) && Items(d.entries) != []
    ensures forall i | 0 <= i < |Items(d.entries)| :: PlainEntry(Items(d.entries)[i])
    ensures StreamOf(d).events == EventsOf(Items(d.entries))
  {
    ItemsArePlain(d.entries);
    hide PlainEntry, EventOf, Items;
  }

  lemma PlacesMean(s: Text, p: nat, d: Declaration, after: nat, colon: nat, list: nat, close: nat)
    requires Places(s, p, d, after, colon, list, close)
    ensures p < list < close < |s|
  {
  }

  lemma StreamBy(s: Text, q: nat, p: nat, end: nat, stream: R.Stream, list: nat, close: nat)
    requires end <= |s| && Continues(s, q, p, end) && p < list < close < |s| && p < end
    requires R.StreamHead(s, p, end) == Success((stream.name, list)) && Matching(s, list, '[', ']', 0) == Some(close)
    requires R.ParseEntries(s, list + 1, close) == Success(stream.events)
    ensures R.NextStream(s, q, end) == Success(Some((stream, close + 1)))
  {
    hide R.SkipSpace, R.SkipSemicolons, R.StreamHead, R.ParseEntries, Matching;
  }

  lemma NameStarts(d: Declaration)
    requires PlainName(d)
    ensures TextOfAll(PrintName(d)) != [] && !IsSpace(TextOfAll(PrintName(d))[0]) && TextOfAll(PrintName(d))[0] != ';'
  {
    NameFits(d);
    hide TextOfAll, PrintName;
    if d.quote.None? {
      assert R.IsIdentifier(d.name[0]);
    }
  }

  lemma DeclarationStarts(s: Text, p: nat, d: Declaration)
    requires PlainDeclaration(d) && At(s, p, TextOfAll(FieldPieces(DeclarationField(d))))
    ensures p < |s| && !IsSpace(s[p]) && s[p] != ';'
  {
    var f := DeclarationField(d);
    assert PlainName(d) && f.name == PrintName(d);
    var head, tail := TextOfAll(f.name) + f.before, f.after + TextOfAll(f.value);
    hide *;
    FieldText(f, head, tail);
    NameStarts(d);
    AtConcat(s, p, head + [':'], tail);
    AtConcat(s, p, head, [':']);
    AtConcat(s, p, TextOfAll(f.name), f.before);
    AtIndex(s, p, TextOfAll(f.name), 0);
    AtBound(s, p, TextOfAll(f.name));
  }

  lemma BodyCons(ds: seq<Declaration>)
    requires ds != []
    ensures TextOfAll(PrintBody(ds)) ==
            TextOfAll(FieldPieces(DeclarationField(ds[0]))) + (ds[0].tail + TextOfAll(PrintBody(ds[1..])))
  {
    var f := FieldPieces(DeclarationField(ds[0]));
    hide TextOfAll, FieldPieces, DeclarationField, Chars;
    TextOfConcat(f + Chars(ds[0].tail), PrintBody(ds[1..]));
    TextOfConcat(f, Chars(ds[0].tail));
    CharsRead(ds[0].tail);
    Regroup(TextOfAll(f), ds[0].tail, TextOfAll(PrintBody(ds[1..])));
  }

  lemma PauseAt(s: Text, p: nat, t: Text)
    requires IsPause(t) && At(s, p, t)
    ensures forall k | p <= k < p + |t| :: IsSpace(s[k]) || s[k] == ';'
  {
    forall k | p <= k < p + |t| ensures IsSpace(s[k]) || s[k] == ';' {
      AtIndex(s, p, t, k - p);
    }
  }

  lemma NoDeclarations(pause: Text, ds: seq<Declaration>)
    requires ds == []
    ensures pause + TextOfAll(PrintBody(ds)) == pause && StreamsOf(ds) == []
  {
  }

  lemma {:induction false} StreamsRead(s: Text, q: nat, end: nat, pause: Text, ds: seq<Declaration>)
    requires IsPause(pause) && PlainDeclarations(ds) && At(s, q, pause + TextOfAll(PrintBody(ds)))
    requires q + |pause + TextOfAll(PrintBody(ds))| == end < |s| && s[end] == '}'
    ensures R.Streams(s, q, end) == Success(StreamsOf(ds))
    decreases |ds|, 1
  {
    hide *;
    if ds == [] {
      NoDeclarations(pause, ds);
      PauseAt(s, q, pause);
      LastPause(s, q, end);
    } else {
      BodyCons(ds);
      OneMoreStream(s, q, end, pause, ds, TextOfAll(FieldPieces(DeclarationField(ds[0]))),
                    ds[0].tail + TextOfAll(PrintBody(ds[1..])));
    }
  }

  lemma {:induction false} OneMoreStream(
      s: Text, q: nat, end: nat, pause: Text, ds: seq<Declaration>, text: Text, rest: Text)
    requires ds != [] && IsPause(pause) && PlainDeclarations(ds) && At(s, q, pause + (text + rest))
    requires q + |pause + (text + rest)| == end < |s| && s[end] == '}'
    requires text == TextOfAll(FieldPieces(DeclarationField(ds[0])))
    requires rest == ds[0].tail + TextOfAll(PrintBody(ds[1..]))
    ensures R.Streams(s, q, end) == Success(StreamsOf(ds))
    decreases |ds|, 0
  {
    hide *;
    var p := q + |pause|;
    var next := p + |text|;
    FirstDeclaration(ds);
    AtConcat(s, q, pause, text + rest);
    AtConcat(s, p, text, rest);
    DeclarationStarts(s, p, ds[0]);
    PauseAt(s, q, pause);
    PauseSkips(s, q, p, end);
    DeclarationReads(s, q, p, end, ds[0], next);
    StreamsRead(s, next, end, ds[0].tail, ds[1..]);
    StreamsBy(s, q, end, StreamOf(ds[0]), next, StreamsOf(ds[1..]));
  }

  lemma FirstDeclaration(ds: seq<Declaration>)
    requires PlainDeclarations(ds) && ds != []
    ensures PlainDeclaration(ds[0]) && PlainDeclarations(ds[1..]) && IsPause(ds[0].tail)
    ensures StreamsOf(ds) == [StreamOf(ds[0])] + StreamsOf(ds[1..])
  {
    assert PlainDeclaration(ds[0]);
    assert IsPause(ds[0].tail);
    hide PlainDeclaration, StreamOf, IsPause;
  }

  lemma LastPause(s: Text, q: nat, end: nat)
    requires q <= end < |s| && s[end] == '}' && forall k | q <= k < end :: IsSpace(s[k]) || s[k] == ';'
    ensures R.Streams(s, q, end) == Success([])
  {
    PauseSkips(s, q, end, end);
    hide R.SkipSpace, R.SkipSemicolons;
    assert R.NextStream(s, q, end) == Success(None);
  }

  lemma StreamsBy(s: Text, q: nat, end: nat, stream: R.Stream, next: nat, streams: seq<R.Stream>)
    requires q <= |s| && end <= |s| && next <= |s|
    requires R.NextStream(s, q, end) == Success(Some((stream, next))) && R.Streams(s, next, end) == Success(streams)
    ensures R.Streams(s, q, end) == Success([stream] + streams)
  {
    hide R.NextStream;
  }

  // ---- the whole interface -----------------------------------------------------------------------

  lemma DeclarationWellFormed(d: Declaration)
    requires PlainDeclaration(d)
    ensures AllWellFormed(PrintDeclaration(d))
  {
    var f := DeclarationField(d);
    NameFits(d);
    EntryListFits(d.entries);
    FitsFewer(f.name, SEPARATORS, {});
    FitsFewer(f.value, SEPARATORS, {});
    PauseFits(d.tail);
    hide AllWellFormed, AllSolid, PrintName, EntryCells, Joined, TextOfAll, FieldPieces, PlainName, PlainEntries;
    FieldFits(f, {});
    FitsTogether(FieldPieces(f), Chars(d.tail), {});
  }

  lemma PauseFits(t: Text)
    requires IsPause(t)
    ensures Fits(Chars(t), {})
  {
  }

  lemma {:induction false} BodyWellFormed(ds: seq<Declaration>)
    requires PlainDeclarations(ds)
    ensures AllWellFormed(PrintBody(ds))
  {
    if ds != [] {
      DeclarationWellFormed(ds[0]);
      BodyWellFormed(ds[1..]);
      hide PrintDeclaration, PlainDeclaration, WellFormed;
    }
  }

  lemma BlockWellFormed(i: Interface)
    requires PlainInterface(i)
    ensures AllWellFormed(Chars(i.lead) + PrintBody(i.declarations))
  {
    BodyWellFormed(i.declarations);
    PauseFits(i.lead);
    hide WellFormed, PrintBody;
  }

  lemma NeedleFits()
    ensures Fits(Chars(R.NEEDLE), {})
  {
    forall i | 0 <= i < |R.NEEDLE| ensures Inert(R.NEEDLE[i]) { }
  }

  lemma AllFits(i: Interface)
    requires PlainInterface(i)
    ensures AllWellFormed(PrintAll(i))
  {
    BlockWellFormed(i);
    FitsGap(i.gap, {});
    FitsOne(Group('{', '}', Chars(i.lead) + PrintBody(i.declarations)), {});
    hide AllWellFormed, AllSolid, PrintBody, Chars, PlainInterface;
    NeedleFits();
    FitsTogether(Chars(R.NEEDLE), Chars(i.gap), {});
    FitsTogether(Chars(R.NEEDLE) + Chars(i.gap), PrintBlock(i), {});
  }

  lemma PrintIs(i: Interface)
    ensures Print(i) == R.NEEDLE + i.gap + TextOfAll(PrintBlock(i))
    ensures TextOfAll(PrintBlock(i)) == TextOf(Group('{', '}', Chars(i.lead) + PrintBody(i.declarations)))
    ensures TextOfAll(Chars(i.lead) + PrintBody(i.declarations)) == i.lead + TextOfAll(PrintBody(i.declarations))
  {
    hide TextOfAll, TextOf, Chars, PrintBody;
    TextOfConcat(Chars(R.NEEDLE) + Chars(i.gap), PrintBlock(i));
    TextOfConcat(Chars(R.NEEDLE), Chars(i.gap));
    TextOfConcat(Chars(i.lead), PrintBody(i.declarations));
    CharsRead(R.NEEDLE);
    CharsRead(i.gap);
    CharsRead(i.lead);
    TextOfOne(Group('{', '}', Chars(i.lead) + PrintBody(i.declarations)));
  }

  predicate Mentions(t: Text, part: Text) {
    exists k | 0 <= k <= |t| :: part <= t[k..]
  }

  lemma {:induction false} FindsAt(s: Text, i: nat, at: nat, part: Text)
    requires i <= at <= |s| && part <= s[at..]
    requires forall k | i <= k < at :: !(part <= s[k..])
    ensures R.Find(s, i, part) == Some(at)
    decreases at - i
  {
    if i < at {
      FindsAt(s, i + 1, at, part);
    }
  }

  lemma NotBefore(s: Text, before: Text, k: nat)
    requires !Mentions(before, R.NEEDLE) && At(s, 0, before) && At(s, |before|, R.NEEDLE) && k < |before|
    ensures !(R.NEEDLE <= s[k..])
  {
    var at := |before|;
    if k + |R.NEEDLE| <= at {
      assert !(R.NEEDLE <= before[k..]);
      assert before == s[..at];
      Shortened(s, at, k, R.NEEDLE);
    } else {
      AtIndex(s, at, R.NEEDLE, 0);
      NeedleStartsOnce(at - k);
      assert s[k..][at - k] == s[at];
    }
  }

  lemma Shortened(s: Text, at: nat, k: nat, part: Text)
    requires k + |part| <= at <= |s|
    ensures part <= s[k..] <==> part <= s[..at][k..]
  {
    assert s[k..][..|part|] == s[..at][k..][..|part|];
  }

  /** The interface's name is found where it stands, for it cannot overlap itself. */
  lemma FindsNeedle(s: Text, before: Text)
    requires !Mentions(before, R.NEEDLE) && At(s, 0, before) && At(s, |before|, R.NEEDLE)
    ensures R.Find(s, 0, R.NEEDLE) == Some(|before|)
  {
    var at, n := |before|, |R.NEEDLE|;
    assert s[at..][..n] == s[at..at + n] == R.NEEDLE;
    forall k | 0 <= k < at ensures !(R.NEEDLE <= s[k..]) {
      NotBefore(s, before, k);
    }
    FindsAt(s, 0, at, R.NEEDLE);
  }

  lemma NeedleStartsOnce(j: nat)
    requires 0 < j < |R.NEEDLE|
    ensures R.NEEDLE[j] != R.NEEDLE[0]
  {
  }

  lemma FindsBrace(s: Text, start: nat, brace: nat, heading: Text, head: Text)
    requires head == R.NEEDLE + heading && At(s, start, head) && '{' !in heading
    requires brace == start + |head| < |s| && s[brace] == '{'
    ensures R.Find(s, start, "{") == Some(brace)
  {
    forall k | start <= k < brace ensures !("{" <= s[k..]) {
      AtIndex(s, start, head, k - start);
      assert s[k..][0] == s[k] && "{"[0] == '{';
      if k < start + |R.NEEDLE| {
        NoBraceInNeedle(k - start);
      } else {
        assert s[k] in heading;
      }
    }
    assert s[brace..][0] == s[brace];
    FindsAt(s, start, brace, "{");
  }

  lemma NoBraceInNeedle(j: nat)
    requires j < |R.NEEDLE|
    ensures R.NEEDLE[j] != '{'
  {
  }

  lemma BlockReads(s: Text, brace: nat, to: nat, i: Interface)
    requires PlainInterface(i) && At(s, brace, TextOfAll(PrintBlock(i))) && to == brace + |TextOfAll(PrintBlock(i))|
    ensures brace + 2 <= to <= |s| && s[brace] == '{' && Matching(s, brace, '{', '}', 0) == Some(to - 1)
    ensures R.Streams(s, brace + 1, to - 1) == Success(StreamsOf(i.declarations))
  {
    var body := Chars(i.lead) + PrintBody(i.declarations);
    assert IsPause(i.lead) && PlainDeclarations(i.declarations) && Pair('{', '}');
    hide *;
    BlockWellFormed(i);
    PrintIs(i);
    ListAt(s, brace, to, '{', '}', body);
    StreamsRead(s, brace + 1, to - 1, i.lead, i.declarations);
  }

  /** Reading a written interface, whatever stands before and after it, and between its name and its brace. */
  lemma InterfaceReads(s: Text, before: Text, heading: Text, i: Interface, after: Text)
    requires PlainInterface(i) && !Mentions(before, R.NEEDLE) && '{' !in heading
    requires s == before + (R.NEEDLE + heading + TextOfAll(PrintBlock(i))) + after
    ensures R.ParseStripped(s) == Success(StreamsOf(i.declarations))
  {
    var head := R.NEEDLE + heading;
    assert StreamsOf(i.declarations) != [];
    hide *;
    InterfaceAt(s, before, heading, i, after, head, head + TextOfAll(PrintBlock(i)));
    InterfaceReadsAt(s, before, heading, i, head, |before|, |before| + |head|, StreamsOf(i.declarations));
  }

  lemma InterfaceReadsAt(
      s: Text, before: Text, heading: Text, i: Interface, head: Text, start: nat, brace: nat, streams: seq<R.Stream>)
    requires PlainInterface(i) && !Mentions(before, R.NEEDLE) && '{' !in heading && head == R.NEEDLE + heading
    requires start == |before| && brace == start + |head|
    requires At(s, 0, before) && At(s, start, head) && At(s, start, R.NEEDLE) && At(s, brace, TextOfAll(PrintBlock(i)))
    requires streams == StreamsOf(i.declarations) && streams != []
    ensures R.ParseStripped(s) == Success(streams)
  {
    hide *;
    var end := BlockEnds(s, brace, i, streams);
    FindsNeedle(s, before);
    FindsBrace(s, start, brace, heading, head);
    ParseBy(s, start, brace, end, Success(streams));
  }

  lemma BlockEnds(s: Text, brace: nat, i: Interface, streams: seq<R.Stream>) returns (end: nat)
    requires PlainInterface(i) && At(s, brace, TextOfAll(PrintBlock(i))) && streams == StreamsOf(i.declarations)
    ensures brace < end < |s| && s[brace] == '{' && Matching(s, brace, '{', '}', 0) == Some(end)
    ensures R.Streams(s, brace + 1, end) == Success(streams)
  {
    hide *;
    var to := brace + |TextOfAll(PrintBlock(i))|;
    BlockReads(s, brace, to, i);
    end := to - 1;
  }

  lemma InterfaceAt(s: Text, before: Text, heading: Text, i: Interface, after: Text, head: Text, text: Text)
    requires s == before + text + after && head == R.NEEDLE + heading && text == head + TextOfAll(PrintBlock(i))
    ensures At(s, 0, before) && At(s, |before|, head) && At(s, |before|, R.NEEDLE)
    ensures At(s, |before| + |head|, TextOfAll(PrintBlock(i)))
  {
    assert s[0..0 + |s|] == s;
    assert At(s, 0, before + text + after);
    hide *;
    AtConcat(s, 0, before + text, after);
    AtConcat(s, 0, before, text);
    AtConcat(s, |before|, head, TextOfAll(PrintBlock(i)));
    AtConcat(s, |before|, R.NEEDLE, heading);
  }

  lemma BracesBy(s: Text, brace: nat, end: nat, streams: Result<seq<R.Stream>, Fault>)
    requires brace < end < |s| && s[brace] == '{'
    requires Matching(s, brace, '{', '}', 0) == Some(end) && R.Streams(s, brace + 1, end) == streams
    ensures R.ParseBraces(s, brace) == if streams == Success([]) then Failure(Rejected(brace + 1)) else streams
  {
    hide Matching, R.Streams;
  }

  lemma FoundBy(s: Text, start: nat, brace: nat)
    requires start <= brace < |s| && s[brace] == '{'
    requires R.Find(s, 0, R.NEEDLE) == Some(start) && R.Find(s, start, "{") == Some(brace)
    ensures R.ParseStripped(s) == R.ParseBraces(s, brace)
  {
    hide R.Find, R.ParseBraces, R.NEEDLE;
  }

  lemma ParseBy(s: Text, start: nat, brace: nat, end: nat, streams: Result<seq<R.Stream>, Fault>)
    requires start <= brace < end < |s| && s[brace] == '{'
    requires R.Find(s, 0, R.NEEDLE) == Some(start) && R.Find(s, start, "{") == Some(brace)
    requires Matching(s, brace, '{', '}', 0) == Some(end) && R.Streams(s, brace + 1, end) == streams
    ensures R.ParseStripped(s) == if streams == Success([]) then Failure(Rejected(brace + 1)) else streams
  {
    hide *;
    FoundBy(s, start, brace);
    BracesBy(s, brace, end, streams);
  }

  // ---- what the reading says ---------------------------------------------------------------------

  /** A tuple of that length fits some alternative: its required elements are there and no more than all. */
  ghost predicate Allows(args: seq<Alternative>, n: nat) {
    exists i :: 0 <= i < |args| && AllowedBy(args[i], n)
  }

  predicate AllowedBy(a: Alternative, n: nat) {
    a.Slots? && Needed(Items(a.elements)) <= n <= |Items(a.elements)|
  }

  ghost predicate SomeMany(args: seq<Alternative>) {
    exists i :: 0 <= i < |args| && args[i].Many?
  }

  lemma {:induction false} GatheredMeans(args: seq<Alternative>, arities: seq<nat>, variadic: bool)
    requires NoRepeats(arities)
    ensures NoRepeats(Gathered(args, arities, variadic).0)
    ensures forall n: nat :: n in Gathered(args, arities, variadic).0 <==> n in arities || Allows(args, n)
    ensures Gathered(args, arities, variadic).1 <==> variadic || SomeMany(args)
    decreases |args|
  {
    if args != [] {
      var rest := args[1..];
      AllowsCons(args);
      hide NoRepeats, Allows, SomeMany, Needed, R.AddArities, Items;
      match args[0]
      case Slots(list) =>
        R.AddingKeepsDistinct(arities, Needed(Items(list)), |Items(list)|);
        GatheredMeans(rest, R.AddArities(arities, Needed(Items(list)), |Items(list)|), variadic);
      case Many(_) => GatheredMeans(rest, arities, true);
    }
  }

  lemma {:induction false} AllowsCons(args: seq<Alternative>)
    requires args != []
    ensures forall n: nat :: Allows(args, n) <==> Allows(args[1..], n) || AllowedBy(args[0], n)
    ensures SomeMany(args) <==> args[0].Many? || SomeMany(args[1..])
  {
    hide AllowedBy;
    forall n: nat | Allows(args[1..], n) ensures Allows(args, n) {
      var i :| 0 <= i < |args[1..]| && AllowedBy(args[1..][i], n);
      assert args[i + 1] == args[1..][i];
    }
    forall n: nat | Allows(args, n) ensures Allows(args[1..], n) || AllowedBy(args[0], n) {
      var i :| 0 <= i < |args| && AllowedBy(args[i], n);
      if i > 0 {
        assert args[1..][i - 1] == args[i];
      }
    }
    if SomeMany(args[1..]) {
      var i :| 0 <= i < |args[1..]| && args[1..][i].Many?;
      assert args[i + 1].Many?;
    }
    if SomeMany(args) && !args[0].Many? {
      var i :| 0 <= i < |args| && args[i].Many?;
      assert args[1..][i - 1].Many?;
    }
  }

  /**
   * A written args type is reported with exactly the lengths its alternatives allow, ascending, as
   * unbounded exactly when one alternative is an array, and with its words in order.
   */
  lemma {:induction false} ArgsRoundTrip(args: seq<Padded<Alternative>>)
    ensures SpecOf(args).source == R.Spaced(R.Words(TextOfAll(PrintArgs(args))))
    ensures R.Ascending(SpecOf(args).arities)
    ensures forall n: nat :: n in SpecOf(args).arities <==> Allows(Items(args), n)
    ensures SpecOf(args).variadic <==> SomeMany(Items(args))
  {
    var items := Items(args);
    hide Allows, SomeMany, NoRepeats, Gathered, Items, PrintArgs, TextOfAll, R.Normalised;
    R.NormalisedIsSpaced(TextOfAll(PrintArgs(args)));
    NothingRepeats();
    GatheredMeans(items, [], false);
    R.SortedIsAscending(Gathered(items, [], false).0);
  }

  lemma NothingRepeats()
    ensures NoRepeats<nat>([])
  {
  }

  /** The entry read back is the entry written. */
  ghost predicate SameEntry(event: R.Event, e: Entry)
    requires PlainEntry(e)
  {
    && event.key == TheKey(e).pattern
    && event.keySource == TextOfAll(PrintKey(TheKey(e)))
    && event.args.source == R.Spaced(R.Words(TextOfAll(PrintArgs(TheArgs(e)))))
    && R.Ascending(event.args.arities)
    && (forall n: nat :: n in event.args.arities <==> Allows(Items(TheArgs(e)), n))
    && (event.args.variadic <==> SomeMany(Items(TheArgs(e))))
  }

  /** The stream read back is the stream written: its name, and its entries in order. */
  ghost predicate SameStream(stream: R.Stream, d: Declaration) {
    stream.name == d.name && |stream.events| == |Items(d.entries)| &&
    forall i | 0 <= i < |stream.events| ::
      PlainEntry(Items(d.entries)[i]) && SameEntry(stream.events[i], Items(d.entries)[i])
  }

  lemma SameEvent(e: Entry)
    requires PlainEntry(e)
    ensures SameEntry(EventOf(e), e)
  {
    hide PlainEntry, TheKey, TheArgs, SpecOf, PrintKey, PrintArgs, TextOfAll, R.Ascending, Allows, SomeMany;
    ArgsRoundTrip(TheArgs(e));
  }

  lemma StreamIsSame(d: Declaration)
    requires PlainDeclaration(d)
    ensures SameStream(StreamOf(d), d)
  {
    ItemsArePlain(d.entries);
    hide PlainEntry, SameEntry, EventOf;
    forall i | 0 <= i < |Items(d.entries)| ensures SameEntry(EventOf(Items(d.entries)[i]), Items(d.entries)[i]) {
      SameEvent(Items(d.entries)[i]);
    }
  }

  ghost predicate ReadsAs(r: Result<seq<R.Stream>, Fault>, ds: seq<Declaration>) {
    r.Success? && |r.value| == |ds| && forall i | 0 <= i < |ds| :: SameStream(r.value[i], ds[i])
  }

  /**
   * The text between the interface's name and its brace is not looked at: a longer name, type parameters
   * and a heritage clause change nothing, and the reader returns the streams of the braces that follow.
   */
  lemma HeadingIsIgnored(source: Text, before: Text, heading: Text, i: Interface, after: Text)
    requires PlainInterface(i) && !Mentions(before, R.NEEDLE) && '{' !in heading
    requires Stripped(source, 0) == before + (R.NEEDLE + heading + TextOfAll(PrintBlock(i))) + after
    ensures ReadsAs(R.Parse(source), i.declarations)
  {
    hide Stripped, SameStream, PlainDeclaration, StreamOf, Mentions, R.ParseStripped, PrintBlock, TextOfAll;
    InterfaceReads(Stripped(source, 0), before, heading, i, after);
    forall k | 0 <= k < |i.declarations| ensures SameStream(StreamOf(i.declarations[k]), i.declarations[k]) {
      StreamIsSame(i.declarations[k]);
    }
  }

  /**
   * Whatever comments a source has and whatever stands around its interface: if blanking the comments
   * leaves a written interface, the reader returns exactly its streams and events, in order.
   */
  lemma RoundTrip(source: Text, before: Text, i: Interface, after: Text)
    requires PlainInterface(i) && !Mentions(before, R.NEEDLE)
    requires Stripped(source, 0) == before + Print(i) + after
    ensures ReadsAs(R.Parse(source), i.declarations)
  {
    NoBraceInGap(i);
    hide *;
    PrintIs(i);
    HeadingIsIgnored(source, before, i.gap, i, after);
  }

  lemma NoBraceInGap(i: Interface)
    requires PlainInterface(i)
    ensures '{' !in i.gap
  {
  }

  /** A written interface has no comments, so it is read back as it stands. */
  lemma PrintedTextReads(i: Interface)
    requires PlainInterface(i)
    ensures ReadsAs(R.Parse(Print(i)), i.declarations)
  {
    var s := Print(i);
    assert [] + s + [] == s && s[0..0 + |s|] == s && At(s, 0, s);
    assert Stripped(s, |s|) == [] && TextOfAll(PrintAll(i)) == s;
    assert !Mentions([], R.NEEDLE);
    AllFits(i);
    hide *;
    StripPassesAll(s, 0, PrintAll(i));
    AddsNothing(s);
    RoundTrip(s, [], i, []);
  }

  lemma AddsNothing(s: Text)
    ensures s + [] == s
  {
  }
}
