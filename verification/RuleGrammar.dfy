/** The language of rules: how rules are written, what they mean, and that the parser reads them so. */
module RuleGrammar {
  import opened Decimals
  import opened Lexing
  import opened Options
  import opened Ast
  import opened Terminals
  import opened Tokens
  import opened GeneratorSpec
  import opened FileSpec
  import opened Scripts

  // ----- rules as they are written -----

  /** `Add_7`, a reference to builder 7 of Add.  The number may have leading zeros, something that
      does not start with a digit may follow it, and a comma may follow the reference. */
  datatype Ref = Ref(op: string, zeros: nat, index: nat, tail: string, comma: bool)
  {
    function Text(): string { op + "_" + (Zeros(zeros) + Decimal(index) + tail) }
  }

  datatype Item = Word(name: string) | Quote(name: string) | Operator(name: string) | BuilderList(refs: seq<Ref>)

  datatype Source = Source(name: string, alternatives: seq<seq<Item>>)

  ghost predicate RefOk(r: Ref) {
    Name(r.Text()) && '_' !in r.op && r.index <= INT_MAX && (r.tail != "" ==> !IsDigit(r.tail[0]))
  }

  ghost predicate ItemOk(i: Item) {
    match i
    case Word(name) => Name(name)
    case Quote(name) => IsTokenText(name)
    case Operator(name) => IsTokenText(name) && IsOperator(KindOf(name))
    case BuilderList(refs) => forall k :: 0 <= k < |refs| ==> RefOk(refs[k])
  }

  ghost predicate ItemsOk(items: seq<Item>) { forall k :: 0 <= k < |items| ==> ItemOk(items[k]) }

  ghost predicate SourceOk(r: Source) {
    && Name(r.name)
    && forall k :: 0 <= k < |r.alternatives| ==> ItemsOk(r.alternatives[k])
  }

  /** Each construct is written before the rest of the text. */
  function WriteRefs(refs: seq<Ref>, rest: Script): (w: Script)
    ensures rest.Advances() ==> w.Advances()
    ensures OnlyWords(rest) ==> OnlyWords(w)
  {
    if refs == [] then rest
    else Then(Spaced(refs[0].Text()), Comma(refs[0].comma, WriteRefs(refs[1..], rest)))
  }

  function WriteItem(i: Item, rest: Script): (w: Script)
    ensures rest.Advances() ==> w.Advances()
    ensures OnlyWords(rest) ==> OnlyWords(w)
  {
    match i
    case Word(name) => Then(Spaced(name), rest)
    case Quote(name) =>
      assert OnlyWords(rest) ==> OnlyWords(Then(Sign('\''), rest));
      Then(Sign('\''), Then(Spaced(name), Then(Sign('\''), rest)))
    case Operator(name) => Then(Spaced(name), rest)
    case BuilderList(refs) =>
      var list := WriteRefs(refs, Then(Sign('}'), rest));
      assert OnlyWords(rest) ==> OnlyWords(Then(Sign('='), list));
      Then(Sign('{'), Then(Spaced("builder"), Then(Sign('='), list)))
  }

  function WriteItems(items: seq<Item>, rest: Script): (w: Script)
    ensures rest.Advances() ==> w.Advances()
    ensures OnlyWords(rest) ==> OnlyWords(w)
  {
    if items == [] then rest else WriteItem(items[0], WriteItems(items[1..], rest))
  }

  function WriteAlternatives(alts: seq<seq<Item>>, rest: Script): (w: Script)
    ensures rest.Advances() ==> w.Advances()
    ensures OnlyWords(rest) ==> OnlyWords(w)
  {
    if alts == [] then rest else Then(Sign(':'), WriteItems(alts[0], WriteAlternatives(alts[1..], rest)))
  }

  /** A rule up to its semicolon. */
  function WriteAbandoned(r: Source, rest: Script): (w: Script)
    ensures rest.Advances() ==> w.Advances()
    ensures OnlyWords(rest) ==> OnlyWords(w)
  {
    Then(Spaced("rule"), Then(Spaced(r.name), WriteAlternatives(r.alternatives, rest)))
  }

  function WriteRule(r: Source, rest: Script): (w: Script)
    ensures rest.Advances() ==> w.Advances()
    ensures OnlyWords(rest) ==> OnlyWords(w)
  {
    WriteAbandoned(r, Then(Sign(';'), rest))
  }

  // ----- what they mean, given the terminators quoted before -----

  /** Quoting a name makes it a terminator from then on. */
  function After(custom: set<string>, i: Item): set<string> {
    if i.Quote? then custom + {i.name} else custom
  }

  function AfterAll(custom: set<string>, items: seq<Item>): set<string>
    decreases |items|
  {
    if items == [] then custom else AfterAll(After(custom, items[0]), items[1..])
  }

  function ItemElements(custom: set<string>, i: Item): seq<Element> {
    match i
    case Word(name) => [Element(name, if KnownTerminator(custom, name) then TerminatorKind else RuleKind)]
    case Quote(name) => [Element(name, TerminatorKind)]
    case Operator(name) => [Element(name, PbExpression)]
    case BuilderList(_) => []
  }

  function AllElements(custom: set<string>, items: seq<Item>): seq<Element>
    decreases |items|
  {
    if items == [] then [] else ItemElements(custom, items[0]) + AllElements(After(custom, items[0]), items[1..])
  }

  /** The last builder list of an alternative counts; `none` is what counts without one. */
  function LastRefs(items: seq<Item>, none: seq<Ref>): seq<Ref>
    decreases |items|
  {
    if items == [] then none
    else LastRefs(items[1..], if items[0].BuilderList? then items[0].refs else none)
  }

  function Names(refs: seq<Ref>): (r: seq<string>) { seq(|refs|, k requires 0 <= k < |refs| => refs[k].op) }

  function Indices(refs: seq<Ref>): (r: seq<nat>) { seq(|refs|, k requires 0 <= k < |refs| => refs[k].index) }

  function WithRefs(elements: seq<Element>, refs: seq<Ref>): Alternative {
    Alternative(elements, Names(refs), Indices(refs))
  }

  function AlternativeMeaning(custom: set<string>, items: seq<Item>): Alternative {
    WithRefs(AllElements(custom, items), LastRefs(items, []))
  }

  /** The alternatives, and the terminators after them. */
  function AlternativesMeaning(custom: set<string>, alts: seq<seq<Item>>): (seq<Alternative>, set<string>)
    decreases |alts|
  {
    if alts == [] then ([], custom)
    else
      var (rest, after) := AlternativesMeaning(AfterAll(custom, alts[0]), alts[1..]);
      ([AlternativeMeaning(custom, alts[0])] + rest, after)
  }

  // ----- the parser reads builder references -----

  lemma RefParts(r: Ref)
    requires RefOk(r)
    ensures BuilderName(r.Text()) == r.op && BuilderIndex(r.Text()) == Some(r.index)
  {
    hide Decimal, Underscore, Stoi;
    var s, number := r.Text(), Zeros(r.zeros) + Decimal(r.index) + r.tail;
    FirstUnderscore(r.op, number);
    assert s[..|r.op|] == r.op && s[|r.op| + 1..] == number;
    StoiReads(r.zeros, r.index, r.tail);
  }

  lemma FirstUnderscore(op: string, number: string)
    requires '_' !in op
    ensures Underscore(op + "_" + number) == |op|
  {
    SpanIs(op + "_" + number, 0, (ch: char) => ch != '_', |op|);
  }

  /** A word is read as a reference exactly if it is one; any other makes std::stoi throw. */
  lemma OnlyRefsAreRead(s: string)
    requires Name(s)
    ensures BuilderIndex(s).Some? <==> exists r: Ref :: RefOk(r) && r.Text() == s
  {
    if BuilderIndex(s).Some? {
      var k := Underscore(s);
      UnderscoreSplits(s);
      hide Decimal, IsTokenText, KindOf, Stoi, Underscore, Zeros;
      var z, n, tail := StoiReadsOnly(if k == |s| then s else s[k + 1..]);
      hide RefOk;
      if k == |s| {
        NoLeadingDigit(s, z, n, tail);
      } else {
        RefIs(s, s[..k], z, n, tail);
        assert Ref(s[..k], z, n, tail, false).Text() == s;
      }
    }
    if r: Ref :| RefOk(r) && r.Text() == s { RefParts(r); }
  }

  lemma RefIs(s: string, op: string, z: nat, n: nat, tail: string)
    requires Name(s) && s == op + "_" + (Zeros(z) + Decimal(n) + tail)
    requires '_' !in op && n <= INT_MAX && (tail != "" ==> !IsDigit(tail[0]))
    ensures RefOk(Ref(op, z, n, tail, false)) && Ref(op, z, n, tail, false).Text() == s
  {
    hide Name, Decimal;
  }

  lemma UnderscoreSplits(s: string)
    ensures var k := Underscore(s);
      k <= |s| && '_' !in s[..k] && (k < |s| ==> s == s[..k] + "_" + s[k + 1..])
  {
  }

  lemma NoLeadingDigit(s: string, z: nat, n: nat, tail: string)
    requires Name(s)
    ensures s != Zeros(z) + Decimal(n) + tail
  {
    PunctuatorsApart(s[0]);
    ValueOfDecimal(z, n);
    hide Decimal, Punctuator;
    assert (Zeros(z) + Decimal(n) + tail)[0] == (Zeros(z) + Decimal(n))[0];
  }

  lemma OneMoreRef(elements: seq<Element>, before: seq<Ref>, r: Ref)
    requires RefOk(r)
    ensures var alt := WithRefs(elements, before);
      WithRefs(elements, before + [r]) ==
        alt.(builderNames := alt.builderNames + [r.op], builderIdxs := alt.builderIdxs + [r.index])
  {
    assert Names(before + [r]) == Names(before) + [r.op];
    assert Indices(before + [r]) == Indices(before) + [r.index];
  }

  lemma {:induction false} ReadRefs(buf: string, s: State, elements: seq<Element>, before: seq<Ref>,
                                    refs: seq<Ref>, rest: Script)
    returns (r: State)
    requires (forall k :: 0 <= k < |refs| ==> RefOk(refs[k])) && Reads(buf, s, WriteRefs(refs, rest))
    requires rest.Advances() && rest.Then? && rest.piece.text != ","
    ensures s.cur <= |buf| && r.cur <= |buf| && Reads(buf, r, rest) && r.custom == s.custom
    ensures BuilderRefs(buf, s, WithRefs(elements, before)) == BuilderRefs(buf, r, WithRefs(elements, before + refs))
    decreases |refs|
  {
    hide Reads, Advance, WithRefs, RefOk, IsTokenText, KindOf, Measure, Spells, BuilderRefs, Text, Accept;
    if refs == [] {
      assert before + refs == before;
      ReadOne(buf, s, rest.piece, rest.rest);
      r := s;
    } else {
      var more := WriteRefs(refs[1..], rest);
      assert RefOk(refs[0]);
      RefIsName(refs[0]);
      ReadOne(buf, s, Spaced(refs[0].Text()), Comma(refs[0].comma, more));
      RefsNotComma(refs[1..], rest);
      ReadComma(buf, Advance(buf, s), refs[0].comma, more);
      r := ReadRefs(buf, Accept(buf, Advance(buf, s), COMMA), elements, before + [refs[0]], refs[1..], rest);
      assert before + [refs[0]] + refs[1..] == before + refs;
      RefsStep(buf, s, elements, before, refs[0]);
    }
  }

  lemma RefIsName(r: Ref)
    requires RefOk(r)
    ensures KindOf(r.Text()) == IDENTIFIER
  {
  }

  lemma RefsNotComma(refs: seq<Ref>, rest: Script)
    requires (forall k :: 0 <= k < |refs| ==> RefOk(refs[k])) && rest.Then? && rest.piece.text != ","
    ensures var more := WriteRefs(refs, rest); more.Then? && more.piece.text != ","
  {
    if refs != [] {
      assert RefOk(refs[0]);
      assert '_' in refs[0].Text();
    }
  }

  lemma RefsStep(buf: string, s: State, elements: seq<Element>, before: seq<Ref>, r: Ref)
    requires s.cur <= |buf| && s.token.kind == IDENTIFIER && Text(buf, s) == r.Text() && RefOk(r)
    ensures BuilderRefs(buf, s, WithRefs(elements, before)) ==
      BuilderRefs(buf, Accept(buf, Advance(buf, s), COMMA), WithRefs(elements, before + [r]))
  {
    RefParts(r);
    OneMoreRef(elements, before, r);
    hide BuilderIndex, BuilderName, Advance, Accept, Text, WithRefs, RefOk, Measure;
  }

  lemma CurlyParts(buf: string, s: State, alt: Alternative)
    requires s.cur <= |buf| && s.token.Live() && Text(buf, Advance(buf, s)) == "builder"
    requires Advance(buf, Advance(buf, s)).token.kind == EQUAL
    ensures
      var none := alt.(builderNames := [], builderIdxs := []);
      var (o, r, refs) := BuilderRefs(buf, Advance(buf, Advance(buf, Advance(buf, s))), none);
      CurlyBracket(buf, s, alt) == if o != Done then (o, r, alt) else (Done, Accept(buf, r, CURLY_BRACKET_CLOSE), refs)
  {
    hide Advance, Accept, Text, BuilderRefs;
  }

  /** The parser is at the first reference. */
  lemma ReadListStart(buf: string, s: State, tail: Script)
    requires Reads(buf, s, Then(Sign('{'), Then(Spaced("builder"), Then(Sign('='), tail)))) && tail.Advances()
    ensures s.cur <= |buf| && s.token.kind == CURLY_BRACKET_OPEN
    ensures var s1 := Advance(buf, s);
      var s2 := Advance(buf, s1);
      Text(buf, s1) == "builder" && s2.token.kind == EQUAL && Reads(buf, Advance(buf, s2), tail)
      && Advance(buf, s2).custom == s.custom
  {
    hide Reads, Advance, Text, IsTokenText, KindOf, Measure, Spells;
    var equal := Then(Sign('='), tail);
    ReadSign(buf, s, '{', CURLY_BRACKET_OPEN, Then(Spaced("builder"), equal));
    ReadOne(buf, Advance(buf, s), Spaced("builder"), equal);
    ReadSign(buf, Advance(buf, Advance(buf, s)), '=', EQUAL, tail);
  }

  /** The parser is behind the references of a list. */
  lemma ReadList(buf: string, s: State, elements: seq<Element>, before: seq<Ref>, refs: seq<Ref>, rest: Script)
    returns (r: State)
    requires (forall k :: 0 <= k < |refs| ==> RefOk(refs[k])) && rest.Advances() && rest.Then? && rest.piece.text != ","
    requires Reads(buf, s, Then(Sign('{'), Then(Spaced("builder"), Then(Sign('='), WriteRefs(refs, rest)))))
    ensures s.cur <= |buf| && r.cur <= |buf| && s.token.kind == CURLY_BRACKET_OPEN
    ensures Reads(buf, r, rest) && r.custom == s.custom
    ensures var alt := WithRefs(elements, before);
      var (o, q, refs') := BuilderRefs(buf, r, WithRefs(elements, refs));
      CurlyBracket(buf, s, alt) == if o != Done then (o, q, alt) else (Done, Accept(buf, q, CURLY_BRACKET_CLOSE), refs')
  {
    NoneBefore(elements, before);
    hide Reads, Advance, RefOk, BuilderRefs, WriteRefs, CurlyBracket, WithRefs, Text, Measure, Accept, IsTokenText,
         KindOf, Spells;
    ReadListStart(buf, s, WriteRefs(refs, rest));
    r := ReadRefs(buf, Advance(buf, Advance(buf, Advance(buf, s))), elements, [], refs, rest);
    assert [] + refs == refs;
    CurlyParts(buf, s, WithRefs(elements, before));
  }

  lemma NoneBefore(elements: seq<Element>, before: seq<Ref>)
    ensures WithRefs(elements, before).(builderNames := [], builderIdxs := []) == WithRefs(elements, [])
  {
    assert Names([]) == [] && Indices([]) == [];
  }

  /** `{builder = ...}` replaces the references of the alternative. */
  lemma ReadBuilderList(buf: string, s: State, elements: seq<Element>, before: seq<Ref>, refs: seq<Ref>, rest: Script)
    returns (r: State)
    requires ItemOk(BuilderList(refs)) && Reads(buf, s, WriteItem(BuilderList(refs), rest)) && rest.Advances()
    ensures s.cur <= |buf| && s.token.kind == CURLY_BRACKET_OPEN && Reads(buf, r, rest) && r.custom == s.custom
    ensures CurlyBracket(buf, s, WithRefs(elements, before)) == (Done, r, WithRefs(elements, refs))
  {
    hide Reads, Advance, RefOk, BuilderRefs, WriteRefs, CurlyBracket, WithRefs, Measure, Accept, Spells;
    r := ReadList(buf, s, elements, before, refs, Then(Sign('}'), rest));
    r := CloseList(buf, r, WithRefs(elements, refs), rest);
  }

  lemma CloseList(buf: string, s: State, alt: Alternative, rest: Script) returns (r: State)
    requires Reads(buf, s, Then(Sign('}'), rest)) && rest.Advances()
    ensures s.cur <= |buf| && r == Accept(buf, s, CURLY_BRACKET_CLOSE) && Reads(buf, r, rest) && r.custom == s.custom
    ensures BuilderRefs(buf, s, alt) == (Done, s, alt)
  {
    hide Reads, Advance, IsTokenText, KindOf, Measure, Spells;
    ReadSign(buf, s, '}', CURLY_BRACKET_CLOSE, rest);
    r := Advance(buf, s);
  }

  // ----- the parser reads rules -----

  lemma ReadQuote(buf: string, s: State, alt: Alternative, name: string, rest: Script)
    requires Reads(buf, s, WriteItem(Quote(name), rest)) && rest.Advances()
    ensures s.cur <= |buf| && s.token.kind == APOSTROPHE
    ensures var (r, alt') := Quoted(buf, s, alt);
      && Reads(buf, r, rest) && r.custom == s.custom + {name}
      && alt' == alt.(generator := alt.generator + [Element(name, TerminatorKind)])
  {
    hide Reads, Advance, IsTokenText, KindOf, Measure, Spells;
    var close := Then(Sign('\''), rest);
    ReadSign(buf, s, '\'', APOSTROPHE, Then(Spaced(name), close));
    var s1 := Advance(buf, s);
    ReadOne(buf, s1, Spaced(name), close);
    var quoted := s1.(custom := s1.custom + {name});
    TerminatorsDoNotMatter(buf, s1, quoted.custom, Then(Spaced(name), close));
    ReadOne(buf, quoted, Spaced(name), close);
    ReadSign(buf, Advance(buf, quoted), '\'', APOSTROPHE, rest);
  }

  lemma TerminatorsDoNotMatter(buf: string, s: State, custom: set<string>, script: Script)
    requires Reads(buf, s, script)
    ensures Reads(buf, s.(custom := custom), script)
  {
    hide Spells, IsTokenText, KindOf;
  }

  /** A token the generator loop takes. */
  predicate GoesOn(kind: TokenKind) {
    kind == IDENTIFIER || kind == APOSTROPHE || kind == CURLY_BRACKET_OPEN || IsOperator(kind)
  }

  lemma GeneratorStep(buf: string, s: State, alt: Alternative)
    requires s.cur <= |buf|
    ensures s.token.kind == IDENTIFIER ==> (Generator(buf, s, alt) ==
      Generator(buf, Advance(buf, s), alt.(generator := alt.generator + [IdentifierElement(s.custom, Text(buf, s))])))
    ensures s.token.kind == APOSTROPHE ==> (Generator(buf, s, alt) ==
      Generator(buf, Quoted(buf, s, alt).0, Quoted(buf, s, alt).1))
    ensures s.token.kind == CURLY_BRACKET_OPEN && CurlyBracket(buf, s, alt).0 == Done ==> (Generator(buf, s, alt) ==
      Generator(buf, CurlyBracket(buf, s, alt).1, CurlyBracket(buf, s, alt).2))
    ensures IsOperator(s.token.kind) ==> (Generator(buf, s, alt) ==
      Generator(buf, Advance(buf, s), alt.(generator := alt.generator + [Element(Text(buf, s), PbExpression)])))
    ensures !GoesOn(s.token.kind) ==> Generator(buf, s, alt) == (Done, s, alt)
  {
    hide CurlyBracket, Quoted, Advance, Text, IdentifierElement;
  }

  /** The parser takes a word for a terminator exactly if it is a known one. */
  lemma WordElement(custom: set<string>, name: string)
    requires Name(name) && TokenTexts(custom)
    ensures [IdentifierElement(custom, name)] == ItemElements(custom, Word(name))
  {
    PunctuatorsApart(name[0]);
    hide IsTerminator, KnownTerminator;
    KnownTerminators(custom, name);
  }

  /** One turn of the generator loop. */
  lemma ReadItem(buf: string, s: State, elements: seq<Element>, before: seq<Ref>, i: Item, rest: Script)
    returns (r: State)
    requires ItemOk(i) && Reads(buf, s, WriteItem(i, rest)) && rest.Advances() && TokenTexts(s.custom)
    ensures s.cur <= |buf| && r.cur <= |buf| && Reads(buf, r, rest)
    ensures r.custom == After(s.custom, i) && TokenTexts(r.custom)
    ensures Generator(buf, s, WithRefs(elements, before)) ==
      Generator(buf, r, WithRefs(elements + ItemElements(s.custom, i), if i.BuilderList? then i.refs else before))
  {
    var alt := WithRefs(elements, before);
    match i {
      case Word(name) =>
        ReadOne(buf, s, Spaced(name), rest);
        WordElement(s.custom, name);
        GeneratorStep(buf, s, alt);
        r := Advance(buf, s);
      case Quote(name) =>
        ReadQuote(buf, s, alt, name, rest);
        GeneratorStep(buf, s, alt);
        r := Quoted(buf, s, alt).0;
      case Operator(name) =>
        ReadOne(buf, s, Spaced(name), rest);
        GeneratorStep(buf, s, alt);
        r := Advance(buf, s);
      case BuilderList(refs) =>
        r := ReadBuilderList(buf, s, elements, before, refs, rest);
        GeneratorStep(buf, s, alt);
        assert elements + [] == elements;
    }
  }

  /** What follows does not belong to the generator. */
  ghost predicate EndsGenerator(rest: Script) {
    rest.Then? ==> rest.piece.IsToken() && IsTokenText(rest.piece.text) && !GoesOn(KindOf(rest.piece.text))
  }

  /** Another alternative follows, or the end of the rule. */
  predicate AtMark(rest: Script) { rest.Then? && (rest.piece.text == ":" || rest.piece.text == ";") }

  lemma MarksEnd(rest: Script)
    requires rest.Then? && (rest.piece == Sign(':') || rest.piece == Sign(';'))
    ensures EndsGenerator(rest) && AtMark(rest)
  {
    SignKind(rest.piece.text[0]);
  }

  lemma EndKind(buf: string, s: State, rest: Script)
    requires Reads(buf, s, rest) && EndsGenerator(rest)
    ensures s.cur <= |buf| && !GoesOn(s.token.kind)
    ensures AtMark(rest) <==> s.token.kind == COLON || s.token.kind == SEMI
    ensures rest.Then? && rest.piece.text == ";" <==> s.token.kind == SEMI
  {
    if rest.Then? {
      ReadOne(buf, s, rest.piece, rest.rest);
      SignKind(':');
      SignKind(';');
      hide Reads, Spells, IsTokenText, KindOf;
      if rest.piece.text != ":" { NotASign(rest.piece.text, ':'); }
      if rest.piece.text != ";" { NotASign(rest.piece.text, ';'); }
    }
  }

  /** The generator loop reads items as what they mean, and is then where the rest begins. */
  lemma {:induction false} ReadItems(buf: string, s: State, elements: seq<Element>, before: seq<Ref>,
                                     items: seq<Item>, rest: Script)
    returns (r: State)
    requires ItemsOk(items) && Reads(buf, s, WriteItems(items, rest)) && rest.Advances() && TokenTexts(s.custom)
    ensures s.cur <= |buf| && r.cur <= |buf| && Reads(buf, r, rest)
    ensures r.custom == AfterAll(s.custom, items) && TokenTexts(r.custom)
    ensures Generator(buf, s, WithRefs(elements, before)) ==
      Generator(buf, r, WithRefs(elements + AllElements(s.custom, items), LastRefs(items, before)))
    decreases |items|
  {
    hide Reads, Generator, ItemOk, WriteItem, WithRefs, ItemElements, After, Advance, IsTokenText, KindOf, Measure,
         Spells, TokenTexts;
    if items == [] {
      EndsInside(buf, s, rest);
      assert elements + [] == elements;
      r := s;
    } else {
      var e, last := ItemElements(s.custom, items[0]), if items[0].BuilderList? then items[0].refs else before;
      var tail := AllElements(After(s.custom, items[0]), items[1..]);
      r := ReadItem(buf, s, elements, before, items[0], WriteItems(items[1..], rest));
      r := ReadItems(buf, r, elements + e, last, items[1..], rest);
      assert elements + (e + tail) == elements + e + tail;
    }
  }

  /** A whole generator. */
  lemma ReadGenerator(buf: string, s: State, items: seq<Item>, rest: Script) returns (r: State)
    requires ItemsOk(items) && Reads(buf, s, WriteItems(items, rest)) && EndsGenerator(rest) && TokenTexts(s.custom)
    ensures s.cur <= |buf| && r.cur <= |buf| && Reads(buf, r, rest)
    ensures r.custom == AfterAll(s.custom, items) && TokenTexts(r.custom)
    ensures Generator(buf, s, Alternative([], [], [])) == (Done, r, AlternativeMeaning(s.custom, items))
  {
    assert rest.Advances();
    NoneYet();
    hide Reads, Generator, ItemsOk, WriteItems, WithRefs, AllElements, AfterAll, LastRefs, Measure, Spells, TokenTexts;
    r := ReadItems(buf, s, [], [], items, rest);
    assert [] + AllElements(s.custom, items) == AllElements(s.custom, items);
    EndKind(buf, r, rest);
    GeneratorStep(buf, r, AlternativeMeaning(s.custom, items));
  }

  lemma NoneYet()
    ensures WithRefs([], []) == Alternative([], [], [])
  {
  }

  /** An alternative whose generator is followed by anything but another or a semicolon ends the loop. */
  lemma {:induction false} ReadAlternatives(buf: string, s: State, before: seq<Alternative>, alts: seq<seq<Item>>,
                                            rest: Script)
    returns (r: State)
    requires (forall k :: 0 <= k < |alts| ==> ItemsOk(alts[k])) && TokenTexts(s.custom)
    requires Reads(buf, s, WriteAlternatives(alts, rest)) && EndsGenerator(rest)
    ensures var (meaning, after) := AlternativesMeaning(s.custom, alts);
      && s.cur <= |buf| && r.cur <= |buf| && Reads(buf, r, rest) && r.custom == after && TokenTexts(after)
      && Alternatives(buf, s, before) ==
           if alts == [] || AtMark(rest) then Alternatives(buf, r, before + meaning) else Parsed(Done, r, None)
    decreases |alts|
  {
    assert rest.Advances();
    hide Reads, Generator, ItemsOk, AlternativeMeaning, WriteItems, AfterAll, Advance, Measure, IsTokenText,
         KindOf, Spells, EndsGenerator, AtMark, TokenTexts;
    EndsInside(buf, s, WriteAlternatives(alts, rest));
    if alts == [] {
      assert before + [] == before;
      r := s;
    } else {
      var tail := WriteAlternatives(alts[1..], rest);
      ReadSign(buf, s, ':', COLON, WriteItems(alts[0], tail));
      assert EndsGenerator(tail) by { if alts[1..] != [] { MarksEnd(tail); } }
      r := ReadGenerator(buf, Advance(buf, s), alts[0], tail);
      EndKind(buf, r, tail);
      if alts[1..] != [] || AtMark(rest) {
        assert AtMark(tail) by { if alts[1..] != [] { MarksEnd(tail); } }
        var alt := AlternativeMeaning(s.custom, alts[0]);
        r := ReadAlternatives(buf, r, before + [alt], alts[1..], rest);
        assert before + [alt] + AlternativesMeaning(AfterAll(s.custom, alts[0]), alts[1..]).0
          == before + AlternativesMeaning(s.custom, alts).0;
      }
    }
  }

  lemma EndsInside(buf: string, s: State, script: Script)
    requires Reads(buf, s, script)
    ensures s.cur <= |buf|
  {
  }

  /** The parser is at what follows the name of a rule. */
  lemma RuleName(buf: string, s: State, m: Module, name: string, tail: Script)
    requires Reads(buf, s, Then(Spaced("rule"), Then(Spaced(name), tail))) && Name(name) && tail.Advances()
    ensures s.cur <= |buf|
    ensures var s2 := Advance(buf, Advance(buf, s));
      && Reads(buf, s2, tail) && s2.custom == s.custom
      && var r := RuleSpec(buf, s2, name);
         Engine(buf, s, m) == if r.o != Done then Parsed(r.o, r.s, EMPTY)
                              else Engine(buf, Accept(buf, r.s, SEMI), m.(rules := m.rules + [r.v]))
  {
    Keywords();
    hide Reads, RuleSpec, DialectSpec, OpSpec, Advance, IsTokenText, KindOf, Measure, Spells;
    ReadOne(buf, s, Spaced("rule"), Then(Spaced(name), tail));
    ReadOne(buf, Advance(buf, s), Spaced(name), tail);
  }

  /** What follows the name of a rule, up to something that is not one more alternative.  The rule
      keeps its alternatives if that is a semicolon. */
  lemma ReadBody(buf: string, s: State, name: string, alts: seq<seq<Item>>, rest: Script) returns (r: State)
    requires (forall k :: 0 <= k < |alts| ==> ItemsOk(alts[k])) && TokenTexts(s.custom)
    requires Reads(buf, s, WriteAlternatives(alts, rest))
    requires EndsGenerator(rest) && (rest.Then? ==> rest.piece.text != ":")
    ensures var (meaning, after) := AlternativesMeaning(s.custom, alts);
      && s.cur <= |buf| && r.cur <= |buf| && Reads(buf, r, rest) && r.custom == after && TokenTexts(after)
      && RuleSpec(buf, s, name) == Parsed(Done, r, Rule(name, if AtMark(rest) then meaning else []))
  {
    hide Reads, ItemsOk, Advance, IsTokenText, KindOf, Measure, Spells, Generator, AlternativesMeaning, TokenTexts;
    r := ReadAlternatives(buf, s, [], alts, rest);
    var meaning := AlternativesMeaning(s.custom, alts).0;
    assert [] + meaning == meaning;
    EndKind(buf, r, rest);
    AtAlternatives(buf, s, alts, rest);
    hide EndsGenerator;
  }

  /** A colon follows exactly if there are alternatives. */
  lemma AtAlternatives(buf: string, s: State, alts: seq<seq<Item>>, rest: Script)
    requires Reads(buf, s, WriteAlternatives(alts, rest))
    requires EndsGenerator(rest) && (rest.Then? ==> rest.piece.text != ":")
    ensures s.token.kind == COLON <==> alts != []
    ensures alts == [] ==> AlternativesMeaning(s.custom, alts) == ([], s.custom)
  {
    hide Reads, IsTokenText, KindOf, Spells;
    if alts == [] {
      EndKind(buf, s, rest);
    } else {
      ReadSign(buf, s, ':', COLON, WriteAlternatives(alts, rest).rest);
    }
  }

  /** The parser reads a rule as what it means. */
  lemma ReadRule(buf: string, s: State, m: Module, rule: Source, rest: Script) returns (r: State)
    requires SourceOk(rule) && Reads(buf, s, WriteRule(rule, rest)) && rest.Advances() && TokenTexts(s.custom)
    ensures var (alts, after) := AlternativesMeaning(s.custom, rule.alternatives);
      && s.cur <= |buf| && r.cur <= |buf| && Reads(buf, r, rest) && r.custom == after && TokenTexts(after)
      && Engine(buf, s, m) == Engine(buf, r, m.(rules := m.rules + [Rule(rule.name, alts)]))
  {
    var end := Then(Sign(';'), rest);
    MarksEnd(end);
    hide Reads, AlternativesMeaning, ItemsOk, Advance, Name, Measure, Spells, Engine, EndsGenerator, TokenTexts;
    hide RuleSpec;
    RuleName(buf, s, m, rule.name, WriteAlternatives(rule.alternatives, end));
    r := ReadBody(buf, Advance(buf, Advance(buf, s)), rule.name, rule.alternatives, end);
    ReadSign(buf, r, ';', SEMI, rest);
    r := Advance(buf, r);
  }

  /** A rule that is not followed by a semicolon keeps no alternatives, and the parser goes on there. */
  lemma ReadAbandoned(buf: string, s: State, m: Module, rule: Source, rest: Script) returns (r: State)
    requires SourceOk(rule) && Reads(buf, s, WriteAbandoned(rule, rest)) && TokenTexts(s.custom)
    requires EndsGenerator(rest) && !AtMark(rest)
    ensures s.cur <= |buf| && r.cur <= |buf| && Reads(buf, r, rest) && TokenTexts(r.custom)
    ensures r.custom == AlternativesMeaning(s.custom, rule.alternatives).1
    ensures Engine(buf, s, m) == Engine(buf, r, m.(rules := m.rules + [Rule(rule.name, [])]))
  {
    assert rest.Advances();
    hide Reads, AlternativesMeaning, ItemsOk, Advance, Name, Measure, Spells, Engine, TokenTexts, RuleSpec;
    RuleName(buf, s, m, rule.name, WriteAlternatives(rule.alternatives, rest));
    r := ReadBody(buf, Advance(buf, Advance(buf, s)), rule.name, rule.alternatives, rest);
    EndKind(buf, r, rest);
  }
}
