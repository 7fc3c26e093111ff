/** What the parser makes of a text that goes wrong after a number of definitions. */
module Mistakes {
  import opened Lexing
  import opened Options
  import opened Ast
  import opened Terminals
  import opened GeneratorSpec
  import opened FileSpec
  import opened Scripts
  import opened RuleGrammar
  import opened OpGrammar
  import opened FileGrammar

  /** What goes wrong, and the text after it: something that starts no definition; a rule or dialect
      without a name; an operation that does not end with a semicolon, has an unknown attribute or an
      attribute without an equals sign; or a word that is no builder reference. */
  datatype Mistake =
    | NoDefinition(word: string, tail: Script)
    | Nameless(keyword: string, tail: Script)
    | OpUnended(op: OpSource, tail: Script)
    | OpUnknown(op: OpSource, word: string, tail: Script)
    | OpNoEqual(op: OpSource, word: string, tail: Script)
    | BadReference(rule: Source, items: seq<Item>, refs: seq<Ref>, word: string, tail: Script)
  {
    /** Only std::stoi throws. */
    function Ends(): Outcome { if BadReference? then Threw else Done }

    /** What was read before is returned, except after a definition without a name. */
    function Keeps(m: Module): Module { if Nameless? then EMPTY else m }
  }

  const ATTRIBUTES: seq<string> := ["arguments", "results", "builders"]

  /** The next token, if there is one, is none of these. */
  ghost predicate NextIsNot(rest: Script, texts: seq<string>) {
    rest.Then? ==> rest.piece.IsToken() && IsTokenText(rest.piece.text) && rest.piece.text !in texts
  }

  ghost predicate MistakeOk(x: Mistake) {
    match x
    case NoDefinition(word, _) => IsTokenText(word) && word !in ["rule", "op", "dialect"]
    case Nameless(keyword, tail) =>
      && keyword in ["rule", "dialect"] && tail.Advances()
      && (tail.Then? ==> IsTokenText(tail.piece.text) && !Name(tail.piece.text))
    case OpUnended(op, tail) => OpGrammar.OpOk(op) && NextIsNot(tail, [":", ";"])
    case OpUnknown(op, word, _) => OpGrammar.OpOk(op) && IsTokenText(word) && word !in ATTRIBUTES
    case OpNoEqual(op, word, tail) => OpGrammar.OpOk(op) && word in ATTRIBUTES && NextIsNot(tail, ["="])
    case BadReference(rule, items, refs, word, _) =>
      && SourceOk(rule) && ItemsOk(items) && (forall k :: 0 <= k < |refs| ==> RefOk(refs[k]))
      && Name(word) && !exists r: Ref :: RefOk(r) && r.Text() == word
  }

  function WriteMistake(x: Mistake): (w: Script)
    ensures w.Advances()
  {
    match x
    case NoDefinition(word, tail) => Then(Spaced(word), tail)
    case Nameless(keyword, tail) => Then(Spaced(keyword), tail)
    case OpUnended(op, tail) => WriteOpStart(op, tail)
    case OpUnknown(op, word, tail) => WriteOpStart(op, Then(Sign(':'), Then(Spaced(word), tail)))
    case OpNoEqual(op, word, tail) => WriteOpStart(op, Then(Sign(':'), Then(Spaced(word), tail)))
    case BadReference(rule, items, refs, word, tail) =>
      WriteAbandoned(rule, Then(Sign(':'), WriteItems(items, WriteBadList(refs, word, tail))))
  }

  /** `{builder = ...` up to a word that is no reference. */
  function WriteBadList(refs: seq<Ref>, word: string, tail: Script): Script {
    Then(Sign('{'), Then(Spaced("builder"), Then(Sign('='), WriteRefs(refs, Then(Spaced(word), tail)))))
  }

  // ----- nothing to read -----

  lemma StopsAtOther(buf: string, s: State, m: Module, word: string, tail: Script)
    requires Reads(buf, s, Then(Spaced(word), tail)) && IsTokenText(word) && word !in ["rule", "op", "dialect"]
    ensures s.cur <= |buf| && Engine(buf, s, m) == Parsed(Done, s, m)
  {
    ReadOne(buf, s, Spaced(word), tail);
    OtherKind(word);
    hide Reads, Spells, Advance, IsTokenText, KindOf, RuleSpec, DialectSpec, OpSpec;
  }

  lemma OtherKind(word: string)
    requires IsTokenText(word) && word !in ["rule", "op", "dialect"]
    ensures KindOf(word) !in [KW_RULE, KW_OP, KW_DIALECT, EOF]
  {
    PunctuatorsApart(word[0]);
  }

  lemma StopsWithoutName(buf: string, s: State, m: Module, keyword: string, tail: Script)
    requires Reads(buf, s, Then(Spaced(keyword), tail)) && MistakeOk(Nameless(keyword, tail))
    ensures s.cur <= |buf| && Engine(buf, s, m) == Parsed(Done, Advance(buf, s), EMPTY)
  {
    ReadOne(buf, s, Spaced(keyword), tail);
    Keywords();
    NextKind(buf, Advance(buf, s), tail);
    hide Reads, Spells, Advance, IsTokenText, KindOf, RuleSpec, DialectSpec, OpSpec;
  }

  lemma NextKind(buf: string, s: State, tail: Script)
    requires Reads(buf, s, tail)
    ensures s.cur <= |buf|
    ensures s.token.kind == if tail.Then? then KindOf(tail.piece.text) else EOF
  {
    hide Spells;
  }

  // ----- operations -----

  lemma KindIsNot(buf: string, s: State, tail: Script, ch: char)
    requires Reads(buf, s, tail) && NextIsNot(tail, [[ch]]) && Punctuator(ch).Some?
    ensures s.cur <= |buf| && s.token.kind != Punctuator(ch).value
  {
    NextKind(buf, s, tail);
    PunctuatorsApart(ch);
    hide IsTokenText, KindOf, Reads;
    if tail.Then? { NotASign(tail.piece.text, ch); }
  }

  lemma StopsUnended(buf: string, s: State, m: Module, op: OpSource, tail: Script) returns (r: State)
    requires MistakeOk(OpUnended(op, tail)) && Reads(buf, s, WriteOpStart(op, tail))
    ensures s.cur <= |buf| && Engine(buf, s, m) == Parsed(Done, r, m)
  {
    assert tail.Advances() && NextIsNot(tail, [":"]) && NextIsNot(tail, [";"]);
    hide Reads, Spells, Advance, OpOk, OpMeaning, Engine, NextIsNot;
    r := ReadOpStart(buf, s, m, op, tail);
    KindIsNot(buf, r, tail, ':');
    KindIsNot(buf, r, tail, ';');
  }

  lemma StopsUnknown(buf: string, s: State, m: Module, op: OpSource, word: string, tail: Script) returns (r: State)
    requires MistakeOk(OpUnknown(op, word, tail))
    requires Reads(buf, s, WriteOpStart(op, Then(Sign(':'), Then(Spaced(word), tail))))
    ensures s.cur <= |buf| && Engine(buf, s, m) == Parsed(Done, r, m)
  {
    hide Reads, Spells, Advance, OpOk, OpMeaning, Engine, IsTokenText, Text, Measure, ATTRIBUTES;
    var rest := Then(Spaced(word), tail);
    r := ReadOpStart(buf, s, m, op, Then(Sign(':'), rest));
    ReadSign(buf, r, ':', COLON, rest);
    ReadOne(buf, Advance(buf, r), Spaced(word), tail);
    UnknownAttribute(buf, r, OpMeaning(op));
    r := Advance(buf, r);
  }

  lemma UnknownAttribute(buf: string, s: State, op: Op)
    requires s.cur <= |buf| && s.token.kind == COLON && Text(buf, Advance(buf, s)) !in ATTRIBUTES
    ensures OpLoop(buf, s, op) == Parsed(Done, Advance(buf, s), None)
  {
    hide Advance, Text, Measure, DagSpec, BuildersSpec;
    assert Text(buf, Advance(buf, s)) != "arguments" && Text(buf, Advance(buf, s)) != "results" &&
      Text(buf, Advance(buf, s)) != "builders";
  }

  lemma StopsWithoutEqual(buf: string, s: State, m: Module, op: OpSource, word: string, tail: Script)
    returns (r: State)
    requires MistakeOk(OpNoEqual(op, word, tail))
    requires Reads(buf, s, WriteOpStart(op, Then(Sign(':'), Then(Spaced(word), tail))))
    ensures s.cur <= |buf| && Engine(buf, s, m) == Parsed(Done, r, m)
  {
    hide Reads, Spells, Advance, OpOk, OpMeaning, Engine, IsTokenText, Text, Measure, ATTRIBUTES, KindOf, OpLoop;
    var rest := Then(Spaced(word), tail);
    var at := ReadOpStart(buf, s, m, op, Then(Sign(':'), rest));
    ReadSign(buf, at, ':', COLON, rest);
    ReadOne(buf, Advance(buf, at), Spaced(word), tail);
    r := Advance(buf, Advance(buf, at));
    KindIsNot(buf, r, tail, '=');
    NoEqualsSign(buf, at, OpMeaning(op));
  }

  lemma NoEqualsSign(buf: string, s: State, op: Op)
    requires s.cur <= |buf| && s.token.kind == COLON && Text(buf, Advance(buf, s)) in ATTRIBUTES
    requires Advance(buf, Advance(buf, s)).token.kind != EQUAL
    ensures OpLoop(buf, s, op) == Parsed(Done, Advance(buf, Advance(buf, s)), None)
  {
    hide Advance, Text, Measure, DagSpec, BuildersSpec;
  }

  // ----- references -----

  lemma ThrowsInList(buf: string, s: State, elements: seq<Element>, before: seq<Ref>, refs: seq<Ref>,
                     word: string, tail: Script)
    requires (forall k :: 0 <= k < |refs| ==> RefOk(refs[k])) && Reads(buf, s, WriteBadList(refs, word, tail))
    requires Name(word) && !exists r: Ref :: RefOk(r) && r.Text() == word
    ensures s.cur <= |buf| && s.token.kind == CURLY_BRACKET_OPEN
    ensures CurlyBracket(buf, s, WithRefs(elements, before)).0 == Threw
  {
    OnlyRefsAreRead(word);
    NameIsNoSign(word, ',');
    hide Reads, Advance, RefOk, BuilderRefs, WriteRefs, CurlyBracket, WithRefs, Measure, Accept, Spells, BuilderIndex;
    var r := ReadList(buf, s, elements, before, refs, Then(Spaced(word), tail));
    ReadOne(buf, r, Spaced(word), tail);
    RefThrows(buf, r, WithRefs(elements, refs));
  }

  lemma RefThrows(buf: string, s: State, alt: Alternative)
    requires s.cur <= |buf| && s.token.kind == IDENTIFIER && BuilderIndex(Text(buf, s)).None?
    ensures BuilderRefs(buf, s, alt) == (Threw, s, alt)
  {
    hide BuilderIndex, Text;
  }

  lemma GeneratorThrows(buf: string, s: State, alt: Alternative)
    requires s.cur <= |buf| && s.token.kind == CURLY_BRACKET_OPEN && CurlyBracket(buf, s, alt).0 == Threw
    ensures Generator(buf, s, alt).0 == Threw
  {
    hide CurlyBracket;
  }

  /** The alternative with the bad reference. */
  lemma ThrowsInItems(buf: string, s: State, items: seq<Item>, refs: seq<Ref>, word: string, tail: Script)
    requires ItemsOk(items) && (forall k :: 0 <= k < |refs| ==> RefOk(refs[k])) && TokenTexts(s.custom)
    requires Name(word) && !exists r: Ref :: RefOk(r) && r.Text() == word
    requires Reads(buf, s, WriteItems(items, WriteBadList(refs, word, tail)))
    ensures s.cur <= |buf| && Generator(buf, s, Alternative([], [], [])).0 == Threw
  {
    NoneYet();
    hide Reads, ItemsOk, Generator, WithRefs, TokenTexts, AllElements, LastRefs, RefOk, CurlyBracket, Name, Spells;
    var r := ReadItems(buf, s, [], [], items, WriteBadList(refs, word, tail));
    var elements, before := [] + AllElements(s.custom, items), LastRefs(items, []);
    ThrowsInList(buf, r, elements, before, refs, word, tail);
    GeneratorThrows(buf, r, WithRefs(elements, before));
  }

  lemma ThrowsInRule(buf: string, s: State, m: Module, x: Mistake)
    requires x.BadReference? && MistakeOk(x) && Reads(buf, s, WriteMistake(x)) && TokenTexts(s.custom)
    ensures s.cur <= |buf| && Engine(buf, s, m).o == Threw && Engine(buf, s, m).v == EMPTY
  {
    var items := WriteItems(x.items, WriteBadList(x.refs, x.word, x.tail));
    var rest := Then(Sign(':'), items);
    MarksEnd(rest);
    hide Reads, AlternativesMeaning, ItemsOk, Advance, Name, Measure, Spells, Engine, EndsGenerator, TokenTexts,
         RefOk, Generator, WriteItems, WriteBadList;
    RuleName(buf, s, m, x.rule.name, WriteAlternatives(x.rule.alternatives, rest));
    var s2 := Advance(buf, Advance(buf, s));
    var r := ReadAlternatives(buf, s2, [], x.rule.alternatives, rest);
    ReadSign(buf, r, ':', COLON, items);
    ThrowsInItems(buf, Advance(buf, r), x.items, x.refs, x.word, x.tail);
    AtColon(buf, s2, x.rule.alternatives, items);
  }

  lemma AtColon(buf: string, s: State, alts: seq<seq<Item>>, rest: Script)
    requires Reads(buf, s, WriteAlternatives(alts, Then(Sign(':'), rest)))
    ensures s.token.kind == COLON
  {
    hide Reads;
    ReadSign(buf, s, ':', COLON, WriteAlternatives(alts, Then(Sign(':'), rest)).rest);
  }

  // ----- what is passed over inside an alternative -----

  /** A quotation mark that is not closed quotes one token all the same. */
  lemma OpenQuote(buf: string, s: State, alt: Alternative, name: string, rest: Script)
    requires Reads(buf, s, Then(Sign('\''), Then(Spaced(name), rest))) && NextIsNot(rest, ["'"])
    ensures s.cur <= |buf| && s.token.kind == APOSTROPHE
    ensures var (r, alt') := Quoted(buf, s, alt);
      && Reads(buf, r, rest) && r.custom == s.custom + {name}
      && alt' == alt.(generator := alt.generator + [Element(name, TerminatorKind)])
  {
    hide Reads, Advance, IsTokenText, KindOf, Measure, Spells, NextIsNot;
    assert rest.Advances() by { NextAdvances(rest, ["'"]); }
    ReadSign(buf, s, '\'', APOSTROPHE, Then(Spaced(name), rest));
    var s1 := Advance(buf, s);
    ReadOne(buf, s1, Spaced(name), rest);
    var quoted := s1.(custom := s1.custom + {name});
    TerminatorsDoNotMatter(buf, s1, quoted.custom, Then(Spaced(name), rest));
    ReadOne(buf, quoted, Spaced(name), rest);
    KindIsNot(buf, Advance(buf, quoted), rest, '\'');
  }

  lemma NextAdvances(rest: Script, texts: seq<string>)
    requires NextIsNot(rest, texts)
    ensures rest.Advances()
  {
  }

  /** A curly bracket that is not followed by `builder` is passed over alone. */
  lemma OtherBracket(buf: string, s: State, alt: Alternative, rest: Script)
    requires Reads(buf, s, Then(Sign('{'), rest)) && rest.Then? && NextIsNot(rest, ["builder"])
    ensures s.cur <= |buf| && s.token.kind == CURLY_BRACKET_OPEN
    ensures CurlyBracket(buf, s, alt) == (Done, Advance(buf, s), alt) && Reads(buf, Advance(buf, s), rest)
  {
    ReadSign(buf, s, '{', CURLY_BRACKET_OPEN, rest);
    ReadOne(buf, Advance(buf, s), rest.piece, rest.rest);
    hide Reads, Advance, Accept, Text, BuilderRefs, Spells;
  }

  /** `{builder` that is not followed by an equals sign, too. */
  lemma NoEquals(buf: string, s: State, alt: Alternative, rest: Script)
    requires Reads(buf, s, Then(Sign('{'), Then(Spaced("builder"), rest))) && NextIsNot(rest, ["="])
    ensures s.cur <= |buf| && s.token.kind == CURLY_BRACKET_OPEN
    ensures var r := Advance(buf, Advance(buf, s)); CurlyBracket(buf, s, alt) == (Done, r, alt) && Reads(buf, r, rest)
  {
    hide Reads, Advance, Accept, Text, BuilderRefs, Spells, NextIsNot, KindOf;
    assert rest.Advances() by { NextAdvances(rest, ["="]); }
    ReadSign(buf, s, '{', CURLY_BRACKET_OPEN, Then(Spaced("builder"), rest));
    ReadOne(buf, Advance(buf, s), Spaced("builder"), rest);
    KindIsNot(buf, Advance(buf, Advance(buf, s)), rest, '=');
  }

  /** A list that is not closed counts, and the generator goes on behind its last reference. */
  lemma OpenList(buf: string, s: State, elements: seq<Element>, before: seq<Ref>, refs: seq<Ref>, rest: Script)
    returns (r: State)
    requires forall k :: 0 <= k < |refs| ==> RefOk(refs[k])
    requires Reads(buf, s, Then(Sign('{'), Then(Spaced("builder"), Then(Sign('='), WriteRefs(refs, rest)))))
    requires rest.Then? && rest.piece.IsToken() && IsTokenText(rest.piece.text)
    requires rest.piece.text != "," && rest.piece.text != "}" && KindOf(rest.piece.text) != IDENTIFIER
    ensures s.cur <= |buf| && s.token.kind == CURLY_BRACKET_OPEN && Reads(buf, r, rest)
    ensures CurlyBracket(buf, s, WithRefs(elements, before)) == (Done, r, WithRefs(elements, refs))
  {
    hide IsTokenText, KindOf;
    NotASign(rest.piece.text, '}');
    assert KindOf(rest.piece.text) != CURLY_BRACKET_CLOSE && rest.Advances();
    hide Punctuator, Reads, Advance, RefOk, BuilderRefs, WriteRefs, CurlyBracket, WithRefs, Measure, Accept, Spells;
    r := ReadList(buf, s, elements, before, refs, rest);
    NextKind(buf, r, rest);
    ListEnds(buf, r, WithRefs(elements, refs));
  }

  lemma ListEnds(buf: string, s: State, alt: Alternative)
    requires s.cur <= |buf| && s.token.kind != IDENTIFIER && s.token.kind != CURLY_BRACKET_CLOSE
    ensures BuilderRefs(buf, s, alt) == (Done, s, alt) && Accept(buf, s, CURLY_BRACKET_CLOSE) == s
  {
  }

  // ----- all of them -----

  lemma ReadMistake(buf: string, s: State, m: Module, x: Mistake)
    requires MistakeOk(x) && Reads(buf, s, WriteMistake(x)) && TokenTexts(s.custom)
    ensures s.cur <= |buf|
    ensures var r := Engine(buf, s, m); r.o == x.Ends() && (r.o == Done ==> r.v == x.Keeps(m))
  {
    hide Reads, Engine, TokenTexts, IsTokenText, KindOf, NextIsNot, WriteOpStart, ItemsOk, ATTRIBUTES, OpOk, RefOk;
    match x {
      case NoDefinition(word, tail) => StopsAtOther(buf, s, m, word, tail);
      case Nameless(keyword, tail) => StopsWithoutName(buf, s, m, keyword, tail);
      case OpUnended(op, tail) => var _ := StopsUnended(buf, s, m, op, tail);
      case OpUnknown(op, word, tail) => var _ := StopsUnknown(buf, s, m, op, word, tail);
      case OpNoEqual(op, word, tail) => var _ := StopsWithoutEqual(buf, s, m, op, word, tail);
      case BadReference(_, _, _, _, _) => ThrowsInRule(buf, s, m, x);
    }
  }

  /** For every text that spells a list of definitions and then a mistake, the parser throws if that is a
      bad reference, returns nothing if a name is missing, and otherwise returns what was read before. */
  lemma ParserMeetsMistake(buf: string, defs: seq<Definition>, x: Mistake)
    requires MistakeOk(x) && DefinitionsOk(defs, WriteMistake(x))
    requires Spells(buf, 0, WriteDefinitions(defs, WriteMistake(x)))
    ensures var r := Engine(buf, Advance(buf, State(START, 0, {})), EMPTY);
      r.o == x.Ends() && (r.o == Done ==> r.v == x.Keeps(FileMeaning(defs)))
  {
    hide Reads, Engine, TokenTexts, Spells, DefinitionsOk, WriteMistake, MistakeOk, FileMeaning, RulesMeaning,
         WriteDefinitions;
    var r := ReadFromStart(buf, defs, WriteMistake(x));
    ReadMistake(buf, r, FileMeaning(defs), x);
  }
}
