/** Writing definitions down: every list of definitions has a text, which the parser reads back. */
module Writing {
  import opened Lexing
  import opened Options
  import opened Tokens
  import opened GeneratorSpec
  import opened FileSpec
  import opened Scripts
  import opened RuleGrammar
  import opened DagGrammar
  import opened OpGrammar
  import opened FileGrammar

  // ----- scripts as texts -----

  /** A space before every piece that allows one. */
  function PieceText(p: Piece): string { if p.Spaced? || p.Enclosed? then " " + p.text else p.text }

  function Written(script: Script): string {
    match script
    case End => ""
    case Then(p, rest) => PieceText(p) + Written(rest)
  }

  /** The piece can stand for itself. */
  ghost predicate PieceOk(p: Piece) {
    match p
    case Enclosed(text) => text != "" && !IsWhitespace(text[0])
    case Verbatim(_) => true
    case _ => IsTokenText(p.text)
  }

  /** A word is not continued by what is joined to it. */
  predicate Apart(p: Piece, rest: Script) {
    && p.IsToken() && p.text != "" && IsIdentifierBody(p.text[0])
    && rest.Then? && (rest.piece.Joined? || rest.piece.Verbatim?) ==>
      rest.piece.text != "" && !IsIdentifierBody(rest.piece.text[0])
  }

  ghost predicate Writable(script: Script) {
    match script
    case End => true
    case Then(p, rest) => PieceOk(p) && Apart(p, rest) && Writable(rest)
  }

  /** The text goes on with a space, or ends. */
  predicate Loose(script: Script) { script.Then? ==> script.piece.Spaced? }

  lemma NextCharacter(p: Piece, script: Script, buf: string, cur: nat)
    requires cur <= |buf| && buf[cur..] == Written(script) && Apart(p, script) && Writable(script)
    requires p.IsToken() && p.text != "" && IsIdentifierBody(p.text[0])
    ensures !IsIdentifierBody(At(buf, cur))
  {
    if script.Then? {
      var text := PieceText(script.piece);
      assert buf[cur] == buf[cur..][0] == text[0];
    }
  }

  /** A token text between whitespace or signs is a token as long as it can be. */
  lemma MaximalToken(buf: string, at: nat, text: string)
    requires at + |text| <= |buf| && buf[at..at + |text|] == text && IsTokenText(text)
    requires IsIdentifierBody(text[0]) ==> !IsIdentifierBody(At(buf, at + |text|))
    ensures Maximal(buf, Token(KindOf(text), at, |text|)) && buf[at] == text[0]
  {
    assert text != "" && buf[at] == buf[at..at + |text|][0];
    hide IsTokenText, KindOf;
  }

  /** Where the text of a piece starts, after its space. */
  function TextStart(cur: nat, p: Piece): nat { if p.Spaced? || p.Enclosed? then cur + 1 else cur }

  lemma AfterSpace(buf: string, cur: nat, p: Piece)
    requires cur + |PieceText(p)| <= |buf| && buf[cur..cur + |PieceText(p)|] == PieceText(p)
    ensures TextStart(cur, p) + |p.text| == cur + |PieceText(p)|
    ensures buf[TextStart(cur, p)..cur + |PieceText(p)|] == p.text && Blank(buf, cur, TextStart(cur, p))
  {
    if p.Spaced? || p.Enclosed? {
      var slice := buf[cur..cur + |PieceText(p)|];
      assert slice[0] == buf[cur] && slice[1..] == buf[cur + 1..cur + |PieceText(p)|];
      assert (" " + p.text)[1..] == p.text;
    }
  }

  lemma TokenStands(buf: string, cur: nat, p: Piece, rest: Script)
    requires p.IsToken() && Writable(Then(p, rest)) && cur + |PieceText(p)| <= |buf|
    requires buf[cur..cur + |PieceText(p)|] == PieceText(p) && buf[cur + |PieceText(p)|..] == Written(rest)
    ensures PieceEnd(buf, cur, p) == Some(cur + |PieceText(p)|)
  {
    var at, end := TextStart(cur, p), cur + |PieceText(p)|;
    hide IsTokenText, KindOf, NextToken, Written, PieceText, PieceEnd, Writable, Apart, At, Blank, IsIdentifierBody;
    WritableToken(p, rest);
    AfterSpace(buf, cur, p);
    if IsIdentifierBody(p.text[0]) { NextCharacter(p, rest, buf, end); }
    TokenHere(buf, cur, at, p.text);
    TokenPieceEnd(buf, cur, p, Token(KindOf(p.text), at, |p.text|), end);
  }

  lemma WritableToken(p: Piece, rest: Script)
    requires p.IsToken() && Writable(Then(p, rest))
    ensures IsTokenText(p.text) && p.text != "" && Apart(p, rest) && Writable(rest)
  {
  }

  lemma TokenHere(buf: string, cur: nat, at: nat, text: string)
    requires cur <= at && at + |text| <= |buf| && buf[at..at + |text|] == text && IsTokenText(text)
    requires Blank(buf, cur, at) && (IsIdentifierBody(text[0]) ==> !IsIdentifierBody(At(buf, at + |text|)))
    ensures var t := Token(KindOf(text), at, |text|);
      NextToken(buf, cur, START) == (t, at + |text|) && t.Live()
  {
    hide IsTokenText, KindOf, NextToken, Maximal;
    MaximalToken(buf, at, text);
    OneToken(buf, cur, Token(KindOf(text), at, |text|), START);
    LiveWhenMaximal(buf, Token(KindOf(text), at, |text|));
  }

  lemma TokenPieceEnd(buf: string, cur: nat, p: Piece, t: Token, end: nat)
    requires cur <= |buf| && NextToken(buf, cur, START) == (t, end) && t.Live() && t.Within(buf)
    requires p.IsToken() && t.Content(buf) == p.text && (p.Joined? ==> t.start == cur)
    ensures PieceEnd(buf, cur, p) == Some(end)
  {
    hide NextToken, Span;
  }

  lemma RawStands(buf: string, cur: nat, p: Piece)
    requires !p.IsToken() && PieceOk(p) && cur + |PieceText(p)| <= |buf|
    requires buf[cur..cur + |PieceText(p)|] == PieceText(p)
    ensures PieceEnd(buf, cur, p) == Some(cur + |PieceText(p)|)
  {
    var at, end := TextStart(cur, p), cur + |PieceText(p)|;
    AfterSpace(buf, cur, p);
    assert StandsAt(buf, at, p.text);
    if p.Enclosed? {
      assert buf[at] == buf[at..end][0];
      SpanIs(buf, cur, IsWhitespace, at);
    }
    hide NextToken, Span, PieceText;
  }

  lemma Parts(buf: string, cur: nat, text: string, after: string)
    requires cur <= |buf| && buf[cur..] == text + after
    ensures cur + |text| <= |buf| && buf[cur..cur + |text|] == text && buf[cur + |text|..] == after
  {
    assert |buf[cur..]| == |text| + |after|;
    assert buf[cur..cur + |text|] == buf[cur..][..|text|] && buf[cur + |text|..] == buf[cur..][|text|..];
  }

  lemma SpellsThen(buf: string, cur: nat, p: Piece, rest: Script, e: nat)
    requires cur <= |buf| && PieceEnd(buf, cur, p) == Some(e) && Spells(buf, e, rest)
    ensures Spells(buf, cur, Then(p, rest))
  {
    hide PieceEnd;
  }

  lemma SpellsEnd(buf: string)
    ensures Spells(buf, |buf|, End)
  {
  }

  /** The text of a script spells it. */
  lemma {:induction false} WrittenSpells(buf: string, cur: nat, script: Script)
    requires Writable(script) && cur <= |buf| && buf[cur..] == Written(script)
    ensures Spells(buf, cur, script)
    decreases script
  {
    hide PieceEnd, PieceText, Apart, PieceOk, Spells;
    match script {
      case End =>
        SpellsEnd(buf);
        assert cur == |buf|;
      case Then(p, rest) =>
        Parts(buf, cur, PieceText(p), Written(rest));
        if p.IsToken() { TokenStands(buf, cur, p, rest); } else { RawStands(buf, cur, p); }
        WrittenSpells(buf, cur + |PieceText(p)|, rest);
        SpellsThen(buf, cur, p, rest, cur + |PieceText(p)|);
    }
  }

  // ----- definitions can be written -----

  lemma SignOk(ch: char)
    requires Punctuator(ch).Some?
    ensures IsTokenText([ch]) && !IsIdentifierBody(ch)
  {
    PunctuatorsApart(ch);
  }

  lemma BeforeSign(ch: char, rest: Script)
    requires Punctuator(ch).Some? && Writable(rest)
    ensures Writable(Then(Sign(ch), rest)) && Loose(Then(Sign(ch), rest)) && Writable(Then(Joined([ch]), rest))
  {
    SignOk(ch);
    hide IsTokenText;
  }

  lemma BeforeWord(s: string, rest: Script)
    requires IsTokenText(s) && Writable(rest) && Loose(rest)
    ensures Writable(Then(Spaced(s), rest)) && Loose(Then(Spaced(s), rest))
  {
    hide IsTokenText;
  }

  /** A word, and a sign joined to it. */
  lemma BeforeJoined(s: string, ch: char, rest: Script)
    requires IsTokenText(s) && Punctuator(ch).Some? && Writable(rest)
    ensures Writable(Then(Spaced(s), Then(Joined([ch]), rest))) && Writable(Then(Joined(s), Then(Joined([ch]), rest)))
  {
    SignOk(ch);
    hide IsTokenText;
  }

  lemma BeforeMark(s: string, open: char, close: char, rest: Script)
    requires Marked(s, open, close, 0, |s|) && !IsWhitespace(open) && Writable(rest)
    ensures Writable(Then(Enclosed(s), rest))
  {
  }

  lemma WritableComma(comma: bool, rest: Script)
    requires Writable(rest) && Loose(rest)
    ensures Writable(Comma(comma, rest)) && Loose(Comma(comma, rest))
  {
    hide Writable, Loose;
    if comma { BeforeSign(',', rest); }
  }

  lemma {:induction false} WritableRefs(refs: seq<Ref>, rest: Script)
    requires (forall k :: 0 <= k < |refs| ==> RefOk(refs[k])) && Writable(rest) && Loose(rest)
    ensures Writable(WriteRefs(refs, rest)) && Loose(WriteRefs(refs, rest))
  {
    hide Writable, Loose, IsTokenText, Value;
    if refs != [] {
      WritableRefs(refs[1..], rest);
      WritableComma(refs[0].comma, WriteRefs(refs[1..], rest));
      assert RefOk(refs[0]);
      BeforeWord(refs[0].Text(), Comma(refs[0].comma, WriteRefs(refs[1..], rest)));
    }
  }

  lemma WritableItem(i: Item, rest: Script)
    requires ItemOk(i) && Writable(rest) && Loose(rest)
    ensures Writable(WriteItem(i, rest)) && Loose(WriteItem(i, rest))
  {
    KeywordsOk();
    hide Writable, Loose, IsTokenText, KindOf, RefOk;
    match i {
      case Quote(name) =>
        BeforeSign('\'', rest);
        BeforeWord(name, Then(Sign('\''), rest));
        BeforeSign('\'', Then(Spaced(name), Then(Sign('\''), rest)));
      case BuilderList(refs) =>
        BeforeSign('}', rest);
        WritableRefs(refs, Then(Sign('}'), rest));
        var list := WriteRefs(refs, Then(Sign('}'), rest));
        BeforeSign('=', list);
        BeforeWord("builder", Then(Sign('='), list));
        BeforeSign('{', Then(Spaced("builder"), Then(Sign('='), list)));
      case _ =>
        BeforeWord(i.name, rest);
    }
  }

  lemma KeywordsOk()
    ensures IsTokenText("rule") && IsTokenText("op") && IsTokenText("dialect") && IsTokenText("builder")
    ensures IsTokenText("AnyTypeOf") && IsTokenText("CArg") && IsTokenText("OpBuilder") && IsTokenText("arguments")
    ensures IsTokenText("results") && IsTokenText("builders") && IsTokenText("name") && IsTokenText("cppNamespace")
  {
    hide Punctuator;
  }

  lemma {:induction false} WritableItems(items: seq<Item>, rest: Script)
    requires ItemsOk(items) && Writable(rest) && Loose(rest)
    ensures Writable(WriteItems(items, rest)) && Loose(WriteItems(items, rest))
  {
    hide Writable, Loose, ItemOk, WriteItem;
    if items != [] {
      WritableItems(items[1..], rest);
      WritableItem(items[0], WriteItems(items[1..], rest));
    }
  }

  lemma {:induction false} WritableAlternatives(alts: seq<seq<Item>>, rest: Script)
    requires (forall k :: 0 <= k < |alts| ==> ItemsOk(alts[k])) && Writable(rest) && Loose(rest)
    ensures Writable(WriteAlternatives(alts, rest)) && Loose(WriteAlternatives(alts, rest))
  {
    hide Writable, Loose, ItemsOk, WriteItems;
    if alts != [] {
      WritableAlternatives(alts[1..], rest);
      WritableItems(alts[0], WriteAlternatives(alts[1..], rest));
      BeforeSign(':', WriteItems(alts[0], WriteAlternatives(alts[1..], rest)));
    }
  }

  lemma WritableForm(f: Form, rest: Script)
    requires FormOk(f) && Writable(rest) && Loose(rest)
    ensures Writable(WriteForm(f, rest)) && Loose(WriteForm(f, rest))
  {
    KeywordsOk();
    if f.WithDefault? {
      BeforeSign('>', rest);
      BeforeMark(f.value, '\"', '\"', Then(Sign('>'), rest));
      BeforeSign(',', Then(Enclosed(f.value), Then(Sign('>'), rest)));
      BeforeMark(f.text, '\"', '\"', Then(Sign(','), Then(Enclosed(f.value), Then(Sign('>'), rest))));
    }
    hide IsTokenText, KindOf, Marked, EndsAtFirst;
    match f {
      case Plain(name) => BeforeWord(name, rest);
      case WithParameter(name, bracketed, parameter) =>
        WritableParameter(bracketed, parameter, rest);
        BeforeJoined(name, '<', WriteParameter(bracketed, parameter, rest));
      case AnyOf(tail) => BeforeJoined("AnyTypeOf", '<', Then(Verbatim(tail), rest));
      case CppType(tail) => BeforeSign('\"', Then(Verbatim(tail), rest));
      case WithDefault(text, value) =>
        var more := Then(Enclosed(text), Then(Sign(','), Then(Enclosed(value), Then(Sign('>'), rest))));
        BeforeSign('<', more);
        BeforeWord("CArg", Then(Sign('<'), more));
    }
  }

  lemma WritableParameter(bracketed: bool, parameter: string, rest: Script)
    requires IsTokenText(parameter) && Writable(rest)
    ensures Writable(WriteParameter(bracketed, parameter, rest))
  {
    hide IsTokenText, Writable;
    BeforeSign('>', rest);
    if bracketed {
      BeforeJoined(parameter, ']', Then(Joined(">"), rest));
      BeforeSign('[', Then(Joined(parameter), Then(Joined("]"), Then(Joined(">"), rest))));
    } else {
      BeforeJoined(parameter, '>', rest);
    }
  }

  lemma WritableName(name: Option<string>, rest: Script)
    requires (name.Some? ==> IsTokenText(name.value)) && Writable(rest) && Loose(rest)
    ensures Writable(WriteName(name, rest)) && Loose(WriteName(name, rest))
  {
    hide IsTokenText, Writable, Loose;
    if name.Some? {
      BeforeWord(name.value, rest);
      BeforeSign('$', Then(Spaced(name.value), rest));
      BeforeSign(':', Then(Sign('$'), Then(Spaced(name.value), rest)));
    }
  }

  lemma {:induction false} WritableArguments(args: seq<Argument>, rest: Script)
    requires (forall k :: 0 <= k < |args| ==> ArgumentOk(args[k])) && Writable(rest) && Loose(rest)
    ensures Writable(WriteArguments(args, rest)) && Loose(WriteArguments(args, rest))
  {
    hide Writable, Loose, FormOk, WriteForm, WriteName, IsTokenText;
    if args != [] {
      assert ArgumentOk(args[0]);
      var more := WriteArguments(args[1..], rest);
      WritableArguments(args[1..], rest);
      WritableComma(args[0].comma, more);
      WritableName(args[0].name, Comma(args[0].comma, more));
      WritableForm(args[0].form, WriteName(args[0].name, Comma(args[0].comma, more)));
    }
  }

  lemma WritableDag(d: DagSource, rest: Script)
    requires DagOk(d) && Writable(rest) && Loose(rest)
    ensures Writable(WriteDag(d, rest)) && Loose(WriteDag(d, rest))
  {
    hide Writable, Loose, ArgumentOk, WriteArguments, IsTokenText;
    var args := WriteArguments(d.args, Then(Sign(')'), rest));
    BeforeSign(')', rest);
    WritableArguments(d.args, Then(Sign(')'), rest));
    BeforeWord(d.operator, args);
    BeforeSign('(', Then(Spaced(d.operator), args));
  }

  lemma WritableBuilder(b: BuilderSource, rest: Script)
    requires BuilderOk(b) && Writable(rest) && Loose(rest)
    ensures Writable(WriteBuilder(b, rest)) && Loose(WriteBuilder(b, rest))
  {
    KeywordsOk();
    hide Writable, Loose, DagOk, WriteDag, IsTokenText, Marked;
    var end := Then(Sign('>'), Comma(b.comma, rest));
    WritableComma(b.comma, rest);
    BeforeSign('>', Comma(b.comma, rest));
    if b.code.Some? {
      BeforeMark(b.code.value, '[', ']', end);
      BeforeSign(',', Then(Enclosed(b.code.value), end));
    }
    var dag := WriteDag(b.dag, WriteCode(b.code, end));
    WritableDag(b.dag, WriteCode(b.code, end));
    BeforeSign('<', dag);
    BeforeWord("OpBuilder", Then(Sign('<'), dag));
  }

  lemma {:induction false} WritableBuilders(bs: seq<BuilderSource>, rest: Script)
    requires (forall k :: 0 <= k < |bs| ==> BuilderOk(bs[k])) && Writable(rest) && Loose(rest)
    ensures Writable(WriteBuilders(bs, rest)) && Loose(WriteBuilders(bs, rest))
  {
    hide Writable, Loose, BuilderOk, WriteBuilder;
    if bs != [] {
      assert BuilderOk(bs[0]);
      WritableBuilders(bs[1..], rest);
      WritableBuilder(bs[0], WriteBuilders(bs[1..], rest));
    }
  }

  /** The colon, the name of an attribute and the equals sign. */
  lemma WritableHeader(name: string, rest: Script)
    requires IsTokenText(name) && Writable(rest)
    ensures var w := Then(Sign(':'), Then(Spaced(name), Then(Sign('='), rest))); Writable(w) && Loose(w)
  {
    hide Writable, Loose, IsTokenText;
    BeforeSign('=', rest);
    BeforeWord(name, Then(Sign('='), rest));
    BeforeSign(':', Then(Spaced(name), Then(Sign('='), rest)));
  }

  lemma WritableAttribute(a: Attribute, rest: Script)
    requires AttributeOk(a) && Writable(rest) && Loose(rest)
    ensures Writable(WriteAttribute(a, rest)) && Loose(WriteAttribute(a, rest))
  {
    KeywordsOk();
    hide Writable, Loose, DagOk, WriteDag, IsTokenText, BuilderOk, WriteBuilders;
    match a {
      case ArgumentsAre(dag) =>
        WritableDag(dag, rest);
        WritableHeader("arguments", WriteDag(dag, rest));
      case ResultsAre(dag) =>
        WritableDag(dag, rest);
        WritableHeader("results", WriteDag(dag, rest));
      case BuildersAre(bs) =>
        var list := WriteBuilders(bs, Then(Sign(']'), rest));
        BeforeSign(']', rest);
        WritableBuilders(bs, Then(Sign(']'), rest));
        BeforeSign('[', list);
        WritableHeader("builders", Then(Sign('['), list));
    }
  }

  lemma {:induction false} WritableAttributes(attributes: seq<Attribute>, rest: Script)
    requires (forall k :: 0 <= k < |attributes| ==> AttributeOk(attributes[k])) && Writable(rest) && Loose(rest)
    ensures Writable(WriteAttributes(attributes, rest)) && Loose(WriteAttributes(attributes, rest))
  {
    hide Writable, Loose, AttributeOk, WriteAttribute;
    if attributes != [] {
      assert AttributeOk(attributes[0]);
      WritableAttributes(attributes[1..], rest);
      WritableAttribute(attributes[0], WriteAttributes(attributes[1..], rest));
    }
  }

  lemma {:induction false} WritableDialectAttributes(attributes: seq<DialectAttribute>, rest: Script)
    requires (forall k :: 0 <= k < |attributes| ==> QuotedText(attributes[k].text)) && Writable(rest) && Loose(rest)
    ensures Writable(WriteDialectAttributes(attributes, rest)) && Loose(WriteDialectAttributes(attributes, rest))
  {
    KeywordsOk();
    hide Writable, Loose, IsTokenText, Marked;
    if attributes != [] {
      var a, more := attributes[0], WriteDialectAttributes(attributes[1..], rest);
      WritableDialectAttributes(attributes[1..], rest);
      assert QuotedText(a.text);
      BeforeMark(a.text, '\"', '\"', more);
      WritableHeader(if a.NameIs? then "name" else "cppNamespace", Then(Enclosed(a.text), more));
    }
  }

  lemma WritableRule(rule: Source, rest: Script)
    requires SourceOk(rule) && Writable(rest) && Loose(rest)
    ensures Writable(WriteAbandoned(rule, rest)) && Loose(WriteAbandoned(rule, rest))
  {
    KeywordsOk();
    hide Writable, Loose, IsTokenText, KindOf, ItemsOk, WriteAlternatives;
    WritableAlternatives(rule.alternatives, rest);
    BeforeWord(rule.name, WriteAlternatives(rule.alternatives, rest));
    BeforeWord("rule", Then(Spaced(rule.name), WriteAlternatives(rule.alternatives, rest)));
  }

  lemma WritableDefinition(d: Definition, rest: Script)
    requires DefinitionOk(d) && Writable(rest) && Loose(rest)
    ensures Writable(WriteDefinition(d, rest)) && Loose(WriteDefinition(d, rest))
  {
    KeywordsOk();
    hide Writable, Loose, IsTokenText, KindOf, ItemsOk, QuotedText, AttributeOk;
    hide WriteAlternatives, WriteDialectAttributes, WriteAttributes;
    BeforeSign(';', rest);
    var end := Then(Sign(';'), rest);
    match d {
      case RuleDef(rule) =>
        WritableRule(rule, end);
      case Abandoned(rule) =>
        WritableRule(rule, rest);
      case DialectDef(dialect) =>
        WritableDialectAttributes(dialect.attributes, end);
        BeforeWord(dialect.defName, WriteDialectAttributes(dialect.attributes, end));
        BeforeWord("dialect", Then(Spaced(dialect.defName), WriteDialectAttributes(dialect.attributes, end)));
      case OpDef(op) =>
        WritableAttributes(op.attributes, end);
        BeforeWord(op.name, WriteAttributes(op.attributes, end));
        BeforeWord("op", Then(Spaced(op.name), WriteAttributes(op.attributes, end)));
    }
  }

  lemma {:induction false} WritableDefinitions(defs: seq<Definition>, rest: Script)
    requires (forall k :: 0 <= k < |defs| ==> DefinitionOk(defs[k])) && Writable(rest) && Loose(rest)
    ensures Writable(WriteDefinitions(defs, rest)) && Loose(WriteDefinitions(defs, rest))
  {
    if defs != [] {
      hide Writable, Loose, DefinitionOk, WriteDefinition;
      assert DefinitionOk(defs[0]);
      WritableDefinitions(defs[1..], rest);
      WritableDefinition(defs[0], WriteDefinitions(defs[1..], rest));
    }
  }

  /** Writing any list of definitions down and parsing the text gives exactly what they mean. */
  lemma WriteThenParse(defs: seq<Definition>) returns (r: State)
    requires forall k :: 0 <= k < |defs| ==> DefinitionOk(defs[k])
    ensures Engine(Written(WriteFile(defs)), Advance(Written(WriteFile(defs)), State(START, 0, {})), EMPTY)
      == Parsed(Done, r, FileMeaning(defs))
    ensures r.custom == RulesMeaning({}, defs).1
  {
    var buf := Written(WriteFile(defs));
    assert Writable(End) && Loose(End);
    hide Writable, DefinitionOk, WriteDefinitions, Spells, FileMeaning, RulesMeaning;
    WritableDefinitions(defs, End);
    assert buf[0..] == buf;
    WrittenSpells(buf, 0, WriteFile(defs));
    r := ParserReadsFile(buf, defs);
  }
}
