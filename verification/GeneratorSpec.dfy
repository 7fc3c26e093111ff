/** What the parser does with one generator, as a function of its state. */
module GeneratorSpec {
  import opened Lexing
  import opened Options
  import opened Ast
  import opened Terminals

  /** The parser's current token, the lexer's cursor and the custom terminators. */
  datatype State = State(token: Token, cur: nat, custom: set<string>)

  ghost predicate Ok(buf: string, s: State) {
    && s.cur <= |buf| && s.token.Within(buf)
    && (s.token.length > 0 ==> IsTokenText(s.token.Content(buf)))
    && (s.token.Live() ==> s.token.length > 0 && s.token.kind == KindOf(s.token.Content(buf)))
    && s.token.start + s.token.length <= s.cur
    && TokenTexts(s.custom)
  }

  /** Remaining characters, plus one for a token that is neither eof nor unknown. */
  function Measure(buf: string, s: State): nat
    requires s.cur <= |buf|
  {
    |buf| - s.cur + if s.token.Live() then 1 else 0
  }

  function Advance(buf: string, s: State): (r: State)
    requires s.cur <= |buf|
    ensures r.cur <= |buf| && Measure(buf, r) <= Measure(buf, s)
    ensures s.token.Live() ==> Measure(buf, r) < Measure(buf, s)
    ensures r.custom == s.custom && s.cur <= r.cur
  {
    NextMeans(buf, s.cur, s.token);
    var (t, c) := NextToken(buf, s.cur, s.token);
    State(t, c, s.custom)
  }

  lemma AdvanceOk(buf: string, s: State)
    requires Ok(buf, s)
    ensures Ok(buf, Advance(buf, s))
  {
    NextMeans(buf, s.cur, s.token);
    hide NextToken, IsTokenText, KindOf;
  }

  /** What is collected are token texts, and an identifier is a name. */
  lemma OkTexts(buf: string, s: State)
    requires Ok(buf, s)
    ensures TokenTexts(s.custom)
    ensures s.token.kind == IDENTIFIER ==> Name(Text(buf, s))
  {
    hide IsTokenText, KindOf;
  }

  /** `advance` if the token has the given kind. */
  function Accept(buf: string, s: State, kind: TokenKind): (r: State)
    requires s.cur <= |buf|
    ensures r.cur <= |buf| && Measure(buf, r) <= Measure(buf, s)
  {
    if s.token.kind == kind then Advance(buf, s) else s
  }

  function Text(buf: string, s: State): string {
    if s.token.Within(buf) then s.token.Content(buf) else ""
  }

  function Value(digits: string): nat
    requires forall k :: 0 <= k < |digits| ==> IsDigit(digits[k])
  {
    if digits == "" then 0
    else
      var last := |digits| - 1;
      assert IsDigit(digits[last]);
      Value(digits[..last]) * 10 + (digits[last] as int - '0' as int)
  }

  /** std::stoi on the tail of an identifier; None when it throws. */
  function Stoi(s: string): Option<nat> {
    var k := Span(s, 0, IsDigit);
    if k == 0 || Value(s[..k]) > 0x7fff_ffff then None else Some(Value(s[..k]))
  }

  /** The index of the first underscore, or the length. */
  function Underscore(s: string): nat { Span(s, 0, (ch: char) => ch != '_') }

  /** The operation a builder reference names and its index: `Add_0` is builder 0 of Add. */
  function BuilderName(s: string): string { s[..Underscore(s)] }
  function BuilderIndex(s: string): Option<nat> {
    var k := Underscore(s);
    Stoi(if k == |s| then s else s[k + 1..])
  }

  /** The loop over builder references. */
  function BuilderRefs(buf: string, s: State, alt: Alternative): (r: (Outcome, State, Alternative))
    requires s.cur <= |buf|
    ensures r.1.cur <= |buf| && Measure(buf, r.1) <= Measure(buf, s)
    decreases Measure(buf, s)
  {
    if s.token.kind != IDENTIFIER then (Done, s, alt)
    else match BuilderIndex(Text(buf, s))
      case None => (Threw, s, alt)
      case Some(index) =>
        BuilderRefs(buf, Accept(buf, Advance(buf, s), COMMA),
          alt.(builderNames := alt.builderNames + [BuilderName(Text(buf, s))],
               builderIdxs := alt.builderIdxs + [index]))
  }

  /** parserCurlyBracketOpen. */
  function CurlyBracket(buf: string, s: State, alt: Alternative): (r: (Outcome, State, Alternative))
    requires s.cur <= |buf| && s.token.Live()
    ensures r.1.cur <= |buf| && Measure(buf, r.1) < Measure(buf, s)
  {
    var s1 := Advance(buf, s);
    if Text(buf, s1) != "builder" then (Done, s1, alt)
    else
      var s2 := Advance(buf, s1);
      if s2.token.kind != EQUAL then (Done, s2, alt)
      else
        var (o, s3, refs) := BuilderRefs(buf, Advance(buf, s2), alt.(builderNames := [], builderIdxs := []));
        if o != Done then (o, s3, alt) else (Done, Accept(buf, s3, CURLY_BRACKET_CLOSE), refs)
  }

  predicate IsOperator(kind: TokenKind) {
    kind == PLUS || kind == ASTERISK || kind == PARENTHESE_OPEN || kind == PARENTHESE_CLOSE || kind == QUESTION_MARK
  }

  /** The operators of a generator. */
  lemma Operators(s: string)
    requires IsTokenText(s)
    ensures IsOperator(KindOf(s)) <==> s in ["*", "+", "?", "(", ")"]
  {
    PunctuatorsApart(s[0]);
    if !IsIdentifierBody(s[0]) { assert s == [s[0]]; }
  }

  /** parserTerminator. */
  function Quoted(buf: string, s: State, alt: Alternative): (r: (State, Alternative))
    requires s.cur <= |buf| && s.token.Live()
    ensures r.0.cur <= |buf| && Measure(buf, r.0) < Measure(buf, s)
  {
    var s1 := Advance(buf, s);
    var name := Text(buf, s1);
    var s2 := Advance(buf, s1.(custom := s1.custom + {name}));
    (Accept(buf, s2, APOSTROPHE), alt.(generator := alt.generator + [Element(name, TerminatorKind)]))
  }

  function IdentifierElement(custom: set<string>, name: string): Element {
    Element(name, if name != "" && IsTerminator(custom, name) then TerminatorKind else RuleKind)
  }

  /** parserGenerator. */
  function Generator(buf: string, s: State, alt: Alternative): (r: (Outcome, State, Alternative))
    requires s.cur <= |buf|
    ensures r.1.cur <= |buf| && Measure(buf, r.1) <= Measure(buf, s)
    decreases Measure(buf, s)
  {
    if s.token.kind == IDENTIFIER then
      Generator(buf, Advance(buf, s), alt.(generator := alt.generator + [IdentifierElement(s.custom, Text(buf, s))]))
    else if s.token.kind == APOSTROPHE then
      var (s', alt') := Quoted(buf, s, alt);
      Generator(buf, s', alt')
    else if s.token.kind == CURLY_BRACKET_OPEN then
      var (o, s', alt') := CurlyBracket(buf, s, alt);
      if o != Done then (o, s', alt') else Generator(buf, s', alt')
    else if IsOperator(s.token.kind) then
      Generator(buf, Advance(buf, s), alt.(generator := alt.generator + [Element(Text(buf, s), PbExpression)]))
    else (Done, s, alt)
  }

  // ----- what every generator satisfies -----

  /** The names an element can have, by kind; a terminator has a lexer rule. */
  ghost predicate ElementOk(custom: set<string>, e: Element) {
    && IsTokenText(e.name)
    && match e.kind
       case RuleKind => KindOf(e.name) == IDENTIFIER
       case PbExpression => IsOperator(KindOf(e.name))
       case TerminatorKind => HasLexerRule(custom, Capitalised(e.name))
  }

  ghost predicate AlternativeOk(custom: set<string>, alt: Alternative) {
    && (forall k :: 0 <= k < |alt.generator| ==> ElementOk(custom, alt.generator[k]))
    && |alt.builderNames| == |alt.builderIdxs|
  }

  lemma MoreTerminators(custom: set<string>, more: set<string>, alt: Alternative)
    requires custom <= more && AlternativeOk(custom, alt)
    ensures AlternativeOk(more, alt)
  {
    forall k | 0 <= k < |alt.generator| ensures ElementOk(more, alt.generator[k]) {
      assert ElementOk(custom, alt.generator[k]);
    }
  }

  lemma {:induction false} BuilderRefsOk(buf: string, s: State, alt: Alternative)
    requires Ok(buf, s) && AlternativeOk(s.custom, alt)
    ensures var (o, r, refs) := BuilderRefs(buf, s, alt);
      Ok(buf, r) && r.custom == s.custom && AlternativeOk(s.custom, refs) && refs.generator == alt.generator
    decreases Measure(buf, s)
  {
    assert s.cur <= |buf|;
    hide Ok, ElementOk, Advance, BuilderIndex, BuilderName, Text, Measure;
    if s.token.kind == IDENTIFIER && BuilderIndex(Text(buf, s)).Some? {
      AdvanceOk(buf, s);
      AdvanceOk(buf, Advance(buf, s));
      BuilderRefsOk(buf, Accept(buf, Advance(buf, s), COMMA),
        alt.(builderNames := alt.builderNames + [BuilderName(Text(buf, s))],
             builderIdxs := alt.builderIdxs + [BuilderIndex(Text(buf, s)).value]));
    }
  }

  /** The references after `builder =`. */
  lemma RefsFromNoneOk(buf: string, s: State, alt: Alternative)
    requires Ok(buf, s) && AlternativeOk(s.custom, alt)
    ensures var (o, r, refs) := BuilderRefs(buf, s, alt.(builderNames := [], builderIdxs := []));
      && Ok(buf, r) && r.custom == s.custom && AlternativeOk(s.custom, refs) && refs.generator == alt.generator
      && Ok(buf, Accept(buf, r, CURLY_BRACKET_CLOSE)) && Accept(buf, r, CURLY_BRACKET_CLOSE).custom == s.custom
  {
    assert s.cur <= |buf|;
    hide Ok, AlternativeOk, Advance, BuilderRefs;
    var none := alt.(builderNames := [], builderIdxs := []);
    NoRefs(s.custom, alt);
    BuilderRefsOk(buf, s, none);
    AdvanceOk(buf, BuilderRefs(buf, s, none).1);
  }

  lemma CurlyBracketOk(buf: string, s: State, alt: Alternative)
    requires Ok(buf, s) && s.token.Live() && AlternativeOk(s.custom, alt)
    ensures var (o, r, refs) := CurlyBracket(buf, s, alt);
      Ok(buf, r) && r.custom == s.custom && AlternativeOk(s.custom, refs) && refs.generator == alt.generator
  {
    assert s.cur <= |buf|;
    hide Ok, Advance, BuilderRefs, AlternativeOk, Accept, Text, Measure;
    var s1 := Advance(buf, s);
    AdvanceOk(buf, s);
    if Text(buf, s1) == "builder" {
      var s2 := Advance(buf, s1);
      AdvanceOk(buf, s1);
      if s2.token.kind == EQUAL {
        AdvanceOk(buf, s2);
        RefsFromNoneOk(buf, Advance(buf, s2), alt);
      }
    }
  }

  lemma NoRefs(custom: set<string>, alt: Alternative)
    requires AlternativeOk(custom, alt)
    ensures AlternativeOk(custom, alt.(builderNames := [], builderIdxs := []))
  {
  }

  lemma QuotedOk(buf: string, s: State, alt: Alternative)
    requires Ok(buf, s) && s.token.Live() && AlternativeOk(s.custom, alt)
    ensures var (r, alt') := Quoted(buf, s, alt);
      Ok(buf, r) && s.custom <= r.custom && AlternativeOk(r.custom, alt')
  {
    var s1 := Advance(buf, s);
    AdvanceOk(buf, s);
    NextMeans(buf, s.cur, s.token);
    var name := Text(buf, s1);
    assert IsTokenText(name);
    var s1' := s1.(custom := s1.custom + {name});
    assert Ok(buf, s1');
    AdvanceOk(buf, s1');
    AdvanceOk(buf, Advance(buf, s1'));
    MoreTerminators(s.custom, s1'.custom, alt);
    assert ElementOk(s1'.custom, Element(name, TerminatorKind));
  }

  lemma IdentifierOk(buf: string, s: State)
    requires Ok(buf, s) && s.token.kind == IDENTIFIER
    ensures ElementOk(s.custom, IdentifierElement(s.custom, Text(buf, s)))
  {
    var name := Text(buf, s);
    PunctuatorsApart(name[0]);
    if IsTerminator(s.custom, name) {
      ClassifiedTerminatorHasRule(s.custom, name);
    }
  }

  /** Parsing a generator keeps the parser's invariant, only adds terminators, and every terminator
      among the elements has a lexer rule in the end. */
  lemma {:induction false} GeneratorOk(buf: string, s: State, alt: Alternative)
    requires Ok(buf, s) && AlternativeOk(s.custom, alt)
    ensures var (o, r, alt') := Generator(buf, s, alt);
      Ok(buf, r) && s.custom <= r.custom && AlternativeOk(r.custom, alt')
    decreases Measure(buf, s)
  {
    hide Ok, ElementOk, CurlyBracket, Quoted, Advance, IsTerminator, IsTokenText, KindOf;
    AdvanceOk(buf, s);
    if s.token.kind == IDENTIFIER {
      IdentifierOk(buf, s);
      GeneratorOk(buf, Advance(buf, s), alt.(generator := alt.generator + [IdentifierElement(s.custom, Text(buf, s))]));
    } else if s.token.kind == APOSTROPHE {
      QuotedOk(buf, s, alt);
      var (s', alt') := Quoted(buf, s, alt);
      GeneratorOk(buf, s', alt');
    } else if s.token.kind == CURLY_BRACKET_OPEN {
      CurlyBracketOk(buf, s, alt);
      var (o, s', alt') := CurlyBracket(buf, s, alt);
      if o == Done { GeneratorOk(buf, s', alt'); }
    } else if IsOperator(s.token.kind) {
      assert ElementOk(s.custom, Element(Text(buf, s), PbExpression)) by { OperatorOk(buf, s); }
      GeneratorOk(buf, Advance(buf, s), alt.(generator := alt.generator + [Element(Text(buf, s), PbExpression)]));
    }
  }

  lemma OperatorOk(buf: string, s: State)
    requires Ok(buf, s) && IsOperator(s.token.kind)
    ensures ElementOk(s.custom, Element(Text(buf, s), PbExpression))
  {
  }
}
