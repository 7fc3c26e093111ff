/** Printing a generator, lexing and parsing the text, and printing again. */
module RoundTrip {
  import opened Lexing
  import opened Tokens
  import opened Ast
  import opened Terminals
  import opened GeneratorSpec
  import opened Emitting

  /** Elements of the shapes the parser builds. */
  ghost predicate Printable(e: Element) {
    && IsTokenText(e.name)
    && match e.kind
       case RuleKind => KindOf(e.name) == IDENTIFIER
       case PbExpression => IsOperator(KindOf(e.name))
       case TerminatorKind => true
  }

  ghost predicate AllPrintable(g: seq<Element>) {
    forall k :: 0 <= k < |g| ==> Printable(g[k])
  }

  /** A terminator comes back if it is named by a word, or if it is a quotation mark at the end: the
      parser then takes the stale token after the mark, the mark itself, for the quoted name. */
  predicate Survives(g: seq<Element>, k: nat)
    requires k < |g|
  {
    g[k].kind == TerminatorKind ==>
      (g[k].name != "" && IsIdentifierHead(g[k].name[0])) || (k == |g| - 1 && g[k].name == "'")
  }

  predicate AllSurvive(g: seq<Element>) {
    forall k :: 0 <= k < |g| ==> Survives(g, k)
  }

  /** The token an element is printed as. */
  lemma PrintedToken(e: Element)
    requires Printable(e)
    ensures IsTokenText(Printed(e))
    ensures e.kind == PbExpression ==>
      IsOperator(KindOf(Printed(e))) && |Printed(e)| == 1 && !IsIdentifierBody(Printed(e)[0])
    ensures e.kind != PbExpression && IsIdentifierHead(e.name[0]) <==> KindOf(Printed(e)) == IDENTIFIER
    ensures e.kind == RuleKind ==> IsIdentifierHead(e.name[0])
    ensures !IsIdentifierHead(e.name[0]) ==> Printed(e) == e.name
    ensures KindOf(Printed(e)) == APOSTROPHE <==> Printed(e) == "'"
    ensures KindOf(Printed(e)) == APOSTROPHE ==> e == Element("'", TerminatorKind)
  {
    PunctuatorsApart(e.name[0]);
  }

  /** What a token of an element becomes when it is parsed: a word may turn from rule to terminator
      or back. */
  function ReadAs(custom: set<string>, text: string): Element {
    if IsTokenText(text) && IsOperator(KindOf(text)) then Element(text, PbExpression)
    else IdentifierElement(custom, text)
  }

  function Reparsed(custom: set<string>, e: Element): Element {
    if Printed(e) == "'" then e else ReadAs(custom, Printed(e))
  }

  function ReparsedAll(custom: set<string>, g: seq<Element>): (r: seq<Element>)
    ensures |r| == |g| && forall k :: 0 <= k < |g| ==> r[k] == Reparsed(custom, g[k])
  {
    seq(|g|, k requires 0 <= k < |g| => Reparsed(custom, g[k]))
  }

  /** The terminators afterwards: a quotation mark at the end quotes itself. */
  function CustomAfter(custom: set<string>, g: seq<Element>): set<string> {
    if g != [] && Printed(g[|g| - 1]) == "'" then custom + {"'"} else custom
  }

  /** A word classified as a terminator starts with a capital or an underscore, so capitalising it
      again changes nothing. */
  lemma ReparsedPrintsTheSame(custom: set<string>, g: seq<Element>, k: nat)
    requires k < |g| && Printable(g[k]) && Survives(g, k) && TokenTexts(custom)
    ensures ElementText(Reparsed(custom, g[k])) == ElementText(g[k])
  {
    PrintedToken(g[k]);
    hide IsTokenText;
    if IsTerminator(custom, Printed(g[k])) && KindOf(Printed(g[k])) == IDENTIFIER {
      WordHead(Printed(g[k]));
      ClassifiedTerminatorHasRule(custom, Printed(g[k]));
    }
  }

  lemma WordHead(s: string)
    requires IsTokenText(s) && KindOf(s) == IDENTIFIER
    ensures IsIdentifierHead(s[0])
  {
    PunctuatorsApart(s[0]);
  }

  // ----- where the elements stand in the text -----

  /** Offset of element k in the printed generator. */
  function Offset(g: seq<Element>, k: nat): nat
    requires k <= |g|
  {
    |PrintElements("", g[..k])|
  }

  /** Element k stands at its offset, and the next one right after it. */
  ghost predicate Stands(buf: string, g: seq<Element>, k: nat)
    requires k < |g|
  {
    var text := ElementText(g[k]);
    && Offset(g, k + 1) == Offset(g, k) + |text| < |buf|
    && forall j :: 0 <= j < |text| ==> buf[Offset(g, k) + j] == text[j]
  }

  lemma Layout(g: seq<Element>, k: nat)
    requires k < |g|
    ensures Stands(PrintGenerator("", g), g, k)
  {
    hide ElementText;
    assert g[..k + 1][..k] == g[..k];
    Prefix(g, k + 1);
    Inside(PrintElements("", g[..k]), ElementText(g[k]), PrintElements("", g));
  }

  lemma Inside(before: string, text: string, whole: string)
    requires before + text <= whole
    ensures |before| + |text| < |whole + "\n"|
    ensures forall j :: 0 <= j < |text| ==> (whole + "\n")[|before| + j] == text[j]
  {
    assert forall j :: 0 <= j < |text| ==> (before + text)[|before| + j] == text[j];
  }

  lemma {:induction false} Prefix(g: seq<Element>, k: nat)
    requires k <= |g|
    ensures PrintElements("", g[..k]) <= PrintElements("", g)
    decreases |g|
  {
    if k == |g| {
      assert g[..k] == g;
    } else {
      assert g[..|g| - 1][..k] == g[..k];
      Prefix(g[..|g| - 1], k);
    }
  }

  /** The parser has just read element k (or, at the end, nothing). */
  ghost predicate Reading(buf: string, g: seq<Element>, k: nat, s: State)
    requires k <= |g|
  {
    if k == |g| then s.token.kind == EOF && s.cur == |buf|
    else
      && s.token == Token(if IsTokenText(Printed(g[k])) then KindOf(Printed(g[k])) else UNKNOWN,
                          Offset(g, k), |Printed(g[k])|)
      && s.cur == Offset(g, k) + |Printed(g[k])| <= |buf|
  }

  /** From a place with only whitespace up to element k, `advance` reads element k. */
  lemma ReadElement(g: seq<Element>, k: nat, s: State)
    requires AllPrintable(g) && k <= |g|
    requires var buf := PrintGenerator("", g);
      Offset(g, k) <= |buf| && s.cur <= Offset(g, k) && Blank(buf, s.cur, Offset(g, k))
    ensures var buf := PrintGenerator("", g);
      var r := Advance(buf, s); Reading(buf, g, k, r) && r.custom == s.custom
  {
    if k == |g| {
      ReadEnd(g, s);
    } else {
      var buf := PrintGenerator("", g);
      Layout(g, k);
      PrintedToken(g[k]);
      TokenStands(buf, g, k);
      hide PrintElements, PrintGenerator, NextToken, Offset, KindOf, IsTokenText, Maximal, Blank, Stands, Printed;
      OneToken(buf, s.cur, Token(KindOf(Printed(g[k])), Offset(g, k), |Printed(g[k])|), s.token);
    }
  }

  lemma ReadEnd(g: seq<Element>, s: State)
    requires var buf := PrintGenerator("", g);
      Offset(g, |g|) <= |buf| && s.cur <= Offset(g, |g|) && Blank(buf, s.cur, Offset(g, |g|))
    ensures var r := Advance(PrintGenerator("", g), s);
      r.token == s.token.(kind := EOF) && r.cur == |PrintGenerator("", g)| && r.custom == s.custom
  {
    var buf := PrintGenerator("", g);
    assert g[..|g|] == g;
    assert buf[Offset(g, |g|)] == '\n' && |buf| == Offset(g, |g|) + 1;
    hide PrintElements, PrintGenerator, Offset;
    NextMeans(buf, s.cur, s.token);
    NoToken(buf, s.cur, |buf|, s.token);
  }

  /** The printed name of element k is a maximal token of the text. */
  lemma TokenStands(buf: string, g: seq<Element>, k: nat)
    requires AllPrintable(g) && k < |g| && Stands(buf, g, k)
    ensures IsTokenText(Printed(g[k]))
    ensures Maximal(buf, Token(KindOf(Printed(g[k])), Offset(g, k), |Printed(g[k])|))
  {
    hide PrintElements, Offset;
    PrintedToken(g[k]);
    ElementLayout(g[k]);
    var name, at := Printed(g[k]), Offset(g, k);
    assert buf[at..at + |name|] == name;
    assert g[k].kind != PbExpression ==> At(buf, at + |name|) == ElementText(g[k])[|name|];
    hide IsTokenText, KindOf, ElementText, Printed;
    assert buf[at] == name[0];
  }

  /** An element is printed as its name, and a space unless it is an operator. */
  lemma ElementLayout(e: Element)
    ensures var text, name := ElementText(e), Printed(e);
      && |text| == |name| + (if e.kind == PbExpression then 0 else 1)
      && (forall j :: 0 <= j < |name| ==> text[j] == name[j])
      && (e.kind != PbExpression ==> text[|name|] == ' ')
  {
  }

  /** After element k only its trailing space comes before element k + 1. */
  lemma GapAfter(g: seq<Element>, k: nat)
    requires k < |g|
    ensures Gap(PrintGenerator("", g), g, k)
  {
    Layout(g, k);
    hide PrintElements, PrintGenerator, Offset, Gap, Stands;
    GapIn(PrintGenerator("", g), g, k);
  }

  ghost predicate Gap(buf: string, g: seq<Element>, k: nat)
    requires k < |g|
  {
    var c := Offset(g, k) + |Printed(g[k])|;
    c <= Offset(g, k + 1) <= |buf| && Blank(buf, c, Offset(g, k + 1))
  }

  lemma GapIn(buf: string, g: seq<Element>, k: nat)
    requires k < |g| && Stands(buf, g, k)
    ensures Gap(buf, g, k)
  {
    hide PrintElements, Offset, ElementText, Printed, Blank, IsWhitespace;
    ElementLayout(g[k]);
    OneSpace(buf, Offset(g, k), ElementText(g[k]), |Printed(g[k])|);
  }

  lemma OneSpace(buf: string, at: nat, text: string, n: nat)
    requires n <= |text| <= n + 1 && at + |text| <= |buf|
    requires forall j :: 0 <= j < |text| ==> buf[at + j] == text[j]
    requires |text| == n + 1 ==> text[n] == ' '
    ensures Blank(buf, at + n, at + |text|)
  {
    assert |text| == n + 1 ==> buf[at + n] == text[n];
  }

  function Following(g: seq<Element>, k: nat): nat { if k < |g| then k + 1 else k }

  /** From one element to the next, and at the end nowhere. */
  lemma ReadNext(g: seq<Element>, k: nat, s: State)
    requires AllPrintable(g) && k <= |g| && Reading(PrintGenerator("", g), g, k, s)
    ensures var r := Advance(PrintGenerator("", g), s);
      Reading(PrintGenerator("", g), g, Following(g, k), r) && r.custom == s.custom
  {
    if k < |g| {
      GapAfter(g, k);
      hide PrintElements, PrintGenerator, Offset;
      ReadElement(g, k + 1, s);
    } else {
      hide PrintElements, PrintGenerator, Offset;
      StaysAtEnd(PrintGenerator("", g), s);
    }
  }

  lemma StaysAtEnd(buf: string, s: State)
    requires s.cur == |buf| && s.token.kind == EOF
    ensures Advance(buf, s) == s
  {
  }

  /** One turn of the loop of parserGenerator, for a word or an operator. */
  lemma OneElement(g: seq<Element>, k: nat, s: State, alt: Alternative)
    requires AllPrintable(g) && k < |g| && Reading(PrintGenerator("", g), g, k, s)
    requires s.token.kind == IDENTIFIER || IsOperator(s.token.kind)
    ensures var buf := PrintGenerator("", g);
      && Reading(buf, g, k + 1, Advance(buf, s)) && Advance(buf, s).custom == s.custom
      && Generator(buf, s, alt) ==
           Generator(buf, Advance(buf, s), alt.(generator := alt.generator + [ReadAs(s.custom, Printed(g[k]))]))
  {
    hide Offset, PrintElements, PrintGenerator;
    PrintedToken(g[k]);
    ReadText(g, k, s);
    ReadNext(g, k, s);
    hide Advance, KindOf, IsTokenText, CurlyBracket, Quoted, Blank, Printed, IdentifierElement;
  }

  /** A quotation mark quotes the element after it, or itself if there is none. */
  lemma QuoteTurn(g: seq<Element>, k: nat, s: State, alt: Alternative) returns (j: nat, name: string)
    requires AllPrintable(g) && k < |g| && Reading(PrintGenerator("", g), g, k, s) && s.token.kind == APOSTROPHE
    ensures k < j <= |g| && name == (if k + 1 < |g| then Printed(g[k + 1]) else "'")
    ensures k + 1 < |g| ==> k + 1 < j
    ensures var (r, alt') := Quoted(PrintGenerator("", g), s, alt);
      && Reading(PrintGenerator("", g), g, j, r) && r.custom == s.custom + {name}
      && alt' == alt.(generator := alt.generator + [Element(name, TerminatorKind)])
  {
    var buf := PrintGenerator("", g);
    PrintedToken(g[k]);
    ReadText(g, k, s);
    ReadNext(g, k, s);
    hide PrintElements, PrintGenerator, Offset, KindOf, IsTokenText, Printed;
    var s1 := Advance(buf, s);
    if k + 1 < |g| {
      name := Printed(g[k + 1]);
      ReadText(g, k + 1, s1);
    } else {
      name := "'";
      StaleText(buf, s);
    }
    j := if k + 1 < |g| then k + 2 else k + 1;
    hide Text;
    var s2 := s1.(custom := s1.custom + {name});
    ReadNext(g, k + 1, s2);
    var s3 := Advance(buf, s2);
    ReadNext(g, j, s3);
    hide Advance, Reading;
    if s3.token.kind == APOSTROPHE && j < |g| { j := j + 1; }
  }

  lemma StaleText(buf: string, s: State)
    requires s.cur <= |buf| && Advance(buf, s).token.kind == EOF
    ensures Text(buf, Advance(buf, s)) == Text(buf, s)
  {
    NextMeans(buf, s.cur, s.token);
    hide NextToken;
  }

  /** The references of a builder list are words of the text like any other. */
  lemma {:induction false} RefsRead(g: seq<Element>, k: nat, s: State, alt: Alternative) returns (j: nat)
    requires AllPrintable(g) && k <= |g| && Reading(PrintGenerator("", g), g, k, s)
    ensures k <= j <= |g|
    ensures var (o, r, refs) := BuilderRefs(PrintGenerator("", g), s, alt);
      Reading(PrintGenerator("", g), g, j, r) && refs.generator == alt.generator
    decreases |g| - k
  {
    hide PrintElements, PrintGenerator, Offset, KindOf, IsTokenText, Printed, BuilderIndex, BuilderName, Text;
    var buf := PrintGenerator("", g);
    j := k;
    if s.token.kind == IDENTIFIER && BuilderIndex(Text(buf, s)).Some? {
      ReadNext(g, k, s);
      var s1 := Advance(buf, s);
      ReadNext(g, k + 1, s1);
      var next := alt.(builderNames := alt.builderNames + [BuilderName(Text(buf, s))],
                       builderIdxs := alt.builderIdxs + [BuilderIndex(Text(buf, s)).value]);
      hide Advance;
      j := RefsRead(g, if s1.token.kind == COMMA then k + 2 else k + 1, Accept(buf, s1, COMMA), next);
    }
  }

  /** The references after `builder =`, and the closing bracket. */
  lemma ListRead(g: seq<Element>, k: nat, s: State, alt: Alternative) returns (j: nat)
    requires AllPrintable(g) && k <= |g| && Reading(PrintGenerator("", g), g, k, s)
    ensures k <= j <= |g|
    ensures var buf := PrintGenerator("", g);
      var (o, r, refs) := BuilderRefs(buf, s, alt.(builderNames := [], builderIdxs := []));
      && refs.generator == alt.generator
      && Reading(buf, g, j, if o == Done then Accept(buf, r, CURLY_BRACKET_CLOSE) else r)
  {
    hide PrintElements, PrintGenerator, Offset, KindOf, IsTokenText, Printed, BuilderRefs;
    var none := alt.(builderNames := [], builderIdxs := []);
    j := RefsRead(g, k, s, none);
    var (o, r, refs) := BuilderRefs(PrintGenerator("", g), s, none);
    ReadNext(g, j, r);
    hide Advance;
    if o == Done && r.token.kind == CURLY_BRACKET_CLOSE && j < |g| { j := j + 1; }
  }

  /** A curly bracket adds no element. */
  lemma CurlyTurn(g: seq<Element>, k: nat, s: State, alt: Alternative) returns (j: nat)
    requires AllPrintable(g) && k < |g| && Reading(PrintGenerator("", g), g, k, s) && s.token.kind == CURLY_BRACKET_OPEN
    ensures k < j <= |g|
    ensures var (o, r, alt') := CurlyBracket(PrintGenerator("", g), s, alt);
      Reading(PrintGenerator("", g), g, j, r) && alt'.generator == alt.generator
  {
    var buf := PrintGenerator("", g);
    assert s.cur <= |buf|;
    j := k + 1;
    ReadNext(g, k, s);
    hide PrintElements, PrintGenerator, Offset, KindOf, IsTokenText, Printed, Text, BuilderRefs, Reading, Advance,
         Accept;
    var s1 := Advance(buf, s);
    if Text(buf, s1) == "builder" {
      ReadNext(g, j, s1);
      var s2 := Advance(buf, s1);
      j := Following(g, j);
      if s2.token.kind == EQUAL {
        ReadNext(g, j, s2);
        j := Following(g, j);
        j := ListRead(g, j, Advance(buf, s2), alt);
      }
    }
  }

  lemma StopAtEnd(buf: string, s: State, alt: Alternative)
    requires s.cur <= |buf|
    requires s.token.kind != IDENTIFIER && s.token.kind != APOSTROPHE && s.token.kind != CURLY_BRACKET_OPEN
    requires !IsOperator(s.token.kind)
    ensures Generator(buf, s, alt) == (Done, s, alt)
  {
  }

  // ----- generators that survive -----

  /** What is next to be read and what it will become. */
  lemma NextSurvivor(g: seq<Element>, k: nat, s: State)
    requires AllPrintable(g) && k < |g| && Survives(g, k) && Reading(PrintGenerator("", g), g, k, s)
    ensures s.token.kind == APOSTROPHE || s.token.kind == IDENTIFIER || IsOperator(s.token.kind)
    ensures s.token.kind == APOSTROPHE ==> k == |g| - 1 && CustomAfter(s.custom, g) == s.custom + {"'"}
    ensures s.token.kind == APOSTROPHE ==> ReparsedAll(s.custom, g)[k] == Element("'", TerminatorKind)
    ensures s.token.kind != APOSTROPHE ==> ReparsedAll(s.custom, g)[k] == ReadAs(s.custom, Printed(g[k]))
    ensures s.token.kind != APOSTROPHE && k == |g| - 1 ==> CustomAfter(s.custom, g) == s.custom
  {
    PrintedToken(g[k]);
    hide PrintElements, PrintGenerator, Offset, Printed, KindOf, IsTokenText, ReadAs;
  }

  lemma {:induction false} ParseFrom(g: seq<Element>, k: nat, s: State, alt: Alternative)
    requires AllPrintable(g) && AllSurvive(g) && k <= |g| && Reading(PrintGenerator("", g), g, k, s)
    ensures var (o, r, alt') := Generator(PrintGenerator("", g), s, alt);
      && o == Done && r.token.kind == EOF && r.custom == (if k < |g| then CustomAfter(s.custom, g) else s.custom)
      && alt' == alt.(generator := alt.generator + ReparsedAll(s.custom, g)[k..])
    decreases |g| - k
  {
    var buf, rest := PrintGenerator("", g), ReparsedAll(s.custom, g);
    hide Offset, PrintElements, PrintGenerator, Generator, ReadAs, ReparsedAll, Survives, CustomAfter, Printable,
         Printed;
    if k == |g| {
      StopAtEnd(buf, s, alt);
      assert alt.generator + rest[k..] == alt.generator;
    } else {
      NextSurvivor(g, k, s);
      hide Reading, Advance;
      if s.token.kind == APOSTROPHE {
        QuoteAtEnd(g, k, s, alt);
        assert rest[k..] == [rest[k]];
      } else {
        var longer := alt.(generator := alt.generator + [rest[k]]);
        OneElement(g, k, s, alt);
        ParseFrom(g, k + 1, Advance(buf, s), longer);
        assert alt.generator + rest[k..] == longer.generator + rest[k + 1..];
      }
    }
  }

  lemma QuoteAtEnd(g: seq<Element>, k: nat, s: State, alt: Alternative)
    requires AllPrintable(g) && k == |g| - 1 && Reading(PrintGenerator("", g), g, k, s) && s.token.kind == APOSTROPHE
    ensures var (o, r, alt') := Generator(PrintGenerator("", g), s, alt);
      && o == Done && r.token.kind == EOF && r.custom == s.custom + {"'"}
      && alt' == alt.(generator := alt.generator + [Element("'", TerminatorKind)])
  {
    var j, name := QuoteTurn(g, k, s, alt);
    hide PrintElements, PrintGenerator, Offset, Quoted, KindOf, IsTokenText, Printed;
    var (r, alt') := Quoted(PrintGenerator("", g), s, alt);
    StopAtEnd(PrintGenerator("", g), r, alt');
  }

  // ----- generators that do not -----

  /** The characters of the printed elements. */
  function Length(g: seq<Element>): nat { |PrintElements("", g)| }

  lemma OneLonger(alt: Alternative, e: Element)
    ensures Length(alt.(generator := alt.generator + [e]).generator) == Length(alt.generator) + |ElementText(e)|
  {
    assert (alt.generator + [e])[..|alt.generator|] == alt.generator;
    hide ElementText;
  }

  /** Some terminator from k on does not come back. */
  predicate Lost(g: seq<Element>, k: nat) { exists j :: k <= j < |g| && !Survives(g, j) }

  lemma Costs(g: seq<Element>, k: nat)
    requires AllPrintable(g) && k < |g|
    ensures Offset(g, k) + |Printed(g[k])| + (if g[k].kind == PbExpression then 0 else 1) == Offset(g, k + 1)
    ensures 0 < |Printed(g[k])| && Offset(g, k + 1) <= Offset(g, |g|)
  {
    Layout(g, k);
    ElementLayout(g[k]);
    PrintedToken(g[k]);
    Prefix(g, k + 1);
    assert g[..|g|] == g;
    hide PrintElements, ElementText;
  }

  lemma ReadAsLength(custom: set<string>, text: string)
    ensures |ElementText(ReadAs(custom, text))|
      == |text| + (if IsTokenText(text) && IsOperator(KindOf(text)) then 0 else 1)
  {
    hide IsTokenText, KindOf, IsTerminator;
  }

  lemma LostStep(g: seq<Element>, k: nat)
    requires k < |g|
    ensures Lost(g, k) <==> !Survives(g, k) || Lost(g, k + 1)
  {
    hide Survives;
  }

  lemma {:induction false} OffsetsGrow(g: seq<Element>, k: nat, j: nat)
    requires AllPrintable(g) && k <= j <= |g|
    ensures Offset(g, k) <= Offset(g, j)
    decreases j - k
  {
    if k < j {
      Costs(g, k);
      OffsetsGrow(g, k + 1, j);
    }
  }

  /** Every token of the text yields at most its own characters and a space, and a terminator that
      does not come back yields less. */
  lemma {:induction false} Yields(g: seq<Element>, k: nat, s: State, alt: Alternative)
    requires AllPrintable(g) && k <= |g| && Reading(PrintGenerator("", g), g, k, s)
    ensures Length(Generator(PrintGenerator("", g), s, alt).2.generator) + (if Lost(g, k) then 1 else 0)
      <= Length(alt.generator) + Offset(g, |g|) - Offset(g, k)
    decreases |g| - k
  {
    hide Advance, Offset, PrintElements, PrintGenerator, Generator, Length, Lost, KindOf, IsTokenText, Survives;
    var buf := PrintGenerator("", g);
    if k == |g| {
      StopAtEnd(buf, s, alt);
      NothingLost(g);
    } else if s.token.kind == IDENTIFIER || IsOperator(s.token.kind) {
      YieldsElement(g, k, s, alt);
      var longer := alt.(generator := alt.generator + [ReadAs(s.custom, Printed(g[k]))]);
      OneElement(g, k, s, alt);
      Yields(g, k + 1, Advance(buf, s), longer);
    } else if s.token.kind == APOSTROPHE {
      PrintedToken(g[k]);
      var j, name := QuoteTurn(g, k, s, alt);
      YieldsQuote(g, k, j, name, alt, s);
      var (r, alt') := Quoted(buf, s, alt);
      QuoteStep(buf, s, alt);
      Yields(g, j, r, alt');
    } else {
      Costs(g, k);
      if s.token.kind == CURLY_BRACKET_OPEN {
        var j := CurlyTurn(g, k, s, alt);
        OffsetsGrow(g, k + 1, j);
        var (o, r, alt') := CurlyBracket(buf, s, alt);
        CurlyStep(buf, s, alt);
        Yields(g, j, r, alt');
      } else {
        StopAtEnd(buf, s, alt);
      }
    }
  }

  lemma NothingLost(g: seq<Element>)
    ensures !Lost(g, |g|)
  {
  }

  lemma QuoteStep(buf: string, s: State, alt: Alternative)
    requires s.cur <= |buf| && s.token.kind == APOSTROPHE
    ensures var (r, alt') := Quoted(buf, s, alt); Generator(buf, s, alt) == Generator(buf, r, alt')
  {
    hide Quoted;
  }

  lemma CurlyStep(buf: string, s: State, alt: Alternative)
    requires s.cur <= |buf| && s.token.kind == CURLY_BRACKET_OPEN
    ensures var (o, r, alt') := CurlyBracket(buf, s, alt);
      Generator(buf, s, alt) == if o == Done then Generator(buf, r, alt') else (o, r, alt')
  {
    hide CurlyBracket;
  }

  lemma YieldsElement(g: seq<Element>, k: nat, s: State, alt: Alternative)
    requires AllPrintable(g) && k < |g| && Reading(PrintGenerator("", g), g, k, s)
    requires s.token.kind == IDENTIFIER || IsOperator(s.token.kind)
    ensures Length(alt.(generator := alt.generator + [ReadAs(s.custom, Printed(g[k]))]).generator) + Offset(g, k)
      + (if Survives(g, k) then 0 else 1) <= Length(alt.generator) + Offset(g, k + 1)
    ensures Lost(g, k) <==> !Survives(g, k) || Lost(g, k + 1)
  {
    Costs(g, k);
    PrintedToken(g[k]);
    OneLonger(alt, ReadAs(s.custom, Printed(g[k])));
    ReadAsLength(s.custom, Printed(g[k]));
    LostStep(g, k);
    hide PrintElements, PrintGenerator, Offset, Printed, KindOf, IsTokenText, ReadAs, Lost;
  }

  lemma YieldsQuote(g: seq<Element>, k: nat, j: nat, name: string, alt: Alternative, s: State)
    requires AllPrintable(g) && k < j <= |g| && Printed(g[k]) == "'"
    requires name == (if k + 1 < |g| then Printed(g[k + 1]) else "'") && (k + 1 < |g| ==> k + 1 < j)
    ensures Length(alt.(generator := alt.generator + [Element(name, TerminatorKind)]).generator)
      + Offset(g, k) + (if k + 1 < |g| then 1 else 0) <= Length(alt.generator) + Offset(g, j)
    ensures k + 1 == |g| ==> !Lost(g, k)
  {
    PrintedToken(g[k]);
    Costs(g, k);
    OneLonger(alt, Element(name, TerminatorKind));
    hide PrintElements, PrintGenerator, Offset, Printed, Length, Lost;
    if k + 1 < |g| {
      Costs(g, k + 1);
      OffsetsGrow(g, k + 2, j);
    } else {
      LostStep(g, k);
      NothingLost(g);
    }
  }

  lemma ReadText(g: seq<Element>, k: nat, s: State)
    requires AllPrintable(g) && k < |g| && Reading(PrintGenerator("", g), g, k, s)
    ensures Text(PrintGenerator("", g), s) == Printed(g[k])
  {
    Layout(g, k);
    hide PrintElements, PrintGenerator, Offset, Reading, Stands, Printed, Text;
    TextIn(PrintGenerator("", g), g, k, s);
  }

  lemma TextIn(buf: string, g: seq<Element>, k: nat, s: State)
    requires k < |g| && Stands(buf, g, k) && Reading(buf, g, k, s)
    ensures Text(buf, s) == Printed(g[k])
  {
    hide PrintElements, Offset, KindOf, IsTokenText, ElementText, Printed;
    ElementLayout(g[k]);
    SliceIs(buf, Offset(g, k), ElementText(g[k]), Printed(g[k]));
  }

  lemma SliceIs(buf: string, at: nat, text: string, name: string)
    requires |name| <= |text| && at + |text| <= |buf|
    requires forall j :: 0 <= j < |text| ==> buf[at + j] == text[j]
    requires forall j :: 0 <= j < |name| ==> text[j] == name[j]
    ensures buf[at..at + |name|] == name
  {
  }

  lemma {:induction false} SameText(custom: set<string>, g: seq<Element>, n: nat)
    requires AllPrintable(g) && AllSurvive(g) && n <= |g| && TokenTexts(custom)
    ensures PrintElements("", ReparsedAll(custom, g)[..n]) == PrintElements("", g[..n])
  {
    if n != 0 {
      SameText(custom, g, n - 1);
      assert ReparsedAll(custom, g)[..n][..n - 1] == ReparsedAll(custom, g)[..n - 1] && g[..n][..n - 1] == g[..n - 1];
      assert Survives(g, n - 1);
      hide Survives, ElementText;
      ReparsedPrintsTheSame(custom, g, n - 1);
    }
  }

  /** Reading the text of a generator back, from a fresh parser over it. */
  function Reread(custom: set<string>, text: string): (Outcome, State, Alternative) {
    Generator(text, Advance(text, State(Token(UNKNOWN, 0, 0), 0, custom)), Alternative([], [], []))
  }

  /** Printing, parsing and printing again gives the same text, under any terminators, exactly if
      every terminator is named by a word or is a quotation mark at the end.  The parse then consumes
      the whole text and its elements carry exactly the printed names in order. */
  lemma PrintParsePrint(custom: set<string>, g: seq<Element>)
    requires AllPrintable(g) && TokenTexts(custom)
    ensures var (o, s, alt) := Reread(custom, PrintGenerator("", g));
      && (AllSurvive(g) ==>
            && o == Done && s.token.kind == EOF && s.custom == CustomAfter(custom, g)
            && alt == Alternative(ReparsedAll(custom, g), [], []))
      && (PrintGenerator("", alt.generator) == PrintGenerator("", g) <==> AllSurvive(g))
  {
    var buf, none := PrintGenerator("", g), Alternative([], [], []);
    var s := State(Token(UNKNOWN, 0, 0), 0, custom);
    assert Offset(g, 0) == 0 by { assert g[..0] == []; }
    ReadElement(g, 0, s);
    if AllSurvive(g) {
      ParseFrom(g, 0, Advance(buf, s), none);
      assert ReparsedAll(custom, g)[0..] == ReparsedAll(custom, g);
      SameText(custom, g, |g|);
      assert ReparsedAll(custom, g)[..|g|] == ReparsedAll(custom, g) && g[..|g|] == g;
    } else {
      Yields(g, 0, Advance(buf, s), none);
      assert g[..|g|] == g;
      assert Lost(g, 0);
    }
  }

  /** Every generator the parser builds is in the scope of this. */
  lemma ParsedIsPrintable(custom: set<string>, alt: Alternative)
    requires AlternativeOk(custom, alt)
    ensures AllPrintable(alt.generator)
  {
    forall k | 0 <= k < |alt.generator| ensures Printable(alt.generator[k]) {
      assert ElementOk(custom, alt.generator[k]);
    }
  }

  /** A quoted operator is printed with a space and read back as an operator, which is printed
      without. */
  lemma QuotedOperatorChanges(custom: set<string>, ch: char)
    requires Punctuator(ch).Some? && IsOperator(Punctuator(ch).value)
    ensures var text := PrintGenerator("", [Element([ch], TerminatorKind)]);
      text == [ch, ' ', '\n'] && PrintGenerator("", Reread(custom, text).2.generator) == [ch, '\n']
  {
    var q, e := Element([ch], TerminatorKind), Element([ch], PbExpression);
    var text := [ch, ' ', '\n'];
    PunctuatorsApart(ch);
    assert PrintElements("", [q]) == PrintElements("", []) + ([ch] + " ") by { assert [q][..0] == []; }
    assert PrintGenerator("", [q]) == text;
    assert PrintElements("", [e]) == PrintElements("", []) + [ch] by { assert [e][..0] == []; }
    var s := State(Token(UNKNOWN, 0, 0), 0, custom);
    var t := Token(Punctuator(ch).value, 0, 1);
    assert t.Content(text) == [ch];
    hide Punctuator;
    OneToken(text, 0, t, s.token);
    NoToken(text, 1, 3, t);
    NextMeans(text, 1, t);
    var s1 := Advance(text, s);
    assert s1 == State(t, 1, custom);
    var s2 := Advance(text, s1);
    assert s2.token.kind == EOF;
    hide Advance, NextToken;
    assert Generator(text, s2, Alternative([e], [], [])).2.generator == [e];
    assert [] + [e] == [e];
    assert Text(text, s1) == [ch];
  }
}
