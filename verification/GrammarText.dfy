/** The grammar file as it is read: its rule part divides into words, which give the rules back. */
module GrammarText {
  import opened Options
  import opened Lexing
  import opened Tokens
  import opened Ast
  import opened Terminals
  import opened GeneratorSpec
  import opened Parsing
  import opened Emitting
  import opened RoundTrip
  import opened Definitions

  // ----- dividing a text into words -----

  predicate IsWord(w: string) { IsTokenText(w) || w == "|" }

  predicate AllBlank(s: string) { forall k :: 0 <= k < |s| ==> IsWhitespace(s[k]) }

  /** What follows does not continue the word. */
  predicate EndsBefore(w: string, rest: string) {
    w != "" && rest != "" ==>
      !(IsIdentifierHead(w[0]) && IsIdentifierBody(rest[0])) && !(IsDigit(w[0]) && IsDigit(rest[0]))
  }

  /** The text consists of these words, each as long as it can be, and whitespace. */
  ghost predicate Divides(text: string, ws: seq<string>)
    decreases |ws|
  {
    if ws == [] then AllBlank(text)
    else IsWord(ws[0]) && exists gap: string, rest: string ::
      AllBlank(gap) && EndsBefore(ws[0], rest) && text == gap + ws[0] + rest && Divides(rest, ws[1..])
  }

  /** A word that follows is not taken for a part of the last one. */
  predicate Closed(text: string) { text != "" ==> !IsIdentifierBody(text[|text| - 1]) }

  lemma FirstWord(gap: string, w: string, rest: string, ws: seq<string>)
    requires IsWord(w) && AllBlank(gap) && EndsBefore(w, rest) && Divides(rest, ws)
    ensures Divides(gap + w + rest, [w] + ws)
  {
    hide IsWord, AllBlank, EndsBefore;
    assert ([w] + ws)[1..] == ws;
  }

  lemma BlankBefore(blank: string, text: string, ws: seq<string>)
    requires AllBlank(blank) && Divides(text, ws)
    ensures Divides(blank + text, ws)
  {
    if ws != [] {
      hide IsWord, EndsBefore, IsWhitespace;
      var gap, rest :| AllBlank(gap) && EndsBefore(ws[0], rest) && text == gap + ws[0] + rest && Divides(rest, ws[1..]);
      assert blank + text == (blank + gap) + ws[0] + rest;
      FirstWord(blank + gap, ws[0], rest, ws[1..]);
      assert [ws[0]] + ws[1..] == ws;
    }
  }

  /** A word before the end of a closed text ends before anything. */
  lemma ClosedWord(w: string, rest: string, more: string)
    requires IsWord(w) && EndsBefore(w, rest) && Closed(w + rest)
    ensures EndsBefore(w, rest + more) && Closed(rest)
  {
    if rest == "" {
      assert !IsIdentifierBody(w[|w| - 1]);
    } else {
      assert (w + rest)[|w + rest| - 1] == rest[|rest| - 1];
    }
    hide IsWhitespace;
  }

  lemma ClosedEnd(before: string, text: string)
    requires text != ""
    ensures Closed(before + text) <==> Closed(text)
  {
  }

  /** The words of two texts, one after the other. */
  lemma {:induction false} DividesConcat(a: string, x: seq<string>, b: string, y: seq<string>)
    requires Divides(a, x) && Divides(b, y) && Closed(a)
    ensures Divides(a + b, x + y)
    decreases |x|
  {
    hide IsWord, AllBlank, EndsBefore, Closed;
    if x == [] {
      assert x + y == y;
      BlankBefore(a, b, y);
    } else {
      var gap, rest :| AllBlank(gap) && EndsBefore(x[0], rest) && a == gap + x[0] + rest && Divides(rest, x[1..]);
      assert a == gap + (x[0] + rest) && a + b == gap + x[0] + (rest + b);
      WordNotBlank(x[0]);
      ClosedEnd(gap, x[0] + rest);
      ClosedWord(x[0], rest, b);
      DividesConcat(rest, x[1..], b, y);
      FirstWord(gap, x[0], rest + b, x[1..] + y);
      assert [x[0]] + (x[1..] + y) == x + y;
    }
  }

  /** The first word starts at the first character that is not whitespace. */
  lemma GapIs(gap: string, w: string, rest: string)
    requires AllBlank(gap) && IsWord(w)
    ensures var text := gap + w + rest;
      |gap| == Span(text, 0, IsWhitespace) && text[|gap|..] == w + rest && !AllBlank(text)
  {
    WordNotBlank(w);
    var text := gap + w + rest;
    assert text[|gap|] == w[0] && text == gap + (w + rest);
    hide IsWord, IsWhitespace;
    SpanIs(text, 0, IsWhitespace, |gap|);
  }

  lemma WordNotBlank(w: string)
    requires IsWord(w)
    ensures w != "" && !IsWhitespace(w[0])
  {
    PunctuatorsApart(w[0]);
  }

  /** The length of a word depends on the text only. */
  function WordLength(text: string): nat
    requires text != ""
  {
    if IsIdentifierHead(text[0]) then Span(text, 1, IsIdentifierBody)
    else if IsDigit(text[0]) then Span(text, 1, IsDigit)
    else 1
  }

  lemma WordIs(w: string, rest: string)
    requires IsWord(w) && EndsBefore(w, rest)
    ensures var text := w + rest; |w| == WordLength(text) && text[..|w|] == w && text[|w|..] == rest
  {
    var text := w + rest;
    assert text[0] == w[0] && (rest != "" ==> text[|w|] == rest[0]);
    assert forall k :: 0 <= k < |w| ==> text[k] == w[k];
    hide Punctuator, Span;
    if IsIdentifierHead(w[0]) {
      SpanIs(text, 1, IsIdentifierBody, |w|);
    } else if IsDigit(w[0]) {
      SpanIs(text, 1, IsDigit, |w|);
    }
  }

  /** A text divides into words in one way only. */
  lemma {:induction false} DivisionIsUnique(text: string, x: seq<string>, y: seq<string>)
    requires Divides(text, x) && Divides(text, y)
    ensures x == y
    decreases |x|
  {
    if x != [] { BlankHasNoWord(text, x); }
    if y != [] { BlankHasNoWord(text, y); }
    hide IsWord, AllBlank, EndsBefore, Span, IsWhitespace;
    if x != [] && y != [] {
      WordNotBlank(x[0]);
      WordNotBlank(y[0]);
      var gap, rest :| AllBlank(gap) && EndsBefore(x[0], rest) && text == gap + x[0] + rest && Divides(rest, x[1..]);
      var lead, tail :| AllBlank(lead) && EndsBefore(y[0], tail) && text == lead + y[0] + tail && Divides(tail, y[1..]);
      GapIs(gap, x[0], rest);
      GapIs(lead, y[0], tail);
      WordIs(x[0], rest);
      WordIs(y[0], tail);
      DivisionIsUnique(rest, x[1..], y[1..]);
      assert x == [x[0]] + x[1..] && y == [y[0]] + y[1..];
    }
  }

  lemma BlankHasNoWord(text: string, ws: seq<string>)
    requires Divides(text, ws) && ws != []
    ensures !AllBlank(text)
  {
    hide IsWord, AllBlank, Span, IsWhitespace;
    WordNotBlank(ws[0]);
    var gap, rest :| AllBlank(gap) && EndsBefore(ws[0], rest) && text == gap + ws[0] + rest && Divides(rest, ws[1..]);
    GapIs(gap, ws[0], rest);
  }

  /** One word with whitespace around it. */
  lemma OneWord(before: string, w: string, after: string)
    requires AllBlank(before) && AllBlank(after) && IsWord(w) && (after == "" ==> Closed(w))
    ensures Divides(before + w + after, [w]) && Closed(before + w + after)
  {
    if after != "" {
      assert (before + w + after)[|before + w + after| - 1] == after[|after| - 1];
    } else {
      assert (before + w + after)[|before + w + after| - 1] == w[|w| - 1];
    }
    assert EndsBefore(w, after);
    hide IsWord, AllBlank, EndsBefore, Closed, IsWhitespace;
    assert Divides(after, []);
    FirstWord(before, w, after, []);
    assert [w] + [] == [w];
  }

  /** Printing more words. */
  lemma Append(os: string, words: seq<string>, piece: string, more: seq<string>)
    requires Divides(os, words) && Closed(os) && Divides(piece, more) && Closed(piece)
    ensures Divides(os + piece, words + more) && Closed(os + piece)
  {
    DividesConcat(os, words, piece, more);
    hide Divides;
    if piece == "" { assert os + piece == os; } else { ClosedEnd(os, piece); }
  }

  // ----- the words of the rules -----

  function PrintedNames(g: seq<Element>): seq<string> { seq(|g|, k requires 0 <= k < |g| => Printed(g[k])) }

  /** The first alternative after the given mark, each further one after a bar. */
  function Listed(mark: string, alts: seq<Alternative>): seq<string>
    decreases |alts|
  {
    if alts == [] then [] else [mark] + PrintedNames(alts[0].generator) + Listed("|", alts[1..])
  }

  function RuleWords(rule: Rule): seq<string> { [rule.name] + Listed(":", rule.alternatives) + [";"] }

  function RulesWords(rules: seq<Rule>): seq<string> {
    if rules == [] then [] else RuleWords(rules[0]) + RulesWords(rules[1..])
  }

  // ----- the rules are printed as these words -----

  lemma {:induction false} ListedSnoc(mark: string, alts: seq<Alternative>, alt: Alternative)
    ensures Listed(mark, alts + [alt]) ==
      Listed(mark, alts) + ([if alts == [] then mark else "|"] + PrintedNames(alt.generator))
    decreases |alts|
  {
    hide PrintedNames;
    if alts == [] {
      assert (alts + [alt])[1..] == [];
    } else {
      assert (alts + [alt])[1..] == alts[1..] + [alt];
      ListedSnoc("|", alts[1..], alt);
    }
  }

  lemma {:induction false} RulesSnoc(rules: seq<Rule>, rule: Rule)
    ensures RulesWords(rules + [rule]) == RulesWords(rules) + RuleWords(rule)
  {
    hide RuleWords;
    if rules != [] {
      assert (rules + [rule])[1..] == rules[1..] + [rule];
      RulesSnoc(rules[1..], rule);
    }
  }

  lemma ElementReads(e: Element)
    requires Printable(e)
    ensures Divides(ElementText(e), [Printed(e)]) && Closed(ElementText(e))
  {
    PrintedToken(e);
    hide IsTokenText, KindOf;
    OneWord("", Printed(e), if e.kind == PbExpression then "" else " ");
    hide Divides, Closed;
    assert "" + Printed(e) == Printed(e) && Printed(e) + "" == Printed(e);
  }

  lemma NamesSnoc(g: seq<Element>)
    requires g != []
    ensures PrintedNames(g) == PrintedNames(g[..|g| - 1]) + [Printed(g[|g| - 1])]
  {
    hide Printed;
  }

  lemma {:induction false} ElementsRead(os: string, words: seq<string>, g: seq<Element>)
    requires Divides(os, words) && Closed(os) && AllPrintable(g)
    ensures Divides(PrintElements(os, g), words + PrintedNames(g)) && Closed(PrintElements(os, g))
    decreases |g|
  {
    if g == [] {
      assert words + PrintedNames(g) == words;
    } else {
      var n := |g| - 1;
      hide Divides, Closed, Printable, ElementText, Printed;
      ElementsRead(os, words, g[..n]);
      ElementReads(g[n]);
      NamesSnoc(g);
      hide PrintedNames;
      Append(PrintElements(os, g[..n]), words + PrintedNames(g[..n]), ElementText(g[n]), [Printed(g[n])]);
      assert words + PrintedNames(g[..n]) + [Printed(g[n])] == words + (PrintedNames(g[..n]) + [Printed(g[n])]);
    }
  }

  lemma NewLine()
    ensures Divides("\n", []) && Closed("\n")
  {
  }

  lemma GeneratorReads(os: string, words: seq<string>, g: seq<Element>)
    requires Divides(os, words) && Closed(os) && AllPrintable(g)
    ensures Divides(PrintGenerator(os, g), words + PrintedNames(g)) && Closed(PrintGenerator(os, g))
  {
    NewLine();
    hide Divides, Closed, AllPrintable, PrintElements, PrintedNames;
    ElementsRead(os, words, g);
    Append(PrintElements(os, g), words + PrintedNames(g), "\n", []);
    assert words + PrintedNames(g) + [] == words + PrintedNames(g);
  }

  lemma MarksRead()
    ensures Divides("  : ", [":"]) && Closed("  : ")
    ensures Divides("  | ", ["|"]) && Closed("  | ")
    ensures Divides("  ;\n", [";"]) && Closed("  ;\n")
  {
    hide Divides, Closed;
    assert "  " + ":" + " " == "  : " && "  " + "|" + " " == "  | " && "  " + ";" + "\n" == "  ;\n";
    OneWord("  ", ":", " ");
    OneWord("  ", "|", " ");
    OneWord("  ", ";", "\n");
  }

  ghost predicate AlternativesPrintable(alts: seq<Alternative>) {
    forall k :: 0 <= k < |alts| ==> AllPrintable(alts[k].generator)
  }

  ghost predicate RulesPrintable(rules: seq<Rule>) {
    forall k :: 0 <= k < |rules| ==> Name(rules[k].name) && AlternativesPrintable(rules[k].alternatives)
  }

  lemma {:induction false} AlternativesRead(os: string, words: seq<string>, alts: seq<Alternative>)
    requires Divides(os, words) && Closed(os) && AlternativesPrintable(alts)
    ensures Divides(PrintAlternatives(os, alts), words + Listed(":", alts)) && Closed(PrintAlternatives(os, alts))
    decreases |alts|
  {
    if alts == [] {
      assert words + [] == words;
    } else {
      var n := |alts| - 1;
      assert alts[..n] + [alts[n]] == alts && AlternativesPrintable(alts[..n]) && AllPrintable(alts[n].generator);
      hide Divides, Closed, AllPrintable, AlternativesPrintable, PrintGenerator, PrintedNames, Listed;
      AlternativesRead(os, words, alts[..n]);
      AlternativeReads(PrintAlternatives(os, alts[..n]), words + Listed(":", alts[..n]), n == 0, alts[n].generator);
      ListedSnoc(":", alts[..n], alts[n]);
      InOrder(words, Listed(":", alts[..n]), [if n == 0 then ":" else "|"] + PrintedNames(alts[n].generator));
    }
  }

  lemma AlternativeReads(os: string, words: seq<string>, first: bool, g: seq<Element>)
    requires Divides(os, words) && Closed(os) && AllPrintable(g)
    ensures var text := PrintGenerator(os + (if first then "  : " else "  | "), g);
      Divides(text, words + ([if first then ":" else "|"] + PrintedNames(g))) && Closed(text)
  {
    MarksRead();
    hide Divides, Closed, AllPrintable, PrintGenerator, PrintedNames;
    var mark := if first then ":" else "|";
    Append(os, words, if first then "  : " else "  | ", [mark]);
    GeneratorReads(os + (if first then "  : " else "  | "), words + [mark], g);
    InOrder(words, [mark], PrintedNames(g));
  }

  lemma InOrder(a: seq<string>, b: seq<string>, c: seq<string>)
    ensures a + b + c == a + (b + c)
  {
  }

  lemma RuleReads(os: string, words: seq<string>, rule: Rule)
    requires Divides(os, words) && Closed(os) && Name(rule.name) && AlternativesPrintable(rule.alternatives)
    ensures var text := PrintAlternatives(os + rule.name + "\n", rule.alternatives) + "  ;\n" + "\n";
      Divides(text, words + RuleWords(rule)) && Closed(text)
  {
    NewLine();
    MarksRead();
    hide Divides, Closed, AlternativesPrintable, Listed, IsTokenText, KindOf, PrintAlternatives;
    OneWord("", rule.name, "\n");
    assert os + ("" + rule.name + "\n") == os + rule.name + "\n";
    Append(os, words, "" + rule.name + "\n", [rule.name]);
    var start := os + rule.name + "\n";
    var listed := words + [rule.name] + Listed(":", rule.alternatives);
    AlternativesRead(start, words + [rule.name], rule.alternatives);
    Append(PrintAlternatives(start, rule.alternatives), listed, "  ;\n", [";"]);
    Append(PrintAlternatives(start, rule.alternatives) + "  ;\n", listed + [";"], "\n", []);
    assert listed + [";"] + [] == words + RuleWords(rule);
  }

  /** The rules printed are a text that divides into the words of the rules. */
  lemma {:induction false} RulesRead(os: string, words: seq<string>, rules: seq<Rule>)
    requires Divides(os, words) && Closed(os) && RulesPrintable(rules)
    ensures Divides(PrintRules(os, rules), words + RulesWords(rules)) && Closed(PrintRules(os, rules))
    decreases |rules|
  {
    if rules == [] {
      assert words + [] == words;
    } else {
      var n := |rules| - 1;
      assert rules[..n] + [rules[n]] == rules;
      hide Divides, Closed, AlternativesPrintable, PrintAlternatives, RuleWords, RulesWords, Name;
      RulesRead(os, words, rules[..n]);
      RuleReads(PrintRules(os, rules[..n]), words + RulesWords(rules[..n]), rules[n]);
      RulesSnoc(rules[..n], rules[n]);
      assert words + RulesWords(rules[..n]) + RuleWords(rules[n]) == words + RulesWords(rules);
    }
  }

  // ----- reading rules: name ':' names ('|' names)* ';' -----

  /** A rule's name, and the names in each of its alternatives. */
  datatype Shape = Shape(name: string, alternatives: seq<seq<string>>)

  predicate IsMark(w: string) { w == ":" || w == "|" || w == ";" }

  /** How many words come before the first mark. */
  function ToMark(ws: seq<string>): (k: nat)
    ensures k <= |ws| && (forall i :: 0 <= i < k ==> !IsMark(ws[i])) && (k < |ws| ==> IsMark(ws[k]))
  {
    if ws == [] || IsMark(ws[0]) then 0 else 1 + ToMark(ws[1..])
  }

  /** Alternatives up to the semicolon, and the words after it; the mark of the first is given. */
  function ReadAlternatives(mark: string, ws: seq<string>): (r: Option<(seq<seq<string>>, seq<string>)>)
    ensures r.Some? ==> |r.value.1| < |ws|
    decreases |ws|
  {
    if ws == [] || ws[0] != mark then None
    else
      var k, rest := ToMark(ws[1..]), ws[1..];
      if k < |rest| && rest[k] == ";" then Some(([rest[..k]], rest[k + 1..]))
      else
        match ReadAlternatives("|", rest[k..])
        case None => None
        case Some(more) => Some(([rest[..k]] + more.0, more.1))
  }

  function ReadRules(ws: seq<string>): Option<seq<Shape>>
    decreases |ws|
  {
    if ws == [] then Some([])
    else if IsMark(ws[0]) then None
    else
      match ReadAlternatives(":", ws[1..])
      case None => None
      case Some(alts) =>
        match ReadRules(alts.1)
        case None => None
        case Some(more) => Some([Shape(ws[0], alts.0)] + more)
  }

  // ----- and when they are read back -----

  function AlternativesShape(alts: seq<Alternative>): seq<seq<string>> {
    seq(|alts|, k requires 0 <= k < |alts| => PrintedNames(alts[k].generator))
  }

  function Shapes(rules: seq<Rule>): seq<Shape> {
    seq(|rules|, k requires 0 <= k < |rules| => Shape(rules[k].name, AlternativesShape(rules[k].alternatives)))
  }

  /** No colon or semicolon is quoted. */
  predicate NoMarks(g: seq<Element>) {
    forall k :: 0 <= k < |g| ==> g[k].kind == TerminatorKind ==> g[k].name != ":" && g[k].name != ";"
  }

  predicate RuleReadable(rule: Rule) {
    rule.alternatives != [] && forall a :: 0 <= a < |rule.alternatives| ==> NoMarks(rule.alternatives[a].generator)
  }

  lemma MarkIsQuoted(e: Element)
    requires Printable(e)
    ensures IsMark(Printed(e)) <==> e.kind == TerminatorKind && (e.name == ":" || e.name == ";")
  {
    PrintedToken(e);
    if !IsIdentifierHead(e.name[0]) {
      assert Printed(e) == e.name;
    }
  }

  lemma MarksAreQuoted(g: seq<Element>)
    requires AllPrintable(g)
    ensures NoMarks(g) <==> forall k :: 0 <= k < |g| ==> !IsMark(PrintedNames(g)[k])
  {
    forall k | 0 <= k < |g|
      ensures IsMark(PrintedNames(g)[k]) <==> g[k].kind == TerminatorKind && (g[k].name == ":" || g[k].name == ";")
    {
      MarkIsQuoted(g[k]);
    }
    hide IsMark, Printed;
  }

  lemma {:induction false} ToMarkIs(names: seq<string>, rest: seq<string>)
    requires (forall k :: 0 <= k < |names| ==> !IsMark(names[k])) && rest != [] && IsMark(rest[0])
    ensures ToMark(names + rest) == |names|
    decreases |names|
  {
    if names == [] {
      assert names + rest == rest;
    } else {
      assert (names + rest)[1..] == names[1..] + rest;
      ToMarkIs(names[1..], rest);
    }
  }

  lemma OneAlternative(mark: string, names: seq<string>, rest: seq<string>)
    requires (forall k :: 0 <= k < |names| ==> !IsMark(names[k])) && rest != [] && IsMark(rest[0])
    ensures var ws := [mark] + names + rest;
      ReadAlternatives(mark, ws) ==
        if rest[0] == ";" then Some(([names], rest[1..]))
        else match ReadAlternatives("|", rest)
             case None => None
             case Some(more) => Some(([names] + more.0, more.1))
  {
    var ws := [mark] + names + rest;
    assert ws[1..] == names + rest && ws[0] == mark;
    ToMarkIs(names, rest);
    assert (names + rest)[..|names|] == names && (names + rest)[|names|..] == rest;
    assert rest[0] == ";" ==> (names + rest)[|names| + 1..] == rest[1..];
  }

  lemma {:induction false} AlternativesReadBack(mark: string, alts: seq<Alternative>, rest: seq<string>)
    requires alts != [] && forall a :: 0 <= a < |alts| ==> AllPrintable(alts[a].generator) && NoMarks(alts[a].generator)
    ensures ReadAlternatives(mark, Listed(mark, alts) + [";"] + rest) == Some((AlternativesShape(alts), rest))
    decreases |alts|
  {
    var names, more := PrintedNames(alts[0].generator), Listed("|", alts[1..]) + [";"] + rest;
    MarksAreQuoted(alts[0].generator);
    assert Listed(mark, alts) + [";"] + rest == [mark] + names + more;
    hide PrintedNames, NoMarks, AllPrintable, ReadAlternatives;
    if |alts| == 1 {
      assert more == [";"] + rest && more[1..] == rest;
      assert AlternativesShape(alts) == [names];
    } else {
      AlternativesReadBack("|", alts[1..], rest);
      assert AlternativesShape(alts) == [names] + AlternativesShape(alts[1..]);
    }
    OneAlternative(mark, names, more);
  }

  lemma RuleReadBack(rule: Rule, rest: seq<string>)
    requires Name(rule.name) && AlternativesPrintable(rule.alternatives) && RuleReadable(rule)
    ensures var ws := RuleWords(rule) + rest;
      ws != [] && ws[0] == rule.name && !IsMark(ws[0])
      && ReadAlternatives(":", ws[1..]) == Some((AlternativesShape(rule.alternatives), rest))
  {
    NameIsNoMark(rule.name);
    AlternativesReadBack(":", rule.alternatives, rest);
    hide PrintedNames, NoMarks, AllPrintable, ReadAlternatives, Name, IsMark, Listed;
    var tail := Listed(":", rule.alternatives) + [";"] + rest;
    assert RuleWords(rule) + rest == [rule.name] + tail;
    assert ([rule.name] + tail)[1..] == tail;
  }

  lemma NameIsNoMark(name: string)
    requires Name(name)
    ensures !IsMark(name)
  {
    PunctuatorsApart(name[0]);
  }

  lemma {:induction false} RulesReadBack(rules: seq<Rule>)
    requires RulesPrintable(rules) && forall k :: 0 <= k < |rules| ==> RuleReadable(rules[k])
    ensures ReadRules(RulesWords(rules)) == Some(Shapes(rules))
    decreases |rules|
  {
    if rules != [] {
      hide RuleWords, Name, AlternativesPrintable, RuleReadable, ReadAlternatives, IsMark, AlternativesShape;
      assert RuleReadable(rules[0]);
      RuleReadBack(rules[0], RulesWords(rules[1..]));
      RulesReadBack(rules[1..]);
      assert Shapes(rules) == [Shape(rules[0].name, AlternativesShape(rules[0].alternatives))] + Shapes(rules[1..]);
    }
  }

  // ----- nothing else is read -----

  predicate ShapeOk(shape: Shape) {
    shape.alternatives != [] && forall a :: 0 <= a < |shape.alternatives| ==> NoneIsMark(shape.alternatives[a])
  }

  predicate NoneIsMark(ws: seq<string>) { forall k :: 0 <= k < |ws| ==> !IsMark(ws[k]) }

  lemma {:induction false} AlternativesReadOk(mark: string, ws: seq<string>)
    requires ReadAlternatives(mark, ws).Some?
    ensures var alts := ReadAlternatives(mark, ws).value.0;
      alts != [] && forall a :: 0 <= a < |alts| ==> NoneIsMark(alts[a])
    decreases |ws|
  {
    hide IsMark;
    var k, rest := ToMark(ws[1..]), ws[1..];
    assert NoneIsMark(rest[..k]);
    if !(k < |rest| && rest[k] == ";") { AlternativesReadOk("|", rest[k..]); }
  }

  lemma {:induction false} RulesReadOk(ws: seq<string>)
    requires ReadRules(ws).Some?
    ensures forall k :: 0 <= k < |ReadRules(ws).value| ==> ShapeOk(ReadRules(ws).value[k])
    decreases |ws|
  {
    if ws != [] {
      AlternativesReadOk(":", ws[1..]);
      hide IsMark, ReadAlternatives;
      RulesReadOk(ReadAlternatives(":", ws[1..]).value.1);
    }
  }

  /** The words of the rules give the rules, alternatives and elements back in order, exactly if every
      rule has an alternative and no colon or semicolon is quoted. */
  lemma ReadBackIff(rules: seq<Rule>)
    requires RulesPrintable(rules)
    ensures ReadRules(RulesWords(rules)) == Some(Shapes(rules)) <==>
      forall k :: 0 <= k < |rules| ==> RuleReadable(rules[k])
  {
    hide RuleReadable, ReadRules, RulesWords, Name, AlternativesPrintable;
    if forall k :: 0 <= k < |rules| ==> RuleReadable(rules[k]) { RulesReadBack(rules); }
    if ReadRules(RulesWords(rules)) == Some(Shapes(rules)) {
      RulesReadOk(RulesWords(rules));
      forall k | 0 <= k < |rules| ensures RuleReadable(rules[k]) {
        assert ShapeOk(Shapes(rules)[k]);
        ShapeReadable(rules[k]);
      }
    }
  }

  lemma ShapeReadable(rule: Rule)
    requires AlternativesPrintable(rule.alternatives) && ShapeOk(Shape(rule.name, AlternativesShape(rule.alternatives)))
    ensures RuleReadable(rule)
  {
    var alts := rule.alternatives;
    assert AlternativesShape(alts) != [];
    hide NoMarks, PrintedNames, AllPrintable, IsMark;
    forall a | 0 <= a < |alts| ensures NoMarks(alts[a].generator) {
      assert NoneIsMark(AlternativesShape(alts)[a]);
      MarksAreQuoted(alts[a].generator);
    }
  }

  // ----- the lexer part -----

  /** Name, colon, pattern and semicolon of one definition after the other. */
  ghost predicate LexerPart(text: string, defs: seq<LexerDef>)
    decreases |defs|
  {
    if defs == [] then text == ""
    else exists head: string, foot: string, rest: string ::
      && Divides(head, [defs[0].0, ":"]) && Divides(foot, [";"]) && EndsLine(foot)
      && text == head + defs[0].1 + foot + rest && LexerPart(rest, defs[1..])
  }

  lemma LexerRuleReads(name: string, pattern: string)
    requires IsTokenText(name)
    ensures var head, foot := name + "\n" + "  : ", "\n  ;\n\n";
      && LexerRule(name, pattern) == head + pattern + foot
      && Divides(head, [name, ":"]) && Divides(foot, [";"]) && EndsLine(foot)
  {
    HeadReads(name);
    FootReads();
    hide Divides, IsTokenText, EndsLine;
  }

  lemma HeadReads(name: string)
    requires IsTokenText(name)
    ensures Divides(name + "\n" + "  : ", [name, ":"])
  {
    MarksRead();
    hide Divides, Closed, IsTokenText;
    OneWord("", name, "\n");
    assert "" + name == name;
    Append(name + "\n", [name], "  : ", [":"]);
    assert [name] + [":"] == [name, ":"];
  }

  lemma FootReads()
    ensures Divides("\n  ;\n\n", [";"]) && EndsLine("\n  ;\n\n")
  {
    assert "\n  " + ";" + "\n\n" == "\n  ;\n\n";
    hide Divides, Closed;
    OneWord("\n  ", ";", "\n\n");
  }

  /** The definitions printed after a text. */
  lemma {:induction false} DefsRead(os: string, defs: seq<LexerDef>) returns (part: string)
    requires forall k :: 0 <= k < |defs| ==> IsTokenText(defs[k].0)
    ensures PrintDefs(os, defs) == os + part && LexerPart(part, defs)
    decreases |defs|
  {
    if defs == [] {
      part := "";
    } else {
      var (name, pattern) := defs[0];
      hide LexerRule, Divides, EndsLine, IsTokenText;
      LexerRuleReads(name, pattern);
      part := DefsRead(os + LexerRule(name, pattern), defs[1..]);
      PrintConcat(os, [defs[0]], defs[1..]);
      assert [defs[0]] + defs[1..] == defs;
      OneDef(os, defs[0]);
      part := PartMore(os, defs, part);
    }
  }

  lemma OneDef(os: string, def: LexerDef)
    ensures PrintDefs(os, [def]) == os + LexerRule(def.0, def.1)
  {
    hide LexerRule;
    assert PrintDefs(os, [def][..0]) == os;
  }

  lemma PartMore(os: string, defs: seq<LexerDef>, rest: string) returns (part: string)
    requires defs != [] && IsTokenText(defs[0].0) && LexerPart(rest, defs[1..])
    ensures part == LexerRule(defs[0].0, defs[0].1) + rest && LexerPart(part, defs)
    ensures os + LexerRule(defs[0].0, defs[0].1) + rest == os + part
  {
    LexerRuleReads(defs[0].0, defs[0].1);
    hide Divides, EndsLine, IsTokenText, LexerRule;
    part := LexerRule(defs[0].0, defs[0].1) + rest;
  }

  // ----- the whole file -----

  /** The file, completed by a blank line: the header and the rules divide into their words, and the
      definitions of quoted terminators, built-ins and the last three follow. */
  ghost predicate FileReads(file: string, grammarName: string, rules: seq<Rule>, defs: seq<LexerDef>) {
    exists parser: string, lexer: string ::
      && file + "\n" == parser + lexer
      && Divides(parser, ["grammar", grammarName, ";"] + RulesWords(rules)) && LexerPart(lexer, defs)
  }

  lemma HeaderReads(grammarName: string)
    requires IsTokenText(grammarName)
    ensures var header := "" + "grammar " + grammarName + ";\n\n";
      Divides(header, ["grammar", grammarName, ";"]) && Closed(header)
  {
    KeywordReads();
    SemicolonReads();
    NotContinued(grammarName);
    hide Divides, Closed, IsTokenText, EndsBefore;
    FirstWord("", grammarName, ";\n\n", [";"]);
    var tail := "" + grammarName + ";\n\n";
    assert tail == grammarName + ";\n\n";
    ClosedEnd(grammarName, ";\n\n");
    Append("grammar ", ["grammar"], tail, [grammarName] + [";"]);
    assert "" + "grammar " + grammarName + ";\n\n" == "grammar " + tail;
    assert ["grammar"] + ([grammarName] + [";"]) == ["grammar", grammarName, ";"];
  }

  lemma KeywordReads()
    ensures Divides("grammar ", ["grammar"]) && Closed("grammar ")
  {
    assert IsWord("grammar") by { hide Punctuator; }
    assert "" + "grammar" + " " == "grammar ";
    hide Divides, Closed, IsWord;
    OneWord("", "grammar", " ");
  }

  lemma SemicolonReads()
    ensures Divides(";\n\n", [";"]) && Closed(";\n\n")
  {
    assert "" + ";" + "\n\n" == ";\n\n";
    hide Divides, Closed;
    OneWord("", ";", "\n\n");
  }

  lemma NotContinued(w: string)
    ensures EndsBefore(w, ";\n\n")
  {
  }

  lemma NamesAreWords(custom: set<string>, customs: seq<string>, builtins: seq<string>)
    requires Enumerates(customs, custom) && Enumerates(builtins, BUILTIN.Keys)
    requires TokenTexts(custom)
    ensures forall k :: 0 <= k < |LexerDefs(customs, builtins)| ==> IsTokenText(LexerDefs(customs, builtins)[k].0)
  {
    NamesOfDefs(customs, builtins);
    var names := CustomNames(customs) + (builtins + LAST_NAMES);
    forall k | 0 <= k < |customs| ensures IsTokenText(names[k]) {
      assert customs[k] in custom;
      CapitalisedIsWord(customs[k]);
    }
    forall k | |customs| <= k < |names| ensures IsTokenText(names[k]) {
      ReservedAreWords(names[k]);
    }
  }

  lemma CapitalisedIsWord(t: string)
    requires IsTokenText(t)
    ensures IsTokenText(Capitalised(t))
  {
    PunctuatorsApart(t[0]);
  }

  lemma ReservedAreWords(name: string)
    requires name in RESERVED
    ensures IsTokenText(name)
  {
    LetterNames();
    SignNames();
    hide IsTokenText;
  }

  lemma LetterNames()
    ensures IsTokenText("Var") && IsTokenText("Add") && IsTokenText("Sub") && IsTokenText("Def")
    ensures IsTokenText("Return") && IsTokenText("Number") && IsTokenText("Identifier")
    ensures IsTokenText("WS") && IsTokenText("Comment")
    ensures IsTokenText("Comma") && IsTokenText("Semi") && IsTokenText("Equal")
  {
    hide Punctuator;
  }

  lemma SignNames()
    ensures IsTokenText("ParentheseOpen") && IsTokenText("ParentheseClose")
    ensures IsTokenText("BracketOpen") && IsTokenText("BracketClose")
    ensures IsTokenText("SbracketOpen") && IsTokenText("SbracketClose")
    ensures IsTokenText("AngleBracketOpen") && IsTokenText("AngleBracketClose")
  {
    hide Punctuator;
  }

  /** The emitted file reads as its header, its rules and its definitions, whatever the order in which
      the terminators are walked. */
  lemma EmittedFileReads(grammarName: string, m: Module, custom: set<string>, customs: seq<string>,
                         builtins: seq<string>)
    requires IsTokenText(grammarName) && ModuleOk(custom, m) && TokenTexts(custom)
    requires Enumerates(customs, custom) && Enumerates(builtins, BUILTIN.Keys)
    ensures FileReads(PrintAntlr("", grammarName, m, customs, builtins), grammarName, m.rules,
                      LexerDefs(customs, builtins))
  {
    FileIsDefs("", grammarName, m, customs, builtins);
    NamesAreWords(custom, customs, builtins);
    ParsedRulesArePrintable(custom, m);
    HeaderReads(grammarName);
    hide PrintAntlr, BUILTIN, LexerDefs, Divides, Closed, RulesPrintable, IsTokenText, LexerPart, PrintRules, PrintDefs;
    hide Enumerates, ModuleOk;
    var header, words := "" + "grammar " + grammarName + ";\n\n", ["grammar", grammarName, ";"];
    RulesRead(header, words, m.rules);
    var part := DefsRead(PrintRules(header, m.rules), LexerDefs(customs, builtins));
  }

  lemma ParsedRulesArePrintable(custom: set<string>, m: Module)
    requires ModuleOk(custom, m)
    ensures RulesPrintable(m.rules)
  {
    hide AllPrintable, AlternativeOk, Name;
    forall r, a | 0 <= r < |m.rules| && 0 <= a < |m.rules[r].alternatives|
      ensures AllPrintable(m.rules[r].alternatives[a].generator)
    {
      assert RuleOk(custom, m.rules[r]);
      ParsedIsPrintable(custom, m.rules[r].alternatives[a]);
    }
  }
}
