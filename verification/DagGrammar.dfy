/** The language of DAGs: operands with names and default values. */
module DagGrammar {
  import opened Lexing
  import opened Options
  import opened Ast
  import opened GeneratorSpec
  import opened OperandSpec
  import opened FileSpec
  import opened Scripts

  // ----- DAGs as they are written -----

  /** `F64Tensor`, `TensorOf<F64>` or `TensorOf<[F64]>`, `AnyTypeOf<...>`, `"..."`, `CArg<"...", "...">`. */
  datatype Form =
    | Plain(name: string)
    | WithParameter(name: string, bracketed: bool, parameter: string)
    | AnyOf(tail: string)
    | CppType(tail: string)
    | WithDefault(text: string, value: string)

  /** An operand, its name, and whether a comma follows. */
  datatype Argument = Argument(form: Form, name: Option<string>, comma: bool)

  datatype DagSource = DagSource(operator: string, args: seq<Argument>)

  ghost predicate TypeName(s: string) { Name(s) && s != "CArg" && s != "AnyTypeOf" }

  ghost predicate QuotedText(s: string) { Marked(s, '\"', '\"', 0, |s|) }

  ghost predicate FormOk(f: Form) {
    match f
    case Plain(name) => TypeName(name)
    case WithParameter(name, bracketed, parameter) =>
      TypeName(name) && IsTokenText(parameter) && (bracketed || parameter != "[")
    case AnyOf(tail) => EndsAtFirst(tail, '>')
    case CppType(tail) => EndsAtFirst(tail, '\"')
    case WithDefault(text, value) => QuotedText(text) && QuotedText(value)
  }

  ghost predicate ArgumentOk(a: Argument) { FormOk(a.form) && (a.name.Some? ==> IsTokenText(a.name.value)) }

  ghost predicate DagOk(d: DagSource) {
    IsTokenText(d.operator) && forall k :: 0 <= k < |d.args| ==> ArgumentOk(d.args[k])
  }

  function WriteParameter(bracketed: bool, parameter: string, rest: Script): Script {
    if bracketed
    then Then(Joined("["), Then(Joined(parameter), Then(Joined("]"), Then(Joined(">"), rest))))
    else Then(Joined(parameter), Then(Joined(">"), rest))
  }

  function WriteForm(f: Form, rest: Script): Script {
    match f
    case Plain(name) => Then(Spaced(name), rest)
    case WithParameter(name, bracketed, parameter) =>
      Then(Spaced(name), Then(Joined("<"), WriteParameter(bracketed, parameter, rest)))
    case AnyOf(tail) => Then(Spaced("AnyTypeOf"), Then(Joined("<"), Then(Verbatim(tail), rest)))
    case CppType(tail) => Then(Sign('\"'), Then(Verbatim(tail), rest))
    case WithDefault(text, value) =>
      var second := Then(Sign(','), Then(Enclosed(value), Then(Sign('>'), rest)));
      Then(Spaced("CArg"), Then(Sign('<'), Then(Enclosed(text), second)))
  }

  function WriteName(name: Option<string>, rest: Script): Script {
    match name
    case None => rest
    case Some(n) => Then(Sign(':'), Then(Sign('$'), Then(Spaced(n), rest)))
  }

  function WriteArguments(args: seq<Argument>, rest: Script): Script {
    if args == [] then rest
    else WriteForm(args[0].form, WriteName(args[0].name, Comma(args[0].comma, WriteArguments(args[1..], rest))))
  }

  function WriteDag(d: DagSource, rest: Script): Script {
    Then(Sign('('), Then(Spaced(d.operator), WriteArguments(d.args, Then(Sign(')'), rest))))
  }

  // ----- what they mean -----

  /** The text of an operand, as it stands in the source. */
  function FormText(f: Form): string {
    match f
    case Plain(name) => name
    case WithParameter(name, bracketed, parameter) =>
      name + "<" + (if bracketed then "[" + parameter + "]" else parameter) + ">"
    case AnyOf(tail) => "AnyTypeOf" + "<" + tail
    case CppType(tail) => "\"" + tail
    case WithDefault(text, _) => text
  }

  /** The default value; "" when there is none. */
  function FormValue(f: Form): string { if f.WithDefault? then f.value else "" }

  function Texts(args: seq<Argument>): seq<string> { seq(|args|, k requires 0 <= k < |args| => FormText(args[k].form)) }

  function NameText(name: Option<string>): string { if name.Some? then name.value else "" }

  function NameTexts(args: seq<Argument>): seq<string> {
    seq(|args|, k requires 0 <= k < |args| => NameText(args[k].name))
  }

  /** Default values by operand text, later ones replacing earlier ones. */
  function Defaults(args: seq<Argument>, before: map<string, string>): map<string, string>
    decreases |args|
  {
    if args == [] then before
    else
      var f := args[0].form;
      Defaults(args[1..], if f.WithDefault? then before[FormText(f) := f.value] else before)
  }

  function Filled(d: Dag, args: seq<Argument>): Dag {
    Dag(d.operator, d.operands + Texts(args), d.operandNames + NameTexts(args), Defaults(args, d.values))
  }

  function DagMeaning(d: DagSource): Dag {
    Dag(d.operator, Texts(d.args), NameTexts(d.args), Defaults(d.args, map[]))
  }

  // ----- the parser reads operands -----

  /** What may follow an operand: a token other than `<`. */
  predicate Follows(rest: Script) { rest.Then? && rest.Advances() && rest.piece.text != "<" }

  lemma ReadPlain(buf: string, s: State, name: string, rest: Script)
    requires TypeName(name) && Reads(buf, s, Then(Spaced(name), rest)) && Follows(rest)
    ensures s.cur <= |buf| && s.token.kind == IDENTIFIER
    ensures OneOperand(buf, s) == Parsed(Done, Advance(buf, s), Operand(Some(name), ""))
    ensures Reads(buf, Advance(buf, s), rest) && Advance(buf, s).custom == s.custom
  {
    hide Reads, Spells, Advance, Measure, IsTokenText, KindOf, Parameter, Text, CArg, AnyTypeOf, ScanTo;
    ReadOne(buf, s, Spaced(name), rest);
    ReadOne(buf, Advance(buf, s), rest.piece, rest.rest);
    NotASign(rest.piece.text, '<');
  }

  /** From the last token of the type on. */
  lemma ReadAfterType(buf: string, s: State, start: nat, before: string, bracketed: bool, rest: Script)
    returns (r: State)
    requires s.cur <= |buf| && start <= s.cur && buf[start..s.cur] == before && rest.Advances()
    requires Spells(buf, s.cur,
      if bracketed then Then(Joined("]"), Then(Joined(">"), rest)) else Then(Joined(">"), rest))
    ensures Reads(buf, r, rest) && r.custom == s.custom
    ensures AfterType(buf, start, |before|, s).0 == r
    ensures AfterType(buf, start, |before|, s).1 == before + (if bracketed then "]" else "") + ">"
  {
    hide Reads, Spells, Advance, Measure, IsTokenText, KindOf, Text;
    var close := Then(Joined(">"), rest);
    if bracketed {
      JoinText(buf, s, start, before, Joined("]"), close);
      var s1 := Advance(buf, s);
      ReadJoined(buf, s1, ']', SQUARE_BRACKET_CLOSE, close);
      JoinText(buf, s1, start, before + "]", Joined(">"), rest);
      r := CloseType(buf, Advance(buf, s1), rest);
    } else {
      JoinText(buf, s, start, before, Joined(">"), rest);
      assert before + "" == before;
      r := CloseType(buf, Advance(buf, s), rest);
    }
  }

  lemma ReadJoined(buf: string, s: State, ch: char, kind: TokenKind, rest: Script)
    requires Reads(buf, s, Then(Joined([ch]), rest)) && Punctuator(ch) == Some(kind)
    ensures s.cur <= |buf| && s.token.kind == kind && s.token.length == 1 && Spells(buf, s.cur, rest)
  {
    SignKind(ch);
    hide Spells, Advance, IsTokenText, KindOf;
  }

  lemma CloseType(buf: string, s: State, rest: Script) returns (r: State)
    requires Reads(buf, s, Then(Joined(">"), rest)) && rest.Advances()
    ensures s.cur <= |buf| && s.token.kind == ANGLE_BRACKET_CLOSE
    ensures r == Accept(buf, s, ANGLE_BRACKET_CLOSE) && Reads(buf, r, rest) && r.custom == s.custom
  {
    hide Reads, Spells, Advance, Measure, IsTokenText, KindOf;
    ReadJoined(buf, s, '>', ANGLE_BRACKET_CLOSE, rest);
    ReadOne(buf, s, Joined(">"), rest);
    r := Advance(buf, s);
  }

  lemma TokenText(buf: string, s: State, p: Piece, rest: Script)
    requires Reads(buf, s, Then(p, rest))
    ensures s.token.start <= s.cur <= |buf| && buf[s.token.start..s.cur] == p.text && s.token.length == |p.text|
    ensures Text(buf, s) == p.text && s.token.kind == KindOf(p.text) && s.token.Live() && Spells(buf, s.cur, rest)
  {
    hide Spells, IsTokenText, KindOf;
  }

  lemma ReadBracketed(buf: string, s: State, name: string, parameter: string, rest: Script) returns (r: State)
    requires Name(name) && IsTokenText(parameter) && rest.Advances()
    requires Reads(buf, s, WriteForm(WithParameter(name, true, parameter), rest))
    ensures s.cur <= |buf| && s.token.Live() && Reads(buf, r, rest) && r.custom == s.custom
    ensures var f := TypeOperandSpec(buf, s);
      f.0 == r && f.1 == FormText(WithParameter(name, true, parameter))
  {
    hide Reads, Spells, Advance, Measure, IsTokenText, KindOf, Text, AfterType;
    var start, tail := s.token.start, Then(Joined("]"), Then(Joined(">"), rest));
    TokenText(buf, s, Spaced(name), Then(Joined("<"), WriteParameter(true, parameter, rest)));
    JoinText(buf, s, start, name, Joined("<"), WriteParameter(true, parameter, rest));
    var s1 := Advance(buf, s);
    ReadJoined(buf, s1, '<', ANGLE_BRACKET_OPEN, WriteParameter(true, parameter, rest));
    JoinText(buf, s1, start, name + "<", Joined("["), Then(Joined(parameter), tail));
    var s2 := Advance(buf, s1);
    ReadJoined(buf, s2, '[', SQUARE_BRACKET_OPEN, Then(Joined(parameter), tail));
    JoinText(buf, s2, start, name + "<" + "[", Joined(parameter), tail);
    var s3, before := Advance(buf, s2), name + "<" + "[" + parameter;
    TokenText(buf, s3, Joined(parameter), tail);
    r := ReadAfterType(buf, s3, start, before, true, rest);
    assert before + "]" + ">" == FormText(WithParameter(name, true, parameter));
  }

  lemma ReadUnbracketed(buf: string, s: State, name: string, parameter: string, rest: Script) returns (r: State)
    requires Name(name) && IsTokenText(parameter) && parameter != "[" && rest.Advances()
    requires Reads(buf, s, WriteForm(WithParameter(name, false, parameter), rest))
    ensures s.cur <= |buf| && s.token.Live() && Reads(buf, r, rest) && r.custom == s.custom
    ensures var f := TypeOperandSpec(buf, s);
      f.0 == r && f.1 == FormText(WithParameter(name, false, parameter))
  {
    hide Reads, Spells, Advance, Measure, IsTokenText, KindOf, Text, AfterType;
    var start, tail := s.token.start, Then(Joined(">"), rest);
    TokenText(buf, s, Spaced(name), Then(Joined("<"), Then(Joined(parameter), tail)));
    JoinText(buf, s, start, name, Joined("<"), Then(Joined(parameter), tail));
    var s1 := Advance(buf, s);
    ReadJoined(buf, s1, '<', ANGLE_BRACKET_OPEN, Then(Joined(parameter), tail));
    JoinText(buf, s1, start, name + "<", Joined(parameter), tail);
    var s2, before := Advance(buf, s1), name + "<" + parameter;
    TokenText(buf, s2, Joined(parameter), tail);
    NotASign(parameter, '[');
    r := ReadAfterType(buf, s2, start, before, false, rest);
    assert before + "" + ">" == FormText(WithParameter(name, false, parameter));
  }

  lemma ReadWithParameter(buf: string, s: State, f: Form, rest: Script) returns (r: State)
    requires f.WithParameter? && FormOk(f) && Reads(buf, s, WriteForm(f, rest)) && rest.Advances()
    ensures s.cur <= |buf| && s.token.kind == IDENTIFIER && Reads(buf, r, rest) && r.custom == s.custom
    ensures OneOperand(buf, s) == Parsed(Done, r, Operand(Some(FormText(f)), ""))
  {
    hide Reads, Spells, Advance, Measure, IsTokenText, KindOf, Text, TypeOperandSpec, CArg, AnyTypeOf, ScanTo;
    TokenText(buf, s, Spaced(f.name), Then(Joined("<"), WriteParameter(f.bracketed, f.parameter, rest)));
    if f.bracketed {
      r := ReadBracketed(buf, s, f.name, f.parameter, rest);
    } else {
      r := ReadUnbracketed(buf, s, f.name, f.parameter, rest);
    }
  }

  lemma AnyTypeOfIsName()
    ensures IsTokenText("AnyTypeOf") && KindOf("AnyTypeOf") == IDENTIFIER
    ensures IsTokenText("CArg") && KindOf("CArg") == IDENTIFIER
  {
  }

  lemma ReadAnyOf(buf: string, s: State, tail: string, rest: Script) returns (r: State)
    requires EndsAtFirst(tail, '>') && Reads(buf, s, WriteForm(AnyOf(tail), rest)) && rest.Advances()
    ensures s.cur <= |buf| && s.token.kind == IDENTIFIER && Reads(buf, r, rest) && r.custom == s.custom
    ensures OneOperand(buf, s) == Parsed(Done, r, Operand(Some(FormText(AnyOf(tail))), ""))
  {
    AnyTypeOfIsName();
    hide Reads, Spells, Advance, Measure, IsTokenText, KindOf, Text, TypeOperandSpec, CArg, ScanTo, EndsAtFirst, Slice;
    var start, more := s.token.start, Then(Verbatim(tail), rest);
    TokenText(buf, s, Spaced("AnyTypeOf"), Then(Joined("<"), more));
    JoinText(buf, s, start, "AnyTypeOf", Joined("<"), more);
    AdvanceReads(buf, s, Then(Joined("<"), more));
    var s1 := Advance(buf, s);
    ReadJoined(buf, s1, '<', ANGLE_BRACKET_OPEN, more);
    TokenText(buf, s1, Joined("<"), more);
    ScanToReads(buf, s1, tail, rest, '>');
    RawPiece(buf, s1.cur, Verbatim(tail), rest);
    SliceInTwo(buf, start, s1.cur, s1.cur + |tail|);
    var s2 := s1.(cur := s1.cur + |tail|);
    AdvanceReads(buf, s2, rest);
    r := Advance(buf, s2);
  }

  lemma ReadCppType(buf: string, s: State, tail: string, rest: Script) returns (r: State)
    requires EndsAtFirst(tail, '\"') && Reads(buf, s, WriteForm(CppType(tail), rest)) && rest.Advances()
    ensures s.cur <= |buf| && s.token.kind == DOUBLE_QUOTATION_MARK && Reads(buf, r, rest) && r.custom == s.custom
    ensures OneOperand(buf, s) == Parsed(Done, r, Operand(Some(FormText(CppType(tail))), ""))
  {
    hide Reads, Spells, Advance, Measure, IsTokenText, KindOf, Text, TypeOperandSpec, CArg, AnyTypeOf, ScanTo,
         EndsAtFirst;
    var more := Then(Verbatim(tail), rest);
    ReadSign(buf, s, '\"', DOUBLE_QUOTATION_MARK, more);
    TokenText(buf, s, Sign('\"'), more);
    ScanToReads(buf, s, tail, rest, '\"');
    var s1 := s.(cur := s.cur + |tail|);
    AdvanceReads(buf, s1, rest);
    r := Advance(buf, s1);
  }

  lemma ReadWithDefault(buf: string, s: State, text: string, value: string, rest: Script) returns (r: State)
    requires QuotedText(text) && QuotedText(value)
    requires Reads(buf, s, WriteForm(WithDefault(text, value), rest)) && rest.Advances()
    ensures s.cur <= |buf| && s.token.kind == IDENTIFIER && Reads(buf, r, rest) && r.custom == s.custom
    ensures OneOperand(buf, s) == Parsed(Done, r, Operand(Some(text), value))
  {
    AnyTypeOfIsName();
    hide Reads, Spells, Advance, Measure, IsTokenText, KindOf, Text, TypeOperandSpec, AnyTypeOf, ScanTo, Scan, Marked;
    var close := Then(Sign('>'), rest);
    var second := Then(Sign(','), Then(Enclosed(value), close));
    TokenText(buf, s, Spaced("CArg"), Then(Sign('<'), Then(Enclosed(text), second)));
    AdvanceReads(buf, s, Then(Sign('<'), Then(Enclosed(text), second)));
    var s1 := Advance(buf, s);
    ReadSign(buf, s1, '<', ANGLE_BRACKET_OPEN, Then(Enclosed(text), second));
    ScanReads(buf, s1, text, second, '\"', '\"');
    var s2 := Scan(buf, s1, '\"', '\"').s;
    AdvanceReads(buf, s2, second);
    var s3 := Advance(buf, s2);
    ReadSign(buf, s3, ',', COMMA, Then(Enclosed(value), close));
    ScanReads(buf, s3, value, close, '\"', '\"');
    var s4 := Scan(buf, s3, '\"', '\"').s;
    AdvanceReads(buf, s4, close);
    ReadSign(buf, Advance(buf, s4), '>', ANGLE_BRACKET_CLOSE, rest);
    r := Advance(buf, Advance(buf, s4));
  }

  lemma ReadForm(buf: string, s: State, f: Form, rest: Script) returns (r: State)
    requires FormOk(f) && Reads(buf, s, WriteForm(f, rest)) && Follows(rest)
    ensures s.cur <= |buf| && (s.token.kind == IDENTIFIER || s.token.kind == DOUBLE_QUOTATION_MARK)
    ensures Reads(buf, r, rest) && r.custom == s.custom
    ensures OneOperand(buf, s) == Parsed(Done, r, Operand(Some(FormText(f)), FormValue(f)))
  {
    hide Reads, Spells, Advance, Measure, IsTokenText, KindOf, OneOperand;
    match f {
      case Plain(name) =>
        ReadPlain(buf, s, name, rest);
        r := Advance(buf, s);
      case WithParameter(_, _, _) => r := ReadWithParameter(buf, s, f, rest);
      case AnyOf(tail) => r := ReadAnyOf(buf, s, tail, rest);
      case CppType(tail) => r := ReadCppType(buf, s, tail, rest);
      case WithDefault(text, value) => r := ReadWithDefault(buf, s, text, value, rest);
    }
  }

  // ----- the parser reads DAGs -----

  lemma ReadName(buf: string, s: State, name: Option<string>, rest: Script) returns (r: State)
    requires Reads(buf, s, WriteName(name, rest)) && rest.Then? && rest.Advances() && rest.piece.text != ":"
    ensures s.cur <= |buf| && Reads(buf, r, rest) && r.custom == s.custom
    ensures OperandName(buf, s) == Parsed(Done, r, NameText(name))
  {
    hide Reads, Spells, Advance, Measure, IsTokenText, KindOf, Text;
    match name {
      case None =>
        ReadOne(buf, s, rest.piece, rest.rest);
        NotASign(rest.piece.text, ':');
        r := s;
      case Some(n) =>
        var last := Then(Spaced(n), rest);
        ReadSign(buf, s, ':', COLON, Then(Sign('$'), last));
        var s1 := Advance(buf, s);
        ReadSign(buf, s1, '$', DOLLAR, last);
        var s2 := Advance(buf, s1);
        ReadOne(buf, s2, Spaced(n), rest);
        r := Advance(buf, s2);
    }
  }

  /** What a list of arguments starts with. */
  predicate Plainly(rest: Script) {
    Follows(rest) && rest.piece.text != ":" && rest.piece.text != ","
  }

  lemma FormsStart(f: Form, rest: Script)
    requires FormOk(f)
    ensures Plainly(WriteForm(f, rest))
  {
    hide IsTokenText, KindOf;
    if f.Plain? || f.WithParameter? {
      NameIsNoSign(f.name, '<');
      NameIsNoSign(f.name, ':');
      NameIsNoSign(f.name, ',');
    }
  }

  lemma ArgumentsStart(args: seq<Argument>, rest: Script)
    requires (forall k :: 0 <= k < |args| ==> ArgumentOk(args[k])) && Plainly(rest)
    ensures Plainly(WriteArguments(args, rest))
  {
    hide FormOk, WriteForm, Plainly;
    if args != [] {
      assert ArgumentOk(args[0]);
      FormsStart(args[0].form, WriteName(args[0].name, Comma(args[0].comma, WriteArguments(args[1..], rest))));
    }
  }

  /** Adding one argument and then the others. */
  lemma Fill(d: Dag, args: seq<Argument>)
    requires args != [] && FormOk(args[0].form)
    ensures var a := args[0];
      Filled(d, args) == Filled(AddOperand(d, FormText(a.form), NameText(a.name), FormValue(a.form)), args[1..])
  {
    assert args[0].form.WithDefault? ==> args[0].form.value != "";
    hide FormText, FormOk;
    assert Texts(args) == [FormText(args[0].form)] + Texts(args[1..]);
    assert NameTexts(args) == [NameText(args[0].name)] + NameTexts(args[1..]);
  }

  lemma OperandsStep(buf: string, s: State, d: Dag, operand: Operand, r: State)
    requires s.cur <= |buf| && (s.token.kind == IDENTIFIER || s.token.kind == DOUBLE_QUOTATION_MARK)
    requires OneOperand(buf, s) == Parsed(Done, r, operand) && operand.text.Some? && r.cur <= |buf|
    ensures Operands(buf, s, d) == Operands(buf, Accept(buf, OperandName(buf, r).s, COMMA),
      AddOperand(d, operand.text.value, OperandName(buf, r).v, operand.value))
  {
    hide OneOperand, OperandName, Accept, AddOperand, Measure;
  }

  lemma {:induction false} ReadArguments(buf: string, s: State, d: Dag, args: seq<Argument>, rest: Script)
    returns (r: State)
    requires forall k :: 0 <= k < |args| ==> ArgumentOk(args[k])
    requires Reads(buf, s, WriteArguments(args, Then(Sign(')'), rest)))
    ensures s.cur <= |buf| && Reads(buf, r, Then(Sign(')'), rest)) && r.custom == s.custom
    ensures Operands(buf, s, d) == Parsed(Done, r, Some(Filled(d, args)))
    decreases |args|
  {
    hide Reads, Spells, Advance, Measure, IsTokenText, KindOf, Filled, FormOk, FormText, NameText, AddOperand, Accept;
    var close := Then(Sign(')'), rest);
    if args == [] {
      FillNothing(d);
      ReadSign(buf, s, ')', PARENTHESE_CLOSE, rest);
      r := s;
    } else {
      hide Operands;
      var a, more := args[0], WriteArguments(args[1..], close);
      assert ArgumentOk(a);
      ArgumentsStart(args[1..], close);
      r := ReadForm(buf, s, a.form, WriteName(a.name, Comma(a.comma, more)));
      OperandsStep(buf, s, d, Operand(Some(FormText(a.form)), FormValue(a.form)), r);
      Fill(d, args);
      r := ReadName(buf, r, a.name, Comma(a.comma, more));
      ReadComma(buf, r, a.comma, more);
      r := ReadArguments(buf, Accept(buf, r, COMMA),
        AddOperand(d, FormText(a.form), NameText(a.name), FormValue(a.form)), args[1..], rest);
    }
  }

  lemma FillNothing(d: Dag)
    ensures Filled(d, []) == d
  {
    assert d.operands + Texts([]) == d.operands && d.operandNames + NameTexts([]) == d.operandNames;
  }

  /** The parser reads a DAG as what it means, and is then at its closing parenthesis. */
  lemma ReadDag(buf: string, s: State, arguments: Option<Dag>, d: DagSource, rest: Script) returns (r: State)
    requires DagOk(d) && s.cur <= |buf| && Spells(buf, s.cur, WriteDag(d, rest))
    ensures Reads(buf, r, Then(Sign(')'), rest)) && r.custom == s.custom
    ensures DagSpec(buf, s, arguments) == Parsed(Done, r, Some(DagMeaning(d)))
  {
    hide Reads, Spells, Advance, Measure, IsTokenText, KindOf, Text, Operands, ArgumentOk, Filled;
    var close := Then(Sign(')'), rest);
    var args := WriteArguments(d.args, close);
    ArgumentsStart(d.args, close);
    AdvanceReads(buf, s, WriteDag(d, rest));
    var s1 := Advance(buf, s);
    ReadSign(buf, s1, '(', PARENTHESE_OPEN, Then(Spaced(d.operator), args));
    var s2 := Advance(buf, s1);
    ReadOne(buf, s2, Spaced(d.operator), args);
    r := ReadArguments(buf, Advance(buf, s2), Dag(d.operator, [], [], map[]), d.args, rest);
    FillEmpty(d);
  }

  lemma FillEmpty(d: DagSource)
    ensures Filled(Dag(d.operator, [], [], map[]), d.args) == DagMeaning(d)
  {
    assert [] + Texts(d.args) == Texts(d.args) && [] + NameTexts(d.args) == NameTexts(d.args);
  }
}
