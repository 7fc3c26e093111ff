/** What the parser does with a whole file, as functions of its state. */
module FileSpec {
  import opened Lexing
  import opened Options
  import opened Ast
  import opened GeneratorSpec
  import opened OperandSpec

  /** How a parsing function ends, where, and with what. */
  datatype Parsed<+T> = Parsed(o: Outcome, s: State, v: T)

  /** The result is no further from the end, and has the same terminators. */
  predicate Onward<T>(buf: string, s: State, r: Parsed<T>)
    requires s.cur <= |buf|
  {
    r.s.cur <= |buf| && Measure(buf, r.s) <= Measure(buf, s) && r.s.custom == s.custom
  }

  /** The same, and nearer. */
  predicate Nearer<T>(buf: string, s: State, r: Parsed<T>)
    requires s.cur <= |buf|
  {
    Onward(buf, s, r) && (r.o == Done ==> Measure(buf, r.s) < Measure(buf, s))
  }

  // ----- raw scans -----

  lemma MarkedUnique(buf: string, open: char, close: char, lo: nat, hi: nat, other: nat)
    requires Marked(buf, open, close, lo, hi) && Marked(buf, open, close, lo, other)
    ensures hi == other
  {
  }

  /** getMarkContent with one pair of marks. */
  ghost function Scan(buf: string, s: State, open: char, close: char): (r: Parsed<string>)
    requires s.cur <= |buf| && open != '\0'
    ensures Onward(buf, s, r)
  {
    var p := Span(buf, s.cur, IsWhitespace);
    if At(buf, p) != open then Parsed(Done, s.(cur := p), "")
    else if e :| p <= e <= |buf| && Marked(buf, open, close, p, e) then Parsed(Done, s.(cur := e), buf[p..e])
    else Parsed(Overran, s, "")
  }

  /** The position of the first ch from lo on, or the end. */
  function UpTo(buf: string, lo: nat, ch: char): (e: nat)
    requires lo <= |buf|
    ensures lo <= e <= |buf|
  {
    Span(buf, lo, (c: char) => c != ch)
  }

  /** getEndChContent from the start of the current token. */
  function ScanTo(buf: string, s: State, ch: char): (r: Parsed<string>)
    requires s.cur <= |buf|
    ensures Nearer(buf, s, r)
  {
    var e := UpTo(buf, s.cur, ch);
    if e == |buf| then Parsed(Overran, s, "")
    else Parsed(Done, s.(cur := e + 1), if s.token.start <= e then buf[s.token.start..e + 1] else "")
  }

  lemma FirstIs(buf: string, lo: nat, ch: char, at: nat)
    requires lo <= at <= |buf| && ch !in buf[lo..at] && (at < |buf| ==> buf[at] == ch)
    ensures UpTo(buf, lo, ch) == at
    decreases at - lo
  {
    if lo < at {
      assert buf[lo..at][0] == buf[lo] && buf[lo..at][1..] == buf[lo + 1..at];
      FirstIs(buf, lo + 1, ch, at);
    }
  }

  // ----- dialects -----

  ghost function DialectSpec(buf: string, s: State, d: Dialect): (r: Parsed<Dialect>)
    requires s.cur <= |buf|
    ensures Onward(buf, s, r)
    decreases Measure(buf, s)
  {
    if s.token.kind != COLON then Parsed(Done, Advance(buf, s), d)
    else
      var s1 := Advance(buf, s);
      if Text(buf, s1) == "name" || Text(buf, s1) == "cppNamespace" then
        var r := Scan(buf, Advance(buf, s1), '\"', '\"');
        if r.o != Done then Parsed(r.o, r.s, d)
        else DialectSpec(buf, Advance(buf, r.s),
          if Text(buf, s1) == "name" then d.(name := r.v) else d.(cppNamespace := r.v))
      else DialectSpec(buf, s1, d)
  }

  // ----- DAGs -----

  /** An operand's text, if there is one, and its default value. */
  datatype Operand = Operand(text: Option<string>, value: string)

  ghost function CArg(buf: string, s: State): (r: Parsed<Operand>)
    requires s.cur <= |buf| && s.token.Live()
    ensures Nearer(buf, s, r)
  {
    var r1 := Scan(buf, Advance(buf, s), '\"', '\"');
    if r1.o != Done then Parsed(r1.o, r1.s, Operand(None, ""))
    else
      var r2 := Scan(buf, Advance(buf, r1.s), '\"', '\"');
      if r2.o != Done then Parsed(r2.o, r2.s, Operand(None, ""))
      else Parsed(Done, Accept(buf, Advance(buf, r2.s), ANGLE_BRACKET_CLOSE), Operand(Some(r1.v), r2.v))
  }

  function AnyTypeOf(buf: string, s: State): (r: Parsed<Operand>)
    requires s.cur <= |buf| && s.token.Live()
    ensures Nearer(buf, s, r)
  {
    var s1 := Advance(buf, s);
    if s1.token.kind != ANGLE_BRACKET_OPEN then Parsed(Done, s1, Operand(None, ""))
    else
      var r := ScanTo(buf, s1, '>');
      if r.o != Done then Parsed(r.o, r.s, Operand(None, ""))
      else Parsed(Done, Advance(buf, r.s), Operand(Some(Slice(buf, s.token.start, 9 + |r.v|)), ""))
  }

  lemma AnyTypeOfMeans(buf: string, s: State)
    requires Ok(buf, s) && s.token.Live() && Text(buf, s) == "AnyTypeOf" && s.cur == s.token.start + s.token.length
    ensures var r := AnyTypeOf(buf, s);
      r.o == Done && r.v.text.Some? ==> exists end :: AnyTypeOfOperand(buf, s.token.start, r.v.text.value, end)
  {
    var s1 := Advance(buf, s);
    AdvanceOk(buf, s);
    assert SpanOk(buf, s) && s1.token.start <= s1.cur;
    hide Ok, Advance, AnyTypeOfOperand, Slice, ScanTo, Found, Measure;
    if s1.token.kind == ANGLE_BRACKET_OPEN {
      ScanFound(buf, s1, '>');
      var r := ScanTo(buf, s1, '>');
      if r.o == Done {
        AnyTypeOfSlice(buf, s, s1, r.s.cur);
      }
    }
  }

  lemma ScanFound(buf: string, s: State, ch: char)
    requires s.cur <= |buf| && s.token.start <= s.cur
    ensures var r := ScanTo(buf, s, ch);
      r.o == Done ==> Found(buf, s.cur, r.s.cur, ch) && |r.v| == r.s.cur - s.token.start
  {
  }

  ghost function OneOperand(buf: string, s: State): (r: Parsed<Operand>)
    requires s.cur <= |buf| && s.token.Live()
    ensures Nearer(buf, s, r)
  {
    if Text(buf, s) == "CArg" then CArg(buf, s)
    else if Text(buf, s) == "AnyTypeOf" then AnyTypeOf(buf, s)
    else if s.token.kind == DOUBLE_QUOTATION_MARK then
      var r := ScanTo(buf, s, '\"');
      if r.o != Done then Parsed(r.o, r.s, Operand(None, ""))
      else Parsed(Done, Advance(buf, r.s), Operand(Some(r.v), ""))
    else
      var (s', text, _, _) := TypeOperandSpec(buf, s);
      Parsed(Done, s', Operand(Some(text), ""))
  }

  /** `:$name` after an operand. */
  function OperandName(buf: string, s: State): (r: Parsed<string>)
    requires s.cur <= |buf|
    ensures Onward(buf, s, r) && r.o == Done
  {
    if s.token.kind != COLON then Parsed(Done, s, "")
    else
      var s2 := Advance(buf, Advance(buf, s));
      Parsed(Done, Advance(buf, s2), Text(buf, s2))
  }

  function AddOperand(d: Dag, operand: string, name: string, value: string): (r: Dag)
    ensures d.InStep() ==> r.InStep()
  {
    var d' := d.AddOperand(operand, name);
    if value != "" then d'.SetValue(operand, value) else d'
  }

  /** The operand loop; None when it is abandoned. */
  ghost function Operands(buf: string, s: State, d: Dag): (r: Parsed<Option<Dag>>)
    requires s.cur <= |buf|
    ensures Onward(buf, s, r)
    decreases Measure(buf, s)
  {
    if s.token.kind != IDENTIFIER && s.token.kind != DOUBLE_QUOTATION_MARK then Parsed(Done, s, Some(d))
    else
      var r := OneOperand(buf, s);
      if r.o != Done || r.v.text.None? then Parsed(r.o, r.s, None)
      else
        var n := OperandName(buf, r.s);
        Operands(buf, Accept(buf, n.s, COMMA), AddOperand(d, r.v.text.value, n.v, r.v.value))
  }

  /** parserDAG: the DAG read, or the one there was. */
  ghost function DagSpec(buf: string, s: State, arguments: Option<Dag>): (r: Parsed<Option<Dag>>)
    requires s.cur <= |buf|
    ensures Onward(buf, s, r) && (s.token.Live() ==> Measure(buf, r.s) < Measure(buf, s))
  {
    var s1 := Accept(buf, Advance(buf, s), PARENTHESE_OPEN);
    var r := Operands(buf, Advance(buf, s1), Dag(Text(buf, s1), [], [], map[]));
    Parsed(r.o, r.s, if r.v.None? then arguments else r.v)
  }

  // ----- operations -----

  /** `, [...]` after the DAG of a builder. */
  ghost function Code(buf: string, s: State): (r: Parsed<string>)
    requires s.cur <= |buf|
    ensures Onward(buf, s, r)
  {
    if s.token.kind != COMMA then Parsed(Done, s, "")
    else
      var c := Scan(buf, s, '[', ']');
      if c.o != Done then c else Parsed(Done, Advance(buf, c.s), c.v)
  }

  /** One `OpBuilder<...>`. */
  ghost function OneBuilder(buf: string, s: State): (r: Parsed<Option<Builder>>)
    requires s.cur <= |buf|
    ensures Onward(buf, s, r) && (r.v.Some? ==> Measure(buf, r.s) < Measure(buf, s))
  {
    var s1 := Advance(buf, s);
    if s1.token.kind != ANGLE_BRACKET_OPEN then Parsed(Done, s1, None)
    else
      var r := DagSpec(buf, s1, None);
      if r.o != Done then Parsed(r.o, r.s, None)
      else
        var c := Code(buf, Advance(buf, r.s));
        if c.o != Done then Parsed(c.o, c.s, None)
        else if c.s.token.kind != ANGLE_BRACKET_CLOSE then Parsed(Done, c.s, None)
        else Parsed(Done, Advance(buf, c.s), Some(Builder(r.v, c.v)))
  }

  ghost function BuildersLoop(buf: string, s: State, bs: seq<Builder>): (r: Parsed<seq<Builder>>)
    requires s.cur <= |buf|
    ensures Onward(buf, s, r)
    decreases Measure(buf, s)
  {
    if Text(buf, s) != "OpBuilder" then Parsed(Done, s, bs)
    else
      var r := OneBuilder(buf, s);
      if r.o != Done || r.v.None? then Parsed(r.o, r.s, bs)
      else BuildersLoop(buf, Accept(buf, r.s, COMMA), bs + [r.v.value])
  }

  ghost function BuildersSpec(buf: string, s: State): (r: Parsed<seq<Builder>>)
    requires s.cur <= |buf|
    ensures Onward(buf, s, r)
  {
    if s.token.kind != SQUARE_BRACKET_OPEN then Parsed(Done, s, []) else BuildersLoop(buf, Advance(buf, s), [])
  }

  /** The attribute loop of parserOp; None when the operation is given up. */
  ghost function OpLoop(buf: string, s: State, op: Op): (r: Parsed<Option<Op>>)
    requires s.cur <= |buf|
    ensures Onward(buf, s, r)
    decreases Measure(buf, s)
  {
    if s.token.kind != COLON then
      Parsed(Done, Accept(buf, s, SEMI), if s.token.kind == SEMI then Some(op) else None)
    else
      var s1 := Advance(buf, s);
      var s2 := Advance(buf, s1);
      if Text(buf, s1) != "arguments" && Text(buf, s1) != "results" && Text(buf, s1) != "builders" then
        Parsed(Done, s1, None)
      else if s2.token.kind != EQUAL then Parsed(Done, s2, None)
      else if Text(buf, s1) == "builders" then
        var r := BuildersSpec(buf, Advance(buf, s2));
        if r.o != Done then Parsed(r.o, r.s, None)
        else OpLoop(buf, Advance(buf, r.s), op.(builders := op.builders + r.v))
      else
        var r := DagSpec(buf, s2, if Text(buf, s1) == "arguments" then op.arguments else op.results);
        if r.o != Done then Parsed(r.o, r.s, None)
        else OpLoop(buf, Advance(buf, r.s),
          if Text(buf, s1) == "arguments" then op.(arguments := r.v) else op.(results := r.v))
  }

  ghost function OpSpec(buf: string, s: State, name: string): (r: Parsed<Option<Op>>)
    requires s.cur <= |buf|
    ensures Onward(buf, s, r)
  {
    OpLoop(buf, Advance(buf, s), Op(name, None, None, []))
  }

  // ----- rules -----

  /** The loop over alternatives; None when the rule is given up. */
  function Alternatives(buf: string, s: State, alts: seq<Alternative>): (r: Parsed<Option<seq<Alternative>>>)
    requires s.cur <= |buf|
    ensures r.s.cur <= |buf| && Measure(buf, r.s) <= Measure(buf, s)
    decreases Measure(buf, s)
  {
    if s.token.kind != COLON then Parsed(Done, s, Some(alts))
    else
      var (o, s', alt) := Generator(buf, Advance(buf, s), Alternative([], [], []));
      if o != Done then Parsed(o, s', None)
      else if s'.token.kind != COLON && s'.token.kind != SEMI then Parsed(Done, s', None)
      else Alternatives(buf, s', alts + [alt])
  }

  /** parserRules: a rule that is given up keeps no alternatives. */
  function RuleSpec(buf: string, s: State, name: string): (r: Parsed<Rule>)
    requires s.cur <= |buf|
    ensures r.s.cur <= |buf| && Measure(buf, r.s) <= Measure(buf, s)
  {
    if s.token.kind != COLON then Parsed(Done, s, Rule(name, []))
    else
      var r := Alternatives(buf, s, []);
      Parsed(r.o, r.s, Rule(name, if r.v.Some? then r.v.value else []))
  }

  // ----- the file -----

  const EMPTY: Module := Module([], None, [])

  /** compilEngine: a definition without a name discards everything, any other failure keeps what
      was read before it. */
  ghost function Engine(buf: string, s: State, m: Module): (r: Parsed<Module>)
    requires s.cur <= |buf|
    ensures r.s.cur <= |buf| && Measure(buf, r.s) <= Measure(buf, s)
    decreases Measure(buf, s)
  {
    var s1 := Advance(buf, s);
    if s.token.kind == EOF then Parsed(Done, s, m)
    else if s.token.kind == KW_RULE then
      if s1.token.kind != IDENTIFIER then Parsed(Done, s1, EMPTY)
      else
        var r := RuleSpec(buf, Advance(buf, s1), Text(buf, s1));
        if r.o != Done then Parsed(r.o, r.s, EMPTY)
        else Engine(buf, Accept(buf, r.s, SEMI), m.(rules := m.rules + [r.v]))
    else if s.token.kind == KW_DIALECT then
      if s1.token.kind != IDENTIFIER then Parsed(Done, s1, EMPTY)
      else
        var r := DialectSpec(buf, Advance(buf, s1), Dialect(Text(buf, s1), "", ""));
        if r.o != Done then Parsed(r.o, r.s, EMPTY)
        else Engine(buf, r.s, m.(dialect := Some(r.v)))
    else if s.token.kind == KW_OP then
      var r := OpSpec(buf, s1, Text(buf, s1));
      if r.o != Done then Parsed(r.o, r.s, EMPTY)
      else if r.v.None? then Parsed(Done, r.s, m)
      else Engine(buf, r.s, m.(ops := m.ops + [r.v.value]))
    else Parsed(Done, s, m)
  }
}
