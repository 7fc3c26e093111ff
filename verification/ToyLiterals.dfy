/** Tensor literals of the Toy front end.  The parser's actions collect all numbers in one buffer
    shared by the whole file; the visitor derives shapes from the tree on its own. */
module ToyLiterals {
  import opened Division
  import opened Options
  import opened TensorShape

  datatype Literal = Number(value: int) | Bracket(items: seq<Literal>)

  datatype Expression =
    | Scalar(value: int)
    | Tensor(literal: Literal)
    | Variable(name: string)
    | Call(name: string, args: seq<Expression>)

  datatype Statement =
    | VarDecl(name: string, shape: Option<Shape>, init: Option<Expression>)
    | Return(result: Option<Expression>)
    | Evaluate(expression: Expression)

  // ----- what a literal, an expression and a statement contribute -----

  /** The numbers of a literal in row-major order. */
  function Flatten(l: Literal): seq<int>
    decreases l, 0
  {
    match l
    case Number(v) => [v]
    case Bracket(items) => FlattenAll(items)
  }

  function FlattenAll(items: seq<Literal>): seq<int>
    decreases items, 1
  {
    if items == [] then [] else Flatten(items[0]) + FlattenAll(items[1..])
  }

  /** The literals an expression contains, in order. */
  function Literals(e: Expression): seq<Literal>
    decreases e, 0
  {
    match e
    case Tensor(l) => [l]
    case Call(_, args) => LiteralsAll(args)
    case _ => []
  }

  function LiteralsAll(args: seq<Expression>): seq<Literal>
    decreases args, 1
  {
    if args == [] then [] else Literals(args[0]) + LiteralsAll(args[1..])
  }

  function StatementLiterals(s: Statement): seq<Literal> {
    match s
    case VarDecl(_, _, Some(e)) => Literals(e)
    case Return(Some(e)) => Literals(e)
    case Evaluate(e) => Literals(e)
    case _ => []
  }

  predicate Clears(s: Statement) { s.VarDecl? && s.init.Some? }

  /** The numbers in literals since the last declaration with an initialiser. */
  function Pending(stmts: seq<Statement>): seq<int> {
    if stmts == [] then []
    else
      var last := stmts[|stmts| - 1];
      if Clears(last) then [] else Pending(stmts[..|stmts| - 1]) + FlattenAll(StatementLiterals(last))
  }

  /** The data each literal of a list gets when the buffer holds `buf` before it. */
  function DataOf(buf: seq<int>, ls: seq<Literal>): seq<seq<int>>
    decreases |ls|
  {
    if ls == [] then []
    else
      var own := Flatten(ls[0]);
      [if ls[0].Bracket? then buf + own else []] + DataOf(buf + own, ls[1..])
  }

  lemma {:induction false} FlattenConcat(a: seq<Literal>, b: seq<Literal>)
    ensures FlattenAll(a + b) == FlattenAll(a) + FlattenAll(b)
  {
    if a == [] {
      assert a + b == b;
    } else {
      assert (a + b)[0] == a[0] && (a + b)[1..] == a[1..] + b;
      FlattenConcat(a[1..], b);
    }
  }

  lemma FlattenSnoc(items: seq<Literal>, k: nat)
    requires k < |items|
    ensures FlattenAll(items[..k + 1]) == FlattenAll(items[..k]) + Flatten(items[k])
  {
    FlattenConcat(items[..k], [items[k]]);
    assert items[..k] + [items[k]] == items[..k + 1];
    assert FlattenAll([items[k]]) == Flatten(items[k]) + FlattenAll([items[k]][1..]);
  }

  /** The buffer after item k. */
  lemma OneMore(buf: seq<int>, items: seq<Literal>, k: nat)
    requires k < |items|
    ensures buf + FlattenAll(items[..k]) + Flatten(items[k]) == buf + FlattenAll(items[..k + 1])
  {
    FlattenSnoc(items, k);
  }

  lemma {:induction false} DataConcat(buf: seq<int>, a: seq<Literal>, b: seq<Literal>)
    ensures DataOf(buf, a + b) == DataOf(buf, a) + DataOf(buf + FlattenAll(a), b)
    decreases |a|
  {
    if a == [] {
      assert a + b == b && buf + FlattenAll(a) == buf;
    } else {
      assert (a + b)[0] == a[0] && (a + b)[1..] == a[1..] + b;
      DataConcat(buf + Flatten(a[0]), a[1..], b);
      assert buf + Flatten(a[0]) + FlattenAll(a[1..]) == buf + FlattenAll(a);
    }
  }

  // ----- the parser's actions -----

  class ToyParser {
    var tensorDataBuffer: seq<int>

    constructor ()
      ensures tensorDataBuffer == []
    {
      tensorDataBuffer := [];
    }

    /** At `]` the node gets a copy of the whole buffer; at a number the buffer grows. */
    method TensorLiteral(l: Literal) returns (data: seq<int>)
      modifies this
      ensures tensorDataBuffer == old(tensorDataBuffer) + Flatten(l)
      ensures data == if l.Bracket? then tensorDataBuffer else []
      decreases l, 0
    {
      assert l.Bracket? ==> Flatten(l) == FlattenAll(l.items) && FlattenAll(l.items[..0]) == [];
      hide FlattenAll;
      match l
      case Number(v) =>
        tensorDataBuffer := tensorDataBuffer + [v];
        data := [];
      case Bracket(items) =>
        for k := 0 to |items|
          invariant tensorDataBuffer == old(tensorDataBuffer) + FlattenAll(items[..k])
        {
          var _ := TensorLiteral(items[k]);
          OneMore(old(tensorDataBuffer), items, k);
        }
        assert items[..|items|] == items;
        data := tensorDataBuffer;
    }

    /** Returns the data of every literal in the expression, in order. */
    method ParseExpression(e: Expression) returns (datas: seq<seq<int>>)
      modifies this
      ensures tensorDataBuffer == old(tensorDataBuffer) + FlattenAll(Literals(e))
      ensures datas == DataOf(old(tensorDataBuffer), Literals(e))
      decreases e, 0
    {
      match e
      case Tensor(l) =>
        var data := TensorLiteral(l);
        datas := [data];
        assert FlattenAll([l]) == Flatten(l) + FlattenAll([]);
        assert [l][1..] == [];
      case Call(_, args) =>
        datas := [];
        for k := 0 to |args|
          invariant tensorDataBuffer == old(tensorDataBuffer) + FlattenAll(LiteralsAll(args[..k]))
          invariant datas == DataOf(old(tensorDataBuffer), LiteralsAll(args[..k]))
        {
          var more := ParseExpression(args[k]);
          LiteralsSnoc(args, k);
          FlattenConcat(LiteralsAll(args[..k]), Literals(args[k]));
          DataConcat(old(tensorDataBuffer), LiteralsAll(args[..k]), Literals(args[k]));
          datas := datas + more;
        }
        assert args[..|args|] == args;
      case _ =>
        datas := [];
    }

    /** The buffer is cleared at the end of a declaration with an initialiser, and nowhere else. */
    method ParseStatement(s: Statement) returns (datas: seq<seq<int>>)
      modifies this
      ensures tensorDataBuffer ==
        if Clears(s) then [] else old(tensorDataBuffer) + FlattenAll(StatementLiterals(s))
      ensures s.VarDecl? && s.init.Some? ==> tensorDataBuffer == []
      ensures datas == DataOf(old(tensorDataBuffer), StatementLiterals(s))
    {
      datas := [];
      match s
      case VarDecl(_, _, init) =>
        if init.Some? {
          datas := ParseExpression(init.value);
          tensorDataBuffer := [];
        }
      case Return(result) =>
        if result.Some? { datas := ParseExpression(result.value); }
      case Evaluate(e) =>
        datas := ParseExpression(e);
    }

    method ParseProgram(stmts: seq<Statement>) returns (datas: seq<seq<seq<int>>>)
      requires tensorDataBuffer == []
      modifies this
      ensures tensorDataBuffer == Pending(stmts) && |datas| == |stmts|
      ensures forall k :: 0 <= k < |stmts| ==> datas[k] == DataOf(Pending(stmts[..k]), StatementLiterals(stmts[k]))
    {
      hide DataOf, StatementLiterals, FlattenAll, Clears;
      datas := [];
      for k := 0 to |stmts|
        invariant tensorDataBuffer == Pending(stmts[..k]) && |datas| == k
        invariant forall i :: 0 <= i < k ==> datas[i] == DataOf(Pending(stmts[..i]), StatementLiterals(stmts[i]))
      {
        var more := ParseStatement(stmts[k]);
        assert stmts[..k + 1][..k] == stmts[..k];
        datas := datas + [more];
      }
      assert stmts[..|stmts|] == stmts;
    }
  }

  lemma {:induction false} LiteralsSnoc(args: seq<Expression>, k: nat)
    requires k < |args|
    ensures LiteralsAll(args[..k + 1]) == LiteralsAll(args[..k]) + Literals(args[k])
    decreases k
  {
    if k == 0 {
      assert args[..1] == [args[0]] && args[..1][1..] == [];
    } else {
      assert args[..k + 1][1..] == args[1..][..k] && args[..k][1..] == args[1..][..k - 1];
      LiteralsSnoc(args[1..], k - 1);
      assert args[1..][k - 1] == args[k];
    }
  }

  // ----- whose numbers a declaration's literal gets -----

  predicate HasNumber(l: Literal) {
    match l
    case Number(_) => true
    case Bracket(items) => AnyNumber(items)
  }

  predicate AnyNumber(ls: seq<Literal>) { exists k :: 0 <= k < |ls| && HasNumber(ls[k]) }

  predicate NumberIn(e: Expression) {
    match e
    case Tensor(l) => HasNumber(l)
    case Call(_, args) => exists k :: 0 <= k < |args| && NumberIn(args[k])
    case _ => false
  }

  /** A number stands in a literal somewhere in the statement. */
  predicate MentionsNumber(s: Statement) {
    || (s.VarDecl? && s.init.Some? && NumberIn(s.init.value))
    || (s.Return? && s.result.Some? && NumberIn(s.result.value))
    || (s.Evaluate? && NumberIn(s.expression))
  }

  /** None of the statements i, ..., k - 1 is a declaration with an initialiser. */
  predicate Uncleared(stmts: seq<Statement>, i: nat, k: nat)
    requires k <= |stmts|
  {
    forall j :: i <= j < k ==> !(stmts[j].VarDecl? && stmts[j].init.Some?)
  }

  /** No literal with a number stands between statement k and the last declaration with an
      initialiser before it. */
  predicate NothingBetween(stmts: seq<Statement>, k: nat)
    requires k <= |stmts|
  {
    forall i :: 0 <= i < k && Uncleared(stmts, i, k) ==> !MentionsNumber(stmts[i])
  }

  lemma {:induction false} FlattensToSomething(l: Literal)
    ensures Flatten(l) != [] <==> HasNumber(l)
    decreases l, 0
  {
    if l.Bracket? {
      FlattenAllToSomething(l.items);
    }
  }

  lemma {:induction false} FlattenAllToSomething(items: seq<Literal>)
    ensures FlattenAll(items) != [] <==> AnyNumber(items)
    decreases items, 1
  {
    if items != [] {
      FlattensToSomething(items[0]);
      FlattenAllToSomething(items[1..]);
      hide HasNumber, Flatten;
      HeadOrTail(items);
    }
  }

  lemma HeadOrTail(items: seq<Literal>)
    requires items != []
    ensures AnyNumber(items) <==> HasNumber(items[0]) || AnyNumber(items[1..])
  {
    hide HasNumber;
    assert forall k :: 0 <= k < |items[1..]| ==> items[1..][k] == items[k + 1];
    assert forall k :: 0 < k < |items| ==> items[k] == items[1..][k - 1];
  }

  lemma AnyNumberConcat(a: seq<Literal>, b: seq<Literal>)
    ensures AnyNumber(a + b) <==> AnyNumber(a) || AnyNumber(b)
  {
    hide HasNumber;
    var c := a + b;
    assert forall k :: 0 <= k < |a| ==> c[k] == a[k];
    assert forall k :: 0 <= k < |b| ==> c[|a| + k] == b[k];
    assert forall k :: |a| <= k < |c| ==> c[k] == b[k - |a|];
  }

  lemma {:induction false} NumbersOfExpression(e: Expression)
    ensures AnyNumber(Literals(e)) <==> NumberIn(e)
    decreases e, 0
  {
    match e {
      case Tensor(l) => assert AnyNumber([l]) <==> HasNumber([l][0]);
      case Call(_, args) => NumbersOfArguments(args);
      case _ =>
    }
  }

  lemma {:induction false} NumbersOfArguments(args: seq<Expression>)
    ensures AnyNumber(LiteralsAll(args)) <==> exists k :: 0 <= k < |args| && NumberIn(args[k])
    decreases args, 1
  {
    if args != [] {
      NumbersOfExpression(args[0]);
      NumbersOfArguments(args[1..]);
      AnyNumberConcat(Literals(args[0]), LiteralsAll(args[1..]));
      hide NumberIn, AnyNumber, Literals;
      assert forall k :: 0 <= k < |args[1..]| ==> args[1..][k] == args[k + 1];
      assert forall k :: 0 < k < |args| ==> args[k] == args[1..][k - 1];
    }
  }

  lemma NumbersOfStatement(s: Statement)
    ensures AnyNumber(StatementLiterals(s)) <==> MentionsNumber(s)
  {
    match s {
      case VarDecl(_, _, Some(e)) => NumbersOfExpression(e);
      case Return(Some(e)) => NumbersOfExpression(e);
      case Evaluate(e) => NumbersOfExpression(e);
      case _ =>
    }
    hide NumberIn, Literals;
  }

  lemma BetweenStep(stmts: seq<Statement>, k: nat)
    requires k < |stmts|
    ensures NothingBetween(stmts, k + 1) <==>
      (stmts[k].VarDecl? && stmts[k].init.Some?) || (NothingBetween(stmts, k) && !MentionsNumber(stmts[k]))
  {
    hide MentionsNumber;
    assert Uncleared(stmts, k, k + 1) <==> !(stmts[k].VarDecl? && stmts[k].init.Some?);
    forall i: nat | i < k
      ensures Uncleared(stmts, i, k + 1) <==> Uncleared(stmts, i, k) && !(stmts[k].VarDecl? && stmts[k].init.Some?) {}
  }

  lemma PendingStep(stmts: seq<Statement>, k: nat)
    requires k < |stmts|
    ensures Pending(stmts[..k + 1]) == [] <==>
      (stmts[k].VarDecl? && stmts[k].init.Some?) || (Pending(stmts[..k]) == [] && !MentionsNumber(stmts[k]))
  {
    assert stmts[..k + 1][..k] == stmts[..k] && stmts[..k + 1][k] == stmts[k];
    FlattenAllToSomething(StatementLiterals(stmts[k]));
    NumbersOfStatement(stmts[k]);
    hide FlattenAll, AnyNumber, StatementLiterals, MentionsNumber;
  }

  /** The buffer is empty before a statement exactly if nothing stands between. */
  lemma {:induction false} PendingIffBetween(stmts: seq<Statement>, k: nat)
    requires k <= |stmts|
    ensures Pending(stmts[..k]) == [] <==> NothingBetween(stmts, k)
  {
    hide MentionsNumber, StatementLiterals, FlattenAll, Uncleared;
    if k == 0 {
      assert stmts[..0] == [];
    } else {
      hide Pending, NothingBetween;
      PendingIffBetween(stmts, k - 1);
      BetweenStep(stmts, k - 1);
      PendingStep(stmts, k - 1);
    }
  }

  lemma DataOfOne(buf: seq<int>, l: Literal)
    requires l.Bracket?
    ensures DataOf(buf, [l]) == [buf + Flatten(l)]
  {
    assert DataOf(buf, [l]) == [buf + Flatten(l)] + DataOf(buf + Flatten(l), [l][1..]);
  }

  /** The data of a literal initialiser is the literal's own numbers exactly when no literal with a
      number stands between it and the previous declaration with an initialiser. */
  lemma OwnDataIffNothingBetween(stmts: seq<Statement>, k: nat)
    requires k < |stmts| && stmts[k].VarDecl? && stmts[k].init.Some?
    requires stmts[k].init.value.Tensor? && stmts[k].init.value.literal.Bracket?
    ensures DataOf(Pending(stmts[..k]), StatementLiterals(stmts[k])) == [Flatten(stmts[k].init.value.literal)]
      <==> NothingBetween(stmts, k)
  {
    var own, buf := Flatten(stmts[k].init.value.literal), Pending(stmts[..k]);
    DataOfOne(buf, stmts[k].init.value.literal);
    PendingIffBetween(stmts, k);
    assert [buf + own][0] == buf + own && |buf + own| == |buf| + |own|;
    assert buf == [] ==> buf + own == own;
  }

  /** In a sequence of declarations nothing is ever pending. */
  lemma {:induction false} DeclarationsLeaveNothing(stmts: seq<Statement>)
    requires forall k :: 0 <= k < |stmts| ==> stmts[k].VarDecl?
    ensures Pending(stmts) == []
    decreases |stmts|
  {
    if stmts != [] {
      DeclarationsLeaveNothing(stmts[..|stmts| - 1]);
    }
  }

  // ----- getTensor -----

  datatype Value = Constant(dims: Shape, data: seq<int>) | NullDereference | WrongSize

  /** The dimensions read off the comma counts; None when the literal is empty. */
  function Dims(l: Literal): Option<Shape>
    requires l.Bracket?
  {
    if l.items == [] then None
    else if l.items[0].Bracket? && l.items[0].items != [] then Some([|l.items|, |l.items[0].items|])
    else Some([|l.items|])
  }

  /** A dense attribute needs one element per position, or a single element for all of them. */
  function GetTensor(l: Literal, data: seq<int>): Value
    requires l.Bracket?
  {
    match Dims(l)
    case None => NullDereference
    case Some(dims) => if |data| == Size(dims) || |data| == 1 then Constant(dims, data) else WrongSize
  }

  /** A nonempty list of numbers, or of equally long nonempty lists of numbers. */
  predicate Vector(l: Literal) {
    l.Bracket? && l.items != [] && forall k :: 0 <= k < |l.items| ==> l.items[k].Number?
  }
  predicate Table(l: Literal) {
    l.Bracket? && l.items != [] && l.items[0].Bracket? && forall k :: 0 <= k < |l.items| ==>
      Vector(l.items[k]) && |l.items[k].items| == |l.items[0].items|
  }

  lemma {:induction false} FlattenNumbers(items: seq<Literal>)
    requires forall k :: 0 <= k < |items| ==> items[k].Number?
    ensures |FlattenAll(items)| == |items| && forall k :: 0 <= k < |items| ==> FlattenAll(items)[k] == items[k].value
    decreases |items|
  {
    if items != [] {
      FlattenNumbers(items[1..]);
    }
  }

  /** The j-th number of the i-th row. */
  function NumberAt(rows: seq<Literal>, i: nat, j: nat): Option<int> {
    if i < |rows| && rows[i].Bracket? && j < |rows[i].items| && rows[i].items[j].Number?
    then Some(rows[i].items[j].value) else None
  }

  lemma {:induction false} FlattenRows(items: seq<Literal>, cols: nat, i: nat, j: nat)
    requires forall k :: 0 <= k < |items| ==> Vector(items[k]) && |items[k].items| == cols
    requires i < |items| && j < cols
    ensures |FlattenAll(items)| == |items| * cols
    ensures ElementAt(FlattenAll(items), cols, i, j) == NumberAt(items, i, j) != None
    decreases |items|
  {
    FlattenNumbers(items[0].items);
    RowsLength(items, cols);
    Fits(i, |items|, j, cols);
    if i > 0 {
      FlattenRows(items[1..], cols, i - 1, j);
      assert i * cols == cols + (i - 1) * cols;
      assert NumberAt(items, i, j) == NumberAt(items[1..], i - 1, j);
      Drop(Flatten(items[0]), FlattenAll(items[1..]), cols, i, j);
    }
  }

  lemma Drop(row: seq<int>, rest: seq<int>, cols: nat, i: nat, j: nat)
    requires |row| == cols && 0 < i && i * cols == cols + (i - 1) * cols
    ensures ElementAt(row + rest, cols, i, j) == ElementAt(rest, cols, i - 1, j)
  {
  }

  lemma {:induction false} RowsLength(items: seq<Literal>, cols: nat)
    requires forall k :: 0 <= k < |items| ==> Vector(items[k]) && |items[k].items| == cols
    ensures |FlattenAll(items)| == |items| * cols
    decreases |items|
  {
    if items != [] {
      FlattenNumbers(items[0].items);
      RowsLength(items[1..], cols);
      assert |items| * cols == cols + (|items| - 1) * cols;
    }
  }

  /** For a rectangular literal the two derivations agree: the dimensions read off the commas
      describe exactly the literal's own numbers, element (i, j) at offset i * columns + j. */
  lemma ShapeAgrees(l: Literal)
    requires Vector(l) || Table(l)
    ensures GetTensor(l, Flatten(l)) ==
      Constant(if Vector(l) then [|l.items|] else [|l.items|, |l.items[0].items|], Flatten(l))
    ensures Dims(l).Some? && Size(Dims(l).value) == |Flatten(l)|
    ensures |Flatten(l)| == if Vector(l) then |l.items| else |l.items| * |l.items[0].items|
    ensures Vector(l) ==> forall k :: 0 <= k < |l.items| ==> Flatten(l)[k] == l.items[k].value
    ensures Table(l) ==> forall i: nat, j: nat :: i < |l.items| && j < |l.items[0].items| ==>
      ElementAt(Flatten(l), |l.items[0].items|, i, j) == NumberAt(l.items, i, j) != None
  {
    if Vector(l) {
      FlattenNumbers(l.items);
      Size1(|l.items|);
    } else {
      var rows, cols := |l.items|, |l.items[0].items|;
      RowsLength(l.items, cols);
      Size2(rows, cols);
      forall i: nat, j: nat | i < rows && j < cols
        ensures ElementAt(Flatten(l), cols, i, j) == NumberAt(l.items, i, j) != None
      {
        FlattenRows(l.items, cols, i, j);
      }
    }
  }

  function ElementAt(data: seq<int>, cols: nat, i: nat, j: nat): Option<int> {
    if i * cols + j < |data| then Some(data[i * cols + j]) else None
  }

  /** In any program, a rectangular literal initialiser becomes a constant of its own shape holding
      its own numbers if nothing stands between it and the previous declaration with an initialiser;
      otherwise its size is always wrong. */
  lemma DeclaredConstant(stmts: seq<Statement>, k: nat)
    requires k < |stmts| && stmts[k].VarDecl? && stmts[k].init.Some? && stmts[k].init.value.Tensor?
    requires Vector(stmts[k].init.value.literal) || Table(stmts[k].init.value.literal)
    ensures var l := stmts[k].init.value.literal;
      var datas := DataOf(Pending(stmts[..k]), StatementLiterals(stmts[k]));
      |datas| == 1 && GetTensor(l, datas[0]) ==
        if NothingBetween(stmts, k)
        then Constant(if Vector(l) then [|l.items|] else [|l.items|, |l.items[0].items|], Flatten(l))
        else WrongSize
  {
    var l, buf := stmts[k].init.value.literal, Pending(stmts[..k]);
    DataOfOne(buf, l);
    PendingIffBetween(stmts, k);
    ShapeAgrees(l);
    assert buf == [] ==> buf + Flatten(l) == Flatten(l);
    assert Flatten(l) != [] by { NotEmpty(l); }
    hide Flatten, Dims, Size, Pending, NothingBetween, HasNumber, AnyNumber;
    assert |buf + Flatten(l)| == |buf| + |Flatten(l)|;
  }

  /** A declaration of a rectangular literal. */
  predicate Declares(s: Statement) {
    s.VarDecl? && s.init.Some? && s.init.value.Tensor? && (Vector(s.init.value.literal) || Table(s.init.value.literal))
  }

  /** Parsing a program and taking the value of every such declaration. */
  method DeclaredValues(stmts: seq<Statement>) returns (values: seq<Option<Value>>)
    ensures |values| == |stmts| && forall k :: 0 <= k < |stmts| ==> (values[k].Some? <==> Declares(stmts[k]))
    ensures forall k :: 0 <= k < |stmts| && Declares(stmts[k]) ==>
      var l := stmts[k].init.value.literal;
      values[k] == Some(
        if NothingBetween(stmts, k)
        then Constant(if Vector(l) then [|l.items|] else [|l.items|, |l.items[0].items|], Flatten(l))
        else WrongSize)
  {
    hide NothingBetween, GetTensor, Flatten, DataOf, Pending, StatementLiterals;
    var parser := new ToyParser();
    var datas := parser.ParseProgram(stmts);
    values := [];
    for k := 0 to |stmts|
      invariant |values| == k && forall i :: 0 <= i < k ==> (values[i].Some? <==> Declares(stmts[i]))
      invariant forall i :: 0 <= i < k && Declares(stmts[i]) ==>
        var l := stmts[i].init.value.literal;
        values[i] == Some(
          if NothingBetween(stmts, i)
          then Constant(if Vector(l) then [|l.items|] else [|l.items|, |l.items[0].items|], Flatten(l))
          else WrongSize)
    {
      if Declares(stmts[k]) {
        DeclaredConstant(stmts, k);
        values := values + [Some(GetTensor(stmts[k].init.value.literal, datas[k][0]))];
      } else {
        values := values + [None];
      }
    }
  }

  lemma NotEmpty(l: Literal)
    requires Vector(l) || Table(l)
    ensures HasNumber(l) && Flatten(l) != []
  {
    if Vector(l) {
      assert HasNumber(l.items[0]);
    } else {
      NotEmpty(l.items[0]);
    }
    assert AnyNumber(l.items);
    FlattensToSomething(l);
  }

  /** In a program of declarations, every rectangular literal initialiser becomes its own constant. */
  lemma DeclaredConstants(stmts: seq<Statement>, k: nat)
    requires forall i :: 0 <= i < |stmts| ==> stmts[i].VarDecl?
    requires k < |stmts| && stmts[k].VarDecl? && stmts[k].init.Some? && stmts[k].init.value.Tensor?
    requires Vector(stmts[k].init.value.literal) || Table(stmts[k].init.value.literal)
    ensures var l := stmts[k].init.value.literal;
      var datas := DataOf(Pending(stmts[..k]), StatementLiterals(stmts[k]));
      |datas| == 1 && GetTensor(l, datas[0]) ==
        Constant(if Vector(l) then [|l.items|] else [|l.items|, |l.items[0].items|], Flatten(l))
  {
    DeclarationsLeaveNothing(stmts[..k]);
    PendingIffBetween(stmts, k);
    DeclaredConstant(stmts, k);
  }

  /** A printed literal before a declaration ends up in the declared constant, whose size is then
      wrong: `print([1, 2]); var a = [3, 4];`. */
  lemma PrintedLiteralLeaks(v: int, w: int, x: int, y: int)
    ensures var printed := Evaluate(Call("print", [Tensor(Bracket([Number(v), Number(w)]))]));
      var decl := VarDecl("a", None, Some(Tensor(Bracket([Number(x), Number(y)]))));
      var datas := DataOf(Pending([printed, decl][..1]), StatementLiterals(decl));
      |datas| == 1 && datas[0] == [v, w, x, y] && GetTensor(decl.init.value.literal, datas[0]) == WrongSize
  {
    var a, b := Bracket([Number(v), Number(w)]), Bracket([Number(x), Number(y)]);
    var printed, decl := Evaluate(Call("print", [Tensor(a)])), VarDecl("a", None, Some(Tensor(b)));
    FlattenNumbers(a.items);
    FlattenNumbers(b.items);
    assert Flatten(a) == [v, w] && Flatten(b) == [x, y];
    assert [printed, decl][..1] == [printed] && [printed][..0] == [];
    assert LiteralsAll([Tensor(a)]) == Literals(Tensor(a)) + LiteralsAll([Tensor(a)][1..]);
    assert StatementLiterals(printed) == [a];
    assert FlattenAll([a]) == Flatten(a) + FlattenAll([a][1..]);
    assert Pending([printed]) == Pending([]) + FlattenAll([a]);
    assert Pending([printed]) == [v, w];
    assert DataOf([v, w], [b]) == [[v, w] + Flatten(b)] + DataOf([v, w] + Flatten(b), [b][1..]);
    Size1(2);
  }
}
