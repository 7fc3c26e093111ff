/** compiler.py: importing a traced FX graph into an MLIR function, node by node. */
module FxImporter {
  import opened Matrix
  import opened Options
  import opened TensorShape
  import opened Tensors

  /** A node of the graph; arguments are names of other nodes. */
  datatype Node =
    | Placeholder(name: string)
    | CallFunction(name: string, target: string, args: seq<string>)
    | Output(results: seq<string>)
    | Unhandled(name: string)
  {
    /** The importer emits code for this node. */
    predicate Handled() {
      match this
      case CallFunction(_, target, _) => target == "add" || target == "matmul"
      case Unhandled(_) => false
      case _ => true
    }
  }

  // ----- what the graph means -----

  datatype Env<T> = Env(values: map<string, Tensor<T>>, next: nat, out: Option<Tensor<T>>)

  /** The value of a node the importer does not know. */
  type Other<!T> = (Node, map<string, Tensor<T>>) -> Option<Tensor<T>>

  /** Bind a name; names are unique in a graph. */
  function Bind<T>(env: Env<T>, name: string, t: Option<Tensor<T>>): Option<Env<T>> {
    if t.None? || name in env.values then None
    else Some(env.(values := env.values[name := t.value]))
  }

  ghost predicate EnvValid<T>(env: Env<T>) {
    forall n :: n in env.values ==> env.values[n].Valid()
  }

  /** One node; None when the graph is not well formed there.  The output node is the last. */
  ghost function EvalNode<T>(o: Ops<T>, other: Other<T>, inputs: seq<Tensor<T>>, env: Env<T>,
                             node: Node): Option<Env<T>>
    requires EnvValid(env)
  {
    if env.out.Some? then None
    else match node
      case Placeholder(name) =>
        if env.next < |inputs| then Bind(env.(next := env.next + 1), name, Some(inputs[env.next])) else None
      case CallFunction(name, target, args) =>
        if !node.Handled() then Bind(env, name, other(node, env.values))
        else if |args| < 2 || args[0] !in env.values || args[1] !in env.values then None
        else
          var a, b := env.values[args[0]], env.values[args[1]];
          Bind(env, name, if target == "add" then TorchAdd(o, a, b) else TorchMatmul(o, a, b))
      case Output(results) =>
        if results == [] || results[0] !in env.values then None
        else Some(env.(out := Some(env.values[results[0]])))
      case Unhandled(name) => Bind(env, name, other(node, env.values))
  }

  // ----- what is emitted -----

  /** Values are numbered: the arguments first, then one per instruction. */
  datatype Instr = AddF(lhs: nat, rhs: nat) | ConstantZero(shape: Shape) | Matmul(lhs: nat, rhs: nat, outs: nat)

  ghost function ExecInstr<T>(o: Ops<T>, values: seq<Tensor<T>>, i: Instr): (r: Option<Tensor<T>>)
    ensures r.Some? ==> r.value.Valid()
  {
    match i
    case AddF(a, b) =>
      if a < |values| && b < |values| && values[a].Valid() then Add(o, values[a], values[b]) else None
    case ConstantZero(shape) => Some(Splat(shape, o.zero))
    case Matmul(a, b, c) =>
      if a < |values| && b < |values| && c < |values| && values[a].Valid() && values[b].Valid() && values[c].Valid()
      then MatmulInto(o, values[a], values[b], values[c]) else None
  }

  /** All values of a run; None if some operand is not defined yet or has the wrong shape. */
  ghost function Exec<T>(o: Ops<T>, args: seq<Tensor<T>>, body: seq<Instr>): Option<seq<Tensor<T>>> {
    if body == [] then Some(args)
    else match Exec(o, args, body[..|body| - 1])
      case None => None
      case Some(values) =>
        match ExecInstr(o, values, body[|body| - 1])
        case None => None
        case Some(t) => Some(values + [t])
  }

  // ----- CodeGen -----

  /** The symbol table, the arguments not yet bound, the type of every value and the code so far. */
  datatype Code = Code(symbols: map<string, nat>, args: seq<nat>, types: seq<Shape>, body: seq<Instr>)
  {
    function Emit(i: Instr, shape: Shape): Code { this.(types := types + [shape], body := body + [i]) }
    function EmitAs(name: string, i: Instr, shape: Shape): Code { Emit(i, shape).(symbols := symbols[name := |types|]) }
  }

  /** Symbols and pending arguments denote values that exist already. */
  ghost predicate Defined(s: Code) {
    && (forall n :: n in s.symbols ==> s.symbols[n] < |s.types|)
    && (forall k :: 0 <= k < |s.args| ==> s.args[k] < |s.types|)
  }

  /** CodeGen; None is a Python exception. */
  function Gen(s: Code, node: Node): (r: Option<Code>)
    requires Defined(s)
    ensures r.Some? ==> Defined(r.value)
  {
    match node
    case Placeholder(name) =>
      if s.args == [] then None
      else Some(s.(symbols := s.symbols[name := s.args[0]], args := s.args[1..]))
    case CallFunction(name, target, args) =>
      if !node.Handled() then Some(s)
      else if |args| < 2 || args[0] !in s.symbols || args[1] !in s.symbols then None
      else
        var a, b := s.symbols[args[0]], s.symbols[args[1]];
        if target == "add" then Some(s.EmitAs(name, AddF(a, b), s.types[a]))
        else if |s.types[a]| < 1 || |s.types[b]| < 2 then None
        else
          var sizes := [s.types[a][0], s.types[b][1]];
          Some(s.Emit(ConstantZero(sizes), sizes).EmitAs(name, Matmul(a, b, |s.types|), sizes))
    case Output(results) =>
      if results == [] then None
      else if results[0] in s.symbols then Some(s.(symbols := s.symbols["output" := s.symbols[results[0]]]))
      else Some(s.(symbols := s.symbols - {"output"}))
    case Unhandled(_) => Some(s)
  }

  /** The importer's traversal, with the symbol table and the argument list it updates. */
  class Importer {
    var symbolTable: map<string, nat>
    var argsList: seq<nat>
    var types: seq<Shape>
    var body: seq<Instr>

    ghost function State(): Code
      reads this
    {
      Code(symbolTable, argsList, types, body)
    }

    constructor (inputs: seq<Shape>)
      ensures State() == Start(inputs)
    {
      symbolTable, argsList, types, body := map[], seq(|inputs|, k => k), inputs, [];
    }

    method CodeGen(node: Node) returns (ok: bool)
      requires Defined(State())
      modifies this
      ensures Defined(State())
      ensures ok ==> Gen(old(State()), node) == Some(State())
      ensures !ok ==> Gen(old(State()), node) == None && State() == old(State())
    {
      ok := true;
      match node
      case Placeholder(name) =>
        if argsList == [] { return false; }
        symbolTable := symbolTable[name := argsList[0]];
        argsList := argsList[1..];
      case CallFunction(name, target, args) =>
        if target == "add" {
          if |args| < 2 || args[0] !in symbolTable || args[1] !in symbolTable { return false; }
          var input1, input2 := symbolTable[args[0]], symbolTable[args[1]];
          symbolTable := symbolTable[name := |types|];
          types, body := types + [types[input1]], body + [AddF(input1, input2)];
        }
        if target == "matmul" {
          if |args| < 2 || args[0] !in symbolTable || args[1] !in symbolTable { return false; }
          var input1, input2 := symbolTable[args[0]], symbolTable[args[1]];
          if |types[input1]| < 1 || |types[input2]| < 2 { return false; }
          var sizes := [types[input1][0], types[input2][1]];
          var init := |types|;
          types, body := types + [sizes], body + [ConstantZero(sizes)];
          symbolTable := symbolTable[name := |types|];
          types, body := types + [sizes], body + [Matmul(input1, input2, init)];
        }
      case Output(results) =>
        if results == [] { return false; }
        if results[0] in symbolTable {
          symbolTable := symbolTable["output" := symbolTable[results[0]]];
        } else {
          symbolTable := symbolTable - {"output"};
        }
      case Unhandled(_) =>
    }

    /** The node loop of generated_func. */
    method Run(nodes: seq<Node>) returns (ok: bool)
      requires Defined(State())
      modifies this
      ensures Defined(State())
      ensures ok ==> GenAll(old(State()), nodes) == Some(State())
      ensures !ok ==> GenAll(old(State()), nodes) == None
    {
      ok := true;
      for k := 0 to |nodes|
        invariant Defined(State()) && GenAll(old(State()), nodes) == GenAll(State(), nodes[k..])
      {
        ghost var rest := nodes[k..];
        assert rest[0] == nodes[k] && rest[1..] == nodes[k + 1..];
        ok := CodeGen(nodes[k]);
        if !ok { return; }
      }
    }
  }

  function Start(inputs: seq<Shape>): (s: Code)
    ensures Defined(s)
  {
    Code(map[], seq(|inputs|, k => k), inputs, [])
  }

  function GenAll(s: Code, nodes: seq<Node>): (r: Option<Code>)
    requires Defined(s)
    ensures r.Some? ==> Defined(r.value)
    decreases |nodes|
  {
    if nodes == [] then Some(s)
    else match Gen(s, nodes[0])
      case None => None
      case Some(s') => GenAll(s', nodes[1..])
  }

  ghost function EvalAll<T>(o: Ops<T>, other: Other<T>, inputs: seq<Tensor<T>>, env: Env<T>,
                            nodes: seq<Node>): Option<Env<T>>
    decreases |nodes|
  {
    if !EnvValid(env) then None
    else if nodes == [] then Some(env)
    else match EvalNode(o, other, inputs, env, nodes[0])
      case None => None
      case Some(env') => EvalAll(o, other, inputs, env', nodes[1..])
  }

  // ----- simulation -----

  ghost predicate Typed<T>(values: seq<Tensor<T>>, types: seq<Shape>) {
    |values| == |types| && forall k :: 0 <= k < |values| ==> values[k].Valid() && values[k].shape == types[k]
  }

  /** The code so far runs, every value has its inferred type, every symbol denotes the value of its
      node, and the pending arguments are the inputs not consumed yet, in order. */
  ghost predicate Simulates<T>(o: Ops<T>, inputs: seq<Tensor<T>>, s: Code, env: Env<T>, values: seq<Tensor<T>>) {
    && Exec(o, inputs, s.body) == Some(values) && Typed(values, s.types) && Defined(s)
    && |inputs| <= |values| && values[..|inputs|] == inputs
    && env.next <= |inputs| && s.args == seq(|inputs| - env.next, k requires k >= 0 => env.next + k)
    && EnvValid(env)
    && (env.out.None? ==> forall n :: n in s.symbols ==> n in env.values && env.values[n] == values[s.symbols[n]])
    && (env.out.Some? && "output" in s.symbols ==> values[s.symbols["output"]] == env.out.value)
  }

  lemma ExecOneMore<T>(o: Ops<T>, inputs: seq<Tensor<T>>, body: seq<Instr>, values: seq<Tensor<T>>, i: Instr,
                       t: Tensor<T>)
    requires Exec(o, inputs, body) == Some(values) && ExecInstr(o, values, i) == Some(t)
    ensures Exec(o, inputs, body + [i]) == Some(values + [t])
  {
    assert (body + [i])[..|body|] == body;
  }

  lemma SumTyped<T>(o: Ops<T>, a: Tensor<T>, b: Tensor<T>)
    requires a.Valid() && b.Valid()
    ensures var r := Add(o, a, b); r.Some? ==> r.value.Valid() && r.value.shape == a.shape
  {
  }

  lemma ProductTyped<T>(o: Ops<T>, a: Tensor<T>, b: Tensor<T>)
    requires a.Valid() && b.Valid() && Multipliable(a.shape, b.shape)
    ensures MatmulInto(o, a, b, Splat([a.shape[0], b.shape[1]], o.zero)) == TorchMatmul(o, a, b)
    ensures TorchMatmul(o, a, b).Some? && TorchMatmul(o, a, b).value.shape == [a.shape[0], b.shape[1]]
  {
    ZeroOuts(o, a, b);
    var product := MatmulInto(o, a, b, Splat([a.shape[0], b.shape[1]], o.zero)).value;
    MatmulUnique(o, a, b, product, TorchMatmul(o, a, b).value);
  }

  lemma SimulatePlaceholder<T>(o: Ops<T>, inputs: seq<Tensor<T>>, s: Code, env: Env<T>, values: seq<Tensor<T>>,
                               name: string)
    requires Simulates(o, inputs, s, env, values) && env.out.None?
    requires env.next < |inputs| && name !in env.values
    ensures s.args != []
    ensures Simulates(o, inputs, s.(symbols := s.symbols[name := s.args[0]], args := s.args[1..]),
                      Env(env.values[name := inputs[env.next]], env.next + 1, None), values)
  {
    assert s.args[0] == env.next && values[env.next] == values[..|inputs|][env.next];
  }

  /** A new value for a new name. */
  lemma SimulateValue<T>(o: Ops<T>, inputs: seq<Tensor<T>>, s: Code, env: Env<T>, values: seq<Tensor<T>>,
                         name: string, i: Instr, t: Tensor<T>)
    requires Simulates(o, inputs, s, env, values) && env.out.None? && name !in env.values
    requires ExecInstr(o, values, i) == Some(t)
    ensures Simulates(o, inputs, s.EmitAs(name, i, t.shape), env.(values := env.values[name := t]), values + [t])
  {
    SimulateTemporary(o, inputs, s, env, values, i, t);
    hide Exec, ExecInstr, Typed;
    assert |values| == |s.types| by { TypesCounted(o, inputs, s, env, values); }
  }

  /** A new value without a name. */
  lemma SimulateTemporary<T>(o: Ops<T>, inputs: seq<Tensor<T>>, s: Code, env: Env<T>, values: seq<Tensor<T>>,
                             i: Instr, t: Tensor<T>)
    requires Simulates(o, inputs, s, env, values) && env.out.None?
    requires ExecInstr(o, values, i) == Some(t)
    ensures Simulates(o, inputs, s.Emit(i, t.shape), env, values + [t])
  {
    hide Exec, ExecInstr, Typed, EnvValid, Defined;
    ExecOneMore(o, inputs, s.body, values, i, t);
    TypedMore(values, s.types, t);
    DefinedMore(s, i, t.shape);
    assert (values + [t])[..|inputs|] == inputs;
    assert forall n :: n in s.symbols ==> s.symbols[n] < |values| by { SymbolsDenote(s, values); }
  }

  lemma SymbolsDenote<T>(s: Code, values: seq<Tensor<T>>)
    requires Defined(s) && Typed(values, s.types)
    ensures forall n :: n in s.symbols ==> s.symbols[n] < |values|
  {
  }

  lemma TypedMore<T>(values: seq<Tensor<T>>, types: seq<Shape>, t: Tensor<T>)
    requires Typed(values, types) && t.Valid()
    ensures Typed(values + [t], types + [t.shape])
  {
  }

  lemma DefinedMore(s: Code, i: Instr, shape: Shape)
    requires Defined(s)
    ensures Defined(s.Emit(i, shape))
  {
  }

  lemma SimulateCall<T>(o: Ops<T>, other: Other<T>, inputs: seq<Tensor<T>>, s: Code, env: Env<T>,
                        values: seq<Tensor<T>>, node: Node) returns (values': seq<Tensor<T>>)
    requires node.CallFunction? && Simulates(o, inputs, s, env, values)
    requires EvalNode(o, other, inputs, env, node).Some? && EnvValid(EvalNode(o, other, inputs, env, node).value)
    requires Gen(s, node).Some?
    ensures Simulates(o, inputs, Gen(s, node).value, EvalNode(o, other, inputs, env, node).value, values')
  {
    values' := values;
    if node.Handled() {
      var a, b := s.symbols[node.args[0]], s.symbols[node.args[1]];
      if node.target == "add" {
        SumTyped(o, values[a], values[b]);
        var t := Add(o, values[a], values[b]).value;
        SimulateValue(o, inputs, s, env, values, node.name, AddF(a, b), t);
        values' := values + [t];
      } else {
        values' := SimulateMatmul(o, inputs, s, env, values, node.name, a, b);
      }
    }
  }

  /** One node. */
  lemma SimulateNode<T>(o: Ops<T>, other: Other<T>, inputs: seq<Tensor<T>>, s: Code, env: Env<T>,
                        values: seq<Tensor<T>>, node: Node) returns (values': seq<Tensor<T>>)
    requires Simulates(o, inputs, s, env, values)
    requires EvalNode(o, other, inputs, env, node).Some? && EnvValid(EvalNode(o, other, inputs, env, node).value)
    requires Gen(s, node).Some?
    ensures Simulates(o, inputs, Gen(s, node).value, EvalNode(o, other, inputs, env, node).value, values')
  {
    values' := values;
    match node
    case Placeholder(name) =>
      SimulatePlaceholder(o, inputs, s, env, values, name);
    case CallFunction(name, target, args) =>
      values' := SimulateCall(o, other, inputs, s, env, values, node);
    case Output(results) =>
    case Unhandled(_) =>
  }

  lemma SimulateMatmul<T>(o: Ops<T>, inputs: seq<Tensor<T>>, s: Code, env: Env<T>, values: seq<Tensor<T>>,
                          name: string, a: nat, b: nat) returns (values': seq<Tensor<T>>)
    requires Simulates(o, inputs, s, env, values) && env.out.None? && name !in env.values
    requires a < |values| && b < |values| && Multipliable(values[a].shape, values[b].shape)
    ensures var sizes := [s.types[a][0], s.types[b][1]];
      Simulates(o, inputs, s.Emit(ConstantZero(sizes), sizes).EmitAs(name, Matmul(a, b, |s.types|), sizes),
                env.(values := env.values[name := TorchMatmul(o, values[a], values[b]).value]), values')
  {
    ProductTyped(o, values[a], values[b]);
    var sizes := [s.types[a][0], s.types[b][1]];
    var zero, t := Splat(sizes, o.zero), TorchMatmul(o, values[a], values[b]).value;
    assert ExecInstr(o, values, ConstantZero(sizes)) == Some(zero);
    assert ExecInstr(o, values + [zero], Matmul(a, b, |values|)) == Some(t);
    hide ExecInstr, TorchMatmul, Simulates, MatmulInto;
    assert |values| == |s.types| by { TypesCounted(o, inputs, s, env, values); }
    SimulateTemporary(o, inputs, s, env, values, ConstantZero(sizes), zero);
    SimulateValue(o, inputs, s.Emit(ConstantZero(sizes), sizes), env, values + [zero], name, Matmul(a, b, |values|), t);
    values' := values + [zero] + [t];
  }

  lemma TypesCounted<T>(o: Ops<T>, inputs: seq<Tensor<T>>, s: Code, env: Env<T>, values: seq<Tensor<T>>)
    requires Simulates(o, inputs, s, env, values)
    ensures |values| == |s.types|
  {
  }

  lemma {:induction false} SimulateAll<T>(o: Ops<T>, other: Other<T>, inputs: seq<Tensor<T>>, s: Code, env: Env<T>,
                                        values: seq<Tensor<T>>, nodes: seq<Node>) returns (values': seq<Tensor<T>>)
    requires Simulates(o, inputs, s, env, values)
    requires GenAll(s, nodes).Some? && EvalAll(o, other, inputs, env, nodes).Some?
    ensures Simulates(o, inputs, GenAll(s, nodes).value, EvalAll(o, other, inputs, env, nodes).value, values')
    decreases |nodes|
  {
    values' := values;
    if nodes != [] {
      values' := SimulateNode(o, other, inputs, s, env, values, nodes[0]);
      values' := SimulateAll(o, other, inputs, Gen(s, nodes[0]).value,
        EvalNode(o, other, inputs, env, nodes[0]).value, values', nodes[1..]);
    }
  }

  function Shapes<T>(inputs: seq<Tensor<T>>): (r: seq<Shape>)
    ensures |r| == |inputs| && forall k :: 0 <= k < |inputs| ==> r[k] == inputs[k].shape
  {
    seq(|inputs|, k requires 0 <= k < |inputs| => inputs[k].shape)
  }

  lemma StartSimulates<T>(o: Ops<T>, inputs: seq<Tensor<T>>)
    requires forall k :: 0 <= k < |inputs| ==> inputs[k].Valid()
    ensures Simulates(o, inputs, Start(Shapes(inputs)), Env(map[], 0, None), inputs)
  {
    assert inputs[..|inputs|] == inputs;
  }

  /** The names the importer binds: those of the nodes it does not ignore. */
  function BoundNames(nodes: seq<Node>): set<string> {
    if nodes == [] then {}
    else (if nodes[0].Handled() && !nodes[0].Output? then {nodes[0].name} else {}) + BoundNames(nodes[1..])
  }

  lemma OneBound<T>(o: Ops<T>, other: Other<T>, inputs: seq<Tensor<T>>, s: Code, env: Env<T>, node: Node)
    requires Defined(s) && EnvValid(env) && env.out.None? && !node.Output?
    requires Gen(s, node).Some? && EvalNode(o, other, inputs, env, node).Some?
    ensures Gen(s, node).value.symbols.Keys == s.symbols.Keys + (if node.Handled() then {node.name} else {})
    ensures EvalNode(o, other, inputs, env, node).value.out.None?
  {
    hide Defined, Add, TorchMatmul, EnvValid;
  }

  /** The emitted function returns something exactly if the output is a node the importer did not
      ignore. */
  lemma {:induction false} OutputBound<T>(o: Ops<T>, other: Other<T>, inputs: seq<Tensor<T>>, s: Code, env: Env<T>,
                                          nodes: seq<Node>)
    requires Defined(s) && EnvValid(env) && env.out.None? && GenAll(s, nodes).Some?
    requires EvalAll(o, other, inputs, env, nodes).Some? && EvalAll(o, other, inputs, env, nodes).value.out.Some?
    ensures nodes != [] && nodes[|nodes| - 1].Output? && nodes[|nodes| - 1].results != []
    ensures "output" in GenAll(s, nodes).value.symbols <==>
      nodes[|nodes| - 1].results[0] in s.symbols.Keys + BoundNames(nodes)
    decreases |nodes|
  {
    hide Defined, Add, TorchMatmul, EnvValid;
    if nodes[0].Output? {
      assert nodes[1..] == [];
    } else {
      OneBound(o, other, inputs, s, env, nodes[0]);
      hide Gen, EvalNode;
      OutputBound(o, other, inputs, Gen(s, nodes[0]).value,
        EvalNode(o, other, inputs, env, nodes[0]).value, nodes[1..]);
      assert nodes[1..][|nodes| - 2] == nodes[|nodes| - 1];
    }
  }

  /** If the import succeeds, the emitted code runs on every input of the declared shapes: no operand
      is used before it is defined, and every inferred type is the run-time shape.  The function
      returns the graph's output, unless that is a node the importer ignored; then it returns
      nothing. */
  lemma ImportIsCorrect<T>(o: Ops<T>, other: Other<T>, inputs: seq<Tensor<T>>, nodes: seq<Node>)
    returns (values: seq<Tensor<T>>)
    requires forall k :: 0 <= k < |inputs| ==> inputs[k].Valid()
    requires EvalAll(o, other, inputs, Env(map[], 0, None), nodes).Some?
    requires GenAll(Start(Shapes(inputs)), nodes).Some?
    ensures var code := GenAll(Start(Shapes(inputs)), nodes).value;
      var out := EvalAll(o, other, inputs, Env(map[], 0, None), nodes).value.out;
      && Exec(o, inputs, code.body) == Some(values) && Typed(values, code.types)
      && (out.Some? ==>
            && nodes != [] && nodes[|nodes| - 1].Output? && nodes[|nodes| - 1].results != []
            && ("output" in code.symbols <==> nodes[|nodes| - 1].results[0] in BoundNames(nodes))
            && ("output" in code.symbols ==>
                  code.symbols["output"] < |values| && values[code.symbols["output"]] == out.value))
  {
    StartSimulates(o, inputs);
    if EvalAll(o, other, inputs, Env(map[], 0, None), nodes).value.out.Some? {
      OutputBound(o, other, inputs, Start(Shapes(inputs)), Env(map[], 0, None), nodes);
    }
    values := SimulateAll(o, other, inputs, Start(Shapes(inputs)), Env(map[], 0, None), inputs, nodes);
  }

  // ----- the import succeeds -----

  /** Every node evaluated so far has a symbol. */
  ghost predicate AllKnown<T>(s: Code, env: Env<T>) {
    if env.out.None? then s.symbols.Keys == env.values.Keys else "output" in s.symbols
  }

  lemma {:induction false} ImportSucceedsFrom<T>(o: Ops<T>, other: Other<T>, inputs: seq<Tensor<T>>, s: Code,
                                                 env: Env<T>,
                                               values: seq<Tensor<T>>, nodes: seq<Node>)
    requires Simulates(o, inputs, s, env, values) && AllKnown(s, env)
    requires EvalAll(o, other, inputs, env, nodes).Some? && forall k :: 0 <= k < |nodes| ==> nodes[k].Handled()
    ensures GenAll(s, nodes).Some? && AllKnown(GenAll(s, nodes).value, EvalAll(o, other, inputs, env, nodes).value)
    decreases |nodes|
  {
    if nodes != [] {
      GenSucceeds(o, other, inputs, s, env, values, nodes[0]);
      var values' := SimulateNode(o, other, inputs, s, env, values, nodes[0]);
      hide Simulates, Gen, EvalNode;
      ImportSucceedsFrom(o, other, inputs, Gen(s, nodes[0]).value,
        EvalNode(o, other, inputs, env, nodes[0]).value, values', nodes[1..]);
    }
  }

  lemma GenSucceeds<T>(o: Ops<T>, other: Other<T>, inputs: seq<Tensor<T>>, s: Code, env: Env<T>,
                       values: seq<Tensor<T>>, node: Node)
    requires Simulates(o, inputs, s, env, values) && AllKnown(s, env) && node.Handled()
    requires EvalNode(o, other, inputs, env, node).Some?
    ensures Gen(s, node).Some? && AllKnown(Gen(s, node).value, EvalNode(o, other, inputs, env, node).value)
  {
    if node.CallFunction? && node.target == "matmul" {
      var a, b := s.symbols[node.args[0]], s.symbols[node.args[1]];
      assert Multipliable(values[a].shape, values[b].shape);
    }
    hide Exec, ExecInstr, Typed, TorchMatmul, Add;
  }

  /** On a well-formed graph of placeholders, additions, matrix products and an output, the importer
      raises no exception and the function it emits returns the graph's output.  That no exception is
      raised when a matrix product has a sum as operand takes it for granted that the operation object
      of a sum has a type, as its result has. */
  lemma ImportPreservesMeaning<T>(o: Ops<T>, other: Other<T>, inputs: seq<Tensor<T>>, nodes: seq<Node>)
    returns (values: seq<Tensor<T>>)
    requires forall k :: 0 <= k < |inputs| ==> inputs[k].Valid()
    requires forall k :: 0 <= k < |nodes| ==> nodes[k].Handled()
    requires EvalAll(o, other, inputs, Env(map[], 0, None), nodes).Some?
    requires EvalAll(o, other, inputs, Env(map[], 0, None), nodes).value.out.Some?
    ensures GenAll(Start(Shapes(inputs)), nodes).Some?
    ensures var code := GenAll(Start(Shapes(inputs)), nodes).value;
      && "output" in code.symbols && Exec(o, inputs, code.body) == Some(values)
      && code.symbols["output"] < |values|
      && Some(values[code.symbols["output"]]) == EvalAll(o, other, inputs, Env(map[], 0, None), nodes).value.out
  {
    StartSimulates(o, inputs);
    ImportSucceedsFrom(o, other, inputs, Start(Shapes(inputs)), Env(map[], 0, None), inputs, nodes);
    values := ImportIsCorrect(o, other, inputs, nodes);
  }
}
