/** Evaluating generation, IR runs and machine runs one step at a time. */
module Evaluation {
  import opened Wrappers
  import opened Ir
  import opened Machine
  import opened IrSemantics
  import opened Storage
  import opened Lowering

  // The pieces of examples: values, environments, and the cells of a register in use or used before

  function V(x: Name): Value {
    Var(I64, x)
  }

  function L(n: nat): Value {
    Lit(I64, n)
  }

  function With(env: Env, x: Name, v: Val): Env {
    env.(vals := env.vals[x := v])
  }

  function Owned(x: Name): Cell {
    Cell(x, I64, true, true)
  }

  function Thawed(x: Name): Cell {
    Cell(x, I64, true, false)
  }

  // Generation

  lemma PendingOf(v: Value, w: Value, d: bool, e: bool)
    ensures Pending([], []) == []
    ensures Pending([v], [d]) == if d && v.Var? then [v.name] else []
    ensures Pending([v, w], [d, e]) == (if d && v.Var? then [v.name] else []) + (if e && w.Var? then [w.name] else [])
    ensures !(e && w.Var?) ==> Pending([v, w], [d, e]) == if d && v.Var? then [v.name] else []
  {
    assert [v, w][1..] == [w] && [d, e][1..] == [e] && [v][1..] == [] && [d][1..] == [] && [w][1..] == [] &&
           [e][1..] == [];
    assert Pending([w], [e]) == if e && w.Var? then [w.name] else [];
  }

  lemma OneName(st: Store, x: Name)
    ensures DropAll(st, [x]) == DropOwnership(st, x) && EraseAll(st, [x]) == EraseValue(st, x)
  {
    assert [x][1..] == [];
  }

  lemma LowerOne(cx: Context, st: Store, inst: Inst, rest: seq<Inst>, e: Emit)
    requires LowerInst(cx, st, inst) == Ok(e)
    ensures LowerInsts(cx, st, [inst] + rest) ==
            match LowerInsts(cx, e.st, rest) case Ok(more) => Ok(Emit(more.st, e.nodes + more.nodes))
              case Err(x) => Err(x)
  {
    hide LowerInst;
    assert ([inst] + rest)[1..] == rest;
  }

  lemma LowerNone(cx: Context, st: Store)
    ensures LowerInsts(cx, st, []) == Ok(Emit(st, []))
  {
  }

  lemma LowerBlock(cx: Context, st: Store, block: Block, rest: seq<Block>, e: Emit, st1: Store, labels: seq<Label>)
    requires LowerInsts(cx, st, block.insts) == Ok(e) && LowerBlocks(cx, e.st, rest) == Ok((st1, labels))
    ensures LowerBlocks(cx, st, [block] + rest) == Ok((st1, [Label(block.name, e.nodes)] + labels))
  {
    hide LowerInsts;
    assert ([block] + rest)[1..] == rest;
  }

  lemma NoBlocks(cx: Context, st: Store)
    ensures LowerBlocks(cx, st, []) == Ok((st, []))
  {
  }

  // Runs

  /** An instruction that does not transfer control, and what is left after it. */
  lemma OneInst(p: Program, f: Function, inst: Inst, rest: seq<Inst>, b: nat, env: Env, env1: Env, fuel: nat,
                calls: nat)
    requires b < |f.blocks| && Perform(inst, env) == Some(env1)
    ensures IrSemantics.Run(p, f, [inst] + rest, b, env, fuel, calls) ==
            IrSemantics.Run(p, f, rest, b, env1, fuel, calls)
  {
    hide IntOf, CellOf, Arithmetic;
    assert ([inst] + rest)[1..] == rest;
  }

  lemma OneNode(p: AsmProgram, fn: AsmFunction, node: Node, rest: seq<Node>, b: nat, m: State, m1: State, fuel: nat)
    requires m.Valid() && b < |fn.blocks| && Step(node, m) == Some(m1)
    ensures m1.Valid() && Machine.Run(p, fn, [node] + rest, b, m, fuel) == Machine.Run(p, fn, rest, b, m1, fuel)
  {
    hide Read, Assign, Arithmetic;
    assert ([node] + rest)[1..] == rest;
  }

  lemma FindHere(first: Label, rest: seq<Label>, l: Name)
    ensures FindLabel([first] + rest, l) ==
            if first.name == l then Some(0) else match FindLabel(rest, l) case Some(i) => Some(i + 1) case None => None
  {
    assert ([first] + rest)[1..] == rest;
  }

  // Mentions

  lemma MentionedFirst(inst: Inst, rest: seq<Inst>, of: set<Name>)
    requires Mentions(inst) == of
    ensures InstsMention([inst] + rest) == of + InstsMention(rest)
  {
    assert ([inst] + rest)[1..] == rest;
  }

  lemma MentionedNone()
    ensures InstsMention([]) == {} && BlocksMention([]) == {}
  {
  }

  lemma NamesOfTwo(v: Value, w: Value)
    ensures VarNames([v, w]) == (if v.Var? then {v.name} else {}) + (if w.Var? then {w.name} else {})
    ensures VarNames([v]) == if v.Var? then {v.name} else {}
  {
    assert v in [v, w] && w in [v, w] && v in [v];
  }
}
