/** What an IR function over 64-bit integers computes. A run has no meaning (None)
    where the program reads a name that holds nothing, mistypes an operand, stores
    beyond an allocation or runs out of fuel. */
module IrSemantics {
  import opened Wrappers
  import opened Ir
  import opened Machine
  import Conditions

  /** An integer, a comparison result, or the pointer an allocation of some bytes made. */
  datatype Val = IntV(w: Word) | BoolV(b: bool) | PtrV(bytes: nat)

  /** Values of names, and contents of the allocations by the name of their pointer. */
  datatype Env = Env(vals: map<Name, Val>, cells: map<Name, Word>)

  type Program = map<Name, Function>

  function IntOf(env: Env, v: Value): Option<Word> {
    match v
    case Lit(s, n) => if s == I64 && n < IMM_LIMIT then Some(n) else None
    case Var(s, x) => if s == I64 && x in env.vals && env.vals[x].IntV? then Some(env.vals[x].w) else None
  }

  function BoolOf(env: Env, v: Value): Option<bool> {
    if v.Var? && v.name in env.vals && env.vals[v.name].BoolV? then Some(env.vals[v.name].b) else None
  }

  /** The name behind a pointer operand to at least eight bytes. */
  function CellOf(env: Env, v: Value): Option<Name> {
    if v.Var? && v.name in env.vals && env.vals[v.name].PtrV? && env.vals[v.name].bytes >= 8 then Some(v.name) else None
  }

  function IntsOf(env: Env, vs: seq<Value>): (r: Option<seq<Word>>)
    ensures r.Some? ==> |r.value| == |vs| && forall i | 0 <= i < |vs| :: IntOf(env, vs[i]) == Some(r.value[i])
    ensures r.None? ==> exists i | 0 <= i < |vs| :: IntOf(env, vs[i]).None?
  {
    if vs == [] then Some([])
    else
      match (IntOf(env, vs[0]), IntsOf(env, vs[1..]))
      case (Some(w), Some(ws)) => Some([w] + ws)
      case _ =>
        assert IntsOf(env, vs[1..]).None? ==> exists i | 0 <= i < |vs| - 1 ::
                 IntOf(env, vs[1..][i]).None? && IntOf(env, vs[i + 1]).None?;
        None
  }

  function Bind(env: Env, result: Option<Name>, v: Val): Env {
    if result.Some? then env.(vals := env.vals[result.value := v]) else env
  }

  /** The value an instruction that neither calls nor transfers control gives its result. */
  function Compute(inst: Inst, env: Env): Option<Val> {
    var ops := inst.operands;
    match inst.op
    case Allocate(n) => if ops == [] then Some(PtrV(n)) else None
    case Load(s) =>
      if |ops| != 1 || s != I64 then None
      else
        (match CellOf(env, ops[0])
         case Some(p) => if p in env.cells then Some(IntV(env.cells[p])) else None
         case None => None)
    case Icmp(t) =>
      if |ops| != 2 then None
      else
        (match (IntOf(env, ops[0]), IntOf(env, ops[1]))
         case (Some(a), Some(b)) => Some(BoolV(Conditions.Relation(t, HALF, a, b)))
         case _ => None)
    case Arith(t) =>
      if |ops| != 2 then None
      else
        (match (IntOf(env, ops[0]), IntOf(env, ops[1]))
         case (Some(a), Some(b)) =>
           (match Arithmetic(t, a, b)
            case Some(w) => Some(IntV(w))
            case None => None)
         case _ => None)
    case Select =>
      if |ops| != 3 then None
      else
        (match (BoolOf(env, ops[0]), IntOf(env, ops[1]), IntOf(env, ops[2]))
         case (Some(c), Some(a), Some(b)) => Some(IntV(if c then a else b))
         case _ => None)
    case _ => None
  }

  /** One instruction that falls through to the next and does not call. Memory that was
      just allocated holds nothing. */
  function Perform(inst: Inst, env: Env): Option<Env> {
    if inst.op.Allocate? && inst.result.Some? then
      match Compute(inst, env)
      case Some(v) => Some(Bind(env.(cells := env.cells - {inst.result.value}), inst.result, v))
      case None => None
    else if inst.op.Store? then
      if |inst.operands| != 2 || inst.op.ssize != I64 then None
      else
        match (CellOf(env, inst.operands[0]), IntOf(env, inst.operands[1]))
        case (Some(p), Some(w)) => Some(env.(cells := env.cells[p := w]))
        case _ => None
    else
      match Compute(inst, env)
      case Some(v) => Some(Bind(env, inst.result, v))
      case None => None
  }

  function BindParams(params: seq<(Name, Size)>, args: seq<Word>): map<Name, Val>
    requires |params| == |args|
  {
    if params == [] then map[]
    else
      var last := |params| - 1;
      BindParams(params[..last], args[..last])[params[last].0 := IntV(args[last])]
  }

  /** Runs the remaining instructions of block b and what follows, to the function's
      return; the result is the returned integer, if any. Every taken jump and every call
      costs one unit of fuel, and calls nest no deeper than calls says. */
  function Run(p: Program, f: Function, insts: seq<Inst>, b: nat, env: Env, fuel: nat, calls: nat): Option<Option<Word>>
    requires b < |f.blocks|
    decreases fuel, |f.blocks| - b, |insts|
  {
    if insts == [] then
      if b + 1 < |f.blocks| then Run(p, f, f.blocks[b + 1].insts, b + 1, env, fuel, calls) else None
    else
      var inst := insts[0];
      match inst.op
      case Ret =>
        if inst.operands == [] then
          if f.returnType == NoSize then Some(None) else None
        else if |inst.operands| != 1 || f.returnType != I64 then None
        else
          (match IntOf(env, inst.operands[0])
           case Some(w) => Some(Some(w))
           case None => None)
      case Jmp(l) => if inst.operands == [] then Goto(p, f, l, env, fuel, calls) else None
      case Branch(t, e) =>
        if |inst.operands| != 1 then None
        else
          (match BoolOf(env, inst.operands[0])
           case Some(c) => Goto(p, f, if c then t else e, env, fuel, calls)
           case None => None)
      case Call(g, s) =>
        (match IntsOf(env, inst.operands)
         case Some(args) =>
           (match Invoke(p, g, args, fuel, calls)
            case Some(v) =>
              if inst.result.None? then Run(p, f, insts[1..], b, env, fuel, calls)
              else if v.Some? && s == I64 then
                Run(p, f, insts[1..], b, Bind(env, inst.result, IntV(v.value)), fuel, calls)
              else None
            case None => None)
         case None => None)
      case _ =>
        (match Perform(inst, env)
         case Some(env1) => Run(p, f, insts[1..], b, env1, fuel, calls)
         case None => None)
  }

  function Goto(p: Program, f: Function, l: Name, env: Env, fuel: nat, calls: nat): Option<Option<Word>>
    decreases fuel, 0
  {
    if fuel == 0 then None
    else
      match FindBlock(f.blocks, l)
      case Some(t) => Run(p, f, f.blocks[t].insts, t, env, fuel - 1, calls)
      case None => None
  }

  function Invoke(p: Program, g: Name, args: seq<Word>, fuel: nat, calls: nat): Option<Option<Word>>
    decreases fuel, 0
  {
    if fuel == 0 || calls == 0 || g !in p || p[g].blocks == [] || |p[g].params| != |args| then None
    else Run(p, p[g], p[g].blocks[0].insts, 0, Env(BindParams(p[g].params, args), map[]), fuel - 1, calls - 1)
  }
}
