/** Lowering of instructions to assembly nodes as functions of the storage state
    (src/backend/codegen/instructions.cpp, dataflow.cpp and codegen.cpp). */
module Lowering {
  import opened Wrappers
  import opened Ir
  import opened Machine
  import opened Storage

  /** What stays fixed while one function is generated. */
  datatype Context = Context(returnType: Size, globals: set<Name>)

  /** Storage and nodes after lowering, and the location of the result, if any. */
  datatype Lowered = Lowered(st: Store, nodes: seq<Node>, dest: Option<Loc>)

  /** The operand of a value read or written at a given size; literals keep theirs. */
  function SizedOperand(globals: set<Name>, st: Store, v: Value, size: Size): Result<Operand> {
    match v
    case Lit(s, n) => Ok(OImm(n, s))
    case Var(_, x) =>
      var loc :- Lookup(globals, st, x);
      OperandAt(loc, size)
  }

  function LowerStore(cx: Context, st: Store, size: Size, ops: seq<Value>): Result<Lowered> {
    if |ops| != 2 then Err(Rejected)
    else
      var dest :- SizedOperand(cx.globals, st, ops[0], size);
      var src :- ValueOperand(cx.globals, st, ops[1]);
      Ok(Lowered(st, [NMov(dest, src)], None))
  }

  function Resize(o: Operand, size: Size): Operand {
    match o
    case OReg(r, _) => OReg(r, size)
    case OImm(n, _) => OImm(n, size)
    case OMem(k, _) => OMem(k, size)
    case OGlobal(_) => o
  }

  function LowerLoad(cx: Context, st: Store, size: Size, ops: seq<Value>): Result<Lowered> {
    if |ops| != 1 then Err(Rejected)
    else
      var found :- FindValStorage(st, size);
      var access :- ValueOperand(cx.globals, found.0, ops[0]);
      var dest :- OperandAt(found.1, size);
      Ok(Lowered(found.0, [NMov(dest, Resize(access, size))], Some(found.1)))
  }

  function LowerIcmp(cx: Context, st: Store, t: IcmpType, ops: seq<Value>): Result<Lowered> {
    if |ops| != 2 then Err(Rejected)
    else
      var lhs :- ValueOperand(cx.globals, st, ops[0]);
      var rhs :- ValueOperand(cx.globals, st, ops[1]);
      Ok(Lowered(st, [NCmp(lhs, rhs)], Some(Flag(t))))
  }

  /** The comparison a condition operand stands for. */
  function ConditionOf(cx: Context, st: Store, v: Value): Result<IcmpType> {
    if v.Lit? then Err(Rejected)
    else
      var loc :- Lookup(cx.globals, st, v.name);
      if loc.Flag? then Ok(loc.cond) else Err(Rejected)
  }

  function LowerBranch(cx: Context, st: Store, t: Name, f: Name, ops: seq<Value>): Result<Lowered> {
    if |ops| != 1 then Err(Rejected)
    else
      var c :- ConditionOf(cx, st, ops[0]);
      Ok(Lowered(st, [NCondJmp(c, t), NJmp(f)], None))
  }

  function LowerRet(cx: Context, st: Store, ops: seq<Value>): Result<Lowered> {
    if ops == [] then
      if cx.returnType == NoSize then Ok(Lowered(st, [NRet], None)) else Err(Rejected)
    else if |ops| != 1 then Err(Rejected)
    else
      var size :- ValueSize(cx.globals, st, ops[0]);
      if size != cx.returnType then Err(Rejected)
      else
        var src :- ValueOperand(cx.globals, st, ops[0]);
        Ok(Lowered(st, [NMov(OReg(RAX, size), src), NRet], None))
  }

  /** The dominating operand is the left one if it is in a register, else the right
      one, brought into a register; then the operands change places. */
  function Dominate(cx: Context, st: Store, lhs: Value, rhs: Value): (r: Result<(Emit, Value, Value)>)
    ensures r.Ok? ==> RegisterOf(r.value.0.st, r.value.1).Some?
  {
    if RegisterOf(st, lhs).Some? then Ok((Emit(st, []), lhs, rhs))
    else
      var e :- EnsureInRegister(cx.globals, st, rhs);
      Ok((e.0, e.1, lhs))
  }

  /** The result replaces the dominating operand. */
  function LowerArith(cx: Context, st: Store, t: ArithType, ops: seq<Value>): Result<Lowered> {
    if |ops| != 2 then Err(Rejected)
    else
      var placed :- Dominate(cx, st, ops[0], ops[1]);
      var e := placed.0;
      var dest :- ValueOperand(cx.globals, e.st, placed.1);
      var src :- ValueOperand(cx.globals, e.st, placed.2);
      Ok(Lowered(e.st, e.nodes + [NArith(t, dest, src)], Some(e.st.vmap[placed.1.name])))
  }

  /** Set-up of argument i: keep it in place and move its owner out, or vacate the
      argument register and copy. Allocated memory passes its address. */
  function LowerArg(cx: Context, st: Store, v: Value, dropped: bool, r: Register): Result<Emit> {
    var here := RegisterOf(st, v);
    if v.size == Ptr && v.Lit? then Err(Rejected)
    else if v.size == Ptr && v.name in st.vmap && st.vmap[v.name].Slot? then
      var e :- EmptyRegister(cx.globals, st, r);
      Ok(Emit(e.st, e.nodes + [NLea(OReg(r, Ptr), OMem(st.vmap[v.name].below, Ptr))]))
    else
      if !dropped && here == Some(r) then EmptyRegister(cx.globals, st, r)
      else CopyToRegister(cx.globals, st, v, r)
  }

  function LowerArgs(cx: Context, st: Store, ops: seq<Value>, dropped: seq<bool>, i: nat): Result<Emit>
    requires i <= |ops|
    decreases |ops| - i
  {
    if i == |ops| then Ok(Emit(st, []))
    else if i >= MAX_ARGS || i >= |dropped| then Err(Rejected)
    else
      var e :- LowerArg(cx, st, ops[i], dropped[i], ParamRegister(i));
      var rest :- LowerArgs(cx, e.st, ops, dropped, i + 1);
      Ok(Emit(rest.st, e.nodes + rest.nodes))
  }

  function LowerCall(cx: Context, st: Store, g: Name, size: Size, ops: seq<Value>,
                     dropped: seq<bool>): Result<Lowered> {
    var args :- LowerArgs(cx, st, ops, dropped, 0);
    var rax :- EmptyRegister(cx.globals, args.st, RAX);
    Ok(Lowered(GetRegister(rax.st, RAX, size),
               args.nodes + rax.nodes + [NMov(OReg(RAX, I64), OImm(0, I64)), NCall(g)],
               Some(InReg(RAX))))
  }

  /** The mov and cmov of a select into a found register. */
  function SelectInto(cx: Context, e: Emit, r: Register, cond: IcmpType, onTrue: Value,
                      onFalse: Value): Result<Lowered> {
    var src :- ValueOperand(cx.globals, e.st, onFalse);
    var alt :- ValueOperand(cx.globals, e.st, onTrue);
    var home := OReg(r, e.st.cells[r].size);
    Ok(Lowered(e.st, e.nodes + [NMov(home, src), NCmov(cond, home, alt)], Some(InReg(r))))
  }

  function LowerSelect(cx: Context, st: Store, ops: seq<Value>): Result<Lowered> {
    if |ops| != 3 then Err(Rejected)
    else
      var cond :- ConditionOf(cx, st, ops[0]);
      var size1 :- ValueSize(cx.globals, st, ops[1]);
      var size2 :- ValueSize(cx.globals, st, ops[2]);
      if size1 != size2 then Err(Rejected)
      else if ops[1].Lit? && ops[2].Lit? then Err(Unmodelled)
      else
        var found :- ForceFindRegister(cx.globals, st, size1);
        SelectInto(cx, found.0, found.1, cond, ops[1], ops[2])
  }

  function LowerOp(cx: Context, st: Store, inst: Inst): Result<Lowered> {
    var ops := inst.operands;
    match inst.op
    case Literal(s, n) => if ops == [] then Ok(Lowered(st, [], Some(Alias(s, n)))) else Err(Rejected)
    case Allocate(n) =>
      if ops == [] then
        var (st1, loc) := StackAllocate(st, n);
        Ok(Lowered(st1, [], Some(loc)))
      else Err(Rejected)
    case Store(s) => LowerStore(cx, st, s, ops)
    case Load(s) => LowerLoad(cx, st, s, ops)
    case Icmp(t) => LowerIcmp(cx, st, t, ops)
    case Branch(t, f) => LowerBranch(cx, st, t, f, ops)
    case Jmp(l) => if ops == [] then Ok(Lowered(st, [NJmp(l)], None)) else Err(Rejected)
    case Arith(t) => LowerArith(cx, st, t, ops)
    case Ret => LowerRet(cx, st, ops)
    case Call(g, s) => LowerCall(cx, st, g, s, ops, inst.dropped)
    case Select => LowerSelect(cx, st, ops)
    case _ => Err(Unmodelled)
  }

  /** Names of the operands that are dropped at an instruction, in operand order. */
  function Pending(ops: seq<Value>, dropped: seq<bool>): seq<Name>
    requires |dropped| == |ops|
  {
    if ops == [] then []
    else (if dropped[0] && ops[0].Var? then [ops[0].name] else []) + Pending(ops[1..], dropped[1..])
  }

  /** One instruction of gen_function: drop, lower, drop, erase, clean, map. */
  function LowerInst(cx: Context, st: Store, inst: Inst): Result<Emit> {
    if |inst.dropped| != |inst.operands| then Err(Rejected)
    else
      var pending := Pending(inst.operands, inst.dropped);
      var low :- LowerOp(cx, if AutoDrop(inst.op) then DropAll(st, pending) else st, inst);
      Ok(Emit(Settle(low.st, inst, pending, low.dest), low.nodes))
  }

  /** The storage after lowering: late drops, erasure, clean-up and the result's home. */
  function Settle(st: Store, inst: Inst, pending: seq<Name>, dest: Option<Loc>): Store {
    var st1 := CleanTemps(EraseAll(if AutoDrop(inst.op) then st else DropAll(st, pending), pending));
    if dest.Some? && inst.result.Some? then MapValue(st1, inst.result.value, dest.value) else st1
  }

  function LowerInsts(cx: Context, st: Store, insts: seq<Inst>): Result<Emit>
    decreases |insts|
  {
    if insts == [] then Ok(Emit(st, []))
    else
      var e :- LowerInst(cx, st, insts[0]);
      var rest :- LowerInsts(cx, e.st, insts[1..]);
      Ok(Emit(rest.st, e.nodes + rest.nodes))
  }

  /** Storage and labels after the blocks of a function. */
  function LowerBlocks(cx: Context, st: Store, blocks: seq<Block>): Result<(Store, seq<Label>)>
    decreases |blocks|
  {
    if blocks == [] then Ok((st, []))
    else
      var e :- LowerInsts(cx, st, blocks[0].insts);
      var rest :- LowerBlocks(cx, e.st, blocks[1..]);
      Ok((rest.0, [Label(blocks[0].name, e.nodes)] + rest.1))
  }

  const FRESH: Store := Store.Store(EMPTY_CELLS, map[], 0, 0)

  /** Parameters sit in the argument registers, which get no owner. */
  function PlaceParams(params: seq<(Name, Size)>): Store
    requires |params| <= MAX_ARGS
  {
    if params == [] then FRESH
    else
      var last := |params| - 1;
      var st := GetRegister(PlaceParams(params[..last]), ParamRegister(last), params[last].1);
      st.(vmap := st.vmap[params[last].0 := InReg(ParamRegister(last))])
  }

  /** Registers the prologue pushes, lowest first: tampered with and not a parameter. */
  function SavedFrom(cells: Cells, isParam: set<nat>, i: nat): seq<nat>
    requires i <= REGISTERS
    decreases REGISTERS - i
  {
    if i == REGISTERS then []
    else (if cells[i].tampered && i !in isParam then [i] else []) + SavedFrom(cells, isParam, i + 1)
  }

  /** The storage before instruction i of block b. */
  function StateAt(cx: Context, f: Function, b: nat, i: nat): Result<Store>
    requires |f.params| <= MAX_ARGS && b < |f.blocks| && i <= |f.blocks[b].insts|
  {
    var before :- LowerBlocks(cx, PlaceParams(f.params), f.blocks[..b]);
    var e :- LowerInsts(cx, before.0, f.blocks[b].insts[..i]);
    Ok(e.st)
  }

  const STACKSAVE: Name := "__stacksave"

  function CompileFunction(globals: set<Name>, f: Function): Result<AsmFunction> {
    if |f.params| > MAX_ARGS then Err(Rejected)
    else
      var body :- LowerBlocks(Context(f.returnType, globals), PlaceParams(f.params), f.blocks);
      Ok(AsmFunction([Label(STACKSAVE, [NStackSave])] + body.1,
                     body.0.frame,
                     SavedFrom(body.0.cells, ArgRegisters(|f.params|), 1)))
  }
}
