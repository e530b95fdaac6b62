/** Sizes and operands: what code generation accepts, and that it gives values the sizes that the
    instructions say and never mixes sizes (src/backend/codegen/instructions.cpp,
    src/backend/codegen/context/value_reference.cpp). */
module Sizes {
  import opened Wrappers
  import opened Ir
  import opened Machine
  import opened Storage
  import opened Lowering
  import opened Ownership
  import opened Simulation
  import opened FrameLayout
  import opened ArgumentSetup

  // Numbers of operands

  /** How many operands an instruction takes; a return takes one or none, a call up to as many as
      there are argument registers. */
  predicate TakesOperands(op: Op, n: nat) {
    match op
    case Ret => n <= 1
    case Call(_, _) => n <= MAX_ARGS
    case Load(_) => n == 1
    case Branch(_, _) => n == 1
    case Store(_) => n == 2
    case Icmp(_) => n == 2
    case Arith(_) => n == 2
    case Select => n == 3
    case _ => n == 0
  }

  lemma {:induction false} ArgsTake(cx: Context, st: Store, ops: seq<Value>, dropped: seq<bool>, i: nat)
    requires i <= |ops| && i <= MAX_ARGS && LowerArgs(cx, st, ops, dropped, i).Ok?
    ensures |ops| <= MAX_ARGS
    decreases |ops| - i
  {
    hide LowerArg;
    if i < |ops| {
      ArgsTake(cx, LowerArg(cx, st, ops[i], dropped[i], ParamRegister(i)).value.st, ops, dropped, i + 1);
    }
  }

  /** An instruction with another number of operands is rejected. */
  lemma LoweredTakesOperands(cx: Context, st: Store, inst: Inst)
    requires LowerInst(cx, st, inst).Ok?
    ensures TakesOperands(inst.op, |inst.operands|) && |inst.dropped| == |inst.operands|
  {
    hide LowerArgs, LowerStore, LowerLoad, LowerIcmp, LowerBranch, LowerRet, LowerArith, LowerSelect, EmptyRegister,
         DropAll, Settle, Pending;
    LoweredTakes(cx, if AutoDrop(inst.op) then DropAll(st, Pending(inst.operands, inst.dropped)) else st, inst);
  }

  lemma LoweredTakes(cx: Context, st: Store, inst: Inst)
    requires LowerOp(cx, st, inst).Ok?
    ensures TakesOperands(inst.op, |inst.operands|)
  {
    hide LowerArgs, EmptyRegister, ForceFindRegister, Dominate, FindValStorage, ValueOperand, SizedOperand, ConditionOf,
         ValueSize;
    if inst.op.Call? {
      ArgsTake(cx, st, inst.operands, inst.dropped, 0);
    }
  }

  /** So is a function with more parameters than there are argument registers, whatever its blocks
      are, and a call with more operands. */
  lemma TooManyAreRejected(globals: set<Name>, f: Function, cx: Context, st: Store, inst: Inst)
    ensures |f.params| > MAX_ARGS ==> CompileFunction(globals, f) == Err(Rejected)
    ensures inst.op.Call? && |inst.operands| > MAX_ARGS ==> LowerInst(cx, st, inst).Err?
  {
    hide LowerOp, LowerBlocks;
    if inst.op.Call? && LowerInst(cx, st, inst).Ok? {
      LoweredTakesOperands(cx, st, inst);
    }
  }

  // Exactly what is lowered

  /** An operand of an instruction of its own: a literal, a name in a register or in memory, or a
      global string; not a comparison or an alias. */
  predicate Addressable(globals: set<Name>, st: Store, v: Value) {
    v.Var? ==> if v.name in st.vmap then !st.vmap[v.name].Flag? && !st.vmap[v.name].Alias? else v.name in globals
  }

  /** The comparison whose outcome a name stands for. */
  predicate IsCondition(st: Store, v: Value) {
    v.Var? && v.name in st.vmap && st.vmap[v.name].Flag?
  }

  /** When the instructions that move nothing are lowered. */
  predicate Acceptable(cx: Context, st: Store, op: Op, ops: seq<Value>) {
    TakesOperands(op, |ops|) &&
    match op
    case Store(_) => Addressable(cx.globals, st, ops[0]) && Addressable(cx.globals, st, ops[1])
    case Load(s) =>
      Addressable(cx.globals, st, ops[0]) &&
      ((exists r: Register :: st.cells[r].owner == "") || SizeInBytes(s).Some?)
    case Icmp(_) => Addressable(cx.globals, st, ops[0]) && Addressable(cx.globals, st, ops[1])
    case Branch(_, _) => IsCondition(st, ops[0])
    case Ret =>
      if ops == [] then cx.returnType == NoSize
      else Addressable(cx.globals, st, ops[0]) && ValueSize(cx.globals, st, ops[0]) == Ok(cx.returnType)
    case _ => true
  }

  lemma AddressableReads(globals: set<Name>, st: Store, v: Value)
    ensures Addressable(globals, st, v) <==> ValueOperand(globals, st, v).Ok?
    ensures forall s: Size :: Addressable(globals, st, v) <==> SizedOperand(globals, st, v, s).Ok?
    ensures forall r: Register, s: Size ::
      ValueOperand(globals, GetRegister(st, r, s), v).Ok? <==> Addressable(globals, st, v)
    ensures forall k: nat :: ValueOperand(globals, st.(frame := k), v) == ValueOperand(globals, st, v)
  {
  }

  lemma ConditionIs(cx: Context, st: Store, v: Value)
    ensures ConditionOf(cx, st, v).Ok? <==> IsCondition(st, v)
  {
  }

  predicate MovesNothing(op: Op) {
    op.Literal? || op.Allocate? || op.Store? || op.Load? || op.Icmp? || op.Branch? || op.Jmp? || op.Ret?
  }

  /** They are lowered exactly when they are acceptable. */
  lemma LowersExactly(cx: Context, st: Store, inst: Inst)
    requires MovesNothing(inst.op)
    ensures LowerOp(cx, st, inst).Ok? <==> Acceptable(cx, st, inst.op, inst.operands)
  {
    hide ValueOperand, SizedOperand, Addressable, ConditionOf, IsCondition, FirstFree, GetRegister, ValueSize;
    var ops := inst.operands;
    forall v: Value
      ensures Addressable(cx.globals, st, v) <==> ValueOperand(cx.globals, st, v).Ok?
      ensures forall s: Size :: Addressable(cx.globals, st, v) <==> SizedOperand(cx.globals, st, v, s).Ok?
      ensures ConditionOf(cx, st, v).Ok? <==> IsCondition(st, v)
    {
      AddressableReads(cx.globals, st, v);
      ConditionIs(cx, st, v);
    }
    if inst.op.Load? && |ops| == 1 {
      AddressableReads(cx.globals, st, ops[0]);
    }
  }

  /** A literal alias emits nothing and keeps size and value, but no operand can be made of it. */
  lemma AliasesAreNotRead(cx: Context, st: Store, s: Size, n: nat, x: Name, v: Value)
    requires v.Var? && v.name == x
    ensures var inst := Inst(Literal(s, n), [], Some(x), [], []);
            LowerInst(cx, st, inst).Ok? &&
            var e := LowerInst(cx, st, inst).value;
            e.nodes == [] && e.st.vmap == st.vmap[x := Alias(s, n)] && ValueSize(cx.globals, e.st, v) == Ok(s) &&
            ValueOperand(cx.globals, e.st, v) == Err(Rejected)
  {
  }

  // Sizes

  /** The size that a value has where it is. */
  function SizeHere(globals: set<Name>, st: Store, v: Value): Option<Size> {
    match ValueSize(globals, st, v)
    case Ok(s) => Some(s)
    case Err(_) => None
  }

  /** The size of what an instruction computes: the one it names, that of a pointer, of a
      comparison, or of the operand whose register the result takes. */
  function ComputedSize(globals: set<Name>, st: Store, inst: Inst): Option<Size>
    requires TakesOperands(inst.op, |inst.operands|)
  {
    var ops := inst.operands;
    match inst.op
    case Literal(s, _) => Some(s)
    case Allocate(_) => Some(Ptr)
    case Load(s) => Some(s)
    case Icmp(_) => Some(I1)
    case Call(_, s) => Some(s)
    case Arith(_) => SizeHere(globals, st, if RegisterOf(st, ops[0]).Some? then ops[0] else ops[1])
    case Select => SizeHere(globals, st, ops[1])
    case _ => None
  }

  /** Where the result is, and the size it has there; in the frame it is accessed as eight bytes. */
  ghost predicate ResultSized(globals: set<Name>, low: Lowered, size: Option<Size>) {
    match low.dest
    case Some(loc) => size == Some(SizeOf(low.st, loc)) || loc.Slot?
    case None => size == None
  }

  lemma ArithSized(cx: Context, st: Store, t: ArithType, ops: seq<Value>)
    requires LowerArith(cx, st, t, ops).Ok? && Sound(st)
    ensures ResultSized(cx.globals, LowerArith(cx, st, t, ops).value,
                        SizeHere(cx.globals, st, if RegisterOf(st, ops[0]).Some? then ops[0] else ops[1]))
  {
    hide ForceFindRegister, Sound;
    if RegisterOf(st, ops[0]).None? && RegisterOf(st, ops[1]).None? {
      var size := ValueSize(cx.globals, st, ops[1]).value;
      var (e, r) := ForceFindRegister(cx.globals, st, size).value;
      ForceFindKeepsSize(cx.globals, st, size, ops[1]);
    }
  }

  /** Forcing a register changes the size of nothing that is not in one. */
  lemma ForceFindKeepsSize(globals: set<Name>, st: Store, size: Size, v: Value)
    requires Sound(st) && ForceFindRegister(globals, st, size).Ok? && RegisterOf(st, v).None?
    requires ValueSize(globals, st, v).Ok?
    ensures ValueSize(globals, ForceFindRegister(globals, st, size).value.0.st, v) == ValueSize(globals, st, v)
    ensures var (e, r) := ForceFindRegister(globals, st, size).value; e.st.cells[r].size == size
  {
    hide RemapValue, FirstFree, FirstUnfrozen;
    if FirstFree(st.cells, 0).None? {
      var r := FirstUnfrozen(st.cells, 0).value;
      if st.cells[r].owner != "" {
        var found := FindValStorage(st, st.cells[r].size).value;
        RemapIs(found.0, st.cells[r].owner, r, found.1);
      }
    }
  }

  lemma SelectSized(cx: Context, st: Store, ops: seq<Value>)
    requires LowerSelect(cx, st, ops).Ok? && Sound(st)
    ensures ResultSized(cx.globals, LowerSelect(cx, st, ops).value, SizeHere(cx.globals, st, ops[1]))
    ensures SizeHere(cx.globals, st, ops[1]) == SizeHere(cx.globals, st, ops[2]) != None
  {
    hide ForceFindRegister, Sound, ValueOperand;
    var size := ValueSize(cx.globals, st, ops[1]).value;
    ForceFindSize(cx.globals, st, size);
  }

  lemma ForceFindSize(globals: set<Name>, st: Store, size: Size)
    requires ForceFindRegister(globals, st, size).Ok?
    ensures var (e, r) := ForceFindRegister(globals, st, size).value; e.st.cells[r].size == size
  {
    hide EmptyRegister, FirstFree, FirstUnfrozen;
  }

  /** What an instruction computes has the size that the instruction says. */
  lemma ResultsHaveTheirSizes(cx: Context, st: Store, inst: Inst)
    requires LowerOp(cx, st, inst).Ok? && Sound(st)
    ensures TakesOperands(inst.op, |inst.operands|)
    ensures ResultSized(cx.globals, LowerOp(cx, st, inst).value, ComputedSize(cx.globals, st, inst))
  {
    hide LowerArith, LowerSelect, LowerArgs, EmptyRegister, FirstFree, ValueOperand, ConditionOf, SizedOperand, Sound;
    LoweredTakes(cx, st, inst);
    if inst.op.Arith? {
      ArithSized(cx, st, inst.op.arith, inst.operands);
    } else if inst.op.Select? {
      SelectSized(cx, st, inst.operands);
    }
  }

  /** The result keeps that size when the instruction is done. */
  lemma ResultsSettle(cx: Context, st: Store, inst: Inst, x: Name)
    requires LowerInst(cx, st, inst).Ok? && Sound(st) && inst.result == Some(x)
    ensures TakesOperands(inst.op, |inst.operands|)
    ensures var at := if AutoDrop(inst.op) then DropAll(st, Pending(inst.operands, inst.dropped)) else st;
            var size, st1 := ComputedSize(cx.globals, at, inst), LowerInst(cx, st, inst).value.st;
            size.Some? ==> x in st1.vmap && (SizeHere(cx.globals, st1, Var(size.value, x)) == size || st1.vmap[x].Slot?)
  {
    hide LowerOp, EraseAll, DropAll, ComputedSize, Sound;
    var pending := Pending(inst.operands, inst.dropped);
    var at := if AutoDrop(inst.op) then DropAll(st, pending) else st;
    EraseAllSound(st, pending);
    ResultsHaveTheirSizes(cx, at, inst);
    var low := LowerOp(cx, at, inst).value;
    if low.dest.Some? && low.dest.value.InReg? {
      SettledSize(low.st, inst, pending, low.dest.value.reg);
    }
  }

  lemma SettledSize(st: Store, inst: Inst, pending: seq<Name>, r: Register)
    ensures Settle(st, inst, pending, Some(InReg(r))).cells[r].size == st.cells[r].size
  {
    hide EraseAll, DropAll;
    DropsKeepSizes(st, pending, r);
    DropsKeepSizes(DropAll(st, pending), pending, r);
  }

  lemma {:induction false} DropsKeepSizes(st: Store, xs: seq<Name>, r: Register)
    ensures DropAll(st, xs).cells[r].size == EraseAll(st, xs).cells[r].size == st.cells[r].size
    decreases |xs|
  {
    if xs != [] {
      DropsKeepSizes(DropOwnership(st, xs[0]), xs[1..], r);
      DropsKeepSizes(EraseValue(st, xs[0]), xs[1..], r);
    }
  }

  /** Parameters have their sizes, each in its own argument register. */
  lemma {:induction false} ParametersHaveTheirSizes(params: seq<(Name, Size)>, k: nat)
    requires k < |params| <= MAX_ARGS && forall i, j | 0 <= i < j < |params| :: params[i].0 != params[j].0
    ensures var st := PlaceParams(params);
            params[k].0 in st.vmap && st.vmap[params[k].0] == InReg(ParamRegister(k)) &&
            st.cells[ParamRegister(k)].size == params[k].1
  {
    var last := |params| - 1;
    if k < last {
      ParametersHaveTheirSizes(params[..last], k);
      ArgRegistersDistinct(last, k);
    }
  }

  // Operands of one node

  function OperandSize(o: Operand): Size {
    match o
    case OReg(_, s) => s
    case OImm(_, s) => s
    case OMem(_, s) => s
    case OGlobal(_) => Ptr
  }

  /** The two operands of a mov, a comparison or an operation have the same size. */
  predicate SameSized(node: Node) {
    match node
    case NMov(d, s) => OperandSize(d) == OperandSize(s)
    case NCmov(_, d, s) => OperandSize(d) == OperandSize(s)
    case NCmp(a, b) => OperandSize(a) == OperandSize(b)
    case NArith(_, d, s) => OperandSize(d) == OperandSize(s)
    case _ => true
  }

  ghost predicate AllSameSized(nodes: seq<Node>) {
    forall node | node in nodes :: SameSized(node)
  }

  lemma OperandHasSize(globals: set<Name>, st: Store, v: Value)
    requires ValueOperand(globals, st, v).Ok?
    ensures SizeHere(globals, st, v) == Some(OperandSize(ValueOperand(globals, st, v).value))
  {
  }

  /** A value that is moved to another register is moved as a whole. */
  lemma VacateSameSized(globals: set<Name>, st: Store, r: Register)
    requires Sound(st) && EmptyRegister(globals, st, r).Ok? && EmptyRegister(globals, st, r).value.st.frame == st.frame
    ensures AllSameSized(EmptyRegister(globals, st, r).value.nodes)
  {
    hide FirstFree;
    if st.cells[r].owner != "" {
      assert st.vmap[st.cells[r].owner] == InReg(r);
      if FirstFree(st.cells, 0).None? {
        SpillGrows(globals, st, r);
      }
    }
  }

  lemma SpillGrows(globals: set<Name>, st: Store, r: Register)
    requires Sound(st) && EmptyRegister(globals, st, r).Ok? && st.cells[r].owner != "" && FirstFree(st.cells, 0).None?
    ensures EmptyRegister(globals, st, r).value.st.frame > st.frame
  {
    hide FirstFree, RemapValue;
    var found := FindValStorage(st, st.cells[r].size).value;
    RemapIs(found.0, st.cells[r].owner, r, found.1);
  }

  lemma VacateGrows(globals: set<Name>, st: Store, r: Register)
    requires Sound(st) && EmptyRegister(globals, st, r).Ok?
    ensures EmptyRegister(globals, st, r).value.st.frame >= st.frame
  {
    if st.cells[r].owner != "" {
      hide EmptyRegister;
      var home := VacateRehouses(globals, st, r);
    }
  }

  lemma ForceFindSameSized(globals: set<Name>, st: Store, size: Size)
    requires Sound(st) && ForceFindRegister(globals, st, size).Ok?
    requires ForceFindRegister(globals, st, size).value.0.st.frame == st.frame
    ensures AllSameSized(ForceFindRegister(globals, st, size).value.0.nodes)
  {
    hide EmptyRegister, FirstFree, FirstUnfrozen;
    if FirstFree(st.cells, 0).None? {
      VacateSameSized(globals, st, FirstUnfrozen(st.cells, 0).value);
    }
  }

  /** A name in a register or in the frame. */
  predicate IsPlaced(st: Store, v: Value) {
    v.Var? && v.name in st.vmap && (st.vmap[v.name].InReg? || st.vmap[v.name].Slot?)
  }

  /** The sizes of the operands fit together, and with the size the instruction names, which is
      the one at which a load or store accesses its pointer. */
  predicate SizesAgree(globals: set<Name>, st: Store, op: Op, ops: seq<Value>)
    requires TakesOperands(op, |ops|)
  {
    match op
    case Store(s) => IsPlaced(st, ops[0]) && SizeHere(globals, st, ops[1]) == Some(s)
    case Load(_) => IsPlaced(st, ops[0])
    case Icmp(_) => SizeHere(globals, st, ops[0]) == SizeHere(globals, st, ops[1])
    case Arith(_) => SizeHere(globals, st, ops[0]) == SizeHere(globals, st, ops[1])
    case _ => true
  }

  lemma ArithSameSized(cx: Context, st: Store, t: ArithType, ops: seq<Value>)
    requires LowerArith(cx, st, t, ops).Ok? && Sound(st) && SizesAgree(cx.globals, st, Arith(t), ops)
    requires LowerArith(cx, st, t, ops).value.st.frame == st.frame && UserNames(ops)
    ensures AllSameSized(LowerArith(cx, st, t, ops).value.nodes)
  {
    hide ForceFindRegister, Sound, ValueOperand, ValueSize;
    if RegisterOf(st, ops[0]).Some? || RegisterOf(st, ops[1]).Some? {
      OperandHasSize(cx.globals, st, ops[0]);
      OperandHasSize(cx.globals, st, ops[1]);
    } else {
      LoadedSameSized(cx, st, t, ops);
    }
  }

  predicate UserNames(ops: seq<Value>) {
    forall v | v in ops && v.Var? :: UserName(v.name)
  }

  lemma ClaimedSizes(globals: set<Name>, st: Store, r: Register, size: Size, v: Value)
    requires RegisterOf(st, v).None? && (v.Var? ==> UserName(v.name))
    ensures SizeHere(globals, ClaimTemp(st, r, size), v) == SizeHere(globals, st, v)
    ensures SizeHere(globals, ClaimTemp(st, r, size), Var(size, TempName(st.temps))) == Some(size)
  {
    TempNames(st.temps, st.temps);
  }

  lemma LoadedSameSized(cx: Context, st: Store, t: ArithType, ops: seq<Value>)
    requires LowerArith(cx, st, t, ops).Ok? && Sound(st) && SizesAgree(cx.globals, st, Arith(t), ops)
    requires RegisterOf(st, ops[0]).None? && RegisterOf(st, ops[1]).None?
    requires LowerArith(cx, st, t, ops).value.st.frame == st.frame && UserNames(ops)
    ensures AllSameSized(LowerArith(cx, st, t, ops).value.nodes)
  {
    hide ForceFindRegister, Sound, ClaimTemp, ValueOperand, ValueSize, SizeHere;
    var size := ValueSize(cx.globals, st, ops[1]).value;
    var (e, r) := ForceFindRegister(cx.globals, st, size).value;
    SizeIs(cx.globals, st, ops[1]);
    ForceFindKeepsSize(cx.globals, st, size, ops[1]);
    StillOutside(cx.globals, st, size, ops[0]);
    var p := PlaceInRegister(cx.globals, e, r, ops[1]).value;
    assert ops[0] in ops;
    ClaimedSizes(cx.globals, e.st, r, size, ops[0]);
    ForceFindSameSized(cx.globals, st, size) by { ClaimGrows(e.st, r, size); }
    OperandHasSize(cx.globals, e.st, ops[1]);
    SizeIs(cx.globals, e.st, ops[1]);
    OperandHasSize(cx.globals, p.0.st, ops[0]);
    OperandHasSize(cx.globals, p.0.st, p.1);
  }

  lemma SizeIs(globals: set<Name>, st: Store, v: Value)
    requires ValueSize(globals, st, v).Ok?
    ensures SizeHere(globals, st, v) == Some(ValueSize(globals, st, v).value)
  {
  }

  lemma ClaimGrows(st: Store, r: Register, size: Size)
    ensures ClaimTemp(st, r, size).frame == st.frame
  {
  }

  /** What is not in a register stays where it is, and its size with it. */
  lemma StillOutside(globals: set<Name>, st: Store, size: Size, v: Value)
    requires Sound(st) && ForceFindRegister(globals, st, size).Ok? && RegisterOf(st, v).None?
    ensures var st1 := ForceFindRegister(globals, st, size).value.0.st;
            RegisterOf(st1, v).None? && SizeHere(globals, st1, v) == SizeHere(globals, st, v)
  {
    hide RemapValue, FirstFree, FirstUnfrozen;
    if FirstFree(st.cells, 0).None? {
      var r := FirstUnfrozen(st.cells, 0).value;
      if st.cells[r].owner != "" {
        var found := FindValStorage(st, st.cells[r].size).value;
        RemapIs(found.0, st.cells[r].owner, r, found.1);
      }
    }
  }

  lemma SelectSameSized(cx: Context, st: Store, ops: seq<Value>)
    requires LowerSelect(cx, st, ops).Ok? && Sound(st) && LowerSelect(cx, st, ops).value.st.frame == st.frame
    ensures AllSameSized(LowerSelect(cx, st, ops).value.nodes)
  {
    hide FirstFree, Sound, ValueOperand, ValueSize, GetRegister, FirstUnfrozen, EmptyRegister;
    var size := ValueSize(cx.globals, st, ops[1]).value;
    SelectSized(cx, st, ops);
    TakesFree(cx.globals, st, size);
    var r := FirstFree(st.cells, 0).value;
    var st1 := GetRegister(st, r, size);
    TakenSizes(cx.globals, st, r, size, ops[1]);
    TakenSizes(cx.globals, st, r, size, ops[2]);
    OperandHasSize(cx.globals, st1, ops[1]);
    OperandHasSize(cx.globals, st1, ops[2]);
  }

  /** If nothing goes to the frame, a free register is found. */
  lemma TakesFree(globals: set<Name>, st: Store, size: Size)
    requires Sound(st) && ForceFindRegister(globals, st, size).Ok?
    requires ForceFindRegister(globals, st, size).value.0.st.frame == st.frame
    ensures FirstFree(st.cells, 0).Some?
    ensures var r := FirstFree(st.cells, 0).value;
            ForceFindRegister(globals, st, size) == Ok((Emit(GetRegister(st, r, size), []), r)) &&
            GetRegister(st, r, size).cells[r].size == size
  {
    hide EmptyRegister, FirstFree, FirstUnfrozen;
    if FirstFree(st.cells, 0).None? {
      SpillGrows(globals, st, FirstUnfrozen(st.cells, 0).value);
    }
  }

  lemma TakenSizes(globals: set<Name>, st: Store, r: Register, size: Size, v: Value)
    requires SizeHere(globals, st, v) == Some(size)
    ensures SizeHere(globals, GetRegister(st, r, size), v) == Some(size)
  {
  }

  /** Every operand of a call has the size with which it is passed when its turn comes. */
  ghost predicate ArgsSized(cx: Context, st: Store, ops: seq<Value>, dropped: seq<bool>, i: nat)
    requires i <= |ops| == |dropped| <= MAX_ARGS
    decreases |ops| - i
  {
    i == |ops| ||
    ((EmptyRegister(cx.globals, st, ParamRegister(i)).Ok? ==>
        SizeHere(cx.globals, EmptyRegister(cx.globals, st, ParamRegister(i)).value.st, ops[i]) == Some(ops[i].size)) &&
     (LowerArg(cx, st, ops[i], dropped[i], ParamRegister(i)).Ok? ==>
        ArgsSized(cx, LowerArg(cx, st, ops[i], dropped[i], ParamRegister(i)).value.st, ops, dropped, i + 1)))
  }

  lemma ArgSameSized(cx: Context, st: Store, v: Value, dropped: bool, p: Register)
    requires LowerArg(cx, st, v, dropped, p).Ok? && Sound(st)
    requires LowerArg(cx, st, v, dropped, p).value.st.frame == st.frame
    requires EmptyRegister(cx.globals, st, p).Ok? ==>
               SizeHere(cx.globals, EmptyRegister(cx.globals, st, p).value.st, v) == Some(v.size)
    ensures AllSameSized(LowerArg(cx, st, v, dropped, p).value.nodes)
  {
    hide EmptyRegister, ValueOperand, Sound, SizeHere;
    var e := EmptyRegister(cx.globals, st, p).value;
    VacateSameSized(cx.globals, st, p);
    if ValueOperand(cx.globals, e.st, v).Ok? {
      OperandHasSize(cx.globals, e.st, v);
    }
  }

  lemma ArgGrows(cx: Context, st: Store, v: Value, dropped: bool, p: Register)
    requires LowerArg(cx, st, v, dropped, p).Ok? && Sound(st)
    ensures LowerArg(cx, st, v, dropped, p).value.st.frame >= st.frame
  {
    hide EmptyRegister, Sound;
    VacateGrows(cx.globals, st, p);
  }

  lemma {:induction false} ArgsSameSized(cx: Context, st: Store, ops: seq<Value>, dropped: seq<bool>, i: nat)
    requires i <= |ops| == |dropped| <= MAX_ARGS && LowerArgs(cx, st, ops, dropped, i).Ok? && Sound(st)
    requires ArgsSized(cx, st, ops, dropped, i)
    ensures LowerArgs(cx, st, ops, dropped, i).value.st.frame >= st.frame
    ensures LowerArgs(cx, st, ops, dropped, i).value.st.frame == st.frame ==>
              AllSameSized(LowerArgs(cx, st, ops, dropped, i).value.nodes)
    ensures Sound(LowerArgs(cx, st, ops, dropped, i).value.st)
    decreases |ops| - i
  {
    hide LowerArg, Sound, SizeHere, EmptyRegister;
    if i < |ops| {
      var e := LowerArg(cx, st, ops[i], dropped[i], ParamRegister(i)).value;
      ArgGrows(cx, st, ops[i], dropped[i], ParamRegister(i));
      LowerArgSound(cx, st, ops[i], dropped[i], ParamRegister(i));
      ArgsSameSized(cx, e.st, ops, dropped, i + 1);
      if e.st.frame == st.frame {
        ArgSameSized(cx, st, ops[i], dropped[i], ParamRegister(i));
      }
    }
  }

  lemma CallSameSized(cx: Context, st: Store, g: Name, size: Size, ops: seq<Value>, dropped: seq<bool>)
    requires LowerCall(cx, st, g, size, ops, dropped).Ok? && Sound(st) && |ops| == |dropped| <= MAX_ARGS
    requires ArgsSized(cx, st, ops, dropped, 0) && LowerCall(cx, st, g, size, ops, dropped).value.st.frame == st.frame
    ensures AllSameSized(LowerCall(cx, st, g, size, ops, dropped).value.nodes)
  {
    hide LowerArgs, EmptyRegister, ArgsSized, Sound;
    var args := LowerArgs(cx, st, ops, dropped, 0).value;
    ArgsSameSized(cx, st, ops, dropped, 0);
    VacateGrows(cx.globals, args.st, RAX);
    VacateSameSized(cx.globals, args.st, RAX);
  }

  /** If nothing is moved to the frame and the operands of an instruction have sizes that fit
      together, then so have the operands of every node that it is lowered to: nothing is read
      or written at another size than it has. */
  lemma NodesAreSameSized(cx: Context, st: Store, inst: Inst)
    requires LowerOp(cx, st, inst).Ok? && Sound(st) && UserNames(inst.operands)
    requires TakesOperands(inst.op, |inst.operands|) && SizesAgree(cx.globals, st, inst.op, inst.operands)
    requires inst.op.Call? ==> |inst.dropped| == |inst.operands| && ArgsSized(cx, st, inst.operands, inst.dropped, 0)
    requires LowerOp(cx, st, inst).value.st.frame == st.frame
    ensures AllSameSized(LowerOp(cx, st, inst).value.nodes)
  {
    hide LowerArith, LowerSelect, LowerCall, LowerArgs, Sound, ValueOperand, SizeHere, ArgsSized, FirstFree,
         ConditionOf, IsPlaced;
    var ops := inst.operands;
    match inst.op
    case Arith(t) => ArithSameSized(cx, st, t, ops);
    case Select => SelectSameSized(cx, st, ops);
    case Call(g, s) => CallSameSized(cx, st, g, s, ops, inst.dropped);
    case Icmp(_) =>
      OperandHasSize(cx.globals, st, ops[0]);
      OperandHasSize(cx.globals, st, ops[1]);
    case Store(s) => StoreSameSized(cx, st, s, ops);
    case Ret =>
      if ops != [] {
        RetSameSized(cx, st, ops);
      }
    case Load(s) => LoadSameSized(cx, st, s, ops);
    case _ =>
  }

  lemma StoreSameSized(cx: Context, st: Store, size: Size, ops: seq<Value>)
    requires LowerStore(cx, st, size, ops).Ok? && IsPlaced(st, ops[0]) && SizeHere(cx.globals, st, ops[1]) == Some(size)
    ensures AllSameSized(LowerStore(cx, st, size, ops).value.nodes)
  {
    hide ValueOperand;
    OperandHasSize(cx.globals, st, ops[1]);
  }

  lemma RetSameSized(cx: Context, st: Store, ops: seq<Value>)
    requires LowerRet(cx, st, ops).Ok? && |ops| == 1
    ensures AllSameSized(LowerRet(cx, st, ops).value.nodes)
  {
    hide ValueOperand;
    OperandHasSize(cx.globals, st, ops[0]);
  }

  lemma LoadSameSized(cx: Context, st: Store, size: Size, ops: seq<Value>)
    requires LowerLoad(cx, st, size, ops).Ok? && IsPlaced(st, ops[0])
    ensures AllSameSized(LowerLoad(cx, st, size, ops).value.nodes)
  {
    hide FirstFree;
  }
}
