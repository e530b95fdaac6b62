/** When a whole function is lowered safely: conditions on the states the generator goes
    through, and the storage invariant they keep. */
module Generation {
  import opened Wrappers
  import opened Ir
  import opened Machine
  import opened Storage
  import opened Lowering
  import opened Ownership
  import opened Tampering
  import opened Simulation
  import opened Settling
  import opened Lifetime
  import opened Reaching
  import opened ArgumentSetup
  import opened Stepping
  import WholeFunctions

  /** The storage at the start of block b, or after the last block. */
  function BlockStart(cx: Context, f: Function, b: nat): Result<Store>
    requires |f.params| <= MAX_ARGS && b <= |f.blocks|
  {
    var before :- LowerBlocks(cx, PlaceParams(f.params), f.blocks[..b]);
    Ok(before.0)
  }

  /** Names mentioned from block b on. */
  function NeedFrom(f: Function, b: nat): set<Name>
    requires b <= |f.blocks|
  {
    BlocksMention(f.blocks[b..])
  }

  // Safe calls

  ghost predicate RaxSafe(st: Store, all: set<Name>, n: nat) {
    st.cells[RAX].owner != "" ==> SafeHome(st, all, ArgRegisters(n))
  }

  ghost predicate CallSafe(cx: Context, st: Store, inst: Inst, stay: set<Name>)
    requires inst.op.Call? && |inst.dropped| == |inst.operands|
  {
    var ops := inst.operands;
    |ops| <= MAX_ARGS && FlagsFree(st, stay + Uses(inst)) && (inst.result.Some? ==> inst.op.retSize == I64) &&
    ArgsSafe(cx, st, ops, inst.dropped, 0, stay) &&
    (LowerArgs(cx, st, ops, inst.dropped, 0).Ok? ==>
       RaxSafe(LowerArgs(cx, st, ops, inst.dropped, 0).value.st, stay + VarNames(ops), |ops|))
  }

  // Safe control flow

  /** Names needed at a label are where they are when control leaves for it. */
  ghost predicate LocationsAgree(st: Store, at: Store, need: set<Name>) {
    forall x | x in need && x in st.vmap :: x in at.vmap && at.vmap[x] == st.vmap[x]
  }

  /** Every name that may still be read when control goes back to block t is needed further
      down as well, so it is not dropped in between, and is where it was at block t. */
  ghost predicate LoopAgrees(st: Store, at: Store, blocks: seq<Block>, t: nat, stay: set<Name>) {
    forall x | Live(blocks, (t, 0), x) :: x in stay && (x in st.vmap ==> x in at.vmap && at.vmap[x] == st.vmap[x])
  }

  /** A jump goes to a label at which locations agree. */
  ghost predicate JumpSafe(cx: Context, f: Function, b: nat, st: Store, l: Name, stay: set<Name>)
    requires |f.params| <= MAX_ARGS
  {
    l != STACKSAVE &&
    (FindBlock(f.blocks, l).Some? ==>
       var t := FindBlock(f.blocks, l).value;
       BlockStart(cx, f, t).Ok? ==>
         var at := BlockStart(cx, f, t).value;
         if b < t then LocationsAgree(st, at, NeedFrom(f, t)) else LoopAgrees(st, at, f.blocks, t, stay))
  }

  ghost predicate JumpsSafe(cx: Context, f: Function, b: nat, st: Store, inst: Inst, stay: set<Name>)
    requires |f.params| <= MAX_ARGS
  {
    LowerInst(cx, st, inst).Ok? ==>
      forall l | l in Targets(inst.op) :: JumpSafe(cx, f, b, LowerInst(cx, st, inst).value.st, l, stay)
  }

  /** The state in which an instruction of block b is lowered offers what it takes. */
  ghost predicate InstSafe(cx: Context, f: Function, b: nat, st: Store, inst: Inst, stay: set<Name>)
    requires |f.params| <= MAX_ARGS
  {
    Flagged(inst, stay) && UserNames(stay + Uses(inst)) &&
    (inst.result.Some? ==> UserName(inst.result.value) && inst.result.value !in st.vmap) &&
    match inst.op
    case Call(_, _) => CallSafe(cx, st, inst, stay)
    case Ret => inst.operands == [] ||
      (|inst.operands| == 1 && ValueSize(cx.globals, Start(st, inst), inst.operands[0]) == Ok(I64))
    case Jmp(_) => JumpsSafe(cx, f, b, st, inst, stay)
    case Branch(_, _) => JumpsSafe(cx, f, b, st, inst, stay)
    case _ => StepSafe(cx, st, inst, stay)
  }

  ghost predicate InstsSafe(cx: Context, f: Function, b: nat, st: Store, insts: seq<Inst>)
    requires |f.params| <= MAX_ARGS && b < |f.blocks|
    decreases |insts|
  {
    insts == [] ||
    (InstSafe(cx, f, b, st, insts[0], InstsMention(insts[1..]) + NeedFrom(f, b + 1)) &&
     (LowerInst(cx, st, insts[0]).Ok? ==> InstsSafe(cx, f, b, LowerInst(cx, st, insts[0]).value.st, insts[1..])))
  }

  /** The function can be lowered safely: what a caller may check by generating it. */
  ghost predicate FunctionSafe(globals: set<Name>, f: Function) {
    |f.params| <= MAX_ARGS && f.blocks != [] &&
    DistinctParams(f.params) &&
    var cx := Context(f.returnType, globals);
    forall b | 0 <= b < |f.blocks| && BlockStart(cx, f, b).Ok? ::
      InstsSafe(cx, f, b, BlockStart(cx, f, b).value, f.blocks[b].insts)
  }

  // The storage invariant

  /** Set, as far as it concerns the storage alone. */
  ghost predicate Placed(st: Store, inst: Inst, stay: set<Name>)
    requires |inst.dropped| == |inst.operands|
  {
    Good(st, stay) && Tracked(st) && Sized(st, stay + Uses(inst)) && RegistersApart(st, stay + Uses(inst)) &&
    AllApart(st, Pending(inst.operands, inst.dropped), stay) &&
    (inst.result.Some? ==> inst.result.value !in st.vmap)
  }

  ghost predicate Lowers(low: Lowered, inst: Inst, stay: set<Name>)
    requires |inst.dropped| == |inst.operands|
  {
    Good(low.st, stay) && AllApart(low.st, Pending(inst.operands, inst.dropped), stay) &&
    (inst.result.Some? ==> inst.result.value !in low.st.vmap) &&
    (low.dest.Some? && inst.result.Some? ==> Fits(low.st, low.dest.value, stay))
  }

  lemma StartPlaced(st: Store, inst: Inst, stay: set<Name>)
    requires Ready(st, inst, stay)
    ensures Placed(Start(st, inst), inst, stay)
  {
    hide AllApart, UserNames, Sound, OwnedSized;
    var pending := Pending(inst.operands, inst.dropped);
    PendingApart(st, inst, stay);
    GoodSubset(st, stay + Uses(inst), stay);
    DropAllKeeps(st, pending, stay);
    EraseAllTampers(st, pending);
    ApartSubset(st, Start(st, inst), pending, stay);
  }

  lemma AllocateLowers(cx: Context, st: Store, inst: Inst, stay: set<Name>)
    requires |inst.dropped| == |inst.operands| && inst.op.Allocate? && inst.op.bytes >= 8
    requires Placed(st, inst, stay) && LowerOp(cx, st, inst).Ok?
    ensures Lowers(LowerOp(cx, st, inst).value, inst, stay)
  {
    hide AllApart, Sized, RegistersApart, Protected;
    var low := LowerOp(cx, st, inst).value;
    ApartSubset(st, low.st, Pending(inst.operands, inst.dropped), stay);
    assert Protected(low.st, stay) && RegistersApart(low.st, stay) by { SameCells(st, low.st, stay); }
  }

  lemma SameCells(st: Store, st1: Store, need: set<Name>)
    requires st1.cells == st.cells && st1.vmap == st.vmap && Protected(st, need) && RegistersApart(st, need)
    ensures Protected(st1, need) && RegistersApart(st1, need)
  {
  }

  /** Lowering that takes a free register for its result. */
  lemma TakesRegister(st: Store, low: Lowered, inst: Inst, stay: set<Name>, h: Register, size: Size)
    requires |inst.dropped| == |inst.operands| && Placed(st, inst, stay) && Unneeded(st, stay, h) && EightBytes(size)
    requires low.st == GetRegister(st, h, size) && low.dest == Some(InReg(h))
    ensures Lowers(low, inst, stay)
  {
    hide AllApart, Good, Fits;
    TakeRegister(st, stay, h, size);
    ApartSubset(st, low.st, Pending(inst.operands, inst.dropped), stay);
  }

  /** Lowering that leaves the storage as it is, except perhaps for a result in flags. */
  lemma StaysPlaced(st: Store, low: Lowered, inst: Inst, stay: set<Name>)
    requires |inst.dropped| == |inst.operands| && Placed(st, inst, stay) && low.st == st
    requires low.dest.Some? ==> low.dest.value.Flag?
    ensures Lowers(low, inst, stay)
  {
  }

  lemma ArithLowers(cx: Context, st: Store, inst: Inst, stay: set<Name>)
    requires |inst.dropped| == |inst.operands| && inst.op.Arith? && ArithSafe(st, inst.op.arith, inst.operands, stay)
    requires Placed(st, inst, stay) && LowerOp(cx, st, inst).Ok?
    ensures Lowers(LowerOp(cx, st, inst).value, inst, stay)
  {
    hide AllApart, Good;
    OperandUse(inst, 0);
    OperandUse(inst, 1);
    var left := RegisterOf(st, inst.operands[0]).Some?;
    var dom := if left then inst.operands[0] else inst.operands[1];
    DominatorUnneeded(st, inst, dom.name, stay, RegisterOf(st, dom).value);
  }

  lemma SelectLowers(cx: Context, st: Store, inst: Inst, stay: set<Name>)
    requires |inst.dropped| == |inst.operands| && inst.op.Select? &&
             SelectSafe(cx, st, inst.operands, stay + Uses(inst))
    requires Placed(st, inst, stay) && LowerOp(cx, st, inst).Ok?
    ensures Lowers(LowerOp(cx, st, inst).value, inst, stay)
  {
    hide AllApart, Good, GetRegister, Lowers;
    var h, size := FirstFree(st.cells, 0).value, ValueSize(cx.globals, st, inst.operands[1]).value;
    SelectTakes(cx, st, inst, h, size);
    UnneededSubset(st, stay + Uses(inst), stay, h);
    SelectSized(cx, st, inst, stay);
    TakesRegister(st, LowerOp(cx, st, inst).value, inst, stay, h, size);
  }

  lemma SelectTakes(cx: Context, st: Store, inst: Inst, h: Register, size: Size)
    requires inst.op.Select? && LowerOp(cx, st, inst).Ok? && FirstFree(st.cells, 0) == Some(h)
    requires |inst.operands| == 3 && ValueSize(cx.globals, st, inst.operands[1]) == Ok(size)
    ensures LowerOp(cx, st, inst).value.st == GetRegister(st, h, size) &&
            LowerOp(cx, st, inst).value.dest == Some(InReg(h))
  {
    hide LowerStore, LowerLoad, LowerIcmp, LowerBranch, LowerRet, LowerArith, LowerCall, ConditionOf, ValueOperand,
         ValueSize, FirstFree, GetRegister, EmptyRegister;
  }

  lemma SelectSized(cx: Context, st: Store, inst: Inst, stay: set<Name>)
    requires inst.op.Select? && LowerOp(cx, st, inst).Ok? && |inst.operands| == 3 && inst.operands[1].Var?
    requires Sized(st, stay + Uses(inst)) && FirstFree(st.cells, 0).Some?
    requires Unneeded(st, stay + Uses(inst), FirstFree(st.cells, 0).value)
    ensures EightBytes(ValueSize(cx.globals, st, inst.operands[1]).value)
  {
    hide LowerStore, LowerLoad, LowerIcmp, LowerBranch, LowerRet, LowerArith, LowerCall, ConditionOf, EmptyRegister;
    OperandUse(inst, 1);
    var x := inst.operands[1].name;
    assert x in stay + Uses(inst);
    if x in st.vmap {
      assert st.vmap[x].InReg? || st.vmap[x].Slot? || st.vmap[x].Global?;
    }
  }

  lemma OpLowers(cx: Context, st: Store, inst: Inst, stay: set<Name>)
    requires Ready(st, inst, stay) && StepSafe(cx, st, inst, stay) && LowerOp(cx, Start(st, inst), inst).Ok?
    ensures Lowers(LowerOp(cx, Start(st, inst), inst).value, inst, stay)
  {
    hide Lowers, Placed, Start, Good, Movable, LowerArith, LowerSelect, SelectSafe, ArithSafe, GetRegister, FlagsFree;
    var at := Start(st, inst);
    StartPlaced(st, inst, stay);
    var low := LowerOp(cx, at, inst).value;
    match inst.op
    case Allocate(_) => AllocateLowers(cx, at, inst, stay);
    case Load(s) => TakesRegister(at, low, inst, stay, FirstFree(at.cells, 0).value, s);
    case Arith(_) => ArithLowers(cx, at, inst, stay);
    case Select => SelectLowers(cx, at, inst, stay);
    case _ => StaysPlaced(at, low, inst, stay);
  }

  // Calls

  /** Vacating a register keeps the storage invariant. */
  lemma VacateKeepsGood(globals: set<Name>, st: Store, r: Register, all: set<Name>, avoid: set<nat>)
    requires Good(st, all) && (st.cells[r].owner != "" ==> SafeHome(st, all, avoid))
    ensures EmptyRegister(globals, st, r).Ok?
    ensures Good(EmptyRegister(globals, st, r).value.st, all) &&
            Vacated(st, EmptyRegister(globals, st, r).value.st, r, avoid)
  {
    if st.cells[r].owner != "" {
      hide EmptyRegister, Moved, Vacated, Protected, RegistersApart, SlotsApart;
      var x := st.cells[r].owner;
      var home, s, t := EmptyRegisterMoves(globals, st, r);
      EmptyRegisterSound(globals, st, r);
      var st1 := EmptyRegister(globals, st, r).value.st;
      MovedGood(st, st1, x, r, home, all);
      MovedVacated(st, st1, x, r, home, avoid);
    }
  }

  lemma LowerArgStore(cx: Context, st: Store, v: Value, dropped: bool, r: Register)
    requires LowerArg(cx, st, v, dropped, r).Ok?
    ensures EmptyRegister(cx.globals, st, r).Ok? &&
            LowerArg(cx, st, v, dropped, r).value.st == EmptyRegister(cx.globals, st, r).value.st
  {
    hide EmptyRegister;
  }

  lemma {:induction false} ArgsKeepGood(cx: Context, st: Store, ops: seq<Value>, dropped: seq<bool>, i: nat,
                                        stay: set<Name>)
    requires |dropped| == |ops| && i <= |ops|
    requires Good(st, stay + VarNames(ops)) && ArgsSafe(cx, st, ops, dropped, i, stay) &&
             LowerArgs(cx, st, ops, dropped, i).Ok?
    ensures var st1 := LowerArgs(cx, st, ops, dropped, i).value.st;
            Good(st1, stay + VarNames(ops)) && st1.vmap.Keys == st.vmap.Keys
    decreases |ops| - i
  {
    hide LowerArg, Good, EmptyRegister, SafeHome;
    if i < |ops| {
      var p := ParamRegister(i);
      LowerArgStore(cx, st, ops[i], dropped[i], p);
      VacateKeepsGood(cx.globals, st, p, stay + VarNames(ops), ArgRegisters(i));
      ArgsKeepGood(cx, LowerArg(cx, st, ops[i], dropped[i], p).value.st, ops, dropped, i + 1, stay);
    }
  }

  /** No needed name is in an empty register that parameters do not live in. */
  lemma EmptyUnneeded(st: Store, need: set<Name>, r: Register)
    requires Good(st, need) && st.cells[r].owner == "" && !IsParamRegister(r)
    ensures Unneeded(st, need, r)
  {
  }

  lemma GoodAfterGet(st: Store, need: set<Name>, r: Register, size: Size)
    requires Good(st, need) && Unneeded(st, need, r) && st.cells[r].owner == ""
    ensures Good(GetRegister(st, r, size), need) && GetRegister(st, r, size).vmap == st.vmap
  {
  }

  lemma CallLowers(cx: Context, st: Store, inst: Inst, stay: set<Name>)
    requires inst.op.Call? && |inst.dropped| == |inst.operands| && Good(st, stay + Uses(inst)) &&
             CallSafe(cx, st, inst, stay)
    requires Flagged(inst, stay) && (inst.result.Some? ==> inst.result.value !in st.vmap)
    requires LowerOp(cx, st, inst).Ok?
    ensures Lowers(LowerOp(cx, st, inst).value, inst, stay)
  {
    hide LowerArgs, EmptyRegister, Good, ArgsSafe, SafeHome, Apart, GetRegister, Unneeded, Vacated;
    var ops := inst.operands;
    var all := stay + VarNames(ops);
    ArgsKeepGood(cx, st, ops, inst.dropped, 0, stay);
    var args := LowerArgs(cx, st, ops, inst.dropped, 0).value;
    VacateKeepsGood(cx.globals, args.st, RAX, all, ArgRegisters(|ops|));
    var rax := EmptyRegister(cx.globals, args.st, RAX).value;
    VacatedMeans(args.st, rax.st, RAX, ArgRegisters(|ops|));
    EmptyUnneeded(rax.st, all, RAX);
    GoodAfterGet(rax.st, all, RAX, inst.op.retSize);
    GoodSubset(GetRegister(rax.st, RAX, inst.op.retSize), all, stay);
    GoodPendingApart(GetRegister(rax.st, RAX, inst.op.retSize), inst, stay);
    UnneededSubset(rax.st, all, stay, RAX);
    GetFits(rax.st, stay, RAX, inst.op.retSize);
  }

  lemma VacatedMeans(st: Store, st1: Store, r: Register, avoid: set<nat>)
    requires Vacated(st, st1, r, avoid)
    ensures st1.cells[r].owner == "" && st1.vmap.Keys == st.vmap.Keys
  {
  }

  lemma GoodPendingApart(st: Store, inst: Inst, stay: set<Name>)
    requires Good(st, stay + Uses(inst)) && Flagged(inst, stay)
    ensures AllApart(st, Pending(inst.operands, inst.dropped), stay)
  {
    PendingApart(st, inst, stay);
  }

  lemma GetFits(st: Store, stay: set<Name>, r: Register, size: Size)
    requires Unneeded(st, stay, r)
    ensures EightBytes(size) ==> Fits(GetRegister(st, r, size), InReg(r), stay)
  {
  }

  // One instruction, one block, all blocks

  lemma TerminatorLowers(cx: Context, st: Store, inst: Inst, stay: set<Name>)
    requires Ready(st, inst, stay) && IsTerminator(inst.op) && LowerOp(cx, Start(st, inst), inst).Ok?
    ensures Lowers(LowerOp(cx, Start(st, inst), inst).value, inst, stay)
  {
    hide Placed, Start, Lowers;
    StartPlaced(st, inst, stay);
    StaysPlaced(Start(st, inst), LowerOp(cx, Start(st, inst), inst).value, inst, stay);
  }

  lemma SettleGood(inst: Inst, stay: set<Name>, low: Lowered)
    requires |inst.dropped| == |inst.operands| && Lowers(low, inst, stay) && UserNames(stay)
    requires inst.result.Some? ==> UserName(inst.result.value)
    ensures Good(Settle(low.st, inst, Pending(inst.operands, inst.dropped), low.dest), stay)
  {
    SettleKeeps(low.st, inst, Pending(inst.operands, inst.dropped), low.dest, stay);
  }

  lemma InstKeepsGood(cx: Context, f: Function, b: nat, st: Store, inst: Inst, stay: set<Name>)
    requires |f.params| <= MAX_ARGS
    requires Good(st, stay + Uses(inst)) && Tracked(st) && InstSafe(cx, f, b, st, inst, stay) &&
             LowerInst(cx, st, inst).Ok?
    ensures Good(LowerInst(cx, st, inst).value.st, stay) && Tracked(LowerInst(cx, st, inst).value.st)
  {
    hide LowerOp, Lowers, Good, StepSafe, CallSafe, JumpsSafe, Settle, Tracked, DropAll;
    var low := LowerOp(cx, Start(st, inst), inst).value;
    if inst.op.Call? {
      CallLowers(cx, st, inst, stay);
    } else if IsTerminator(inst.op) {
      TerminatorLowers(cx, st, inst, stay);
    } else {
      OpLowers(cx, st, inst, stay);
    }
    SettleGood(inst, stay, low);
    LowerInstTampers(cx, st, inst);
  }

  lemma {:induction false} InstsKeepGood(cx: Context, f: Function, b: nat, st: Store, insts: seq<Inst>)
    requires |f.params| <= MAX_ARGS && b < |f.blocks|
    requires Good(st, InstsMention(insts) + NeedFrom(f, b + 1)) && Tracked(st)
    requires InstsSafe(cx, f, b, st, insts) && LowerInsts(cx, st, insts).Ok?
    ensures Good(LowerInsts(cx, st, insts).value.st, NeedFrom(f, b + 1)) && Tracked(LowerInsts(cx, st, insts).value.st)
    decreases |insts|
  {
    hide LowerInst, Good, InstSafe, Tracked;
    if insts == [] {
      GoodSubset(st, InstsMention(insts) + NeedFrom(f, b + 1), NeedFrom(f, b + 1));
    } else {
      var stay := InstsMention(insts[1..]) + NeedFrom(f, b + 1);
      GoodSubset(st, InstsMention(insts) + NeedFrom(f, b + 1), stay + Uses(insts[0]));
      InstKeepsGood(cx, f, b, st, insts[0], stay);
      InstsKeepGood(cx, f, b, LowerInst(cx, st, insts[0]).value.st, insts[1..]);
    }
  }

  lemma {:induction false} LowerBlocksAppend(cx: Context, st: Store, xs: seq<Block>, ys: seq<Block>)
    requires LowerBlocks(cx, st, xs + ys).Ok?
    ensures LowerBlocks(cx, st, xs).Ok?
    ensures var (mid, first) := LowerBlocks(cx, st, xs).value;
            LowerBlocks(cx, mid, ys).Ok? &&
            LowerBlocks(cx, st, xs + ys).value ==
              (LowerBlocks(cx, mid, ys).value.0, first + LowerBlocks(cx, mid, ys).value.1)
    decreases |xs|
  {
    hide LowerInsts;
    if xs == [] {
      assert xs + ys == ys;
      assert LowerBlocks(cx, st, xs) == Ok((st, []));
      var (end, labels) := LowerBlocks(cx, st, ys).value;
      assert [] + labels == labels;
    } else {
      assert (xs + ys)[1..] == xs[1..] + ys && (xs + ys)[0] == xs[0];
      var e := LowerInsts(cx, st, xs[0].insts).value;
      LowerBlocksAppend(cx, e.st, xs[1..], ys);
      var (mid, first) := LowerBlocks(cx, e.st, xs[1..]).value;
      var (end, second) := LowerBlocks(cx, mid, ys).value;
      assert [Label(xs[0].name, e.nodes)] + (first + second) == ([Label(xs[0].name, e.nodes)] + first) + second;
    }
  }

  lemma {:induction false} LabelsMatch(cx: Context, st: Store, blocks: seq<Block>)
    requires LowerBlocks(cx, st, blocks).Ok?
    ensures |LowerBlocks(cx, st, blocks).value.1| == |blocks|
    ensures forall b | 0 <= b < |blocks| :: LowerBlocks(cx, st, blocks).value.1[b].name == blocks[b].name
    decreases |blocks|
  {
    hide LowerInsts;
    if blocks != [] {
      LabelsMatch(cx, LowerInsts(cx, st, blocks[0].insts).value.st, blocks[1..]);
    }
  }

  /** Lowering blocks one by one, split around block b. */
  lemma SplitAround(cx: Context, st: Store, blocks: seq<Block>, b: nat)
    requires LowerBlocks(cx, st, blocks).Ok? && b < |blocks|
    ensures LowerBlocks(cx, st, blocks[..b]).Ok? && LowerBlocks(cx, st, blocks[..b + 1]).Ok?
    ensures var st1 := LowerBlocks(cx, st, blocks[..b]).value.0;
            LowerInsts(cx, st1, blocks[b].insts).Ok? &&
            var e := LowerInsts(cx, st1, blocks[b].insts).value;
            LowerBlocks(cx, st, blocks[..b + 1]).value.0 == e.st &&
            |LowerBlocks(cx, st, blocks).value.1| == |blocks| &&
            LowerBlocks(cx, st, blocks).value.1[b] == Label(blocks[b].name, e.nodes)
  {
    hide LowerBlocks, LowerInsts;
    assert blocks == blocks[..b + 1] + blocks[b + 1..];
    LowerBlocksAppend(cx, st, blocks[..b + 1], blocks[b + 1..]);
    assert blocks[..b + 1] == blocks[..b] + [blocks[b]];
    LowerBlocksAppend(cx, st, blocks[..b], [blocks[b]]);
    LabelsMatch(cx, st, blocks[..b]);
    LabelsMatch(cx, st, blocks);
    OneBlock(cx, LowerBlocks(cx, st, blocks[..b]).value.0, blocks[b]);
  }

  /** What block b of a compiled function is lowered from and to. */
  lemma CompiledBlock(globals: set<Name>, f: Function, b: nat)
    requires CompileFunction(globals, f).Ok? && b < |f.blocks|
    ensures var cx := Context(f.returnType, globals);
            BlockStart(cx, f, b).Ok? && LowerInsts(cx, BlockStart(cx, f, b).value, f.blocks[b].insts).Ok? &&
            var e := LowerInsts(cx, BlockStart(cx, f, b).value, f.blocks[b].insts).value;
            BlockStart(cx, f, b + 1) == Ok(e.st) &&
            |CompileFunction(globals, f).value.blocks| == |f.blocks| + 1 &&
            CompileFunction(globals, f).value.blocks[b + 1] == Label(f.blocks[b].name, e.nodes)
  {
    hide LowerBlocks, LowerInsts, PlaceParams, SavedFrom;
    SplitAround(Context(f.returnType, globals), PlaceParams(f.params), f.blocks, b);
  }

  lemma OneBlock(cx: Context, st: Store, block: Block)
    requires LowerBlocks(cx, st, [block]).Ok?
    ensures LowerInsts(cx, st, block.insts).Ok?
    ensures var e := LowerInsts(cx, st, block.insts).value;
              LowerBlocks(cx, st, [block]).value == (e.st, [Label(block.name, e.nodes)])
  {
    hide LowerInsts;
    assert [block][1..] == [];
    var e := LowerInsts(cx, st, block.insts).value;
    assert LowerBlocks(cx, e.st, []) == Ok((e.st, []));
    assert [Label(block.name, e.nodes)] + [] == [Label(block.name, e.nodes)];
  }

  lemma NeedStep(f: Function, b: nat)
    requires b < |f.blocks|
    ensures NeedFrom(f, b) == InstsMention(f.blocks[b].insts) + NeedFrom(f, b + 1)
  {
    assert f.blocks[b..][1..] == f.blocks[b + 1..];
  }

  lemma {:induction false} NeedShrinks(f: Function, b: nat, t: nat)
    requires b <= t <= |f.blocks|
    ensures NeedFrom(f, t) <= NeedFrom(f, b)
    decreases t - b
  {
    if b < t {
      NeedStep(f, b);
      NeedShrinks(f, b + 1, t);
    }
  }

  ghost predicate DistinctParams(params: seq<(Name, Size)>) {
    (forall i | 0 <= i < |params| :: UserName(params[i].0) && params[i].1 == I64) &&
    (forall i, j | 0 <= i < j < |params| :: params[i].0 != params[j].0)
  }

  ghost predicate ParamAt(st: Store, x: Name, i: nat)
    requires i < MAX_ARGS
  {
    x in st.vmap && st.vmap[x] == InReg(ParamRegister(i)) && st.cells[ParamRegister(i)].size == I64
  }

  /** Parameters start out in the argument registers, in order. */
  lemma {:induction false} ParamsPlaced(params: seq<(Name, Size)>)
    requires |params| <= MAX_ARGS && DistinctParams(params)
    ensures forall i | 0 <= i < |params| :: ParamAt(PlaceParams(params), params[i].0, i)
  {
    if params != [] {
      var last := |params| - 1;
      var rest := params[..last];
      ParamsPlaced(rest);
      forall i | 0 <= i < last ensures ParamAt(PlaceParams(params), params[i].0, i) {
        assert rest[i] == params[i] && ParamAt(PlaceParams(rest), rest[i].0, i);
        ArgRegistersDistinct(last, i);
      }
    }
  }

  lemma ParamIndex(params: seq<(Name, Size)>, x: Name) returns (i: nat)
    requires x in WholeFunctions.ParamNames(params)
    ensures i < |params| && params[i].0 == x
  {
    var p :| p in params && p.0 == x;
    i :| 0 <= i < |params| && params[i] == p;
  }

  lemma ParamsApart(params: seq<(Name, Size)>, need: set<Name>)
    requires |params| <= MAX_ARGS && DistinctParams(params)
    ensures RegistersApart(PlaceParams(params), need) && "" !in PlaceParams(params).vmap
    ensures forall x | x in PlaceParams(params).vmap :: exists r: Register ::
              PlaceParams(params).vmap[x] == InReg(r) &&
              IsParamRegister(r) && PlaceParams(params).cells[r].size == I64
  {
    hide PlaceParams;
    ParamsPlaced(params);
    WholeFunctions.PlaceParamsSound(params);
    var st := PlaceParams(params);
    forall x, y | x in st.vmap && y in st.vmap && st.vmap[x] == st.vmap[y] ensures x == y {
      var i := ParamIndex(params, x);
      var j := ParamIndex(params, y);
      assert ParamAt(st, params[i].0, i) && ParamAt(st, params[j].0, j);
      if i < j {
        ArgRegistersDistinct(j, i);
      } else if j < i {
        ArgRegistersDistinct(i, j);
      }
    }
    forall x | x in st.vmap ensures UserName(x) && exists r: Register ::
        st.vmap[x] == InReg(r) && IsParamRegister(r) && st.cells[r].size == I64 {
      var i := ParamIndex(params, x);
      assert ParamAt(st, params[i].0, i);
    }
  }

  lemma ParamsGood(params: seq<(Name, Size)>, need: set<Name>)
    requires |params| <= MAX_ARGS && DistinctParams(params)
    ensures Good(PlaceParams(params), need) && Tracked(PlaceParams(params)) && PlaceParams(params).frame == 0
  {
    hide PlaceParams, Tracked, RegistersApart, Sound;
    ParamsApart(params, need);
    WholeFunctions.PlaceParamsSound(params);
    PlaceParamsTracked(params);
  }

  lemma FirstBlockStart(cx: Context, f: Function)
    requires |f.params| <= MAX_ARGS
    ensures BlockStart(cx, f, 0) == Ok(PlaceParams(f.params))
  {
    hide PlaceParams;
    assert f.blocks[..0] == [];
  }

  /** At the start of every block of a safely lowered function the storage keeps all
      names needed from there on in place and apart. */
  lemma {:induction false} BlocksStartGood(globals: set<Name>, f: Function, b: nat)
    requires FunctionSafe(globals, f) && CompileFunction(globals, f).Ok? && b <= |f.blocks|
    ensures var cx := Context(f.returnType, globals);
            BlockStart(cx, f, b).Ok? && Good(BlockStart(cx, f, b).value, NeedFrom(f, b)) &&
              Tracked(BlockStart(cx, f, b).value)
  {
    hide LowerInsts, PlaceParams, Good, Tracked, InstsSafe, CompileFunction, BlockStart, NeedFrom, DistinctParams;
    var cx := Context(f.returnType, globals);
    if b == 0 {
      ParamsGood(f.params, NeedFrom(f, 0));
      FirstBlockStart(cx, f);
    } else {
      BlocksStartGood(globals, f, b - 1);
      CompiledBlock(globals, f, b - 1);
      NeedStep(f, b - 1);
      InstsKeepGood(cx, f, b - 1, BlockStart(cx, f, b - 1).value, f.blocks[b - 1].insts);
    }
  }
}
