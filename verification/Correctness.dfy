/** Compiled programs compute what the IR computes, over any finite tree of calls. */
module Correctness {
  import opened Wrappers
  import opened Ir
  import opened Machine
  import opened IrSemantics
  import opened Storage
  import opened Lowering
  import opened Ownership
  import opened Tampering
  import opened Simulation
  import opened Settling
  import opened Lifetime
  import opened Reaching
  import opened Liveness
  import opened ArgumentSetup
  import opened Stepping
  import opened Generation
  import opened Frames
  import opened Calling
  import WholeFunctions
  import Conditions

  // Running the emitted nodes

  /** Straight-line nodes run, then what follows them. */
  lemma {:induction false} RunSteps(p: AsmProgram, f: AsmFunction, first: seq<Node>, rest: seq<Node>, b: nat, m: State,
                                    fuel: nat)
    requires m.Valid() && b < |f.blocks| && Steps(first, m).Some?
    ensures Machine.Run(p, f, first + rest, b, m, fuel) == Machine.Run(p, f, rest, b, Steps(first, m).value, fuel)
    decreases |first|
  {
    if first == [] {
      assert first + rest == rest;
    } else {
      assert (first + rest)[0] == first[0] && (first + rest)[1..] == first[1..] + rest;
      var m1 := Step(first[0], m).value;
      RunSteps(p, f, first[1..], rest, b, m1, fuel);
    }
  }

  lemma {:induction false} LabelFound(blocks: seq<Block>, labels: seq<Label>, l: Name)
    requires |labels| == |blocks| && forall b | 0 <= b < |blocks| :: labels[b].name == blocks[b].name
    ensures FindLabel(labels, l) == FindBlock(blocks, l)
  {
    if blocks != [] && blocks[0].name != l {
      LabelFound(blocks[1..], labels[1..], l);
    }
  }

  /** A jump label is found one block further than in the IR: stack_save comes first. */
  lemma TargetFound(globals: set<Name>, f: Function, l: Name)
    requires CompileFunction(globals, f).Ok? && l != STACKSAVE && FindBlock(f.blocks, l).Some?
    ensures FindLabel(CompileFunction(globals, f).value.blocks, l) == Some(FindBlock(f.blocks, l).value + 1)
  {
    hide LowerBlocks, PlaceParams, SavedFrom;
    var cx := Context(f.returnType, globals);
    LabelsMatch(cx, PlaceParams(f.params), f.blocks);
    var labels := LowerBlocks(cx, PlaceParams(f.params), f.blocks).value.1;
    LabelFound(f.blocks, labels, l);
    var all := CompileFunction(globals, f).value.blocks;
    assert all[0].name == STACKSAVE && all[1..] == labels;
  }

  // Programs

  /** The function passes no more arguments in calls than it takes. */
  predicate Frugal(f: Function) {
    MaxArgsBlocks(f.blocks) <= |f.params|
  }

  ghost predicate CallsFrugal(p: Program, insts: seq<Inst>) {
    forall i | 0 <= i < |insts| :: insts[i].op.Call? && insts[i].op.callee in p ==> Frugal(p[insts[i].op.callee])
  }

  ghost predicate CalleesFrugal(p: Program, f: Function) {
    forall b | 0 <= b < |f.blocks| :: CallsFrugal(p, f.blocks[b].insts)
  }

  /** The assembly program is the compilation of a program whose functions are lowered
      safely and whose called functions are frugal. */
  ghost predicate Linked(globals: set<Name>, p: Program, asm: AsmProgram) {
    forall g | g in p ::
      g in asm && CompileFunction(globals, p[g]) == Ok(asm[g]) && FunctionSafe(globals, p[g]) && CalleesFrugal(p, p[g])
  }

  /** Stack that one call takes: the return address, the frame and the saved registers. */
  function Activation(fn: AsmFunction): nat {
    Depth(fn.frame, fn.saved) + 8
  }

  /** No call of a function of the program takes more than k bytes. */
  ghost predicate FramesWithin(asm: AsmProgram, k: nat) {
    forall g | g in asm :: Activation(asm[g]) <= k
  }

  /** Argument registers a function may change. */
  function Scratch(f: Function): set<nat> {
    {RAX} + ArgRegisters(Max(|f.params|, MaxArgsBlocks(f.blocks)))
  }

  /** What a finished call guarantees its caller: control is back at the return address,
      rsp and rbp are restored, the caller's memory and all registers but rax and the
      argument registers are as they were, and rax holds the result. */
  ghost predicate Returns(f: Function, m0: State, end: Option<(Word, State)>, v: Option<Word>)
    requires m0.Valid()
  {
    m0.rsp in m0.mem && end.Some? &&
    var (back, m3) := end.value;
    m3.Valid() && back == m0.mem[m0.rsp] && m3.rsp == m0.rsp + 8 && m3.rbp == m0.rbp &&
    SameFrom(m0.mem, m3.mem, m0.rsp) && RegsWithin(m0, m3, Scratch(f)) &&
    (v.Some? ==> m3.regs[RAX] == v.value)
  }

  // Inside a function body

  /** The machine is in the body entered at m1: rsp, rbp, saved cells and registers that
      are neither tampered nor scratch are as they were on entry. */
  ghost predicate InBody(fn: AsmFunction, changed: set<nat>, m1: State, m: State)
    requires m1.Valid() && m.Valid()
  {
    KeepsSaved(fn.frame, m1, m) && RegsWithin(m1, m, changed) && (fn.frame != 0 ==> m1.rsp + fn.frame <= m1.rbp)
  }

  lemma InBodyWithin(fn: AsmFunction, changed: set<nat>, m1: State, m: State, m2: State, frame: nat, c: set<nat>)
    requires m1.Valid() && m.Valid() && m2.Valid() && InBody(fn, changed, m1, m)
    requires Within(m, m2, frame, c) && frame <= fn.frame && c <= changed
    ensures InBody(fn, changed, m1, m2)
  {
    forall a | m1.rsp <= a && (fn.frame == 0 || a + 8 <= m1.rbp - fn.frame || m1.rbp <= a)
      ensures SameCell(m1.mem, m2.mem, a)
    {
      assert SameCell(m1.mem, m.mem, a);
      assert SameCell(m.mem, m2.mem, a);
    }
  }

  lemma InBodyCall(fn: AsmFunction, changed: set<nat>, m1: State, m: State, m2: State, c: set<nat>)
    requires m1.Valid() && m.Valid() && m2.Valid() && InBody(fn, changed, m1, m)
    requires m2.rsp == m.rsp && m2.rbp == m.rbp && SameFrom(m.mem, m2.mem, m.rsp) && RegsWithin(m, m2, c) &&
             c <= changed
    ensures InBody(fn, changed, m1, m2)
  {
    forall a | m1.rsp <= a && (fn.frame == 0 || a + 8 <= m1.rbp - fn.frame || m1.rbp <= a)
      ensures SameCell(m1.mem, m2.mem, a)
    {
      assert SameCell(m1.mem, m.mem, a);
      assert SameCell(m.mem, m2.mem, a);
    }
  }

  /** Registers the body of a function may change. */
  function Changed(f: Function, end: Store): set<nat> {
    Scratch(f) + Tampered(end)
  }

  lemma AscendingRegisters(saved: seq<nat>)
    requires Ascending(saved) && forall r | r in saved :: r < REGISTERS
    ensures Registers(saved)
  {
    forall i | 0 <= i < |saved| ensures saved[i] < REGISTERS {
      assert saved[i] in saved;
    }
  }

  /** The frame and the saved set are those of the storage after the last block. */
  lemma CompiledFrame(globals: set<Name>, f: Function)
    requires CompileFunction(globals, f).Ok?
    ensures |f.params| <= MAX_ARGS
    ensures var fn, end := CompileFunction(globals, f).value, BlockStart(Context(f.returnType, globals), f, |f.blocks|);
            end.Ok? && fn.frame == end.value.frame &&
              fn.saved == SavedFrom(end.value.cells, ArgRegisters(|f.params|), 1)
  {
    hide LowerBlocks, PlaceParams, SavedFrom, ArgRegisters;
    assert f.blocks[..|f.blocks|] == f.blocks;
  }

  lemma SavedRegisters(globals: set<Name>, f: Function)
    requires CompileFunction(globals, f).Ok?
    ensures |f.params| <= MAX_ARGS
    ensures var fn, end := CompileFunction(globals, f).value, BlockStart(Context(f.returnType, globals), f, |f.blocks|);
            end.Ok? && fn.frame == end.value.frame && Registers(fn.saved) && |fn.saved| < REGISTERS &&
              RAX !in fn.saved &&
            forall r: Register | r !in fn.saved && r !in Scratch(f) :: r !in Changed(f, end.value)
  {
    hide CompileFunction, BlockStart, SavedFrom, ArgRegisters, Ascending, Registers;
    CompiledFrame(globals, f);
    var end := BlockStart(Context(f.returnType, globals), f, |f.blocks|).value;
    SavedAre(end.cells, ArgRegisters(|f.params|), 1);
    SavedAscend(end.cells, ArgRegisters(|f.params|), 1);
    AscendingRegisters(CompileFunction(globals, f).value.saved);
    MoreArgRegisters(|f.params|, Max(|f.params|, MaxArgsBlocks(f.blocks)));
  }

  /** A ret in the body ends the function as its caller expects. */
  lemma RetReturns(globals: set<Name>, p: AsmProgram, f: Function, b: nat, rest: seq<Node>, fuel: nat, m0: State,
                   m1: State, m: State, v: Option<Word>)
    requires CompileFunction(globals, f).Ok? && b < |CompileFunction(globals, f).value.blocks|
    requires m0.Valid() && m1.Valid() && m.Valid() && m0.rsp in m0.mem && m0.rsp + 8 < WORD
    requires BlockStart(Context(f.returnType, globals), f, |f.blocks|).Ok?
    requires var fn, end := CompileFunction(globals, f).value,
             BlockStart(Context(f.returnType, globals), f, |f.blocks|).value;
             Registers(fn.saved) && Entered(fn.frame, fn.saved, m0, m1) && InBody(fn, Changed(f, end), m1, m)
    requires v.Some? ==> m.regs[RAX] == v.value
    ensures Returns(f, m0, Machine.Run(p, CompileFunction(globals, f).value, [NRet] + rest, b, m, fuel), v)
  {
    hide CompileFunction, BlockStart, Tampered, Scratch, Epilogue, SameFrom;
    var fn := CompileFunction(globals, f).value;
    SavedRegisters(globals, f);
    EpilogueUndoesPrologue(fn.frame, fn.saved, m0, m1, m);
    assert ([NRet] + rest)[0] == NRet;
    ScratchHasRax(f);
  }

  lemma ScratchHasRax(f: Function)
    ensures RAX in Scratch(f)
  {
  }

  // Positions in a body

  /** Storage only widens towards the end of the function. */
  lemma {:induction false} WidensToEnd(globals: set<Name>, f: Function, b: nat)
    requires CompileFunction(globals, f).Ok? && b <= |f.blocks|
    ensures var cx := Context(f.returnType, globals);
            |f.params| <= MAX_ARGS && BlockStart(cx, f, b).Ok? && BlockStart(cx, f, |f.blocks|).Ok? &&
            Widens(BlockStart(cx, f, b).value, BlockStart(cx, f, |f.blocks|).value)
    decreases |f.blocks| - b
  {
    hide CompileFunction, BlockStart, LowerInsts;
    var cx := Context(f.returnType, globals);
    CompiledFrame(globals, f);
    if b < |f.blocks| {
      CompiledBlock(globals, f, b);
      LowerInstsTampers(cx, BlockStart(cx, f, b).value, f.blocks[b].insts, MaxArgsInsts(f.blocks[b].insts));
      WidensToEnd(globals, f, b + 1);
    }
  }

  /** Generation is at a point of block b with insts left, in storage state st. */
  ghost predicate Generating(globals: set<Name>, f: Function, b: nat, insts: seq<Inst>, st: Store)
    requires |f.params| <= MAX_ARGS
  {
    var cx := Context(f.returnType, globals);
    b < |f.blocks| && InstsSafe(cx, f, b, st, insts) && MaxArgsInsts(insts) <= MaxArgsBlocks(f.blocks) &&
    LowerInsts(cx, st, insts).Ok? && BlockStart(cx, f, b + 1) == Ok(LowerInsts(cx, st, insts).value.st) &&
    Good(st, InstsMention(insts) + NeedFrom(f, b + 1)) && Tracked(st)
  }

  lemma {:induction false} MaxArgsOfBlock(blocks: seq<Block>, b: nat)
    requires b < |blocks|
    ensures MaxArgsInsts(blocks[b].insts) <= MaxArgsBlocks(blocks)
  {
    if b > 0 {
      MaxArgsOfBlock(blocks[1..], b - 1);
    }
  }

  lemma GeneratingBlock(globals: set<Name>, f: Function, b: nat)
    requires FunctionSafe(globals, f) && CompileFunction(globals, f).Ok? && b < |f.blocks|
    ensures BlockStart(Context(f.returnType, globals), f, b).Ok?
    ensures Generating(globals, f, b, f.blocks[b].insts, BlockStart(Context(f.returnType, globals), f, b).value)
  {
    hide CompileFunction, BlockStart, LowerInsts, InstsSafe, Good, Tracked, NeedFrom;
    CompiledBlock(globals, f, b);
    BlocksStartGood(globals, f, b);
    NeedStep(f, b);
    MaxArgsOfBlock(f.blocks, b);
  }

  /** The generation step over the first instruction left. */
  lemma {:induction false} GeneratingStep(globals: set<Name>, f: Function, b: nat, insts: seq<Inst>, st: Store)
    requires CompileFunction(globals, f).Ok? && |f.params| <= MAX_ARGS
    requires Generating(globals, f, b, insts, st) && insts != []
    ensures var cx, stay := Context(f.returnType, globals), InstsMention(insts[1..]) + NeedFrom(f, b + 1);
            LowerInst(cx, st, insts[0]).Ok? && InstSafe(cx, f, b, st, insts[0], stay) && Ready(st, insts[0], stay) &&
            var e := LowerInst(cx, st, insts[0]).value;
            Generating(globals, f, b, insts[1..], e.st) &&
            LowerInsts(cx, st, insts).value.nodes == e.nodes + LowerInsts(cx, e.st, insts[1..]).value.nodes &&
            BlockStart(cx, f, |f.blocks|).Ok? && Widens(e.st, BlockStart(cx, f, |f.blocks|).value)
  {
    hide CompileFunction, BlockStart, LowerInst, InstSafe, Good, Tracked, NeedFrom, Widens;
    var cx, stay := Context(f.returnType, globals), InstsMention(insts[1..]) + NeedFrom(f, b + 1);
    GoodSubset(st, InstsMention(insts) + NeedFrom(f, b + 1), stay + Uses(insts[0]));
    InstKeepsGood(cx, f, b, st, insts[0], stay);
    SafeReady(cx, f, b, st, insts[0], stay);
    var e := LowerInst(cx, st, insts[0]).value;
    LowerInstsTampers(cx, e.st, insts[1..], MaxArgsInsts(insts[1..]));
    WidensToEnd(globals, f, b + 1);
    WidensThen(e.st, BlockStart(cx, f, b + 1).value, BlockStart(cx, f, |f.blocks|).value,
               LowerInsts(cx, e.st, insts[1..]).value.nodes, {RAX} + ArgRegisters(MaxArgsInsts(insts[1..])));
  }

  lemma SafeReady(cx: Context, f: Function, b: nat, st: Store, inst: Inst, stay: set<Name>)
    requires |f.params| <= MAX_ARGS && Good(st, stay + Uses(inst)) && Tracked(st) && InstSafe(cx, f, b, st, inst, stay)
    ensures Ready(st, inst, stay)
  {
  }

  lemma WidensThen(st: Store, st1: Store, st2: Store, nodes: seq<Node>, x: set<nat>)
    requires Covered(st, st1, nodes, x) && Widens(st1, st2)
    ensures Widens(st, st2)
  {
  }

  /** The machine executes a body: it represents the names needed from here on, and has
      stack left for calls to nest as deep as calls says. */
  ghost predicate Executing(globals: set<Name>, f: Function, fn: AsmFunction, k: nat, need: set<Name>, st: Store,
                            env: Env, m0: State, m1: State, m: State, calls: nat)
    requires |f.params| <= MAX_ARGS
  {
    m0.Valid() && m1.Valid() && m.Valid() && m0.rsp in m0.mem && m0.rsp + 8 < WORD &&
    CompileFunction(globals, f) == Ok(fn) && BlockStart(Context(f.returnType, globals), f, |f.blocks|).Ok? &&
    Registers(fn.saved) && Entered(fn.frame, fn.saved, m0, m1) &&
    InBody(fn, Changed(f, BlockStart(Context(f.returnType, globals), f, |f.blocks|).value), m1, m) &&
    Represents(st, need, env, m) && calls * k + 8 <= m.rsp
  }

  lemma RepresentsBefore(globals: set<Name>, f: Function, b: nat, insts: seq<Inst>, st: Store, env: Env, m: State)
    requires insts != [] && b < |f.blocks| && m.Valid() &&
             Represents(st, InstsMention(insts) + NeedFrom(f, b + 1), env, m)
    ensures Represents(st, InstsMention(insts[1..]) + NeedFrom(f, b + 1) + Uses(insts[0]), env, m)
  {
  }

  lemma SafeStep(cx: Context, f: Function, b: nat, st: Store, inst: Inst, stay: set<Name>)
    requires |f.params| <= MAX_ARGS && InstSafe(cx, f, b, st, inst, stay) && !IsTerminator(inst.op) && !inst.op.Call?
    ensures StepSafe(cx, st, inst, stay)
  {
    hide StepSafe, Flagged;
  }

  /** An instruction that neither calls nor transfers control executes. */
  lemma StraightExecutes(globals: set<Name>, p: AsmProgram, f: Function, fn: AsmFunction, k: nat, b: nat,
                         insts: seq<Inst>, st: Store, env: Env, env1: Env, m0: State, m1: State, m: State, fuel: nat,
                         calls: nat)
      returns (m2: State)
    requires |f.params| <= MAX_ARGS && Generating(globals, f, b, insts, st) && insts != [] && b + 1 < |fn.blocks|
    requires Executing(globals, f, fn, k, InstsMention(insts) + NeedFrom(f, b + 1), st, env, m0, m1, m, calls)
    requires !IsTerminator(insts[0].op) && !insts[0].op.Call? && Perform(insts[0], env) == Some(env1)
    ensures var cx, stay := Context(f.returnType, globals), InstsMention(insts[1..]) + NeedFrom(f, b + 1);
            LowerInst(cx, st, insts[0]).Ok? &&
            var e := LowerInst(cx, st, insts[0]).value;
            Executing(globals, f, fn, k, stay, e.st, env1, m0, m1, m2, calls) &&
            LowerInsts(cx, e.st, insts[1..]).Ok? &&
            Machine.Run(p, fn, LowerInsts(cx, st, insts).value.nodes, b + 1, m, fuel) ==
              Machine.Run(p, fn, LowerInsts(cx, e.st, insts[1..]).value.nodes, b + 1, m2, fuel)
  {
    hide CompileFunction, BlockStart, LowerInst, Good, Tracked, NeedFrom, Represents, Within, InBody, Steps,
         Machine.Run, Entered, Perform, LowerInsts, Tampered, Scratch, StepSafe, InstSafe, InstsSafe, Ready, Registers;
    var cx, stay := Context(f.returnType, globals), InstsMention(insts[1..]) + NeedFrom(f, b + 1);
    GeneratingStep(globals, f, b, insts, st);
    SafeStep(cx, f, b, st, insts[0], stay);
    RepresentsBefore(globals, f, b, insts, st, env, m);
    m2 := InstructionSimulated(cx, st, insts[0], stay, env, env1, m);
    var e := LowerInst(cx, st, insts[0]).value;
    var end := BlockStart(cx, f, |f.blocks|).value;
    CompiledFrame(globals, f);
    InBodyWithin(fn, Changed(f, end), m1, m, m2, e.st.frame, Tampered(e.st));
    RunSteps(p, fn, e.nodes, LowerInsts(cx, e.st, insts[1..]).value.nodes, b + 1, m, fuel);
  }

  // Returning

  /** What a safe ret lowers to, and what its nodes before the ret do. */
  lemma RetLowers(cx: Context, st: Store, inst: Inst, stay: set<Name>, env: Env, m: State, w: Word)
      returns (nodes: seq<Node>, m2: State)
    requires m.Valid() && inst.op.Ret? && Ready(st, inst, stay) && Represents(st, stay + Uses(inst), env, m) &&
             LowerInst(cx, st, inst).Ok?
    requires |inst.operands| == 1 && ValueSize(cx.globals, Start(st, inst), inst.operands[0]) == Ok(I64) &&
             IntOf(env, inst.operands[0]) == Some(w)
    ensures LowerInst(cx, st, inst).value.nodes == nodes + [NRet] && Steps(nodes, m) == Some(m2)
    ensures m2.Valid() && m2 == m.(regs := m.regs[RAX := w], flags := m2.flags)
  {
    hide Start, Steps, Settle, Good, Represents, Sized, SlotsApart, RegistersApart, AllApart;
    StartSets(st, inst, stay, env, m);
    var at := Start(st, inst);
    OperandUse(inst, 0);
    OperandReads(cx.globals, at, inst.operands[0], stay + Uses(inst), env, m);
    var src := ValueOperand(cx.globals, at, inst.operands[0]).value;
    var node := NMov(OReg(RAX, I64), src);
    RetMoves(src, m, w);
    nodes, m2 := [node], Step(node, m).value;
    OneStep(node, m);
    RetNodes(cx, st, inst, node);
  }

  lemma RetMoves(src: Operand, m: State, w: Word)
    requires m.Valid() && Read(m, src) == Some(w)
    ensures Step(NMov(OReg(RAX, I64), src), m).Some?
    ensures var m2 := Step(NMov(OReg(RAX, I64), src), m).value; m2 == m.(regs := m.regs[RAX := w], flags := m2.flags)
  {
    assert m.regs[RAX := m.regs[RAX]] == m.regs;
  }

  lemma RetNodes(cx: Context, st: Store, inst: Inst, node: Node)
    requires inst.op.Ret? && LowerInst(cx, st, inst).Ok? && |inst.operands| == |inst.dropped| == 1
    requires ValueSize(cx.globals, Start(st, inst), inst.operands[0]) == Ok(I64)
    requires ValueOperand(cx.globals, Start(st, inst), inst.operands[0]).Ok? &&
             node == NMov(OReg(RAX, I64), ValueOperand(cx.globals, Start(st, inst), inst.operands[0]).value)
    ensures LowerInst(cx, st, inst).value.nodes == [node] + [NRet]
  {
    hide Settle, DropAll;
  }

  lemma PlainRetNodes(cx: Context, st: Store, inst: Inst)
    requires inst.op.Ret? && LowerInst(cx, st, inst).Ok? && inst.operands == []
    ensures LowerInst(cx, st, inst).value.nodes == [NRet]
  {
    hide Settle, DropAll;
  }

  lemma RaxWithin(f: Function, end: Store, m: State, m2: State, w: Word)
    requires m.Valid() && m2.Valid() && m2 == m.(regs := m.regs[RAX := w], flags := m2.flags)
    ensures Within(m, m2, 0, Changed(f, end))
  {
  }

  lemma RetMeans(globals: set<Name>, p: Program, f: Function, b: nat, insts: seq<Inst>, st: Store, stay: set<Name>,
                 env: Env, fuel: nat, calls: nat, v: Option<Word>)
    requires |f.params| <= MAX_ARGS && b < |f.blocks| && insts != [] && insts[0].op.Ret?
    requires InstSafe(Context(f.returnType, globals), f, b, st, insts[0], stay) &&
             IrSemantics.Run(p, f, insts, b, env, fuel, calls) == Some(v)
    ensures |insts[0].dropped| == |insts[0].operands|
    ensures insts[0].operands == [] ==> v == None
    ensures insts[0].operands != [] ==>
              |insts[0].operands| == 1 && v.Some? && IntOf(env, insts[0].operands[0]) == v &&
              ValueSize(globals, Start(st, insts[0]), insts[0].operands[0]) == Ok(I64)
  {
    hide ValueSize, Start, IntOf;
  }

  lemma RetExecutes(globals: set<Name>, p: Program, asm: AsmProgram, f: Function, fn: AsmFunction, k: nat, b: nat,
                    insts: seq<Inst>, st: Store, env: Env, m0: State, m1: State, m: State, fuel: nat, calls: nat,
                    v: Option<Word>)
    requires |f.params| <= MAX_ARGS && Generating(globals, f, b, insts, st) && insts != [] && b + 1 < |fn.blocks|
    requires Executing(globals, f, fn, k, InstsMention(insts) + NeedFrom(f, b + 1), st, env, m0, m1, m, calls)
    requires insts[0].op.Ret? && IrSemantics.Run(p, f, insts, b, env, fuel, calls) == Some(v)
    ensures Returns(f, m0, Machine.Run(asm, fn, LowerInsts(Context(f.returnType, globals), st, insts).value.nodes,
                                       b + 1, m, fuel), v)
  {
    hide CompileFunction, BlockStart, LowerInst, Good, Tracked, NeedFrom, Represents, Within, InBody, Steps,
         Machine.Run, Entered, LowerInsts, Tampered, Scratch, StepSafe, Returns, Changed, Ready, InstSafe,
         IrSemantics.Run, Widens, IntOf, InstsSafe, ValueSize, Start;
    var cx, stay := Context(f.returnType, globals), InstsMention(insts[1..]) + NeedFrom(f, b + 1);
    GeneratingStep(globals, f, b, insts, st);
    RetMeans(globals, p, f, b, insts, st, stay, env, fuel, calls, v);
    RepresentsBefore(globals, f, b, insts, st, env, m);
    var e, rest := LowerInst(cx, st, insts[0]).value,
      LowerInsts(cx, LowerInst(cx, st, insts[0]).value.st, insts[1..]).value.nodes;
    var end := BlockStart(cx, f, |f.blocks|).value;
    if insts[0].operands == [] {
      PlainRetNodes(cx, st, insts[0]);
      RetReturns(globals, asm, f, b + 1, rest, fuel, m0, m1, m, v);
    } else {
      var nodes, m2 := RetLowers(cx, st, insts[0], stay, env, m, v.value);
      RaxWithin(f, end, m, m2, v.value);
      InBodyWithin(fn, Changed(f, end), m1, m, m2, 0, Changed(f, end));
      assert (nodes + [NRet]) + rest == nodes + ([NRet] + rest);
      RunSteps(asm, fn, nodes, [NRet] + rest, b + 1, m, fuel);
      RetReturns(globals, asm, f, b + 1, rest, fuel, m0, m1, m2, v);
    }
  }

  // Jumping

  /** Lowering a terminator leaves the names needed later where they are. */
  lemma TerminatorRepresents(cx: Context, st: Store, inst: Inst, stay: set<Name>, env: Env, m: State)
    requires m.Valid() && IsTerminator(inst.op) && Ready(st, inst, stay) && Represents(st, stay + Uses(inst), env, m) &&
             LowerInst(cx, st, inst).Ok?
    ensures Represents(LowerInst(cx, st, inst).value.st, stay, env, m)
    ensures Represents(Start(st, inst), stay + Uses(inst), env, m)
  {
    hide DropAll, Settle, Lowers, Good, Represents, Sized, SlotsApart, RegistersApart, AllApart, LowerOp, Flagged,
         Tracked;
    StartSets(st, inst, stay, env, m);
    TerminatorLowers(cx, st, inst, stay);
    var low := LowerOp(cx, Start(st, inst), inst).value;
    TerminatorKeeps(cx, Start(st, inst), inst);
    RepresentsSubset(Start(st, inst), stay + Uses(inst), stay, env, m);
    QuietlyReached(low, inst, stay, env, m);
    SettleReached(inst, stay, low, env, m);
  }

  lemma TerminatorKeeps(cx: Context, st: Store, inst: Inst)
    requires IsTerminator(inst.op) && LowerOp(cx, st, inst).Ok?
    ensures LowerOp(cx, st, inst).value.st == st && LowerOp(cx, st, inst).value.dest == None
  {
  }

  lemma QuietlyReached(low: Lowered, inst: Inst, stay: set<Name>, env: Env, m: State)
    requires m.Valid() && |inst.dropped| == |inst.operands| && Lowers(low, inst, stay) && low.dest == None &&
             Represents(low.st, stay, env, m)
    ensures Reached(low, inst, stay, env, m)
  {
  }

  lemma AgreeRepresents(st: Store, at: Store, stay: set<Name>, need: set<Name>, env: Env, m: State)
    requires m.Valid() && Represents(st, stay, env, m) && need <= stay && LocationsAgree(st, at, need)
    ensures Represents(at, need, env, m)
  {
    forall x | x in need && x in env.vals ensures x in at.vmap && HoldsAt(at.vmap[x], env.vals[x], Content(env, x), m) {
      assert HoldsAt(st.vmap[x], env.vals[x], Content(env, x), m);
    }
  }

  /** The environment with the live names alone. */
  function OnlyLive(blocks: seq<Block>, p: Place, env: Env): Env {
    env.(vals := map x | x in env.vals && Live(blocks, p, x) :: env.vals[x])
  }

  lemma LoopRepresents(st: Store, at: Store, f: Function, t: nat, stay: set<Name>, need: set<Name>, env: Env, m: State)
    requires m.Valid() && Represents(st, stay, env, m) && LoopAgrees(st, at, f.blocks, t, stay)
    ensures KeepsLive(f.blocks, (t, 0), env, OnlyLive(f.blocks, (t, 0), env))
    ensures Represents(at, need, OnlyLive(f.blocks, (t, 0), env), m)
  {
    hide Live;
    var env1 := OnlyLive(f.blocks, (t, 0), env);
    forall x | x in need && x in env1.vals
      ensures x in at.vmap && HoldsAt(at.vmap[x], env1.vals[x], Content(env1, x), m)
    {
      assert HoldsAt(st.vmap[x], env.vals[x], Content(env, x), m);
    }
  }

  /** At the label of a safe jump, the machine represents an environment that has the values
      of all names that may still be read. */
  lemma LabelRepresents(cx: Context, f: Function, b: nat, st: Store, l: Name, stay: set<Name>, env: Env, m: State)
      returns (env1: Env)
    requires |f.params| <= MAX_ARGS && b < |f.blocks| && NeedFrom(f, b + 1) <= stay
    requires m.Valid() && Represents(st, stay, env, m) && JumpSafe(cx, f, b, st, l, stay)
    requires FindBlock(f.blocks, l).Some? && BlockStart(cx, f, FindBlock(f.blocks, l).value).Ok?
    ensures var t := FindBlock(f.blocks, l).value;
            KeepsLive(f.blocks, (t, 0), env, env1) &&
            Represents(BlockStart(cx, f, t).value, NeedFrom(f, t), env1, m)
  {
    hide BlockStart, Represents, NeedFrom, LocationsAgree, LoopAgrees, Live;
    var t := FindBlock(f.blocks, l).value;
    var at := BlockStart(cx, f, t).value;
    if b < t {
      env1 := env;
      NeedShrinks(f, b + 1, t);
      AgreeRepresents(st, at, stay, NeedFrom(f, t), env, m);
    } else {
      env1 := OnlyLive(f.blocks, (t, 0), env);
      LoopRepresents(st, at, f, t, stay, NeedFrom(f, t), env, m);
    }
  }

  /** Execution arrives at the label of a safe jump. */
  lemma JumpArrives(globals: set<Name>, asm: AsmProgram, f: Function, fn: AsmFunction, k: nat, b: nat, insts: seq<Inst>,
                    st: Store, l: Name, env: Env, m0: State, m1: State, m: State, fuel: nat,
                    calls: nat) returns (env1: Env)
    requires FunctionSafe(globals, f) && b < |f.blocks| && fuel > 0
    requires Executing(globals, f, fn, k, InstsMention(insts) + NeedFrom(f, b + 1), st, env, m0, m1, m, calls)
    requires JumpSafe(Context(f.returnType, globals), f, b, st, l, InstsMention(insts) + NeedFrom(f, b + 1))
    requires FindBlock(f.blocks, l).Some?
    ensures var cx, t := Context(f.returnType, globals), FindBlock(f.blocks, l).value;
            BlockStart(cx, f, t).Ok? && t + 1 < |fn.blocks| && KeepsLive(f.blocks, (t, 0), env, env1) &&
            var at, code := BlockStart(cx, f, t).value, f.blocks[t].insts;
            Generating(globals, f, t, code, at) &&
            Executing(globals, f, fn, k, InstsMention(code) + NeedFrom(f, t + 1), at, env1, m0, m1, m, calls) &&
            Machine.Goto(asm, fn, l, m, fuel) ==
              Machine.Run(asm, fn, LowerInsts(cx, at, code).value.nodes, t + 1, m, fuel - 1)
  {
    hide CompileFunction, BlockStart, Generating, Represents, InBody, Machine.Run, Entered, LowerInsts, Tampered,
         Scratch, Registers, InstsSafe, NeedFrom, LocationsAgree, LoopAgrees, KeepsLive;
    var t := FindBlock(f.blocks, l).value;
    TargetFound(globals, f, l);
    GeneratingBlock(globals, f, t);
    CompiledBlock(globals, f, t);
    NeedStep(f, t);
    env1 := LabelRepresents(Context(f.returnType, globals), f, b, st, l, InstsMention(insts) + NeedFrom(f, b + 1), env,
                            m);
  }

  lemma BranchLowers(cx: Context, st: Store, inst: Inst, stay: set<Name>, env: Env, m: State, c: bool)
      returns (t: IcmpType)
    requires m.Valid() && inst.op.Branch? && Ready(st, inst, stay) && Represents(st, stay + Uses(inst), env, m) &&
             LowerInst(cx, st, inst).Ok?
    requires |inst.operands| == 1 && BoolOf(env, inst.operands[0]) == Some(c)
    ensures LowerInst(cx, st, inst).value.nodes == [NCondJmp(t, inst.op.onTrue), NJmp(inst.op.onFalse)]
    ensures m.flags.Some? && Conditions.Holds(Conditions.CondInst(t), m.flags.value) == c
  {
    hide Start, Settle, Good, Represents, ConditionOf, Ready, Conditions.Holds;
    TerminatorRepresents(cx, st, inst, stay, env, m);
    OperandUse(inst, 0);
    ConditionPlace(cx, Start(st, inst), inst.operands[0], stay + Uses(inst), env, m);
    t := ConditionOf(cx, Start(st, inst), inst.operands[0]).value;
    BranchNodes(cx, st, inst, t);
  }

  lemma BranchNodes(cx: Context, st: Store, inst: Inst, t: IcmpType)
    requires inst.op.Branch? && LowerInst(cx, st, inst).Ok? && |inst.operands| == |inst.dropped| == 1
    requires ConditionOf(cx, Start(st, inst), inst.operands[0]) == Ok(t)
    ensures LowerInst(cx, st, inst).value.nodes == [NCondJmp(t, inst.op.onTrue), NJmp(inst.op.onFalse)]
  {
    hide Settle, DropAll, ConditionOf;
  }

  lemma JmpNodes(cx: Context, st: Store, inst: Inst)
    requires inst.op.Jmp? && LowerInst(cx, st, inst).Ok?
    ensures LowerInst(cx, st, inst).value.nodes == [NJmp(inst.op.target)]
  {
    hide Settle, DropAll;
  }

  /** The label control goes to at a jump or branch. */
  function Destination(inst: Inst, env: Env): Option<Name> {
    match inst.op
    case Jmp(l) => Some(l)
    case Branch(t, e) =>
      if |inst.operands| != 1 then None
      else
        (match BoolOf(env, inst.operands[0])
         case Some(c) => Some(if c then t else e)
         case None => None)
    case _ => None
  }

  lemma TransferMeans(p: Program, f: Function, insts: seq<Inst>, b: nat, env: Env, fuel: nat, calls: nat,
                      v: Option<Word>)
    requires b < |f.blocks| && insts != [] && (insts[0].op.Jmp? || insts[0].op.Branch?) &&
             IrSemantics.Run(p, f, insts, b, env, fuel, calls) == Some(v)
    ensures Destination(insts[0], env).Some? && fuel > 0
    ensures var l := Destination(insts[0], env).value;
            l in Targets(insts[0].op) && FindBlock(f.blocks, l).Some? &&
            var t := FindBlock(f.blocks, l).value;
            IrSemantics.Run(p, f, f.blocks[t].insts, t, env, fuel - 1, calls) == Some(v)
  {
  }

  /** Running a lowered jump or branch takes the jump the IR takes. */
  lemma TransferRuns(asm: AsmProgram, fn: AsmFunction, cx: Context, st: Store, inst: Inst, stay: set<Name>,
                     rest: seq<Node>, b: nat, env: Env, m: State, fuel: nat)
    requires m.Valid() && (inst.op.Jmp? || inst.op.Branch?) && Ready(st, inst, stay) &&
             Represents(st, stay + Uses(inst), env, m)
    requires LowerInst(cx, st, inst).Ok? && Destination(inst, env).Some? && b < |fn.blocks|
    ensures Machine.Run(asm, fn, LowerInst(cx, st, inst).value.nodes + rest, b, m, fuel) ==
            Machine.Goto(asm, fn, Destination(inst, env).value, m, fuel)
  {
    hide LowerInst, Ready, Represents, Machine.Goto;
    var nodes := LowerInst(cx, st, inst).value.nodes;
    if inst.op.Jmp? {
      JmpNodes(cx, st, inst);
      assert (nodes + rest)[0] == NJmp(inst.op.target);
    } else {
      var c := BoolOf(env, inst.operands[0]).value;
      var t := BranchLowers(cx, st, inst, stay, env, m, c);
      assert (nodes + rest)[0] == NCondJmp(t, inst.op.onTrue);
      assert (nodes + rest)[1..] == [NJmp(inst.op.onFalse)] + rest;
    }
  }

  /** A lowered jump or branch goes to the label that the IR goes to, and nothing needed later
      has changed. */
  lemma TransferGoes(globals: set<Name>, asm: AsmProgram, f: Function, fn: AsmFunction, k: nat, b: nat,
                     insts: seq<Inst>, st: Store, l: Name, env: Env, m0: State, m1: State, m: State, fuel: nat,
                     calls: nat)
    requires |f.params| <= MAX_ARGS && Generating(globals, f, b, insts, st) && insts != [] && b + 1 < |fn.blocks|
    requires Executing(globals, f, fn, k, InstsMention(insts) + NeedFrom(f, b + 1), st, env, m0, m1, m, calls)
    requires (insts[0].op.Jmp? || insts[0].op.Branch?) && Destination(insts[0], env) == Some(l) &&
             l in Targets(insts[0].op)
    ensures var cx, stay := Context(f.returnType, globals), InstsMention(insts[1..]) + NeedFrom(f, b + 1);
            LowerInst(cx, st, insts[0]).Ok? &&
            var st1 := LowerInst(cx, st, insts[0]).value.st;
            JumpSafe(cx, f, b, st1, l, stay) && Executing(globals, f, fn, k, stay, st1, env, m0, m1, m, calls) &&
            Machine.Run(asm, fn, LowerInsts(cx, st, insts).value.nodes, b + 1, m, fuel) ==
              Machine.Goto(asm, fn, l, m, fuel)
  {
    hide CompileFunction, BlockStart, LowerInst, Good, Tracked, NeedFrom, Represents, InBody, Machine.Run, Machine.Goto,
         Entered, LowerInsts,
         Tampered, Scratch, Ready, Widens, InstsSafe, JumpSafe, Changed, Destination;
    var cx, stay := Context(f.returnType, globals), InstsMention(insts[1..]) + NeedFrom(f, b + 1);
    GeneratingStep(globals, f, b, insts, st);
    RepresentsBefore(globals, f, b, insts, st, env, m);
    TerminatorRepresents(cx, st, insts[0], stay, env, m);
    var e := LowerInst(cx, st, insts[0]).value;
    TransferRuns(asm, fn, cx, st, insts[0], stay, LowerInsts(cx, e.st, insts[1..]).value.nodes, b + 1, env, m, fuel);
  }

  /** A jump or branch executes: generation and execution continue at the label. */
  lemma TransferExecutes(globals: set<Name>, p: Program, asm: AsmProgram, f: Function, fn: AsmFunction, k: nat, b: nat,
                         insts: seq<Inst>, st: Store, env: Env, m0: State, m1: State, m: State, fuel: nat, calls: nat,
                         v: Option<Word>) returns (t: nat, at: Store, env1: Env)
    requires FunctionSafe(globals, f) && Generating(globals, f, b, insts, st) && insts != [] && b + 1 < |fn.blocks|
    requires Executing(globals, f, fn, k, InstsMention(insts) + NeedFrom(f, b + 1), st, env, m0, m1, m, calls)
    requires (insts[0].op.Jmp? || insts[0].op.Branch?) && IrSemantics.Run(p, f, insts, b, env, fuel, calls) == Some(v)
    ensures fuel > 0 && t < |f.blocks| && t + 1 < |fn.blocks|
    ensures IrSemantics.Run(p, f, f.blocks[t].insts, t, env1, fuel - 1, calls) == Some(v)
    ensures Generating(globals, f, t, f.blocks[t].insts, at)
    ensures Executing(globals, f, fn, k, InstsMention(f.blocks[t].insts) + NeedFrom(f, t + 1), at, env1, m0, m1, m,
                      calls)
    ensures Machine.Run(asm, fn, LowerInsts(Context(f.returnType, globals), st, insts).value.nodes, b + 1, m, fuel) ==
              Machine.Run(asm, fn, LowerInsts(Context(f.returnType, globals), at, f.blocks[t].insts).value.nodes, t + 1,
                          m, fuel - 1)
  {
    hide Executing, FunctionSafe, BlockStart, LowerInst, NeedFrom, Machine.Run, Machine.Goto, IrSemantics.Run,
         LowerInsts,
         JumpSafe, Destination, KeepsLive, InstsMention;
    var cx := Context(f.returnType, globals);
    SafeArity(globals, f);
    GeneratingBounds(globals, f, b, insts, st);
    TransferMeans(p, f, insts, b, env, fuel, calls, v);
    var l := Destination(insts[0], env).value;
    TransferGoes(globals, asm, f, fn, k, b, insts, st, l, env, m0, m1, m, fuel, calls);
    env1 := JumpArrives(globals, asm, f, fn, k, b, insts[1..], LowerInst(cx, st, insts[0]).value.st, l, env, m0, m1, m,
                        fuel, calls);
    t := FindBlock(f.blocks, l).value;
    at := BlockStart(cx, f, t).value;
    BlockRunKeeps(p, f, t, env, env1, fuel - 1, calls, v);
  }

  lemma SafeArity(globals: set<Name>, f: Function)
    requires FunctionSafe(globals, f)
    ensures |f.params| <= MAX_ARGS
  {
  }

  // Calling

  lemma CallMeans(p: Program, f: Function, insts: seq<Inst>, b: nat, env: Env, fuel: nat, calls: nat, v: Option<Word>)
      returns (args: seq<Word>, w: Option<Word>)
    requires b < |f.blocks| && insts != [] && insts[0].op.Call?
    requires IrSemantics.Run(p, f, insts, b, env, fuel, calls) == Some(v)
    ensures IntsOf(env, insts[0].operands) == Some(args) && fuel > 0 && calls > 0
    ensures var g := insts[0].op.callee;
            g in p && p[g].blocks != [] && |p[g].params| == |args| &&
            var start := Env(BindParams(p[g].params, args), map[]);
            IrSemantics.Run(p, p[g], p[g].blocks[0].insts, 0, start, fuel - 1, calls - 1) == Some(w)
    ensures insts[0].result.Some? ==> w.Some?
    ensures IrSemantics.Run(p, f, insts[1..], b, AfterCall(insts[0], env, w), fuel, calls) == Some(v)
  {
    hide BindParams, IntsOf;
    args := IntsOf(env, insts[0].operands).value;
    w := IrSemantics.Invoke(p, insts[0].op.callee, args, fuel, calls).value;
  }

  /** The environment after a call that returned w. */
  function AfterCall(inst: Inst, env: Env, w: Option<Word>): Env
    requires inst.result.Some? ==> w.Some?
  {
    if inst.result.Some? then Bind(env, inst.result, IntV(w.value)) else env
  }

  /** The set-up runs, and the call instruction is next. */
  lemma CallPrepares(globals: set<Name>, asm: AsmProgram, f: Function, fn: AsmFunction, k: nat, b: nat,
                     insts: seq<Inst>, st: Store, env: Env, m0: State, m1: State, m: State, fuel: nat, calls: nat,
                     args: seq<Word>)
      returns (m2: State)
    requires |f.params| <= MAX_ARGS && Generating(globals, f, b, insts, st) && insts != [] && b + 1 < |fn.blocks|
    requires Executing(globals, f, fn, k, InstsMention(insts) + NeedFrom(f, b + 1), st, env, m0, m1, m, calls)
    requires insts[0].op.Call? && IntsOf(env, insts[0].operands) == Some(args)
    ensures |args| <= MAX_ARGS && m2.Valid()
    ensures var cx, stay := Context(f.returnType, globals), InstsMention(insts[1..]) + NeedFrom(f, b + 1);
            BeforeCall(cx, st, insts[0]).Ok? && LowerInst(cx, st, insts[0]).Ok? &&
            var before, e := BeforeCall(cx, st, insts[0]).value, LowerInst(cx, st, insts[0]).value;
            SetUp(before.st, stay, args, env, m, m2) && before.st.frame <= fn.frame &&
            InBody(fn, Changed(f, BlockStart(cx, f, |f.blocks|).value), m1, m2) &&
            LowerInsts(cx, e.st, insts[1..]).Ok? &&
            Machine.Run(asm, fn, LowerInsts(cx, st, insts).value.nodes, b + 1, m, fuel) ==
              Machine.Run(asm, fn, [NCall(insts[0].op.callee)] + LowerInsts(cx, e.st, insts[1..]).value.nodes, b + 1,
                          m2, fuel)
  {
    hide CompileFunction, BlockStart, LowerInst, Good, Tracked, NeedFrom, Represents, Within, InBody, Steps,
         Machine.Run, Entered, LowerInsts, Tampered, Scratch, Ready, InstsSafe,
         BeforeCall, CallSafe, Changed, Registers, InstSafe, Flagged, SetUp;
    var cx, stay := Context(f.returnType, globals), InstsMention(insts[1..]) + NeedFrom(f, b + 1);
    GeneratingStep(globals, f, b, insts, st);
    SafeCall(cx, f, b, st, insts[0], stay);
    RepresentsBefore(globals, f, b, insts, st, env, m);
    IntsAreReady(globals, st, insts[0], stay, env, m, args);
    m2 := CallSetsUp(cx, st, insts[0], stay, env, m, args);
    var before, e := BeforeCall(cx, st, insts[0]).value, LowerInst(cx, st, insts[0]).value;
    CallNodes(cx, st, insts[0]);
    SetUpRuns(asm, fn, before.nodes + [NMov(OReg(RAX, I64), OImm(0, I64))], insts[0].op.callee,
              LowerInsts(cx, e.st, insts[1..]).value.nodes, b + 1, m, fuel);
    CompiledFrame(globals, f);
    var end := BlockStart(cx, f, |f.blocks|).value;
    WidensTransitive(before.st, e.st, end);
    WidensMeans(before.st, end);
    MaxArgsOfCall(insts);
    CallChanges(f, end, before.st, |args|);
    SetUpInBody(fn, Changed(f, end), before.st, stay, args, env, m1, m, m2);
  }

  lemma IntsAreReady(globals: set<Name>, st: Store, inst: Inst, stay: set<Name>, env: Env, m: State, args: seq<Word>)
    requires m.Valid() && IntsOf(env, inst.operands) == Some(args) && Represents(st, stay + Uses(inst), env, m)
    ensures |args| == |inst.operands|
    ensures forall k | 0 <= k < |args| :: PassesAs(globals, st, env, inst.operands[k], m, args[k])
  {
    hide Represents, PassesAs;
    RepresentsSubset(st, stay + Uses(inst), VarNames(inst.operands), env, m);
    IntsPass(globals, st, env, inst.operands, m, args);
  }

  lemma SetUpRuns(asm: AsmProgram, fn: AsmFunction, setup: seq<Node>, g: Name, rest: seq<Node>, b: nat, m: State,
                  fuel: nat)
    requires m.Valid() && b < |fn.blocks| && Steps(setup, m).Some?
    ensures Machine.Run(asm, fn, (setup + [NCall(g)]) + rest, b, m, fuel) ==
            Machine.Run(asm, fn, [NCall(g)] + rest, b, Steps(setup, m).value, fuel)
  {
    hide Machine.Run, Steps;
    assert (setup + [NCall(g)]) + rest == setup + ([NCall(g)] + rest);
    RunSteps(asm, fn, setup, [NCall(g)] + rest, b, m, fuel);
  }

  lemma WidensMeans(st: Store, st1: Store)
    requires Widens(st, st1)
    ensures st.frame <= st1.frame && Tampered(st) <= Tampered(st1)
  {
  }

  lemma MaxArgsOfCall(insts: seq<Inst>)
    requires insts != [] && insts[0].op.Call?
    ensures |insts[0].operands| <= MaxArgsInsts(insts)
  {
  }

  /** A call changes only registers that the body may change. */
  lemma CallChanges(f: Function, end: Store, st: Store, n: nat)
    requires n <= MaxArgsBlocks(f.blocks) && Tampered(st) <= Tampered(end)
    ensures {RAX} + Tampered(st) + ArgRegisters(n) <= Changed(f, end)
  {
    hide ArgRegisters, Tampered, Scratch;
    CallScratch(f, end, n);
  }

  lemma CallScratch(f: Function, end: Store, n: nat)
    requires n <= MaxArgsBlocks(f.blocks)
    ensures {RAX} + ArgRegisters(n) <= Changed(f, end)
  {
    hide ArgRegisters, Tampered;
    MoreArgRegisters(n, Max(|f.params|, MaxArgsBlocks(f.blocks)));
  }

  lemma SetUpInBody(fn: AsmFunction, changed: set<nat>, st: Store, stay: set<Name>, args: seq<Word>, env: Env,
                    m1: State, m: State, m2: State)
    requires m1.Valid() && m.Valid() && m2.Valid() && |args| <= MAX_ARGS
    requires InBody(fn, changed, m1, m) && SetUp(st, stay, args, env, m, m2) && st.frame <= fn.frame
    requires {RAX} + Tampered(st) + ArgRegisters(|args|) <= changed
    ensures InBody(fn, changed, m1, m2)
  {
    hide Tampered, ArgRegisters, InBody, Good, Represents, ArgsInPlace, FlagsFree, Loaded, Unneeded;
    InBodyWithin(fn, changed, m1, m, m2, st.frame, {RAX} + Tampered(st) + ArgRegisters(|args|));
  }

  lemma SafeCall(cx: Context, f: Function, b: nat, st: Store, inst: Inst, stay: set<Name>)
    requires |f.params| <= MAX_ARGS && InstSafe(cx, f, b, st, inst, stay) && inst.op.Call? && Ready(st, inst, stay)
    ensures CallSafe(cx, st, inst, stay) && Flagged(inst, stay) && Good(st, stay + Uses(inst))
  {
    hide CallSafe, Flagged, Good;
  }

  /** A call lowers to its set-up, mov rax, 0 and the call; the storage only settles. */
  lemma CallNodes(cx: Context, st: Store, inst: Inst)
    requires inst.op.Call? && BeforeCall(cx, st, inst).Ok? && LowerInst(cx, st, inst).Ok?
    ensures var e := BeforeCall(cx, st, inst).value;
            LowerInst(cx, st, inst).value.nodes == (e.nodes + [NMov(OReg(RAX, I64), OImm(0, I64))]) +
              [NCall(inst.op.callee)] &&
            Widens(e.st, LowerInst(cx, st, inst).value.st)
  {
    hide BeforeCall, Settle, LowerOp, GetRegister, Widens, DropAll, Covered;
    LowerCallIs(cx, st, inst);
    var e := BeforeCall(cx, st, inst).value;
    var low := LowerOp(cx, st, inst).value;
    GetRegisterTampers(e.st, RAX, inst.op.retSize);
    SettleTampers(low.st, inst, Pending(inst.operands, inst.dropped), low.dest);
    CoveredWidens(e.st, low.st, []);
    CoveredWidens(low.st, LowerInst(cx, st, inst).value.st, []);
    WidensTransitive(e.st, low.st, LowerInst(cx, st, inst).value.st);
  }

  lemma CoveredWidens(st: Store, st1: Store, nodes: seq<Node>)
    requires Covered(st, st1, nodes, {})
    ensures Widens(st, st1)
  {
  }

  lemma WidensTransitive(st: Store, st1: Store, st2: Store)
    requires Widens(st, st1) && Widens(st1, st2)
    ensures Widens(st, st2)
  {
  }

  /** The machine stands at the first instruction of a function that was called with
      args: they are in the argument registers, the return address is on the stack, and
      there is stack for the frame and for calls to nest as deep as calls says. */
  ghost predicate Entering(fn: AsmFunction, k: nat, args: seq<Word>, m0: State, calls: nat) {
    m0.Valid() && |args| <= MAX_ARGS && ArgsInPlace(m0, args, |args|) && m0.rsp in m0.mem && m0.rsp + 8 < WORD &&
    calls * k + Depth(fn.frame, fn.saved) + 8 <= m0.rsp
  }

  lemma CallEnters(asm: AsmProgram, k: nat, g: Name, args: seq<Word>, site: Word, m: State, calls: nat)
    requires g in asm && FramesWithin(asm, k) && calls > 0 && m.Valid() && |args| <= MAX_ARGS
    requires ArgsInPlace(m, args, |args|) && calls * k + 8 <= m.rsp
    ensures Push(m, site).Some?
    ensures var m0 := Push(m, site).value; Entering(asm[g], k, args, m0, calls - 1) && m0.mem[m0.rsp] == site
  {
    hide Depth;
    assert calls * k == (calls - 1) * k + k;
  }

  /** A call whose callee returns comes back with the caller's state as it was. */
  lemma CallReturns(asm: AsmProgram, g: Name, f: Function, site: Word, m: State, fuel: nat, w: Option<Word>)
      returns (m3: State)
    requires g in asm && asm[g].blocks != [] && fuel > 0 && m.Valid() && Push(m, site).Some? && m.rsp + 8 < WORD
    requires var m0 := Push(m, site).value; Returns(f, m0,
                                                    Machine.Run(asm, asm[g], asm[g].blocks[0].nodes, 0, m0, fuel - 1),
                                                    w)
    ensures Machine.Invoke(asm, g, site, m, fuel) == Some(m3)
    ensures m3.Valid() && m3.rsp == m.rsp && m3.rbp == m.rbp && SameFrom(m.mem, m3.mem, m.rsp) &&
            RegsWithin(m, m3, Scratch(f))
    ensures w.Some? ==> m3.regs[RAX] == w.value
  {
    hide Machine.Run, Scratch;
    var m0 := Push(m, site).value;
    m3 := Machine.Invoke(asm, g, site, m, fuel).value;
    forall a | m.rsp <= a ensures SameCell(m.mem, m3.mem, a) {
      WriteApart(m.mem, m.rsp - 8, site, a);
      assert SameCell(m0.mem, m3.mem, a);
    }
  }

  lemma FrugalScratch(f: Function, n: nat)
    requires Frugal(f) && |f.params| == n
    ensures Scratch(f) == {RAX} + ArgRegisters(n)
  {
  }

  lemma CallKept(fn: AsmFunction, changed: set<nat>, st: Store, stay: set<Name>, args: seq<Word>, env: Env, m1: State,
                 m: State, m2: State, m3: State)
    requires m1.Valid() && m.Valid() && m2.Valid() && m3.Valid() && |args| <= MAX_ARGS
    requires InBody(fn, changed, m1, m2) && SetUp(st, stay, args, env, m, m2) && st.frame <= fn.frame
    requires m3.rsp == m2.rsp && m3.rbp == m2.rbp && SameFrom(m2.mem, m3.mem, m2.rsp) &&
             RegsWithin(m2, m3, {RAX} + ArgRegisters(|args|))
    ensures Represents(st, stay, env, m3) && m3.rsp == m.rsp
  {
    hide Represents, SameFrom, RegsWithin, Good, Loaded, Unneeded, FlagsFree, ArgsInPlace, Tampered, MemWithin;
    CallKeepsValues(st, stay, args, env, m, m2, m3, fn.frame);
  }

  /** After the call, generation and execution continue behind it. */
  lemma CallContinues(globals: set<Name>, asm: AsmProgram, f: Function, fn: AsmFunction, k: nat, b: nat,
                      insts: seq<Inst>, st: Store, env: Env, m0: State, m1: State, m: State, m2: State, m3: State,
                      calls: nat, args: seq<Word>, w: Option<Word>)
    requires |f.params| <= MAX_ARGS && Generating(globals, f, b, insts, st) && insts != [] && insts[0].op.Call?
    requires Executing(globals, f, fn, k, InstsMention(insts) + NeedFrom(f, b + 1), st, env, m0, m1, m, calls)
    requires |args| == |insts[0].operands| <= MAX_ARGS && m2.Valid() && m3.Valid() &&
             (insts[0].result.Some? ==> w.Some?)
    requires var cx, stay := Context(f.returnType, globals), InstsMention(insts[1..]) + NeedFrom(f, b + 1);
             BeforeCall(cx, st, insts[0]).Ok? && BeforeCall(cx, st, insts[0]).value.st.frame <= fn.frame &&
             SetUp(BeforeCall(cx, st, insts[0]).value.st, stay, args, env, m, m2) &&
             InBody(fn, Changed(f, BlockStart(cx, f, |f.blocks|).value), m1, m2)
    requires m3.rsp == m2.rsp && m3.rbp == m2.rbp && SameFrom(m2.mem, m3.mem, m2.rsp) &&
             RegsWithin(m2, m3, {RAX} + ArgRegisters(|args|))
    requires w.Some? ==> m3.regs[RAX] == w.value
    ensures var cx, stay := Context(f.returnType, globals), InstsMention(insts[1..]) + NeedFrom(f, b + 1);
            LowerInst(cx, st, insts[0]).Ok? &&
            var e := LowerInst(cx, st, insts[0]).value;
            Generating(globals, f, b, insts[1..], e.st) &&
            Executing(globals, f, fn, k, stay, e.st, AfterCall(insts[0], env, w), m0, m1, m3, calls)
  {
    hide CompileFunction, BlockStart, LowerInst, Good, Tracked, NeedFrom, Represents, SetUp, InBody, Steps, Machine.Run,
         Entered, LowerInsts, Tampered, Scratch, Ready, InstsSafe,
         BeforeCall, CallSafe, Changed, Registers, InstSafe, Flagged, SameFrom, RegsWithin, ArgRegisters, ArgsInPlace;
    var cx, stay := Context(f.returnType, globals), InstsMention(insts[1..]) + NeedFrom(f, b + 1);
    GeneratingStep(globals, f, b, insts, st);
    SafeCall(cx, f, b, st, insts[0], stay);
    CallKept(fn, Changed(f, BlockStart(cx, f, |f.blocks|).value), BeforeCall(cx, st, insts[0]).value.st, stay, args,
             env, m1, m, m2, m3);
    CallReaches(cx, st, insts[0], stay, env, m3, w);
    MaxArgsOfCall(insts);
    CallScratch(f, BlockStart(cx, f, |f.blocks|).value, |args|);
    InBodyCall(fn, Changed(f, BlockStart(cx, f, |f.blocks|).value), m1, m2, m3, {RAX} + ArgRegisters(|args|));
  }

  // Functions

  ghost predicate Bound(vals: map<Name, Val>, x: Name, w: Word) {
    x in vals && vals[x] == IntV(w)
  }

  lemma {:induction false} BindParamsBinds(params: seq<(Name, Size)>, args: seq<Word>)
    requires |params| == |args| && DistinctParams(params)
    ensures forall i | 0 <= i < |params| :: Bound(BindParams(params, args), params[i].0, args[i])
  {
    if params != [] {
      var last := |params| - 1;
      var before := BindParams(params[..last], args[..last]);
      BindParamsBinds(params[..last], args[..last]);
      forall i | 0 <= i < |params| ensures Bound(BindParams(params, args), params[i].0, args[i]) {
        if i < last {
          assert params[..last][i] == params[i] && Bound(before, params[i].0, args[..last][i]);
        }
      }
    }
  }

  lemma {:induction false} BoundIsParam(params: seq<(Name, Size)>, args: seq<Word>, x: Name) returns (i: nat)
    requires |params| == |args| && x in BindParams(params, args)
    ensures i < |params| && params[i].0 == x
  {
    var last := |params| - 1;
    if params[last].0 == x {
      i := last;
    } else {
      i := BoundIsParam(params[..last], args[..last], x);
    }
  }

  /** Arguments in the argument registers represent the parameters. */
  lemma ParamsRepresented(params: seq<(Name, Size)>, args: seq<Word>, need: set<Name>, m: State)
    requires |params| == |args| <= MAX_ARGS && DistinctParams(params) && m.Valid() && ArgsInPlace(m, args, |args|)
    ensures Represents(PlaceParams(params), need, Env(BindParams(params, args), map[]), m)
  {
    hide PlaceParams, BindParams;
    BindParamsBinds(params, args);
    ParamsPlaced(params);
    var st, env := PlaceParams(params), Env(BindParams(params, args), map[]);
    forall x | x in need && x in env.vals ensures x in st.vmap && HoldsAt(st.vmap[x], env.vals[x], Content(env, x), m) {
      var i := BoundIsParam(params, args, x);
      assert ParamAt(st, params[i].0, i) && Bound(env.vals, params[i].0, args[i]);
      assert m.regs[ParamRegister(i)] == args[i];
    }
  }

  /** The prologue leaves everything ready for the first block. */
  lemma EntryExecutes(globals: set<Name>, asm: AsmProgram, f: Function, fn: AsmFunction, k: nat, args: seq<Word>,
                      m0: State, fuel: nat, calls: nat) returns (st: Store, m1: State)
    requires FunctionSafe(globals, f) && CompileFunction(globals, f) == Ok(fn) && |args| == |f.params| &&
             Entering(fn, k, args, m0, calls)
    ensures |fn.blocks| == |f.blocks| + 1 && Generating(globals, f, 0, f.blocks[0].insts, st)
    ensures Executing(globals, f, fn, k, InstsMention(f.blocks[0].insts) + NeedFrom(f, 1), st,
                      Env(BindParams(f.params, args), map[]), m0, m1, m1, calls)
    ensures Machine.Run(asm, fn, fn.blocks[0].nodes, 0, m0, fuel) ==
              Machine.Run(asm, fn, LowerInsts(Context(f.returnType, globals), st, f.blocks[0].insts).value.nodes, 1, m1,
                          fuel)
  {
    hide CompileFunction, BlockStart, NeedFrom, Represents, InBody, Entered, LowerInsts, Registers, InstsSafe,
         Generating, BindParams, PlaceParams, Prologue, Changed, Depth, DistinctParams;
    var cx := Context(f.returnType, globals);
    SavedRegisters(globals, f);
    PrologueEnters(fn.frame, fn.saved, m0);
    m1 := Prologue(fn.frame, fn.saved, m0).value;
    st := PlaceParams(f.params);
    FirstBlockStart(cx, f);
    GeneratingBlock(globals, f, 0);
    CompiledBlock(globals, f, 0);
    EnteredMeans(fn, m0, m1, Changed(f, BlockStart(cx, f, |f.blocks|).value), args);
    ParamsRepresented(f.params, args, InstsMention(f.blocks[0].insts) + NeedFrom(f, 1), m1);
    FirstNodes(globals, f);
    assert Machine.Run(asm, fn, [NStackSave], 0, m0, fuel) == Machine.Run(asm, fn, [], 0, m1, fuel);
  }

  lemma FirstNodes(globals: set<Name>, f: Function)
    requires CompileFunction(globals, f).Ok?
    ensures CompileFunction(globals, f).value.blocks[0].nodes == [NStackSave]
  {
    hide LowerBlocks, PlaceParams, SavedFrom;
  }

  lemma EnteredMeans(fn: AsmFunction, m0: State, m1: State, changed: set<nat>, args: seq<Word>)
    requires m0.Valid() && m1.Valid() && Registers(fn.saved) && Entered(fn.frame, fn.saved, m0, m1)
    requires |args| <= MAX_ARGS && ArgsInPlace(m0, args, |args|)
    ensures InBody(fn, changed, m1, m1) && ArgsInPlace(m1, args, |args|) && m1.rsp + Depth(fn.frame, fn.saved) == m0.rsp
  {
  }

  lemma CallsOfRest(p: Program, insts: seq<Inst>)
    requires CallsFrugal(p, insts) && insts != []
    ensures CallsFrugal(p, insts[1..])
    ensures insts[0].op.Call? && insts[0].op.callee in p ==> Frugal(p[insts[0].op.callee])
  {
    hide Frugal;
    forall i | 0 <= i < |insts| - 1 && insts[1..][i].op.Call? && insts[1..][i].op.callee in p
      ensures Frugal(p[insts[1..][i].op.callee])
    {
      assert insts[1..][i] == insts[i + 1];
    }
  }

  lemma EndOfBlock(globals: set<Name>, p: Program, asm: AsmProgram, f: Function, fn: AsmFunction, b: nat, st: Store,
                   env: Env, m: State, fuel: nat, calls: nat, v: Option<Word>)
    requires FunctionSafe(globals, f) && CompileFunction(globals, f) == Ok(fn) && Generating(globals, f, b, [], st) &&
             m.Valid()
    requires IrSemantics.Run(p, f, [], b, env, fuel, calls) == Some(v)
    ensures b + 1 < |f.blocks| && b + 2 < |fn.blocks| && Generating(globals, f, b + 1, f.blocks[b + 1].insts, st)
    ensures IrSemantics.Run(p, f, f.blocks[b + 1].insts, b + 1, env, fuel, calls) == Some(v)
    ensures InstsMention([]) + NeedFrom(f, b + 1) == InstsMention(f.blocks[b + 1].insts) + NeedFrom(f, b + 2)
    ensures Machine.Run(asm, fn, LowerInsts(Context(f.returnType, globals), st, []).value.nodes, b + 1, m, fuel) ==
              Machine.Run(asm, fn, LowerInsts(Context(f.returnType, globals), st, f.blocks[b + 1].insts).value.nodes,
                          b + 2, m, fuel)
  {
    hide CompileFunction, BlockStart, NeedFrom, InstsSafe, Good, Tracked, FunctionSafe;
    GeneratingBlock(globals, f, b + 1);
    CompiledBlock(globals, f, b + 1);
    NeedStep(f, b + 1);
  }

  lemma StraightMeans(p: Program, f: Function, insts: seq<Inst>, b: nat, env: Env, fuel: nat, calls: nat,
                      v: Option<Word>)
      returns (env1: Env)
    requires b < |f.blocks| && insts != [] && !IsTerminator(insts[0].op) && !insts[0].op.Call? &&
             IrSemantics.Run(p, f, insts, b, env, fuel, calls) == Some(v)
    ensures Perform(insts[0], env) == Some(env1) && IrSemantics.Run(p, f, insts[1..], b, env1, fuel, calls) == Some(v)
  {
    hide Perform;
    env1 := Perform(insts[0], env).value;
  }

  lemma SetUpMeans(st: Store, stay: set<Name>, args: seq<Word>, env: Env, m: State, m2: State)
    requires m.Valid() && m2.Valid() && |args| <= MAX_ARGS && SetUp(st, stay, args, env, m, m2)
    ensures ArgsInPlace(m2, args, |args|) && m2.rsp == m.rsp
  {
  }

  lemma ExecutingStack(globals: set<Name>, f: Function, fn: AsmFunction, k: nat, need: set<Name>, st: Store, env: Env,
                       m0: State, m1: State, m: State, calls: nat)
    requires |f.params| <= MAX_ARGS && Executing(globals, f, fn, k, need, st, env, m0, m1, m, calls)
    ensures m.Valid() && calls * k + 8 <= m.rsp && m.rsp + 8 < WORD
  {
    hide Represents, CompileFunction, SameFrom, SameCell, RegsWithin, PushedAt, Changed;
  }

  lemma GeneratingBounds(globals: set<Name>, f: Function, b: nat, insts: seq<Inst>, st: Store)
    requires |f.params| <= MAX_ARGS && Generating(globals, f, b, insts, st)
    ensures b < |f.blocks| && LowerInsts(Context(f.returnType, globals), st, insts).Ok?
  {
  }

  lemma CalleeLinked(globals: set<Name>, p: Program, asm: AsmProgram, g: Name)
    requires Linked(globals, p, asm) && g in p
    ensures g in asm && CompileFunction(globals, p[g]) == Ok(asm[g]) && asm[g].blocks != [] &&
            FunctionSafe(globals, p[g]) && CalleesFrugal(p, p[g])
  {
    hide LowerBlocks, PlaceParams, SavedFrom, FunctionSafe, CalleesFrugal;
  }

  lemma EnteringArity(fn: AsmFunction, k: nat, args: seq<Word>, m0: State, calls: nat)
    requires Entering(fn, k, args, m0, calls)
    ensures m0.Valid() && |args| <= MAX_ARGS && m0.rsp in m0.mem
  {
  }

  /** From any point of a function body, the machine returns what the IR returns. */
  lemma {:induction false} BodySimulated(globals: set<Name>, p: Program, asm: AsmProgram, k: nat, g: Name, b: nat,
                                         insts: seq<Inst>, st: Store, env: Env, m0: State, m1: State, m: State,
                                         fuel: nat, calls: nat, v: Option<Word>)
    requires Linked(globals, p, asm) && FramesWithin(asm, k) && g in p && |p[g].params| <= MAX_ARGS
    requires Generating(globals, p[g], b, insts, st) && b + 1 < |asm[g].blocks|
    requires Executing(globals, p[g], asm[g], k, InstsMention(insts) + NeedFrom(p[g], b + 1), st, env, m0, m1, m, calls)
    requires CallsFrugal(p, insts)
    requires IrSemantics.Run(p, p[g], insts, b, env, fuel, calls) == Some(v)
    ensures Returns(p[g], m0, Machine.Run(asm, asm[g],
                                          LowerInsts(Context(p[g].returnType, globals), st, insts).value.nodes, b + 1,
                                          m, fuel), v)
    decreases fuel, 0, |p[g].blocks| - b, |insts|
  {
    hide Linked, FunctionSafe, CompileFunction, BlockStart, NeedFrom, Represents, InBody, Entered, LowerInsts,
         Registers, InstsSafe, Generating, Changed, Returns,
         Machine.Run, IrSemantics.Run, Executing, LowerInst, AfterCall, Entering, SetUp, Scratch, InstsMention,
           CallsFrugal, FramesWithin;
    CalleeLinked(globals, p, asm, g);
    var f, fn := p[g], asm[g];
    GeneratingBounds(globals, f, b, insts, st);
    var cx := Context(f.returnType, globals);
    if insts == [] {
      ExecutingStack(globals, f, fn, k, InstsMention(insts) + NeedFrom(f, b + 1), st, env, m0, m1, m, calls);
      EndOfBlock(globals, p, asm, f, fn, b, st, env, m, fuel, calls, v);
      BodySimulated(globals, p, asm, k, g, b + 1, f.blocks[b + 1].insts, st, env, m0, m1, m, fuel, calls, v);
    } else if insts[0].op.Ret? {
      RetExecutes(globals, p, asm, f, fn, k, b, insts, st, env, m0, m1, m, fuel, calls, v);
    } else if insts[0].op.Jmp? || insts[0].op.Branch? {
      var t, at, env1 := TransferExecutes(globals, p, asm, f, fn, k, b, insts, st, env, m0, m1, m, fuel, calls, v);
      BodySimulated(globals, p, asm, k, g, t, f.blocks[t].insts, at, env1, m0, m1, m, fuel - 1, calls, v);
    } else if insts[0].op.Call? {
      CallSimulated(globals, p, asm, k, g, b, insts, st, env, m0, m1, m, fuel, calls, v);
    } else {
      var env1 := StraightMeans(p, f, insts, b, env, fuel, calls, v);
      var m2 := StraightExecutes(globals, asm, f, fn, k, b, insts, st, env, env1, m0, m1, m, fuel, calls);
      GeneratingStep(globals, f, b, insts, st);
      CallsOfRest(p, insts);
      BodySimulated(globals, p, asm, k, g, b, insts[1..], LowerInst(cx, st, insts[0]).value.st, env1, m0, m1, m2,
                    fuel, calls, v);
    }
  }

  lemma {:induction false} CallSimulated(globals: set<Name>, p: Program, asm: AsmProgram, k: nat, g: Name, b: nat,
                                         insts: seq<Inst>, st: Store, env: Env, m0: State, m1: State, m: State,
                                         fuel: nat, calls: nat, v: Option<Word>)
    requires Linked(globals, p, asm) && FramesWithin(asm, k) && g in p && |p[g].params| <= MAX_ARGS
    requires Generating(globals, p[g], b, insts, st) && b + 1 < |asm[g].blocks| && insts != [] && insts[0].op.Call?
    requires Executing(globals, p[g], asm[g], k, InstsMention(insts) + NeedFrom(p[g], b + 1), st, env, m0, m1, m, calls)
    requires CallsFrugal(p, insts)
    requires IrSemantics.Run(p, p[g], insts, b, env, fuel, calls) == Some(v)
    ensures Returns(p[g], m0, Machine.Run(asm, asm[g],
                                          LowerInsts(Context(p[g].returnType, globals), st, insts).value.nodes, b + 1,
                                          m, fuel), v)
    decreases fuel, 0, |p[g].blocks| - b, |insts|, 0
  {
    hide FunctionSafe, CompileFunction, BlockStart, NeedFrom, Represents, InBody, Entered, LowerInsts, Registers,
         InstsSafe, Generating, Changed, Returns,
         IrSemantics.Run, Executing, LowerInst, AfterCall, Entering, SetUp, Scratch, InstsMention, BeforeCall,
           CallsFrugal, FramesWithin, Frugal, ReturnAddress, Push, BindParams, Epilogue;
    CalleeLinked(globals, p, asm, g);
    var f, fn, h := p[g], asm[g], insts[0].op.callee;
    var cx := Context(f.returnType, globals);
    GeneratingBounds(globals, f, b, insts, st);
    ExecutingStack(globals, f, fn, k, InstsMention(insts) + NeedFrom(f, b + 1), st, env, m0, m1, m, calls);
    CallsOfRest(p, insts);
    var args, w := CallMeans(p, f, insts, b, env, fuel, calls, v);
    var m2 := CallPrepares(globals, asm, f, fn, k, b, insts, st, env, m0, m1, m, fuel, calls, args);
    SetUpMeans(BeforeCall(cx, st, insts[0]).value.st, InstsMention(insts[1..]) + NeedFrom(f, b + 1), args, env, m, m2);
    var e := LowerInst(cx, st, insts[0]).value;
    var rest := LowerInsts(cx, e.st, insts[1..]).value.nodes;
    var site := ReturnAddress(b + 1, 1 + |rest|);
    CallEnters(asm, k, h, args, site, m2, calls);
    CalleeLinked(globals, p, asm, h);
    FunctionSimulated(globals, p, asm, k, h, args, Push(m2, site).value, fuel - 1, calls - 1, w);
    var m3 := CallReturns(asm, h, p[h], site, m2, fuel, w);
    FrugalScratch(p[h], |args|);
    CallContinues(globals, asm, f, fn, k, b, insts, st, env, m0, m1, m, m2, m3, calls, args, w);
    BodySimulated(globals, p, asm, k, g, b, insts[1..], e.st, AfterCall(insts[0], env, w), m0, m1, m3, fuel, calls, v);
    assert ([NCall(h)] + rest)[1..] == rest;
  }

  /** Compiled functions compute what the IR computes, over any finite tree of calls: if
      the IR function returns v on the arguments, the machine entered with them returns
      v in rax to the address on the stack, with rsp, rbp, the caller's memory and all
      registers but rax and argument registers as they were. */
  lemma {:induction false} FunctionSimulated(globals: set<Name>, p: Program, asm: AsmProgram, k: nat, g: Name,
                                             args: seq<Word>, m0: State, fuel: nat, calls: nat, v: Option<Word>)
    requires Linked(globals, p, asm) && FramesWithin(asm, k) && g in p && |args| == |p[g].params|
    requires Entering(asm[g], k, args, m0, calls) && p[g].blocks != []
    requires var start := Env(BindParams(p[g].params, args), map[]);
             IrSemantics.Run(p, p[g], p[g].blocks[0].insts, 0, start, fuel, calls) == Some(v)
    ensures asm[g].blocks != [] && Returns(p[g], m0, Machine.Run(asm, asm[g], asm[g].blocks[0].nodes, 0, m0, fuel), v)
    decreases fuel, 1
  {
    hide FunctionSafe, CompileFunction, BlockStart, NeedFrom, Represents, InBody, Entered, LowerInsts, Registers,
         InstsSafe, Generating, Changed, Returns,
         Machine.Run, IrSemantics.Run, Executing, LowerInst, Entering, Scratch, BindParams;
    var f := p[g];
    EnteringArity(asm[g], k, args, m0, calls);
    CalleeLinked(globals, p, asm, g);
    var st, m1 := EntryExecutes(globals, asm, f, asm[g], k, args, m0, fuel, calls);
    BodySimulated(globals, p, asm, k, g, 0, f.blocks[0].insts, st, Env(BindParams(f.params, args), map[]), m0, m1, m1,
                  fuel, calls, v);
  }

  /** The same for a call seen from its caller: it comes back with the IR's result in
      rax, and with everything but rax and argument registers as it was. */
  lemma CompiledCallsReturnResults(globals: set<Name>, p: Program, asm: AsmProgram, k: nat, g: Name, args: seq<Word>,
                                   site: Word, m: State, fuel: nat, calls: nat, v: Option<Word>) returns (m3: State)
    requires Linked(globals, p, asm) && FramesWithin(asm, k) && IrSemantics.Invoke(p, g, args, fuel, calls) == Some(v)
    requires m.Valid() && |args| <= MAX_ARGS && ArgsInPlace(m, args, |args|) && calls * k + 8 <= m.rsp &&
             m.rsp + 8 < WORD
    ensures Machine.Invoke(asm, g, site, m, fuel) == Some(m3) && m3.Valid() && (v.Some? ==> m3.regs[RAX] == v.value)
    ensures g in p && m3.rsp == m.rsp && m3.rbp == m.rbp && SameFrom(m.mem, m3.mem, m.rsp) &&
            RegsWithin(m, m3, Scratch(p[g]))
  {
    hide Linked, FunctionSafe, CompileFunction, Returns, Machine.Run, IrSemantics.Run, Entering, Scratch, BindParams,
         FramesWithin, SameFrom, RegsWithin;
    CalleeLinked(globals, p, asm, g);
    CallEnters(asm, k, g, args, site, m, calls);
    FunctionSimulated(globals, p, asm, k, g, args, Push(m, site).value, fuel - 1, calls - 1, v);
    m3 := CallReturns(asm, g, p[g], site, m, fuel, v);
  }
}
