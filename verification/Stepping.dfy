/** Lowering one instruction simulates it: what holds for each kind of instruction that
    neither calls nor transfers control. */
module Stepping {
  import opened Wrappers
  import opened Ir
  import opened Machine
  import opened IrSemantics
  import opened Storage
  import opened Lowering
  import opened Ownership
  import opened Tampering
  import opened Simulation
  import opened Settling
  import opened Lifetime
  import WholeFunctions
  import Conditions

  /** The instruction is flagged by what is needed after it, the names it reads and the
      names needed are kept apart, and its result is new. */
  ghost predicate Ready(st: Store, inst: Inst, stay: set<Name>) {
    Flagged(inst, stay) && Good(st, stay + Uses(inst)) && UserNames(stay + Uses(inst)) && Tracked(st) &&
    (inst.result.Some? ==> UserName(inst.result.value) && inst.result.value !in st.vmap)
  }

  /** The storage state in which the instruction itself is lowered. */
  function Start(st: Store, inst: Inst): Store
    requires |inst.dropped| == |inst.operands|
  {
    if AutoDrop(inst.op) then DropAll(st, Pending(inst.operands, inst.dropped)) else st
  }

  // When lowering is right: conditions on the state in which an instruction is lowered

  /** A register is free and no name in need is in it. */
  ghost predicate FreeRegister(st: Store, need: set<Name>) {
    FirstFree(st.cells, 0).Some? && Unneeded(st, need, FirstFree(st.cells, 0).value)
  }

  predicate InSlot(st: Store, v: Value) {
    v.Var? && v.name in st.vmap && st.vmap[v.name].Slot?
  }

  /** A literal that prints as a nonzero immediate, or a value in a register. */
  predicate Movable(st: Store, v: Value) {
    if v.Lit? then v.value != 0 else RegisterOf(st, v).Some?
  }

  /** The dominating operand is in a register and not needed afterwards; subtraction has
      its left operand there. */
  ghost predicate ArithSafe(st: Store, t: ArithType, ops: seq<Value>, stay: set<Name>) {
    |ops| == 2 &&
    if RegisterOf(st, ops[0]).Some? then ops[0].name !in stay
    else t != Sub && RegisterOf(st, ops[1]).Some? && ops[1].name !in stay
  }

  ghost predicate SelectSafe(cx: Context, st: Store, ops: seq<Value>, need: set<Name>) {
    |ops| == 3 && ops[1].Var? && (ops[2].Lit? ==> ops[2].value != 0) &&
    ValueSize(cx.globals, st, ops[1]) == ValueSize(cx.globals, st, ops[2]) &&
    FreeRegister(st, need)
  }

  /** What the state must offer for an instruction to be lowered correctly. */
  ghost predicate StepSafe(cx: Context, st: Store, inst: Inst, stay: set<Name>)
    requires |inst.dropped| == |inst.operands|
  {
    var at, ops := Start(st, inst), inst.operands;
    match inst.op
    case Allocate(n) => n >= 8
    case Store(s) => s == I64 && |ops| == 2 && Movable(at, ops[1])
    case Load(s) => s == I64 && FreeRegister(at, stay)
    case Icmp(_) => |ops| == 2 && ops[0].Var? && !(InSlot(at, ops[0]) && InSlot(at, ops[1])) && FlagsFree(at, stay)
    case Arith(t) => ArithSafe(at, t, ops, stay) && FlagsFree(at, stay)
    case Select => SelectSafe(cx, at, ops, stay + Uses(inst))
    case _ => false
  }

  /** The state is right for lowering from: needed names are in place and apart from
      dropped ones, and operands are readable. */
  ghost predicate Set(st: Store, inst: Inst, stay: set<Name>, env: Env, m: State)
    requires m.Valid() && |inst.dropped| == |inst.operands|
  {
    var all := stay + Uses(inst);
    Good(st, stay) && Tracked(st) && Sized(st, all) && SlotsApart(st, all) && RegistersApart(st, all) &&
      Represents(st, all, env, m) &&
    AllApart(st, Pending(inst.operands, inst.dropped), stay) &&
    (inst.result.Some? ==> inst.result.value !in st.vmap)
  }

  /** After lowering, the names needed and the result hold the values of the IR
      environment after the instruction. */
  ghost predicate Reached(low: Lowered, inst: Inst, stay: set<Name>, env: Env, m1: State)
    requires m1.Valid() && |inst.dropped| == |inst.operands|
  {
    Good(low.st, stay) && AllApart(low.st, Pending(inst.operands, inst.dropped), stay) &&
    (inst.result.Some? ==> inst.result.value !in low.st.vmap) &&
    (low.dest.Some? && inst.result.Some? ==> Fits(low.st, low.dest.value, stay)) &&
    (forall x | x in stay && x in env.vals && !(low.dest.Some? && inst.result == Some(x)) ::
       x in low.st.vmap && HoldsAt(low.st.vmap[x], env.vals[x], Content(env, x), m1)) &&
    (low.dest.Some? && inst.result.Some? ==>
       inst.result.value in env.vals &&
       HoldsAt(low.dest.value, env.vals[inst.result.value], Content(env, inst.result.value), m1))
  }

  /** Lowering is done, and running its nodes stayed within frame and registers. */
  ghost predicate Done(low: Lowered, inst: Inst, stay: set<Name>, env: Env, m: State, m1: State, extra: set<nat>)
    requires m.Valid() && m1.Valid() && |inst.dropped| == |inst.operands|
  {
    Reached(low, inst, stay, env, m1) && Within(m, m1, low.st.frame, Tampered(low.st) + extra)
  }

  lemma PendingApart(st: Store, inst: Inst, stay: set<Name>)
    requires Flagged(inst, stay) && RegistersApart(st, stay + Uses(inst))
    ensures AllApart(st, Pending(inst.operands, inst.dropped), stay)
  {
    var pending := Pending(inst.operands, inst.dropped);
    forall i | 0 <= i < |pending| ensures Apart(st, pending[i], stay) {
      WholeFunctions.PendingIn(inst.operands, inst.dropped, pending[i]);
      var k :| 0 <= k < |inst.operands| && inst.dropped[k] &&
        inst.operands[k] == Var(inst.operands[k].size, pending[i]);
      WholeFunctions.UsesIn(inst, k);
    }
  }

  lemma StartSets(st: Store, inst: Inst, stay: set<Name>, env: Env, m: State)
    requires m.Valid() && Ready(st, inst, stay) && Represents(st, stay + Uses(inst), env, m)
    ensures Set(Start(st, inst), inst, stay, env, m)
    ensures Start(st, inst).vmap == st.vmap && Start(st, inst).frame == st.frame &&
            Tampered(st) <= Tampered(Start(st, inst))
  {
    hide AllApart, UserNames, Sound, OwnedSized;
    var pending := Pending(inst.operands, inst.dropped);
    PendingApart(st, inst, stay);
    GoodSubset(st, stay + Uses(inst), stay);
    DropAllKeeps(st, pending, stay);
    EraseAllTampers(st, pending);
    ApartSubset(st, Start(st, inst), pending, stay);
  }

  lemma {:induction false} AllocateDone(cx: Context, st: Store, inst: Inst, stay: set<Name>, env: Env, env1: Env,
                                        m: State)
    requires m.Valid() && |inst.dropped| == |inst.operands| && inst.op.Allocate? && inst.op.bytes >= 8
    requires Set(st, inst, stay, env, m) && Perform(inst, env) == Some(env1)
    ensures LowerOp(cx, st, inst).Ok? && Steps(LowerOp(cx, st, inst).value.nodes, m) == Some(m)
    ensures Done(LowerOp(cx, st, inst).value, inst, stay, env1, m, m, {})
  {
    hide AllApart, Apart, EraseAll, LowerStore, LowerLoad, LowerIcmp, LowerBranch, LowerRet, LowerArith, LowerCall,
         LowerSelect;
    var low := LowerOp(cx, st, inst).value;
    ApartSubset(st, low.st, Pending(inst.operands, inst.dropped), stay);
    forall x | x in stay && x in env1.vals && inst.result != Some(x)
      ensures x in st.vmap && HoldsAt(st.vmap[x], env1.vals[x], Content(env1, x), m)
    {
      assert HoldsAt(st.vmap[x], env.vals[x], Content(env, x), m);
    }
  }

  /** After a step that leaves vmap and cells as they are, names kept in sight. */
  lemma OneStep(node: Node, m: State)
    requires m.Valid() && Step(node, m).Some?
    ensures Steps([node], m) == Step(node, m)
  {
    assert [node][1..] == [];
    assert Steps([], Step(node, m).value) == Some(Step(node, m).value);
  }

  lemma CellWritten(m: State, k: nat, w: Word, below: nat)
    requires m.Valid() && (k + 8 <= below || below + 8 <= k)
    ensures var m1 := m.(mem := Write(m.mem, m.rbp - k, w));
            CellIs(m1, k, w) && forall v :: CellIs(m1, below, v) <==> CellIs(m, below, v)
  {
    WriteApart(m.mem, m.rbp - k, w, m.rbp - below);
  }

  lemma WriteWithin(m: State, k: nat, w: Word, frame: nat, changed: set<nat>)
    requires m.Valid() && 8 <= k <= frame
    ensures Within(m, m.(mem := Write(m.mem, m.rbp - k, w)), frame, changed)
  {
    var mem1 := Write(m.mem, m.rbp - k, w);
    forall a | a + 8 <= m.rbp - frame || a >= m.rbp ensures SameCell(m.mem, mem1, a) {
      WriteApart(m.mem, m.rbp - k, w, a);
    }
  }

  lemma OperandUse(inst: Inst, k: nat)
    requires k < |inst.operands|
    ensures VarNames([inst.operands[k]]) <= Uses(inst)
    ensures inst.operands[k].Var? ==> inst.operands[k].name in Uses(inst)
  {
    assert inst.operands[k] in inst.operands;
  }

  lemma CellPlace(st: Store, inst: Inst, k: nat, stay: set<Name>, env: Env, m: State)
    requires m.Valid() && |inst.dropped| == |inst.operands| && Set(st, inst, stay, env, m)
    requires k < |inst.operands| && CellOf(env, inst.operands[k]).Some?
    ensures var p := inst.operands[k].name;
            p in st.vmap && st.vmap[p].Slot? && 8 <= st.vmap[p].below <= st.frame &&
            HoldsAt(st.vmap[p], env.vals[p], Content(env, p), m)
  {
    OperandUse(inst, k);
    var p := inst.operands[k].name;
    assert p in stay + Uses(inst);
    assert HoldsAt(st.vmap[p], env.vals[p], Content(env, p), m);
  }

  lemma StoredRepresents(st: Store, all: set<Name>, p: Name, w: Word, env: Env, m: State)
    requires m.Valid() && SlotsApart(st, all) && Represents(st, all, env, m)
    requires p in all && p in st.vmap && st.vmap[p].Slot? && p in env.vals && env.vals[p].PtrV?
    ensures Represents(st, all, env.(cells := env.cells[p := w]), m.(mem := Write(m.mem, m.rbp - st.vmap[p].below, w)))
  {
    var env1 := env.(cells := env.cells[p := w]);
    var m1 := m.(mem := Write(m.mem, m.rbp - st.vmap[p].below, w));
    forall x | x in all && x in env.vals
      ensures x in st.vmap && HoldsAt(st.vmap[x], env.vals[x], Content(env1, x), m1)
    {
      assert HoldsAt(st.vmap[x], env.vals[x], Content(env, x), m);
      if x != p && st.vmap[x].Slot? {
        CellWritten(m, st.vmap[p].below, w, st.vmap[x].below);
      }
    }
  }

  lemma StoreDone(cx: Context, st: Store, inst: Inst, stay: set<Name>, env: Env, env1: Env, m: State)
      returns (m1: State)
    requires m.Valid() && |inst.dropped| == |inst.operands| && inst.op.Store?
    requires Set(st, inst, stay, env, m) && |inst.operands| == 2 && Movable(st, inst.operands[1]) &&
             Perform(inst, env) == Some(env1)
    ensures LowerOp(cx, st, inst).Ok? && Steps(LowerOp(cx, st, inst).value.nodes, m) == Some(m1)
    ensures m1.Valid() && Done(LowerOp(cx, st, inst).value, inst, stay, env1, m, m1, {})
  {
    hide AllApart, Good, Fits, Within, RegistersApart, Steps, Sized, SlotsApart, Tampered, IntOf, Write, VarNames,
         Represents, LowerLoad, LowerIcmp, LowerBranch, LowerRet, LowerArith, LowerCall, LowerSelect;
    var all := stay + Uses(inst);
    var p, w := CellOf(env, inst.operands[0]).value, IntOf(env, inst.operands[1]).value;
    CellPlace(st, inst, 0, stay, env, m);
    OperandUse(inst, 0);
    OperandUse(inst, 1);
    RepresentsSubset(st, all, all, env, m);
    OperandReads(cx.globals, st, inst.operands[1], all, env, m);
    var k := st.vmap[p].below;
    m1 := m.(mem := Write(m.mem, m.rbp - k, w));
    var low := LowerOp(cx, st, inst).value;
    OneStep(low.nodes[0], m);
    assert low.nodes == [low.nodes[0]];
    WriteWithin(m, k, w, low.st.frame, Tampered(low.st) + {});
    StoredRepresents(st, all, p, w, env, m);
    RepresentsSubset(st, all, stay, env1, m1);
  }

  /** Writing a register that no needed name is in. */
  lemma RegisterWritten(st: Store, stay: set<Name>, env: Env, h: Register, w: Word, m: State,
                        flags: Option<Conditions.Flags>)
    requires m.Valid() && Represents(st, stay, env, m) && Unneeded(st, stay, h)
    requires flags == m.flags || FlagsFree(st, stay)
    ensures Represents(st, stay, env, m.(regs := m.regs[h := w], flags := flags))
  {
    var m1 := m.(regs := m.regs[h := w], flags := flags);
    forall x | x in stay && x in env.vals
      ensures x in st.vmap && HoldsAt(st.vmap[x], env.vals[x], Content(env, x), m1)
    {
      assert HoldsAt(st.vmap[x], env.vals[x], Content(env, x), m);
    }
  }

  /** Taking a register that no needed name is in. */
  lemma TakeRegister(st: Store, stay: set<Name>, h: Register, size: Size)
    requires Good(st, stay) && Unneeded(st, stay, h) && EightBytes(size)
    ensures Good(GetRegister(st, h, size), stay) && Fits(GetRegister(st, h, size), InReg(h), stay)
    ensures h in Tampered(GetRegister(st, h, size)) && Tampered(st) <= Tampered(GetRegister(st, h, size))
  {
  }

  /** Lowering that leaves its result w in register h and touches nothing else. */
  lemma RegisterDone(st: Store, low: Lowered, inst: Inst, stay: set<Name>, env: Env, env1: Env, m: State, m1: State,
                     h: Register, w: Word)
    requires m.Valid() && |inst.dropped| == |inst.operands| && low.dest == Some(InReg(h))
    requires low.st.vmap == st.vmap && Good(low.st, stay) && Fits(low.st, InReg(h), stay) && h in Tampered(low.st)
    requires AllApart(st, Pending(inst.operands, inst.dropped), stay)
    requires inst.result.Some? ==> inst.result.value !in st.vmap
    requires env1 == Bind(env, inst.result, IntV(w))
    requires m1 == m.(regs := m.regs[h := w], flags := m1.flags) && Represents(st, stay, env, m1)
    ensures Done(low, inst, stay, env1, m, m1, {})
  {
    hide Good, Fits;
    ApartSubset(st, low.st, Pending(inst.operands, inst.dropped), stay);
    forall x | x in stay && x in env1.vals && inst.result != Some(x)
      ensures x in st.vmap && HoldsAt(st.vmap[x], env1.vals[x], Content(env1, x), m1)
    {
      assert x in env.vals && HoldsAt(st.vmap[x], env.vals[x], Content(env, x), m1);
    }
  }

  lemma LoadNodes(cx: Context, st: Store, inst: Inst, h: Register)
    requires inst.op == Load(I64) && |inst.operands| == 1 && FirstFree(st.cells, 0) == Some(h)
    requires InSlot(st, inst.operands[0])
    ensures LowerOp(cx, st, inst) ==
              Ok(Lowered(GetRegister(st, h, I64), [NMov(OReg(h, I64), OMem(st.vmap[inst.operands[0].name].below, I64))],
                         Some(InReg(h))))
  {
  }

  lemma TakenSame(st: Store, h: Register, size: Size)
    ensures GetRegister(st, h, size).vmap == st.vmap && GetRegister(st, h, size).frame == st.frame
  {
  }

  lemma LoadMeans(inst: Inst, env: Env, env1: Env)
    requires inst.op.Load? && Perform(inst, env) == Some(env1)
    ensures |inst.operands| == 1 && inst.op == Load(I64) && CellOf(env, inst.operands[0]).Some?
    ensures CellOf(env, inst.operands[0]).value in env.cells &&
            env1 == Bind(env, inst.result, IntV(env.cells[CellOf(env, inst.operands[0]).value]))
  {
  }

  lemma LoadDone(cx: Context, st: Store, inst: Inst, stay: set<Name>, env: Env, env1: Env, m: State) returns (m1: State)
    requires m.Valid() && |inst.dropped| == |inst.operands| && inst.op.Load?
    requires Set(st, inst, stay, env, m) && FreeRegister(st, stay) && Perform(inst, env) == Some(env1)
    ensures LowerOp(cx, st, inst).Ok? && Steps(LowerOp(cx, st, inst).value.nodes, m) == Some(m1)
    ensures m1.Valid() && Done(LowerOp(cx, st, inst).value, inst, stay, env1, m, m1, {})
  {
    hide AllApart, Good, Fits, RegistersApart, Steps, Sized, SlotsApart, Done, LowerOp, GetRegister, Perform, Tampered,
         FirstFree, Bind;
    LoadMeans(inst, env, env1);
    var all := stay + Uses(inst);
    var p := CellOf(env, inst.operands[0]).value;
    CellPlace(st, inst, 0, stay, env, m);
    var h := FirstFree(st.cells, 0).value;
    TakeRegister(st, stay, h, I64);
    LoadNodes(cx, st, inst, h);
    var low := Lowered(GetRegister(st, h, I64), [NMov(OReg(h, I64), OMem(st.vmap[p].below, I64))], Some(InReg(h)));
    TakenSame(st, h, I64);
    m1 := m.(regs := m.regs[h := env.cells[p]], flags := m.flags);
    OneStep(low.nodes[0], m);
    RepresentsSubset(st, all, stay, env, m);
    RegisterWritten(st, stay, env, h, env.cells[p], m, m.flags);
    RegisterDone(st, low, inst, stay, env, env1, m, m1, h, env.cells[p]);
  }

  lemma IcmpDone(cx: Context, st: Store, inst: Inst, stay: set<Name>, env: Env, env1: Env, m: State) returns (m1: State)
    requires m.Valid() && |inst.dropped| == |inst.operands| == 2 && inst.op.Icmp?
    requires Set(st, inst, stay, env, m) && Perform(inst, env) == Some(env1)
    requires inst.operands[0].Var? && !(InSlot(st, inst.operands[0]) && InSlot(st, inst.operands[1])) &&
             FlagsFree(st, stay)
    ensures LowerOp(cx, st, inst).Ok? && Steps(LowerOp(cx, st, inst).value.nodes, m) == Some(m1)
    ensures m1.Valid() && Done(LowerOp(cx, st, inst).value, inst, stay, env1, m, m1, {})
  {
    hide AllApart, Good, RegistersApart, Steps, Sized, SlotsApart, Within, Fits, IntOf, FlagsFree, Uses, LowerStore,
         LowerLoad, LowerBranch, LowerRet, LowerArith, LowerCall, LowerSelect;
    var all := stay + Uses(inst);
    OperandUse(inst, 0);
    OperandUse(inst, 1);
    OperandReads(cx.globals, st, inst.operands[0], all, env, m);
    OperandReads(cx.globals, st, inst.operands[1], all, env, m);
    var a, b := IntOf(env, inst.operands[0]).value, IntOf(env, inst.operands[1]).value;
    Conditions.CompareByHalf(inst.op.cmp, HALF, a, b);
    m1 := m.(flags := Some(Conditions.CmpFlags(HALF, a, b)));
    var low := LowerOp(cx, st, inst).value;
    OneStep(low.nodes[0], m);
    assert low.nodes == [low.nodes[0]];
    FlagsWritten(st, stay, m, m1, inst.op.cmp);
    RepresentsSubset(st, all, stay, env, m);
    FlagsRepresent(st, stay, env, m, m1);
  }

  lemma FlagsWritten(st: Store, stay: set<Name>, m: State, m1: State, t: IcmpType)
    requires m.Valid() && m1 == m.(flags := m1.flags)
    ensures Fits(st, Flag(t), stay) && Within(m, m1, st.frame, Tampered(st) + {})
  {
  }

  lemma FlagsRepresent(st: Store, stay: set<Name>, env: Env, m: State, m1: State)
    requires m.Valid() && Represents(st, stay, env, m) && FlagsFree(st, stay) && m1 == m.(flags := m1.flags)
    ensures Represents(st, stay, env, m1)
  {
    forall x | x in stay && x in env.vals
      ensures x in st.vmap && HoldsAt(st.vmap[x], env.vals[x], Content(env, x), m1)
    {
      assert HoldsAt(st.vmap[x], env.vals[x], Content(env, x), m);
    }
  }

  /** The result of lowered arithmetic is that of the instruction, also when operands
      changed places. */
  lemma ArithmeticCommutes(t: ArithType, a: Word, b: Word)
    requires t != Sub
    ensures Arithmetic(t, a, b) == Arithmetic(t, b, a)
  {
    assert a * b == b * a;
  }

  lemma ArithNodes(cx: Context, st: Store, inst: Inst, dom: Value, sub: Value, r: Register, dest: Operand, src: Operand)
    requires inst.op.Arith? && |inst.operands| == 2 && RegisterOf(st, dom) == Some(r)
    requires if RegisterOf(st, inst.operands[0]).Some? then dom == inst.operands[0] && sub == inst.operands[1]
             else dom == inst.operands[1] && sub == inst.operands[0]
    requires ValueOperand(cx.globals, st, dom) == Ok(dest) && ValueOperand(cx.globals, st, sub) == Ok(src)
    ensures LowerOp(cx, st, inst) == Ok(Lowered(st, [NArith(inst.op.arith, dest, src)], Some(InReg(r))))
  {
    assert [] + [NArith(inst.op.arith, dest, src)] == [NArith(inst.op.arith, dest, src)];
  }

  lemma DominatorUnneeded(st: Store, inst: Inst, x: Name, stay: set<Name>, r: Register)
    requires RegistersApart(st, stay + Uses(inst)) && x in Uses(inst) && x !in stay && x in st.vmap &&
             st.vmap[x] == InReg(r)
    requires Good(st, stay) && Sized(st, stay + Uses(inst)) && Tracked(st)
    ensures Unneeded(st, stay, r) && Fits(st, InReg(r), stay) && r in Tampered(st)
  {
  }

  lemma ArithDone(cx: Context, st: Store, inst: Inst, stay: set<Name>, env: Env, env1: Env, m: State)
      returns (m1: State)
    requires m.Valid() && |inst.dropped| == |inst.operands| && inst.op.Arith?
    requires Set(st, inst, stay, env, m) && Perform(inst, env) == Some(env1)
    requires ArithSafe(st, inst.op.arith, inst.operands, stay) && FlagsFree(st, stay)
    ensures LowerOp(cx, st, inst).Ok? && Steps(LowerOp(cx, st, inst).value.nodes, m) == Some(m1)
    ensures m1.Valid() && Done(LowerOp(cx, st, inst).value, inst, stay, env1, m, m1, {})
  {
    hide AllApart, Good, Steps, SlotsApart, Arithmetic, Done, LowerOp, Represents;
    var all, ops := stay + Uses(inst), inst.operands;
    OperandUse(inst, 0);
    OperandUse(inst, 1);
    OperandReads(cx.globals, st, ops[0], all, env, m);
    OperandReads(cx.globals, st, ops[1], all, env, m);
    var left := RegisterOf(st, ops[0]).Some?;
    var dom, sub := if left then ops[0] else ops[1], if left then ops[1] else ops[0];
    var r := RegisterOf(st, dom).value;
    var a, b := IntOf(env, ops[0]).value, IntOf(env, ops[1]).value;
    if !left {
      ArithmeticCommutes(inst.op.arith, a, b);
    }
    var w := Arithmetic(inst.op.arith, a, b).value;
    m1 := m.(regs := m.regs[r := w], flags := None);
    var dest, src := ValueOperand(cx.globals, st, dom).value, ValueOperand(cx.globals, st, sub).value;
    var low := Lowered(st, [NArith(inst.op.arith, dest, src)], Some(InReg(r)));
    ArithNodes(cx, st, inst, dom, sub, r, dest, src);
    assert Step(low.nodes[0], m) == Some(m1);
    OneStep(low.nodes[0], m);
    RepresentsSubset(st, all, stay, env, m);
    DominatorUnneeded(st, inst, dom.name, stay, r);
    RegisterWritten(st, stay, env, r, w, m, None);
    RegisterDone(st, low, inst, stay, env, env1, m, m1, r, w);
  }

  /** The mov and cmov of a select pick the value the comparison chooses. */
  lemma SelectSteps(h: Register, size: Size, t: IcmpType, no: Operand, yes: Operand, m: State, c: bool, a: Word,
                    b: Word)
    requires m.Valid() && EightBytes(size) && m.flags.Some? &&
             Conditions.Holds(Conditions.CondInst(t), m.flags.value) == c
    requires Read(m, no) == Some(b) && Read(m, yes) == Some(a)
    requires (no.OReg? && no.reg != h) || no.OMem? || (no.OImm? && no.val != 0)
    requires (yes.OReg? && yes.reg != h) || yes.OMem?
    ensures Steps([NMov(OReg(h, size), no), NCmov(t, OReg(h, size), yes)], m) ==
            Some(m.(regs := m.regs[h := if c then a else b], flags := m.flags))
  {
    var n1, n2 := NMov(OReg(h, size), no), NCmov(t, OReg(h, size), yes);
    var m1 := m.(regs := m.regs[h := b]);
    assert Step(n1, m) == Some(m1);
    assert Read(m1, yes) == Some(a);
    assert m.regs[h := b][h := a] == m.regs[h := a];
    var m2 := m.(regs := m.regs[h := if c then a else b], flags := m.flags);
    assert Step(n2, m1) == Some(m2);
    OneStep(n1, m);
    OneStep(n2, m1);
    StepsAppend([n1], [n2], m);
    assert [n1] + [n2] == [n1, n2];
  }

  lemma ConditionPlace(cx: Context, st: Store, v: Value, all: set<Name>, env: Env, m: State)
    requires m.Valid() && Represents(st, all, env, m) && VarNames([v]) <= all && BoolOf(env, v).Some?
    ensures ConditionOf(cx, st, v).Ok? && m.flags.Some?
    ensures Conditions.Holds(Conditions.CondInst(ConditionOf(cx, st, v).value), m.flags.value) == BoolOf(env, v).value
  {
    assert v in [v];
    assert HoldsAt(st.vmap[v.name], env.vals[v.name], Content(env, v.name), m);
  }

  lemma OperandAfterTake(globals: set<Name>, st: Store, h: Register, size: Size, v: Value)
    requires v.Var? && v.name in st.vmap ==> st.vmap[v.name] != InReg(h)
    ensures ValueOperand(globals, GetRegister(st, h, size), v) == ValueOperand(globals, st, v)
  {
  }

  /** What a select lowers to when a register is free. */
  lemma SelectNodes(cx: Context, st: Store, inst: Inst, ops: seq<Value>, h: Register, size: Size, t: IcmpType)
    requires inst.op.Select? && ops == inst.operands && |ops| == 3 && ops[1].Var? && FirstFree(st.cells, 0) == Some(h)
    requires ConditionOf(cx, st, ops[0]) == Ok(t) &&
             ValueSize(cx.globals, st, ops[1]) == ValueSize(cx.globals, st, ops[2]) == Ok(size)
    requires ValueOperand(cx.globals, st, ops[1]).Ok? && ValueOperand(cx.globals, st, ops[2]).Ok?
    requires forall i | 1 <= i < 3 && ops[i].Var? && ops[i].name in st.vmap :: st.vmap[ops[i].name] != InReg(h)
    ensures LowerOp(cx, st, inst) ==
              Ok(Lowered(GetRegister(st, h, size),
                         [NMov(OReg(h, size), ValueOperand(cx.globals, st, ops[2]).value),
                          NCmov(t, OReg(h, size), ValueOperand(cx.globals, st, ops[1]).value)],
                         Some(InReg(h))))
  {
    hide LowerStore, LowerLoad, LowerIcmp, LowerBranch, LowerRet, LowerArith, LowerCall, ConditionOf, ValueOperand,
         ValueSize, FirstFree, EmptyRegister;
    OperandAfterTake(cx.globals, st, h, size, ops[1]);
    OperandAfterTake(cx.globals, st, h, size, ops[2]);
    var nodes := [NMov(OReg(h, size), ValueOperand(cx.globals, st, ops[2]).value),
                  NCmov(t, OReg(h, size), ValueOperand(cx.globals, st, ops[1]).value)];
    assert [] + nodes == nodes;
  }

  /** Where the operands of a select are, and that none is in the register it takes. */
  lemma SelectOperands(cx: Context, st: Store, inst: Inst, stay: set<Name>, env: Env, m: State, h: Register)
      returns (t: IcmpType, no: Operand, yes: Operand)
    requires m.Valid() && |inst.operands| == 3 && inst.operands[1].Var?
    requires Sized(st, stay + Uses(inst)) && Represents(st, stay + Uses(inst), env, m) &&
             Unneeded(st, stay + Uses(inst), h)
    requires BoolOf(env, inst.operands[0]).Some? && IntOf(env, inst.operands[1]).Some? &&
             IntOf(env, inst.operands[2]).Some?
    requires inst.operands[2].Lit? ==> inst.operands[2].value != 0
    ensures ConditionOf(cx, st, inst.operands[0]) == Ok(t)
    ensures ValueOperand(cx.globals, st, inst.operands[1]) == Ok(yes) &&
            ValueOperand(cx.globals, st, inst.operands[2]) == Ok(no)
    ensures m.flags.Some? && Conditions.Holds(Conditions.CondInst(t), m.flags.value) ==
            BoolOf(env, inst.operands[0]).value
    ensures Read(m, yes) == IntOf(env, inst.operands[1]) && Read(m, no) == IntOf(env, inst.operands[2])
    ensures (yes.OReg? && yes.reg != h) || yes.OMem?
    ensures (no.OReg? && no.reg != h) || no.OMem? || (no.OImm? && no.val != 0)
    ensures forall i | 1 <= i < 3 && inst.operands[i].Var? && inst.operands[i].name in st.vmap ::
            st.vmap[inst.operands[i].name] != InReg(h)
  {
    hide Represents, Sized;
    var all, ops := stay + Uses(inst), inst.operands;
    OperandUse(inst, 0);
    OperandUse(inst, 1);
    OperandUse(inst, 2);
    ConditionPlace(cx, st, ops[0], all, env, m);
    OperandReads(cx.globals, st, ops[1], all, env, m);
    OperandReads(cx.globals, st, ops[2], all, env, m);
    t := ConditionOf(cx, st, ops[0]).value;
    no, yes := ValueOperand(cx.globals, st, ops[2]).value, ValueOperand(cx.globals, st, ops[1]).value;
  }

  lemma SelectMeaning(inst: Inst, env: Env)
    requires inst.op.Select? && Perform(inst, env).Some?
    ensures |inst.operands| == 3 && BoolOf(env, inst.operands[0]).Some?
    ensures IntOf(env, inst.operands[1]).Some? && IntOf(env, inst.operands[2]).Some?
    ensures Perform(inst, env) ==
              Some(Bind(env, inst.result, IntV(if BoolOf(env, inst.operands[0]).value then
                                               IntOf(env, inst.operands[1]).value
                                               else IntOf(env, inst.operands[2]).value)))
  {
  }

  lemma UnneededSubset(st: Store, all: set<Name>, stay: set<Name>, h: Register)
    requires Unneeded(st, all, h) && stay <= all
    ensures Unneeded(st, stay, h)
  {
  }

  lemma SelectDone(cx: Context, st: Store, inst: Inst, stay: set<Name>, env: Env, env1: Env, m: State)
      returns (m1: State)
    requires m.Valid() && |inst.dropped| == |inst.operands| && inst.op.Select?
    requires Set(st, inst, stay, env, m) && Perform(inst, env) == Some(env1)
    requires SelectSafe(cx, st, inst.operands, stay + Uses(inst))
    ensures LowerOp(cx, st, inst).Ok? && Steps(LowerOp(cx, st, inst).value.nodes, m) == Some(m1)
    ensures m1.Valid() && Done(LowerOp(cx, st, inst).value, inst, stay, env1, m, m1, {})
  {
    hide AllApart, Good, Steps, SlotsApart, RegistersApart, LowerOp, GetRegister, Fits, Done, Represents, ValueOperand,
         Sized, ConditionOf, ValueSize, Perform, Unneeded, FlagsFree, Step, Tampered;
    var ops := inst.operands;
    SelectMeaning(inst, env);
    UnneededSubset(st, stay + Uses(inst), stay, FirstFree(st.cells, 0).value);
    SelectSize(cx, st, inst, stay, env, m);
    var h, size := FirstFree(st.cells, 0).value, ValueSize(cx.globals, st, ops[1]).value;
    var t, no, yes := SelectOperands(cx, st, inst, stay, env, m, h);
    var c, a, b := BoolOf(env, ops[0]).value, IntOf(env, ops[1]).value, IntOf(env, ops[2]).value;
    SelectNodes(cx, st, inst, ops, h, size, t);
    SelectSteps(h, size, t, no, yes, m, c, a, b);
    var w := if c then a else b;
    m1 := m.(regs := m.regs[h := w], flags := m.flags);
    var low := Lowered(GetRegister(st, h, size), [NMov(OReg(h, size), no), NCmov(t, OReg(h, size), yes)],
                       Some(InReg(h)));
    TakeRegister(st, stay, h, size);
    RepresentsSubset(st, stay + Uses(inst), stay, env, m);
    RegisterWritten(st, stay, env, h, w, m, m.flags);
    TakenSame(st, h, size);
    RegisterDone(st, low, inst, stay, env, env1, m, m1, h, w);
  }

  lemma SelectSize(cx: Context, st: Store, inst: Inst, stay: set<Name>, env: Env, m: State)
    requires m.Valid() && |inst.operands| == 3 && inst.operands[1].Var?
    requires Sized(st, stay + Uses(inst)) && Represents(st, stay + Uses(inst), env, m) &&
             IntOf(env, inst.operands[1]).Some?
    ensures ValueSize(cx.globals, st, inst.operands[1]).Ok? &&
            EightBytes(ValueSize(cx.globals, st, inst.operands[1]).value)
  {
    OperandUse(inst, 1);
    var x := inst.operands[1].name;
    assert x in stay + Uses(inst);
    assert HoldsAt(st.vmap[x], env.vals[x], Content(env, x), m);
  }

  /** The lowering of a safe instruction does what the instruction does. */
  lemma OpDone(cx: Context, st: Store, inst: Inst, stay: set<Name>, env: Env, env1: Env, m: State) returns (m1: State)
    requires m.Valid() && Ready(st, inst, stay) && StepSafe(cx, st, inst, stay)
    requires Set(Start(st, inst), inst, stay, env, m) && Perform(inst, env) == Some(env1)
    ensures LowerOp(cx, Start(st, inst), inst).Ok? &&
            Steps(LowerOp(cx, Start(st, inst), inst).value.nodes, m) == Some(m1)
    ensures m1.Valid() && Done(LowerOp(cx, Start(st, inst), inst).value, inst, stay, env1, m, m1, {})
  {
    hide LowerOp, Done, Set, Steps, Perform, Start, Good, FreeRegister, Movable, ArithSafe, SelectSafe, FlagsFree;
    var at := Start(st, inst);
    match inst.op
    case Allocate(_) => AllocateDone(cx, at, inst, stay, env, env1, m); m1 := m;
    case Store(_) => m1 := StoreDone(cx, at, inst, stay, env, env1, m);
    case Load(_) => m1 := LoadDone(cx, at, inst, stay, env, env1, m);
    case Icmp(_) => m1 := IcmpDone(cx, at, inst, stay, env, env1, m);
    case Arith(_) => m1 := ArithDone(cx, at, inst, stay, env, env1, m);
    case Select => m1 := SelectDone(cx, at, inst, stay, env, env1, m);
  }

  /** From what lowering reached to what holds at the boundary after the instruction. */
  lemma SettleReached(inst: Inst, stay: set<Name>, low: Lowered, env1: Env, m1: State)
    requires m1.Valid() && |inst.dropped| == |inst.operands| && UserNames(stay) && Reached(low, inst, stay, env1, m1)
    requires inst.result.Some? ==> UserName(inst.result.value)
    ensures var st1 := Settle(low.st, inst, Pending(inst.operands, inst.dropped), low.dest);
            Good(st1, stay) && Represents(st1, stay, env1, m1) &&
            st1.frame == low.st.frame && Tampered(low.st) <= Tampered(st1)
  {
    hide Settle, AllApart, Fits, Sound, OwnedSized, Protected, RegistersApart, SlotsApart;
    SettleKeeps(low.st, inst, Pending(inst.operands, inst.dropped), low.dest, stay);
  }

  lemma SettleDone(cx: Context, st: Store, inst: Inst, stay: set<Name>, low: Lowered, env1: Env, m: State, m1: State,
                   extra: set<nat>)
    requires m.Valid() && m1.Valid() && Ready(st, inst, stay) && Done(low, inst, stay, env1, m, m1, extra)
    ensures var st1 := Settle(low.st, inst, Pending(inst.operands, inst.dropped), low.dest);
            Good(st1, stay) && Represents(st1, stay, env1, m1) && Within(m, m1, st1.frame, Tampered(st1) + extra)
  {
    hide Settle, Within, Reached, Represents, Good;
    SettleReached(inst, stay, low, env1, m1);
    var st1 := Settle(low.st, inst, Pending(inst.operands, inst.dropped), low.dest);
    WithinMore(m, m1, low.st.frame, Tampered(low.st) + extra, Tampered(st1) + extra);
  }

  lemma WithinMore(m: State, m1: State, frame: nat, c1: set<nat>, c2: set<nat>)
    requires m.Valid() && m1.Valid() && Within(m, m1, frame, c1) && c1 <= c2
    ensures Within(m, m1, frame, c2)
  {
  }

  /** Lowering an instruction simulates it: from a state that represents the values of
      all names read or needed later, running the emitted nodes ends in a state that
      represents the values of the names needed later, its result included. */
  lemma InstructionSimulated(cx: Context, st: Store, inst: Inst, stay: set<Name>, env: Env, env1: Env, m: State)
      returns (m1: State)
    requires m.Valid() && Ready(st, inst, stay) && Represents(st, stay + Uses(inst), env, m)
    requires StepSafe(cx, st, inst, stay) && Perform(inst, env) == Some(env1)
    ensures LowerInst(cx, st, inst).Ok?
    ensures var e := LowerInst(cx, st, inst).value;
            Steps(e.nodes, m) == Some(m1) && m1.Valid() &&
            Good(e.st, stay) && Tracked(e.st) && Represents(e.st, stay, env1, m1) &&
              Within(m, m1, e.st.frame, Tampered(e.st))
  {
    hide LowerOp, Done, Set, Steps, Perform, StepSafe, Good, Settle, Within, Represents, Tracked, Tampered, DropAll;
    StartSets(st, inst, stay, env, m);
    m1 := OpDone(cx, st, inst, stay, env, env1, m);
    SettleDone(cx, st, inst, stay, LowerOp(cx, Start(st, inst), inst).value, env1, m, m1, {});
    LowerInstTampers(cx, st, inst);
    var e := LowerInst(cx, st, inst).value;
    assert Tampered(e.st) + {} == Tampered(e.st);
  }
}
