/** A call keeps the caller's values: set-up, the callee's guarantee, and the state after. */
module Calling {
  import opened Wrappers
  import opened Ir
  import opened Machine
  import opened IrSemantics
  import opened Storage
  import opened Lowering
  import opened Ownership
  import opened Tampering
  import opened Simulation
  import opened Settling
  import opened Lifetime
  import opened ArgumentSetup
  import opened Stepping
  import opened Generation
  import opened Frames

  /** The state right before the call instruction: arguments are in place, and no name
      needed afterwards is in rax, in an argument register or in the flags. */
  ghost predicate SetUp(st: Store, stay: set<Name>, args: seq<Word>, env: Env, m: State, m1: State)
    requires m.Valid() && m1.Valid() && |args| <= MAX_ARGS
  {
    Good(st, stay) && Represents(st, stay, env, m1) && ArgsInPlace(m1, args, |args|) && FlagsFree(st, stay) &&
    Loaded(st, |args|, stay) && Unneeded(st, stay, RAX) &&
    Within(m, m1, st.frame, {RAX} + Tampered(st) + ArgRegisters(|args|))
  }

  /** The storage once arguments are loaded and rax is vacated. */
  function BeforeCall(cx: Context, st: Store, inst: Inst): Result<Emit>
    requires inst.op.Call?
  {
    var args :- LowerArgs(cx, st, inst.operands, inst.dropped, 0);
    var rax :- EmptyRegister(cx.globals, args.st, RAX);
    Ok(Emit(rax.st, args.nodes + rax.nodes))
  }

  lemma LowerCallIs(cx: Context, st: Store, inst: Inst)
    requires inst.op.Call?
    ensures BeforeCall(cx, st, inst).Ok? <==> LowerOp(cx, st, inst).Ok?
    ensures BeforeCall(cx, st, inst).Ok? ==>
              var e := BeforeCall(cx, st, inst).value;
              LowerOp(cx, st, inst).value ==
                Lowered(GetRegister(e.st, RAX, inst.op.retSize),
                        e.nodes + [NMov(OReg(RAX, I64), OImm(0, I64)), NCall(inst.op.callee)], Some(InReg(RAX)))
  {
    hide LowerArgs, EmptyRegister, GetRegister;
  }

  lemma VacatedStill(st: Store, st1: Store, n: nat, all: set<Name>, stay: set<Name>)
    requires n <= MAX_ARGS && stay <= all && Good(st, all)
    requires Vacated(st, st1, RAX, ArgRegisters(n)) && Loaded(st, n, stay) && FlagsFree(st, all)
    ensures Loaded(st1, n, stay) && FlagsFree(st1, stay)
  {
    forall j | 0 <= j < n ensures st1.cells[ParamRegister(j)].owner == "" && Unneeded(st1, stay, ParamRegister(j)) {
      assert ParamRegister(j) in ArgRegisters(n);
      assert Unneeded(st, stay, ParamRegister(j));
    }
  }

  lemma ArgsStillInPlace(m: State, m1: State, args: seq<Word>, frame: nat, c: set<nat>)
    requires m.Valid() && m1.Valid() && |args| <= MAX_ARGS && ArgsInPlace(m, args, |args|)
    requires Within(m, m1, frame, c - ArgRegisters(|args|))
    ensures ArgsInPlace(m1, args, |args|)
  {
    forall j | 0 <= j < |args| ensures m1.regs[ParamRegister(j)] == args[j] {
      assert ParamRegister(j) in ArgRegisters(|args|);
    }
  }

  /** mov rax, 0 after the set-up. */
  lemma ClearRax(st: Store, stay: set<Name>, args: seq<Word>, env: Env, m: State, m1: State) returns (m2: State)
    requires m.Valid() && m1.Valid() && |args| <= MAX_ARGS
    requires Good(st, stay) && Represents(st, stay, env, m1) && ArgsInPlace(m1, args, |args|) && FlagsFree(st, stay)
    requires Loaded(st, |args|, stay) && Unneeded(st, stay, RAX) &&
             Within(m, m1, st.frame, Tampered(st) + ArgRegisters(|args|))
    ensures m2.Valid() && Steps([NMov(OReg(RAX, I64), OImm(0, I64))], m1) == Some(m2) &&
            SetUp(st, stay, args, env, m, m2)
  {
    hide Good, Represents, Loaded, Unneeded, FlagsFree;
    var node := NMov(OReg(RAX, I64), OImm(0, I64));
    m2 := m1.(regs := m1.regs[RAX := 0], flags := Some(XOR_FLAGS));
    OneStep(node, m1);
    RegisterWritten(st, stay, env, RAX, 0, m1, Some(XOR_FLAGS));
    assert ArgsInPlace(m2, args, |args|);
  }

  /** The set-up nodes of a safe call run and leave everything ready for the call. */
  lemma CallSetsUp(cx: Context, st: Store, inst: Inst, stay: set<Name>, env: Env, m: State, args: seq<Word>)
      returns (m2: State)
    requires m.Valid() && inst.op.Call? && Flagged(inst, stay) && CallSafe(cx, st, inst, stay)
    requires Good(st, stay + Uses(inst)) && Represents(st, stay + Uses(inst), env, m) && |args| == |inst.operands|
    requires forall k | 0 <= k < |args| :: PassesAs(cx.globals, st, env, inst.operands[k], m, args[k])
    ensures BeforeCall(cx, st, inst).Ok? && |args| <= MAX_ARGS && m2.Valid()
    ensures var e := BeforeCall(cx, st, inst).value;
            Steps(e.nodes + [NMov(OReg(RAX, I64), OImm(0, I64))], m) == Some(m2) && SetUp(e.st, stay, args, env, m, m2)
  {
    hide LowerArgs, EmptyRegister, Good, Represents, Within, Steps, Loaded, FlagsFree, ArgsSafe, SafeHome, ArgsInPlace,
         Vacated, SetUp, Unneeded, PassesAs;
    var ops := inst.operands;
    var all := stay + VarNames(ops);
    assert ops[0..] == ops;
    NothingLoaded(st, stay, m, args);
    ArgumentsAreAParallelMove(cx, st, ops, inst.dropped, 0, stay, env, m, args);
    var a := LowerArgs(cx, st, ops, inst.dropped, 0).value;
    var mA := Steps(a.nodes, m).value;
    VacateKeepsValues(cx.globals, a.st, RAX, all, stay, ArgRegisters(|ops|), env, mA);
    var r := EmptyRegister(cx.globals, a.st, RAX).value;
    var mB := Steps(r.nodes, mA).value;
    VacatedMeans(a.st, r.st, RAX, ArgRegisters(|ops|));
    EmptyUnneeded(r.st, all, RAX);
    UnneededSubset(r.st, all, stay, RAX);
    VacatedStill(a.st, r.st, |ops|, all, stay);
    ArgsStillInPlace(mA, mB, args, r.st.frame, Tampered(r.st));
    VacatedWidens(a.st, r.st, RAX, ArgRegisters(|ops|));
    WithinMore(mA, mB, r.st.frame, Tampered(r.st) - ArgRegisters(|ops|), Tampered(r.st) + ArgRegisters(|ops|));
    WithinTransitive(m, mA, mB, a.st.frame, r.st.frame, Tampered(a.st) + ArgRegisters(|ops|),
                     Tampered(r.st) + ArgRegisters(|ops|));
    GoodSubset(r.st, all, stay);
    m2 := ClearRax(r.st, stay, args, env, m, mB);
    StepsAppend(a.nodes, r.nodes, m);
    StepsAppend(a.nodes + r.nodes, [NMov(OReg(RAX, I64), OImm(0, I64))], m);
  }

  lemma NothingLoaded(st: Store, stay: set<Name>, m: State, args: seq<Word>)
    requires m.Valid()
    ensures Loaded(st, 0, stay) && ArgsInPlace(m, args, 0)
  {
  }

  lemma VacatedWidens(st: Store, st1: Store, r: Register, avoid: set<nat>)
    requires Vacated(st, st1, r, avoid)
    ensures st.frame <= st1.frame && Tampered(st) <= Tampered(st1)
  {
  }

  /** A callee that changes only rax and the argument registers, and memory only below
      rsp, leaves every name needed afterwards with its value. */
  lemma CallKeepsValues(st: Store, stay: set<Name>, args: seq<Word>, env: Env, m: State, m1: State, m2: State,
                        frame: nat)
    requires m.Valid() && m1.Valid() && m2.Valid() && |args| <= MAX_ARGS && SetUp(st, stay, args, env, m, m1)
    requires st.frame <= frame && (frame != 0 ==> m1.rsp + frame <= m1.rbp)
    requires m2.rsp == m1.rsp && m2.rbp == m1.rbp && SameFrom(m1.mem, m2.mem, m1.rsp) &&
             RegsWithin(m1, m2, {RAX} + ArgRegisters(|args|))
    ensures Represents(st, stay, env, m2)
  {
    forall x | x in stay && x in env.vals
      ensures x in st.vmap && HoldsAt(st.vmap[x], env.vals[x], Content(env, x), m2)
    {
      assert HoldsAt(st.vmap[x], env.vals[x], Content(env, x), m1);
      if st.vmap[x].InReg? {
        NotAnArgument(st, stay, x, |args|);
      } else if st.vmap[x].Slot? {
        assert SameCell(m1.mem, m2.mem, m1.rbp - st.vmap[x].below);
      }
    }
  }

  lemma NotAnArgument(st: Store, stay: set<Name>, x: Name, n: nat)
    requires n <= MAX_ARGS && Loaded(st, n, stay) && Unneeded(st, stay, RAX)
    requires x in stay && x in st.vmap && st.vmap[x].InReg?
    ensures st.vmap[x].reg !in {RAX} + ArgRegisters(n)
  {
    forall j | 0 <= j < n ensures ParamRegister(j) != st.vmap[x].reg {
      assert Unneeded(st, stay, ParamRegister(j));
    }
  }

  /** After the call the result is in rax and the instruction settles as usual. */
  lemma CallReaches(cx: Context, st: Store, inst: Inst, stay: set<Name>, env: Env, m2: State, v: Option<Word>)
    requires m2.Valid() && inst.op.Call? && Ready(st, inst, stay) && CallSafe(cx, st, inst, stay)
    requires BeforeCall(cx, st, inst).Ok? && Represents(BeforeCall(cx, st, inst).value.st, stay, env, m2)
    requires v.Some? ==> m2.regs[RAX] == v.value
    requires inst.result.Some? ==> v.Some?
    ensures LowerInst(cx, st, inst).Ok?
    ensures var env1 := if inst.result.Some? then Bind(env, inst.result, IntV(v.value)) else env;
            var e := LowerInst(cx, st, inst).value;
            Good(e.st, stay) && Represents(e.st, stay, env1, m2)
  {
    hide LowerOp, BeforeCall, Good, CallSafe, Settle, GetRegister;
    LowerCallIs(cx, st, inst);
    CallLowers(cx, st, inst, stay);
    var low := LowerOp(cx, st, inst).value;
    var before := BeforeCall(cx, st, inst).value.st;
    TakenSame(before, RAX, inst.op.retSize);
    var env1 := if inst.result.Some? then Bind(env, inst.result, IntV(v.value)) else env;
    ReachedFrom(low, before, inst, stay, env, env1, m2);
    SettleReached(inst, stay, low, env1, m2);
  }

  lemma ReachedFrom(low: Lowered, before: Store, inst: Inst, stay: set<Name>, env: Env, env1: Env, m2: State)
    requires m2.Valid() && |inst.dropped| == |inst.operands| && Lowers(low, inst, stay) && low.st.vmap == before.vmap &&
             low.dest == Some(InReg(RAX))
    requires Represents(before, stay, env, m2)
    requires env1 == if inst.result.Some? then Bind(env, inst.result, IntV(m2.regs[RAX])) else env
    ensures Reached(low, inst, stay, env1, m2)
  {
    hide Good, Fits, AllApart;
    forall x | x in stay && x in env1.vals && inst.result != Some(x)
      ensures x in low.st.vmap && HoldsAt(low.st.vmap[x], env1.vals[x], Content(env1, x), m2)
    {
      assert x in env.vals && HoldsAt(before.vmap[x], env.vals[x], Content(env, x), m2);
    }
  }
}
