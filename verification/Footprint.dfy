/** What the stack frame of an admissible function consists of: its allocations, and rbx and
    rcx at most. */
module Footprint {
  import opened Wrappers
  import opened Ir
  import opened Machine
  import opened Storage
  import opened Lowering
  import opened Tampering
  import opened Simulation
  import opened Lifetime
  import opened ArgumentSetup
  import opened Stepping
  import opened Generation
  import opened Frames
  import opened Correctness
  import opened Admissible

  function BytesOfInsts(insts: seq<Inst>): nat {
    if insts == [] then 0 else Bytes(insts[0].op) + BytesOfInsts(insts[1..])
  }

  function Bytes(op: Op): nat {
    match op
    case Allocate(n) => n
    case _ => 0
  }

  /** The bytes that a function allocates. */
  function BytesOf(blocks: seq<Block>): nat {
    if blocks == [] then 0 else BytesOf(blocks[..|blocks| - 1]) + BytesOfInsts(blocks[|blocks| - 1].insts)
  }

  lemma BytesThen(blocks: seq<Block>, last: Block)
    ensures BytesOf([]) == 0 && BytesOf(blocks + [last]) == BytesOf(blocks) + BytesOfInsts(last.insts)
  {
    assert (blocks + [last])[..|blocks|] == blocks;
  }

  lemma {:induction false} NoBytes(insts: seq<Inst>)
    requires forall i | 0 <= i < |insts| :: !insts[i].op.Allocate?
    ensures BytesOfInsts(insts) == 0
  {
    if insts != [] {
      NoBytes(insts[1..]);
    }
  }

  /** rax, rbx, rcx, or one of the first n argument registers. */
  predicate Common(n: nat, r: nat) {
    r <= 2 || r in ArgRegisters(n)
  }

  /** Names are in common registers, and no other is tampered. */
  ghost predicate Modest(st: Store, n: nat) {
    (forall r: Register | st.cells[r].tampered :: Common(n, r)) &&
    (forall x | x in st.vmap && st.vmap[x].InReg? :: Common(n, st.vmap[x].reg))
  }

  /** A step that keeps the state modest and adds some bytes to the frame. */
  ghost predicate Adds(st: Store, st1: Store, n: nat, bytes: nat) {
    Modest(st1, n) && st1.frame == st.frame + bytes
  }

  lemma TakenModest(st: Store, n: nat, r: Register, size: Size)
    requires Modest(st, n) && Common(n, r)
    ensures Adds(st, GetRegister(st, r, size), n, 0)
  {
  }

  lemma MappedModest(st: Store, n: nat, x: Name, loc: Loc)
    requires Modest(st, n) && (loc.InReg? ==> Common(n, loc.reg))
    ensures Adds(st, MapValue(st, x, loc), n, 0) && Adds(st, RemapValue(st, x, loc), n, 0)
  {
  }

  lemma {:induction false} DroppedModest(st: Store, n: nat, xs: seq<Name>)
    requires Modest(st, n)
    ensures Adds(st, DropAll(st, xs), n, 0) && Adds(st, EraseAll(st, xs), n, 0)
    decreases |xs|
  {
    if xs != [] {
      DroppedModest(DropOwnership(st, xs[0]), n, xs[1..]);
      DroppedModest(EraseValue(st, xs[0]), n, xs[1..]);
    }
  }

  lemma CleanedModest(st: Store, n: nat)
    requires Modest(st, n)
    ensures Adds(st, CleanTemps(st), n, 0)
  {
    forall r: Register | CleanTemps(st).cells[r].tampered ensures Common(n, r) {
      assert CleanTemps(st).cells[r].tampered == st.cells[r].tampered;
    }
  }

  lemma SettledModest(st: Store, n: nat, inst: Inst, pending: seq<Name>, dest: Option<Loc>)
    requires Modest(st, n) && (dest.Some? && dest.value.InReg? ==> Common(n, dest.value.reg))
    ensures Adds(st, Settle(st, inst, pending, dest), n, 0)
  {
    hide Modest, CleanTemps, MapValue, RemapValue, DropAll, EraseAll, Common;
    DroppedModest(st, n, pending);
    var late := if AutoDrop(inst.op) then st else DropAll(st, pending);
    DroppedModest(late, n, pending);
    CleanedModest(EraseAll(late, pending), n);
    if dest.Some? && inst.result.Some? {
      MappedModest(CleanTemps(EraseAll(late, pending)), n, inst.result.value, dest.value);
    }
  }

  // Calls

  lemma VacatedModest(globals: set<Name>, st: Store, params: seq<(Name, Size)>, sh: Shape, n: nat, r: Register)
    requires Shaped(st, params, sh, {}) && LowPressure(sh.held) && Modest(st, n)
    ensures EmptyRegister(globals, st, r).Ok? && Adds(st, EmptyRegister(globals, st, r).value.st, n, 0)
  {
    EmptyShaped(globals, st, params, sh, r);
    if st.cells[r].owner != "" {
      hide Shaped, RemapValue, FirstFree, Tidy, LowPressure, Modest, GetRegister;
      OwnerLocated(st, params, sh, r);
      ShapedTidy(st, params, sh, {});
      LowFree(st, sh.held);
      var h := FirstFree(st.cells, 0).value;
      TakenModest(st, n, h, I64);
      MappedModest(GetRegister(st, h, I64), n, st.cells[r].owner, InReg(h));
    }
  }

  lemma ArgModest(cx: Context, st: Store, params: seq<(Name, Size)>, sh: Shape, n: nat, v: Value, dropped: bool,
                  r: Register)
    requires Shaped(st, params, sh, {}) && LowPressure(sh.held) && IsInt(sh, v) && Modest(st, n)
    ensures LowerArg(cx, st, v, dropped, r).Ok? && Adds(st, LowerArg(cx, st, v, dropped, r).value.st, n, 0)
  {
    hide Shaped, EmptyRegister, LowPressure, Modest;
    ArgLowersShaped(cx, st, params, sh, v, dropped, r);
    VacatedModest(cx.globals, st, params, sh, n, r);
  }

  lemma {:induction false} ArgsModest(cx: Context, st: Store, params: seq<(Name, Size)>, sh: Shape, n: nat,
                                      ops: seq<Value>, dropped: seq<bool>, i: nat, stay: set<Name>)
    requires Shaped(st, params, sh, {}) && LowPressure(sh.held) && AllInts(sh, ops) && |dropped| == |ops| <= MAX_ARGS &&
             i <= |ops| && ParamsClear(params, sh, ops, stay) && Modest(st, n)
    ensures LowerArgs(cx, st, ops, dropped, i).Ok? && Adds(st, LowerArgs(cx, st, ops, dropped, i).value.st, n, 0)
    decreases |ops| - i
  {
    hide Shaped, LowerArg, LowPressure, IsInt, ParamsClear, Modest;
    ArgsLowerShaped(cx, st, params, sh, ops, dropped, i, stay);
    if i < |ops| {
      ArgModest(cx, st, params, sh, n, ops[i], dropped[i], ParamRegister(i));
      ArgLowersShaped(cx, st, params, sh, ops[i], dropped[i], ParamRegister(i));
      ArgsModest(cx, LowerArg(cx, st, ops[i], dropped[i], ParamRegister(i)).value.st, params, sh, n, ops, dropped,
                 i + 1, stay);
    }
  }

  lemma CallModest(cx: Context, st: Store, sh: Shape, f: Function, inst: Inst, stay: set<Name>, n: nat)
    requires Shaped(st, f.params, sh, {}) && OpAdmissible(f, sh, inst, stay) && inst.op.Call? && Modest(st, n) &&
             |inst.dropped| == |inst.operands|
    ensures LowerOp(cx, st, inst).Ok? && LowerOp(cx, st, inst).value.dest == Some(InReg(RAX)) &&
            Adds(st, LowerOp(cx, st, inst).value.st, n, 0)
  {
    hide Shaped, EmptyRegister, LowerArgs, GetRegister, IsInt, ParamsClear, LowPressure, Modest;
    ArgsModest(cx, st, f.params, sh, n, inst.operands, inst.dropped, 0, stay);
    ArgsLowerShaped(cx, st, f.params, sh, inst.operands, inst.dropped, 0, stay);
    var args := LowerArgs(cx, st, inst.operands, inst.dropped, 0).value;
    VacatedModest(cx.globals, args.st, f.params, sh, n, RAX);
    TakenModest(EmptyRegister(cx.globals, args.st, RAX).value.st, n, RAX, inst.op.retSize);
  }

  // All instructions

  /** What lowering an instruction leaves: a modest state, a frame that has grown by what it
      allocates, and a result in a common register, if in one. */
  ghost predicate OpAdds(cx: Context, st: Store, inst: Inst, n: nat)
    requires |inst.dropped| == |inst.operands|
  {
    var r := LowerOp(cx, Start(st, inst), inst);
    r.Ok? && Adds(st, r.value.st, n, Bytes(inst.op)) &&
    (r.value.dest.Some? && r.value.dest.value.InReg? ==> Common(n, r.value.dest.value.reg))
  }

  lemma LoadAdds(cx: Context, st: Store, sh: Shape, f: Function, inst: Inst, stay: set<Name>, n: nat)
    requires Shaped(st, f.params, sh, {}) && Flagged(inst, stay) && OpAdmissible(f, sh, inst, stay) && inst.op.Load? &&
             Modest(st, n)
    ensures OpAdds(cx, st, inst, n)
  {
    hide Shaped, DropAll, FirstFree, GetRegister, LowerOp, Tidy, Lookup, Modest;
    var at := Start(st, inst);
    DroppedModest(st, n, Pending(inst.operands, inst.dropped));
    StartShaped(st, f.params, sh, inst, stay);
    LowFree(at, sh.held - Gone(inst, stay));
    var h := FirstFree(at.cells, 0).value;
    TakenModest(at, n, h, I64);
    PointerAt(cx.globals, st, GetRegister(at, h, I64), f.params, sh, inst.operands[0]) by { TakenSame(at, h, I64); }
    LoadIs(cx, at, inst, h);
  }

  lemma TakenSame(st: Store, r: Register, size: Size)
    ensures GetRegister(st, r, size).vmap == st.vmap
  {
  }

  lemma SelectAdds(cx: Context, st: Store, sh: Shape, f: Function, inst: Inst, stay: set<Name>, n: nat)
    requires Shaped(st, f.params, sh, {}) && Flagged(inst, stay) && OpAdmissible(f, sh, inst, stay) &&
             inst.op.Select? && Modest(st, n)
    ensures OpAdds(cx, st, inst, n)
  {
    hide Shaped, FirstFree, GetRegister, LowerOp, Tidy, IsInt, ConditionOf, Modest;
    var ops := inst.operands;
    OutcomeAt(st, st, f.params, sh, ops[0], cx);
    AlikeSelf(st);
    IntAt(cx.globals, st, st, f.params, sh, ops[1]);
    IntAt(cx.globals, st, st, f.params, sh, ops[2]);
    ShapedTidy(st, f.params, sh, {});
    LowFree(st, sh.held);
    var h := FirstFree(st.cells, 0).value;
    TakenModest(st, n, h, I64);
    TakenReads(cx.globals, st, f.params, sh, h, ops[1]);
    TakenReads(cx.globals, st, f.params, sh, h, ops[2]);
    SelectIs(cx, st, inst, h);
  }

  lemma ArithAdds(cx: Context, st: Store, sh: Shape, f: Function, inst: Inst, stay: set<Name>, n: nat)
    requires Shaped(st, f.params, sh, {}) && Flagged(inst, stay) && OpAdmissible(f, sh, inst, stay) &&
             inst.op.Arith? && Modest(st, n)
    ensures OpAdds(cx, st, inst, n)
  {
    hide Shaped, EnsureInRegister, Tidy;
    AlikeSelf(st);
    IntAt(cx.globals, st, st, f.params, sh, inst.operands[0]);
    IntAt(cx.globals, st, st, f.params, sh, inst.operands[1]);
    EnsureHas(cx.globals, st, inst.operands[1]);
  }

  lemma CallAdds(cx: Context, st: Store, sh: Shape, f: Function, inst: Inst, stay: set<Name>, n: nat)
    requires Shaped(st, f.params, sh, {}) && Flagged(inst, stay) && OpAdmissible(f, sh, inst, stay) &&
             inst.op.Call? && Modest(st, n)
    ensures OpAdds(cx, st, inst, n)
  {
    hide Shaped, Modest, LowerOp;
    CallModest(cx, st, sh, f, inst, stay, n);
  }

  lemma PlainAdds(cx: Context, st: Store, sh: Shape, f: Function, inst: Inst, stay: set<Name>, n: nat)
    requires Shaped(st, f.params, sh, {}) && Flagged(inst, stay) && OpAdmissible(f, sh, inst, stay) &&
             cx.returnType == f.returnType && Modest(st, n)
    requires inst.op.Allocate? || inst.op.Store? || inst.op.Icmp? || IsTerminator(inst.op)
    ensures OpAdds(cx, st, inst, n)
  {
    hide Shaped, DropAll;
    DroppedModest(st, n, Pending(inst.operands, inst.dropped));
    if IsTerminator(inst.op) {
      TerminatorLowersShaped(cx, st, f.params, sh, f, inst, stay);
    } else {
      PlainLowers(cx, st, f.params, sh, f, inst, stay);
    }
  }

  lemma OpIsModest(cx: Context, st: Store, sh: Shape, f: Function, inst: Inst, stay: set<Name>, n: nat)
    requires Shaped(st, f.params, sh, {}) && Flagged(inst, stay) && OpAdmissible(f, sh, inst, stay) &&
             cx.returnType == f.returnType && Modest(st, n)
    ensures OpAdds(cx, st, inst, n)
  {
    hide Shaped, Start, Modest, OpAdds;
    if inst.op.Call? {
      CallAdds(cx, st, sh, f, inst, stay, n);
    } else if inst.op.Load? {
      LoadAdds(cx, st, sh, f, inst, stay, n);
    } else if inst.op.Select? {
      SelectAdds(cx, st, sh, f, inst, stay, n);
    } else if inst.op.Arith? {
      ArithAdds(cx, st, sh, f, inst, stay, n);
    } else {
      PlainAdds(cx, st, sh, f, inst, stay, n);
    }
  }

  lemma InstAdds(cx: Context, st: Store, sh: Shape, f: Function, b: nat, inst: Inst, rest: seq<Inst>, stay: set<Name>,
                 n: nat)
    requires b < |f.blocks| && Shaped(st, f.params, sh, {}) && InstAdmissible(f, b, sh, inst, rest, stay) &&
             cx.returnType == f.returnType && Modest(st, n)
    ensures LowerInst(cx, st, inst).Ok? && Adds(st, LowerInst(cx, st, inst).value.st, n, Bytes(inst.op))
  {
    hide Shaped, LowerOp, Start, OpAdmissible, JumpAdmissible, Settle, LowerInst, Modest, Common;
    OpIsModest(cx, st, sh, f, inst, stay, n);
    LowerInstIs(cx, st, inst);
    var low := LowerOp(cx, Start(st, inst), inst).value;
    SettledModest(low.st, n, inst, Pending(inst.operands, inst.dropped), low.dest);
  }

  lemma {:induction false} InstsAdd(cx: Context, st: Store, sh: Shape, f: Function, b: nat, insts: seq<Inst>, n: nat)
    requires b < |f.blocks| && Shaped(st, f.params, sh, {}) && InstsAdmissible(f, b, sh, insts) &&
             cx.returnType == f.returnType && Modest(st, n)
    ensures LowerInsts(cx, st, insts).Ok? && Adds(st, LowerInsts(cx, st, insts).value.st, n, BytesOfInsts(insts))
    decreases |insts|
  {
    hide Shaped, InstAdmissible, After, LowerInst, Meets, NeedFrom, Modest, Bytes;
    if insts != [] {
      var stay := InstsMention(insts[1..]) + NeedFrom(f, b + 1);
      InstLowersShaped(cx, st, sh, f, b, insts[0], insts[1..], stay);
      InstAdds(cx, st, sh, f, b, insts[0], insts[1..], stay, n);
      InstsAdd(cx, LowerInst(cx, st, insts[0]).value.st, After(sh, insts[0], stay), f, b, insts[1..], n);
    }
  }

  // Functions

  lemma {:induction false} ParamsModest(params: seq<(Name, Size)>, n: nat)
    requires |params| <= n <= MAX_ARGS
    ensures Modest(PlaceParams(params), n) && PlaceParams(params).frame == 0
  {
    if params != [] {
      ParamsModest(params[..|params| - 1], n);
      assert ParamRegister(|params| - 1) in ArgRegisters(n);
    }
  }

  lemma {:induction false} BlocksAdd(globals: set<Name>, f: Function, b: nat)
    requires FunctionAdmissible(f) && b <= |f.blocks|
    ensures BlockStart(Context(f.returnType, globals), f, b).Ok?
    ensures var st := BlockStart(Context(f.returnType, globals), f, b).value;
            Modest(st, |f.params|) && st.frame == BytesOf(f.blocks[..b])
  {
    hide BlockStart, Shaped, LowerInsts, InstsAdmissible, NeedFrom, AfterInsts, DistinctParams, PlaceParams, ParamKinds,
         Modest, BytesOfInsts;
    var cx := Context(f.returnType, globals);
    if b == 0 {
      FirstBlockStart(cx, f);
      ParamsModest(f.params, |f.params|);
      assert f.blocks[..0] == [];
    } else {
      BlocksAdd(globals, f, b - 1);
      BlocksShaped(globals, f, b - 1);
      InstsAdd(cx, BlockStart(cx, f, b - 1).value, ShapeAt(f, b - 1), f, b - 1, f.blocks[b - 1].insts, |f.params|);
      BlockStartStep(cx, f, b - 1);
      assert f.blocks[..b][..b - 1] == f.blocks[..b - 1] && f.blocks[..b][b - 1] == f.blocks[b - 1];
    }
  }

  lemma {:induction false} Climbs(s: seq<nat>, i: nat)
    requires Ascending(s) && i < |s|
    ensures s[i] >= s[0] + i
  {
    if i > 0 {
      Climbs(s, i - 1);
    }
  }

  lemma FewSaved(saved: seq<nat>)
    requires Ascending(saved) && forall r | r in saved :: r == 1 || r == 2
    ensures |saved| <= 2
  {
    if saved != [] {
      Climbs(saved, |saved| - 1);
      assert saved[0] in saved && saved[|saved| - 1] in saved;
    }
  }

  /** The frame of an admissible function is what the function allocates, and it saves no
      register but rbx and rcx: nothing is spilled. */
  lemma AdmissibleFootprint(globals: set<Name>, f: Function)
    requires FunctionAdmissible(f)
    ensures CompileFunction(globals, f).Ok?
    ensures var fn := CompileFunction(globals, f).value;
            fn.frame == BytesOf(f.blocks) && (forall r | r in fn.saved :: r == 1 || r == 2) &&
            Activation(fn) <= BytesOf(f.blocks) + 32
  {
    hide FunctionAdmissible, CompileFunction, BlockStart, SavedFrom, Ascending, ArgRegisters;
    AdmissibleFunctionsAreSafe(globals, f);
    CompiledFrame(globals, f);
    BlocksAdd(globals, f, |f.blocks|);
    assert f.blocks[..|f.blocks|] == f.blocks;
    var st := BlockStart(Context(f.returnType, globals), f, |f.blocks|).value;
    SavedAre(st.cells, ArgRegisters(|f.params|), 1);
    SavedAscend(st.cells, ArgRegisters(|f.params|), 1);
    FewSaved(CompileFunction(globals, f).value.saved);
  }
}
