/** The tampered flags cover every register that generated code writes. */
module Tampering {
  import opened Wrappers
  import opened Ir
  import opened Machine
  import opened Storage
  import opened Lowering

  function Tampered(st: Store): set<nat> {
    set r: Register | 0 <= r < REGISTERS && st.cells[r].tampered
  }

  /** Frame and tampered flags never shrink. */
  ghost predicate Widens(st: Store, st1: Store) {
    st.frame <= st1.frame && Tampered(st) <= Tampered(st1)
  }

  /** Registers that names are mapped to are tampered. */
  ghost predicate Tracked(st: Store) {
    forall x | x in st.vmap && st.vmap[x].InReg? :: st.vmap[x].reg in Tampered(st)
  }

  predicate WritesRegister(node: Node, r: nat) {
    (node.NMov? || node.NLea? || node.NCmov? || node.NArith?) && node.dest.OReg? && node.dest.reg == r
  }

  ghost predicate WritesOnly(nodes: seq<Node>, regs: set<nat>) {
    forall n, r | n in nodes && WritesRegister(n, r) :: r in regs
  }

  /** A generation step only adds to the tampered set, and its nodes write no other
      registers than the tampered ones and those in extra. */
  ghost predicate Covered(st: Store, st1: Store, nodes: seq<Node>, extra: set<nat>) {
    Widens(st, st1) && (Tracked(st) ==> Tracked(st1)) && (Tracked(st) ==> WritesOnly(nodes, Tampered(st1) + extra))
  }

  lemma CoveredThen(st: Store, st1: Store, st2: Store, n1: seq<Node>, n2: seq<Node>, x1: set<nat>, x2: set<nat>)
    requires Covered(st, st1, n1, x1) && Covered(st1, st2, n2, x2) && x1 <= x2
    ensures Covered(st, st2, n1 + n2, x2)
  {
  }

  lemma CoveredQuietly(st: Store, st1: Store, st2: Store)
    requires Covered(st, st1, [], {}) && Covered(st1, st2, [], {})
    ensures Covered(st, st2, [], {})
  {
  }

  lemma MapValueTampers(st: Store, x: Name, loc: Loc)
    ensures Covered(st, MapValue(st, x, loc), [], {})
    ensures forall r: Register :: MapValue(st, x, loc).cells[r].size == st.cells[r].size
  {
  }

  lemma GetRegisterTampers(st: Store, r: Register, size: Size)
    ensures Covered(st, GetRegister(st, r, size), [], {}) && r in Tampered(GetRegister(st, r, size))
  {
  }

  lemma ReleaseTampers(st: Store, x: Name)
    ensures Tampered(DropOwnership(st, x)) == Tampered(st) && Tampered(EraseValue(st, x)) == Tampered(st)
    ensures Covered(st, DropOwnership(st, x), [], {}) && Covered(st, EraseValue(st, x), [], {})
  {
  }

  lemma RemapValueTampers(st: Store, x: Name, loc: Loc)
    ensures Covered(st, RemapValue(st, x, loc), [], {})
  {
    hide MapValue, DropOwnership, EraseValue, Covered;
    CoveredNothing(st);
    ReleaseTampers(st, x);
    ReleaseTampers(DropOwnership(st, x), x);
    CoveredQuietly(st, DropOwnership(st, x), EraseValue(DropOwnership(st, x), x));
    var st1 := if x in st.vmap then EraseValue(DropOwnership(st, x), x) else st;
    MapValueTampers(st1, x, loc);
    CoveredQuietly(st, st1, MapValue(st1, x, loc));
  }

  lemma CoveredNothing(st: Store)
    ensures Covered(st, st, [], {})
  {
  }

  lemma {:induction false} EraseAllTampers(st: Store, xs: seq<Name>)
    ensures Covered(st, EraseAll(st, xs), [], {}) && Covered(st, DropAll(st, xs), [], {})
    decreases |xs|
  {
    hide DropOwnership, EraseValue, Covered;
    CoveredNothing(st);
    if xs != [] {
      ReleaseTampers(st, xs[0]);
      EraseAllTampers(DropOwnership(st, xs[0]), xs[1..]);
      EraseAllTampers(EraseValue(st, xs[0]), xs[1..]);
      CoveredQuietly(st, DropOwnership(st, xs[0]), DropAll(st, xs));
      CoveredQuietly(st, EraseValue(st, xs[0]), EraseAll(st, xs));
    }
  }

  lemma EmptyRegisterTampers(globals: set<Name>, st: Store, r: Register)
    requires EmptyRegister(globals, st, r).Ok?
    ensures var e := EmptyRegister(globals, st, r).value; Covered(st, e.st, e.nodes, {})
  {
    hide RemapValue;
    var x := st.cells[r].owner;
    if x != "" {
      var from := Lookup(globals, st, x).value;
      var (st1, home) := FindValStorage(st, SizeOf(st, from)).value;
      var st2 := RemapValue(st1, x, home);
      RemapValueTampers(st1, x, home);
      assert Covered(st, st1, [], {});
    } else {
      CoveredNothing(st);
    }
  }

  lemma ForceFindTampers(globals: set<Name>, st: Store, size: Size)
    requires ForceFindRegister(globals, st, size).Ok?
    ensures var (e, r) := ForceFindRegister(globals, st, size).value;
              Covered(st, e.st, e.nodes, {}) && r in Tampered(e.st)
  {
    hide EmptyRegister, GetRegister, Covered, Tampered, FirstFree, FirstUnfrozen;
    if FirstFree(st.cells, 0).Some? {
      GetRegisterTampers(st, FirstFree(st.cells, 0).value, size);
    } else {
      var r := FirstUnfrozen(st.cells, 0).value;
      EmptyRegisterTampers(globals, st, r);
      var e := EmptyRegister(globals, st, r).value;
      GetRegisterTampers(e.st, r, size);
      CoveredThen(st, e.st, GetRegister(e.st, r, size), e.nodes, [], {}, {});
      assert e.nodes + [] == e.nodes;
    }
  }

  lemma EnsureInRegisterTampers(globals: set<Name>, st: Store, v: Value)
    requires EnsureInRegister(globals, st, v).Ok?
    ensures var e := EnsureInRegister(globals, st, v).value.0; Covered(st, e.st, e.nodes, {})
  {
    hide ForceFindRegister, PlaceInRegister;
    if RegisterOf(st, v).None? {
      var size := ValueSize(globals, st, v).value;
      ForceFindTampers(globals, st, size);
      var found := ForceFindRegister(globals, st, size).value;
      PlaceInRegisterTampers(globals, st, found.0, found.1, v);
    } else {
      CoveredNothing(st);
    }
  }

  lemma PlaceInRegisterTampers(globals: set<Name>, st: Store, e: Emit, r: Register, v: Value)
    requires Covered(st, e.st, e.nodes, {})
    requires PlaceInRegister(globals, e, r, v).Ok?
    ensures var e1 := PlaceInRegister(globals, e, r, v).value.0; Covered(st, e1.st, e1.nodes, {})
  {
    hide MapValue, GetRegister;
    var size := ValueSize(globals, e.st, v).value;
    var st1 := GetRegister(e.st, r, size);
    GetRegisterTampers(e.st, r, size);
    MapValueTampers(st1, TempName(e.st.temps), InReg(r));
    assert Widens(e.st, ClaimTemp(e.st, r, size)) && r in Tampered(ClaimTemp(e.st, r, size));
  }

  lemma OperandTracked(globals: set<Name>, st: Store, v: Value, size: Size)
    requires Tracked(st)
    ensures ValueOperand(globals, st, v).Ok? && ValueOperand(globals, st, v).value.OReg? ==>
            ValueOperand(globals, st, v).value.reg in Tampered(st)
    ensures SizedOperand(globals, st, v, size).Ok? && SizedOperand(globals, st, v, size).value.OReg? ==>
              SizedOperand(globals, st, v, size).value.reg in Tampered(st)
  {
  }

  lemma LowerArgTampers(cx: Context, st: Store, v: Value, dropped: bool, r: Register)
    requires LowerArg(cx, st, v, dropped, r).Ok?
    ensures var e := LowerArg(cx, st, v, dropped, r).value; Covered(st, e.st, e.nodes, {r})
  {
    hide EmptyRegister;
    EmptyRegisterTampers(cx.globals, st, r);
    var e := EmptyRegister(cx.globals, st, r).value;
    assert Covered(st, e.st, e.nodes, {r});
  }

  lemma {:induction false} LowerArgsTampers(cx: Context, st: Store, ops: seq<Value>, dropped: seq<bool>, i: nat)
    requires i <= |ops| && LowerArgs(cx, st, ops, dropped, i).Ok?
    ensures var e := LowerArgs(cx, st, ops, dropped, i).value;
            Covered(st, e.st, e.nodes, ArgRegisters(|ops|)) && Widens(st, e.st)
    decreases |ops| - i
  {
    hide LowerArg, Tampered, WritesOnly, Tracked;
    if i < |ops| {
      var p := ParamRegister(i);
      LowerArgTampers(cx, st, ops[i], dropped[i], p);
      var e := LowerArg(cx, st, ops[i], dropped[i], p).value;
      LowerArgsTampers(cx, e.st, ops, dropped, i + 1);
      assert p in ArgRegisters(|ops|);
      var rest := LowerArgs(cx, e.st, ops, dropped, i + 1).value;
      CoveredThen(st, e.st, rest.st, e.nodes, rest.nodes, {p}, ArgRegisters(|ops|));
    } else {
      CoveredNothing(st);
      CoveredMore(st, st, [], {}, ArgRegisters(|ops|));
    }
  }

  lemma CoveredMore(st: Store, st1: Store, nodes: seq<Node>, x: set<nat>, y: set<nat>)
    requires Covered(st, st1, nodes, x) && x <= y
    ensures Covered(st, st1, nodes, y)
  {
  }

  /** Registers an instruction writes besides tampered ones: rax, and the argument
      registers a call loads. */
  function Extra(inst: Inst): set<nat> {
    {RAX} + if inst.op.Call? then ArgRegisters(|inst.operands|) else {}
  }

  lemma LowerCallTampers(cx: Context, st: Store, g: Name, size: Size, ops: seq<Value>, dropped: seq<bool>)
    requires LowerCall(cx, st, g, size, ops, dropped).Ok?
    ensures var low := LowerCall(cx, st, g, size, ops, dropped).value;
            Covered(st, low.st, low.nodes, {RAX} + ArgRegisters(|ops|)) && RAX in Tampered(low.st)
  {
    hide LowerArgs, EmptyRegister, GetRegister, Tampered, Tracked, ArgRegisters;
    var x := {RAX} + ArgRegisters(|ops|);
    LowerArgsTampers(cx, st, ops, dropped, 0);
    var args := LowerArgs(cx, st, ops, dropped, 0).value;
    EmptyRegisterTampers(cx.globals, args.st, RAX);
    var rax := EmptyRegister(cx.globals, args.st, RAX).value;
    GetRegisterTampers(rax.st, RAX, size);
    CoveredMore(args.st, rax.st, rax.nodes, {}, x);
    CoveredThen(st, args.st, rax.st, args.nodes, rax.nodes, ArgRegisters(|ops|), x);
    var tail := [NMov(OReg(RAX, I64), OImm(0, I64)), NCall(g)];
    CoveredMore(rax.st, GetRegister(rax.st, RAX, size), [], {}, {RAX});
    assert Covered(rax.st, GetRegister(rax.st, RAX, size), tail, x);
    CoveredThen(st, rax.st, GetRegister(rax.st, RAX, size), args.nodes + rax.nodes, tail, x, x);
  }

  lemma LowerSelectTampers(cx: Context, st: Store, ops: seq<Value>)
    requires LowerSelect(cx, st, ops).Ok?
    ensures var low := LowerSelect(cx, st, ops).value; Covered(st, low.st, low.nodes, {RAX})
  {
    hide ForceFindRegister;
    var size := ValueSize(cx.globals, st, ops[1]).value;
    ForceFindTampers(cx.globals, st, size);
  }

  lemma LowerArithTampers(cx: Context, st: Store, t: ArithType, ops: seq<Value>)
    requires LowerArith(cx, st, t, ops).Ok?
    ensures var low := LowerArith(cx, st, t, ops).value; Covered(st, low.st, low.nodes, {RAX})
  {
    hide EnsureInRegister;
    if RegisterOf(st, ops[0]).None? {
      EnsureInRegisterTampers(cx.globals, st, ops[1]);
    }
  }

  lemma LowerLoadTampers(cx: Context, st: Store, size: Size, ops: seq<Value>)
    requires LowerLoad(cx, st, size, ops).Ok?
    ensures var low := LowerLoad(cx, st, size, ops).value; Covered(st, low.st, low.nodes, {RAX})
  {
    hide FirstFree, ValueOperand;
  }

  lemma LowerStoreTampers(cx: Context, st: Store, size: Size, ops: seq<Value>)
    requires LowerStore(cx, st, size, ops).Ok?
    ensures var low := LowerStore(cx, st, size, ops).value; Covered(st, low.st, low.nodes, {RAX})
  {
    if Tracked(st) {
      OperandTracked(cx.globals, st, ops[0], size);
    }
  }

  lemma LowerOpTampers(cx: Context, st: Store, inst: Inst)
    requires LowerOp(cx, st, inst).Ok?
    ensures var low := LowerOp(cx, st, inst).value; Covered(st, low.st, low.nodes, Extra(inst))
  {
    hide LowerCall, LowerSelect, LowerArith, LowerLoad, LowerStore, ValueOperand, ValueSize, ConditionOf;
    match inst.op
    case Load(s) => LowerLoadTampers(cx, st, s, inst.operands);
    case Store(s) => LowerStoreTampers(cx, st, s, inst.operands);
    case Arith(t) => LowerArithTampers(cx, st, t, inst.operands);
    case Call(g, s) => LowerCallTampers(cx, st, g, s, inst.operands, inst.dropped);
    case Select => LowerSelectTampers(cx, st, inst.operands);
    case _ =>
  }

  lemma CleanTempsTampers(st: Store)
    ensures Covered(st, CleanTemps(st), [], {})
  {
  }

  lemma SettleTampers(st: Store, inst: Inst, pending: seq<Name>, dest: Option<Loc>)
    ensures Covered(st, Settle(st, inst, pending, dest), [], {})
  {
    hide EraseAll, DropAll, CleanTemps, MapValue, Covered;
    var st1 := if AutoDrop(inst.op) then st else DropAll(st, pending);
    EraseAllTampers(st, pending);
    CoveredNothing(st);
    EraseAllTampers(st1, pending);
    var st2 := EraseAll(st1, pending);
    CoveredQuietly(st, st1, st2);
    CleanTempsTampers(st2);
    CoveredQuietly(st, st2, CleanTemps(st2));
    if dest.Some? && inst.result.Some? {
      MapValueTampers(CleanTemps(st2), inst.result.value, dest.value);
      CoveredQuietly(st, CleanTemps(st2), MapValue(CleanTemps(st2), inst.result.value, dest.value));
    }
  }

  /** Lowering an instruction keeps the tampered set growing, and every register its
      nodes write is tampered afterwards, or is rax, or an argument register of a call. */
  lemma LowerInstTampers(cx: Context, st: Store, inst: Inst)
    requires LowerInst(cx, st, inst).Ok?
    ensures var e := LowerInst(cx, st, inst).value; Covered(st, e.st, e.nodes, Extra(inst))
  {
    hide LowerOp, Settle, DropAll, Covered, Extra;
    var pending := Pending(inst.operands, inst.dropped);
    EraseAllTampers(st, pending);
    CoveredNothing(st);
    var st1 := if AutoDrop(inst.op) then DropAll(st, pending) else st;
    LowerOpTampers(cx, st1, inst);
    var low := LowerOp(cx, st1, inst).value;
    CoveredThen(st, st1, low.st, [], low.nodes, {}, Extra(inst));
    assert [] + low.nodes == low.nodes;
    SettleTampers(low.st, inst, pending, low.dest);
    CoveredMore(low.st, Settle(low.st, inst, pending, low.dest), [], {}, Extra(inst));
    CoveredThen(st, low.st, Settle(low.st, inst, pending, low.dest), low.nodes, [], Extra(inst), Extra(inst));
    assert low.nodes + [] == low.nodes;
  }

  // Whole functions

  /** The largest number of arguments a call among the instructions passes. */
  function MaxArgsInsts(insts: seq<Inst>): nat {
    if insts == [] then 0
    else Max(if insts[0].op.Call? then |insts[0].operands| else 0, MaxArgsInsts(insts[1..]))
  }

  function MaxArgsBlocks(blocks: seq<Block>): nat {
    if blocks == [] then 0 else Max(MaxArgsInsts(blocks[0].insts), MaxArgsBlocks(blocks[1..]))
  }

  function Max(a: nat, b: nat): nat {
    if a < b then b else a
  }

  lemma ExtraBound(inst: Inst, n: nat)
    requires inst.op.Call? ==> |inst.operands| <= n
    ensures Extra(inst) <= {RAX} + ArgRegisters(n)
  {
  }

  lemma {:induction false} LowerInstsTampers(cx: Context, st: Store, insts: seq<Inst>, n: nat)
    requires LowerInsts(cx, st, insts).Ok? && MaxArgsInsts(insts) <= n
    ensures var e := LowerInsts(cx, st, insts).value; Covered(st, e.st, e.nodes, {RAX} + ArgRegisters(n))
    decreases |insts|
  {
    hide LowerInst, Covered, Extra, ArgRegisters;
    var x := {RAX} + ArgRegisters(n);
    if insts == [] {
      CoveredNothing(st);
      CoveredMore(st, st, [], {}, x);
    } else {
      LowerInstTampers(cx, st, insts[0]);
      ExtraBound(insts[0], n);
      var e := LowerInst(cx, st, insts[0]).value;
      LowerInstsTampers(cx, e.st, insts[1..], n);
      var rest := LowerInsts(cx, e.st, insts[1..]).value;
      CoveredThen(st, e.st, rest.st, e.nodes, rest.nodes, Extra(insts[0]), x);
    }
  }

  function AllNodes(labels: seq<Label>): seq<Node> {
    if labels == [] then [] else labels[0].nodes + AllNodes(labels[1..])
  }

  lemma {:induction false} LowerBlocksTampers(cx: Context, st: Store, blocks: seq<Block>, n: nat)
    requires LowerBlocks(cx, st, blocks).Ok? && MaxArgsBlocks(blocks) <= n
    ensures var (st1, labels) := LowerBlocks(cx, st, blocks).value; Covered(st, st1, AllNodes(labels),
              {RAX} + ArgRegisters(n))
    decreases |blocks|
  {
    hide LowerInsts, Covered, ArgRegisters;
    var x := {RAX} + ArgRegisters(n);
    if blocks == [] {
      CoveredNothing(st);
      CoveredMore(st, st, [], {}, x);
    } else {
      LowerInstsTampers(cx, st, blocks[0].insts, n);
      var e := LowerInsts(cx, st, blocks[0].insts).value;
      LowerBlocksTampers(cx, e.st, blocks[1..], n);
      var (st1, labels) := LowerBlocks(cx, e.st, blocks[1..]).value;
      var all := LowerBlocks(cx, st, blocks).value.1;
      assert all[1..] == labels && all[0].nodes == e.nodes;
      CoveredThen(st, e.st, st1, e.nodes, AllNodes(labels), x, x);
    }
  }

  lemma GetRegisterAdds(st: Store, r: Register, size: Size, x: Name)
    ensures Tampered(GetRegister(st, r, size)) == Tampered(st) + {r}
    ensures Tracked(st) ==> Tracked(GetRegister(st, r, size).(vmap := st.vmap[x := InReg(r)]))
  {
  }

  lemma ArgRegistersStep(n: nat)
    requires n < MAX_ARGS
    ensures ArgRegisters(n + 1) == ArgRegisters(n) + {ParamRegister(n)}
  {
  }

  lemma SameVmap(st: Store, r: Register, size: Size)
    ensures GetRegister(st, r, size).vmap == st.vmap
  {
  }

  lemma SameTampered(st: Store, st1: Store)
    requires st.cells == st1.cells
    ensures Tampered(st) == Tampered(st1)
  {
  }

  lemma {:induction false} PlaceParamsTracked(params: seq<(Name, Size)>)
    requires |params| <= MAX_ARGS
    ensures Tracked(PlaceParams(params)) && Tampered(PlaceParams(params)) == ArgRegisters(|params|)
  {
    if params != [] {
      hide ArgRegisters, ParamRegister, Tracked, Tampered, GetRegister;
      var last := |params| - 1;
      PlaceParamsTracked(params[..last]);
      ArgRegistersStep(last);
      var before := PlaceParams(params[..last]);
      GetRegisterAdds(before, ParamRegister(last), params[last].1, params[last].0);
      SameVmap(before, ParamRegister(last), params[last].1);
      SameTampered(GetRegister(before, ParamRegister(last), params[last].1), PlaceParams(params));
    } else {
      assert Tracked(FRESH) && Tampered(FRESH) == ArgRegisters(0);
    }
  }

  /** The saved registers are the tampered ones that are not parameters, from rbx on. */
  lemma {:induction false} SavedAre(cells: Cells, isParam: set<nat>, i: nat)
    requires i <= REGISTERS
    ensures forall r: nat :: r in SavedFrom(cells, isParam, i) <==>
              i <= r < REGISTERS && cells[r].tampered && r !in isParam
    ensures |SavedFrom(cells, isParam, i)| <= REGISTERS - i
    decreases REGISTERS - i
  {
    if i < REGISTERS {
      SavedAre(cells, isParam, i + 1);
    }
  }

  ghost predicate Ascending(s: seq<nat>) {
    forall j, k | 0 <= j < k < |s| :: s[j] < s[k]
  }

  lemma AscendingCons(i: nat, s: seq<nat>)
    requires Ascending(s) && forall r | r in s :: i < r
    ensures Ascending([i] + s)
  {
    forall k | 0 <= k < |s| ensures i < s[k] {
      assert s[k] in s;
    }
  }

  lemma {:induction false} SavedAscend(cells: Cells, isParam: set<nat>, i: nat)
    requires i <= REGISTERS
    ensures Ascending(SavedFrom(cells, isParam, i))
    decreases REGISTERS - i
  {
    if i < REGISTERS {
      SavedAscend(cells, isParam, i + 1);
      SavedAre(cells, isParam, i + 1);
      AscendingCons(i, SavedFrom(cells, isParam, i + 1));
      assert [] + SavedFrom(cells, isParam, i + 1) == SavedFrom(cells, isParam, i + 1);
    }
  }

  lemma TamperedIs(st: Store, r: nat)
    ensures r in Tampered(st) <==> r < REGISTERS && st.cells[r].tampered
  {
  }

  lemma MoreArgRegisters(i: nat, n: nat)
    requires i <= n
    ensures ArgRegisters(i) <= ArgRegisters(n)
  {
  }

  /** In a compiled function every register a node writes is saved by the prologue, or is
      rax, or an argument register of the function or of a call it makes. */
  lemma SavedCoversWrites(globals: set<Name>, f: Function, r: nat, node: Node)
    requires CompileFunction(globals, f).Ok?
    requires var asm := CompileFunction(globals, f).value; node in AllNodes(asm.blocks[1..])
    requires WritesRegister(node, r)
    ensures r in CompileFunction(globals, f).value.saved || r == RAX ||
            r in ArgRegisters(Max(|f.params|, MaxArgsBlocks(f.blocks)))
  {
    hide LowerBlocks, PlaceParams, ArgRegisters, SavedFrom, Tampered, WritesRegister, MaxArgsBlocks, AllNodes;
    var n := MaxArgsBlocks(f.blocks);
    var cx := Context(f.returnType, globals);
    var body := LowerBlocks(cx, PlaceParams(f.params), f.blocks).value;
    LowerBlocksTampers(cx, PlaceParams(f.params), f.blocks, n);
    PlaceParamsTracked(f.params);
    SavedAre(body.0.cells, ArgRegisters(|f.params|), 1);
    assert CompileFunction(globals, f).value.blocks[1..] == body.1;
    MoreArgRegisters(n, Max(|f.params|, n));
    MoreArgRegisters(|f.params|, Max(|f.params|, n));
    TamperedIs(body.0, r);
  }
}
