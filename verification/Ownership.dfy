/** Ownership of registers stays coherent through code generation of single-assignment
    functions, and every name is found when it is needed. */
module Ownership {
  import opened Wrappers
  import opened Ir
  import opened Machine
  import opened Storage
  import opened Lowering
  import opened Text

  /** Every owned register is the location of its owner. */
  ghost predicate Coherent(st: Store) {
    forall r: Register :: st.cells[r].owner != "" ==>
      st.cells[r].owner in st.vmap && st.vmap[st.cells[r].owner] == InReg(r)
  }

  /** Temporary names not handed out yet are unmapped. */
  ghost predicate TempsFresh(st: Store) {
    forall n: nat | st.temps <= n :: TempName(n) !in st.vmap
  }

  predicate IsTemp(x: Name) {
    StartsWith(x, TEMP_PREFIX)
  }

  /** Names a program may use: not empty and not reserved for temporaries. */
  predicate UserName(x: Name) {
    x != "" && !IsTemp(x)
  }

  ghost predicate Sound(st: Store) {
    Coherent(st) && TempsFresh(st)
  }

  ghost predicate NoTempOwners(st: Store) {
    forall r: Register :: !IsTemp(st.cells[r].owner)
  }

  /** No two registers share an owner. */
  ghost predicate OwnersDistinct(st: Store) {
    forall r: Register, s: Register :: st.cells[r].owner == st.cells[s].owner != "" ==> r == s
  }

  /** Names mapped afterwards were mapped before, or are temporaries, or are in extra. */
  ghost predicate Grows(st0: Store, st1: Store, extra: set<Name>) {
    forall x | x in st1.vmap :: x in st0.vmap || IsTemp(x) || x in extra
  }

  /** Names are not forgotten. */
  ghost predicate Keeps(st0: Store, st1: Store) {
    forall x | x in st0.vmap :: x in st1.vmap
  }

  /** Whether lowering an instruction produces a value for its result name. */
  predicate Produces(op: Op) {
    !(op.Store? || op.Branch? || op.Jmp? || op.Ret?)
  }

  lemma TempNames(m: nat, n: nat)
    ensures IsTemp(TempName(m)) && TempName(m) != ""
    ensures TempName(m) == TempName(n) ==> m == n
  {
    NumeralOfDecimal(m);
    NumeralOfDecimal(n);
    assert TempName(m)[|TEMP_PREFIX|..] == Decimal(m);
    assert TempName(n)[|TEMP_PREFIX|..] == Decimal(n);
  }

  /** x is not a temporary that may still be handed out. */
  ghost predicate Settled(st: Store, x: Name) {
    forall n: nat | st.temps <= n :: TempName(n) != x
  }

  lemma UserNamesSettled(st: Store, x: Name)
    requires UserName(x)
    ensures Settled(st, x)
  {
    forall n: nat ensures TempName(n) != x {
      TempNames(n, n);
    }
  }

  lemma MapValueSound(st: Store, x: Name, loc: Loc)
    requires Sound(st) && x != "" && Settled(st, x)
    requires forall r: Register :: st.cells[r].owner != x
    ensures Sound(MapValue(st, x, loc))
  {
  }

  lemma GetRegisterSound(st: Store, r: Register, size: Size)
    requires Sound(st)
    ensures Sound(GetRegister(st, r, size))
    ensures GetRegister(st, r, size).vmap == st.vmap && GetRegister(st, r, size).temps == st.temps
  {
  }

  lemma EraseValueSound(st: Store, x: Name)
    requires Sound(st)
    ensures Sound(DropOwnership(st, x)) && Sound(EraseValue(st, x))
    ensures forall r: Register :: EraseValue(st, x).cells[r].owner != x || x == ""
  {
  }

  lemma {:induction false} EraseAllSound(st: Store, xs: seq<Name>)
    requires Sound(st)
    ensures Sound(EraseAll(st, xs)) && Sound(DropAll(st, xs))
    ensures forall x :: x in EraseAll(st, xs).vmap <==> x in st.vmap && x !in xs
    ensures DropAll(st, xs).vmap == st.vmap && DropAll(st, xs).temps == st.temps == EraseAll(st, xs).temps
    decreases |xs|
  {
    if xs != [] {
      EraseValueSound(st, xs[0]);
      EraseAllSound(EraseValue(st, xs[0]), xs[1..]);
      EraseAllSound(DropOwnership(st, xs[0]), xs[1..]);
    }
  }

  lemma RemapValueSound(st: Store, x: Name, loc: Loc)
    requires Sound(st) && x != "" && x in st.vmap
    ensures Sound(RemapValue(st, x, loc))
    ensures RemapValue(st, x, loc).vmap == st.vmap[x := loc] && RemapValue(st, x, loc).temps == st.temps
    ensures forall r: Register | st.cells[r].owner == x && loc != InReg(r) ::
            RemapValue(st, x, loc).cells[r].owner == ""
  {
    EraseValueSound(st, x);
    EraseValueSound(DropOwnership(st, x), x);
    MapValueSound(EraseValue(DropOwnership(st, x), x), x, loc);
  }

  lemma EmptyRegisterSound(globals: set<Name>, st: Store, r: Register)
    requires Sound(st)
    ensures EmptyRegister(globals, st, r) != Err(NotFound)
    ensures EmptyRegister(globals, st, r).Ok? ==>
              var st1 := EmptyRegister(globals, st, r).value.st;
              Sound(st1) && st1.cells[r].owner == "" && st1.vmap.Keys == st.vmap.Keys && st1.temps == st.temps
  {
    hide RemapValue;
    var x := st.cells[r].owner;
    if x != "" && FindValStorage(st, st.cells[r].size).Ok? {
      var (st1, home) := FindValStorage(st, st.cells[r].size).value;
      RemapValueSound(st1, x, home);
    }
  }

  lemma ForceFindSound(globals: set<Name>, st: Store, size: Size)
    requires Sound(st)
    ensures ForceFindRegister(globals, st, size) != Err(NotFound)
    ensures ForceFindRegister(globals, st, size).Ok? ==>
              var (e, r) := ForceFindRegister(globals, st, size).value;
              Sound(e.st) && e.st.vmap.Keys == st.vmap.Keys && e.st.temps == st.temps
  {
    hide EmptyRegister, GetRegister, FirstFree, FirstUnfrozen;
    if FirstFree(st.cells, 0).Some? {
      GetRegisterSound(st, FirstFree(st.cells, 0).value, size);
    } else if FirstUnfrozen(st.cells, 0).Some? {
      var r := FirstUnfrozen(st.cells, 0).value;
      EmptyRegisterSound(globals, st, r);
      if EmptyRegister(globals, st, r).Ok? {
        GetRegisterSound(EmptyRegister(globals, st, r).value.st, r, size);
      }
    }
  }

  /** What callers of ForceFindRegister need to find names afterwards. */
  lemma ForceFindKeepsNames(globals: set<Name>, st: Store, size: Size)
    requires Sound(st)
    ensures ForceFindRegister(globals, st, size) != Err(NotFound)
    ensures ForceFindRegister(globals, st, size).Ok? ==>
            ForceFindRegister(globals, st, size).value.0.st.vmap.Keys == st.vmap.Keys
  {
    ForceFindSound(globals, st, size);
  }

  lemma ClaimTempSound(st: Store, r: Register, size: Size)
    requires Sound(st)
    ensures IsTemp(TempName(st.temps))
    ensures Sound(ClaimTemp(st, r, size)) && ClaimTemp(st, r, size).vmap == st.vmap[TempName(st.temps) := InReg(r)]
  {
    forall n: nat | st.temps < n ensures TempName(n) != TempName(st.temps) {
      TempNames(n, st.temps);
    }
    TempNames(st.temps, st.temps);
    MapValueSound(GetRegister(st, r, size).(temps := st.temps + 1), TempName(st.temps), InReg(r));
  }

  lemma PlaceInRegisterSound(globals: set<Name>, e: Emit, r: Register, v: Value)
    requires Sound(e.st)
    requires PlaceInRegister(globals, e, r, v).Ok?
    ensures var st1 := PlaceInRegister(globals, e, r, v).value.0.st;
            Sound(st1) && Keeps(e.st, st1) && Grows(e.st, st1, {})
  {
    ClaimTempSound(e.st, r, ValueSize(globals, e.st, v).value);
  }

  lemma EnsureInRegisterSound(globals: set<Name>, st: Store, v: Value)
    requires Sound(st)
    requires EnsureInRegister(globals, st, v).Ok?
    ensures var st1 := EnsureInRegister(globals, st, v).value.0.st;
            Sound(st1) && Keeps(st, st1) && Grows(st, st1, {})
  {
    hide ForceFindRegister, PlaceInRegister;
    if RegisterOf(st, v).None? {
      var size := ValueSize(globals, st, v).value;
      ForceFindSound(globals, st, size);
      var found := ForceFindRegister(globals, st, size).value;
      PlaceInRegisterSound(globals, found.0, found.1, v);
    }
  }

  lemma LowerArgSound(cx: Context, st: Store, v: Value, dropped: bool, r: Register)
    requires Sound(st)
    requires LowerArg(cx, st, v, dropped, r).Ok?
    ensures var st1 := LowerArg(cx, st, v, dropped, r).value.st;
            Sound(st1) && st1.vmap.Keys == st.vmap.Keys
  {
    hide EmptyRegister;
    EmptyRegisterSound(cx.globals, st, r);
  }

  lemma {:induction false} LowerArgsSound(cx: Context, st: Store, ops: seq<Value>, dropped: seq<bool>, i: nat)
    requires Sound(st) && i <= |ops|
    requires LowerArgs(cx, st, ops, dropped, i).Ok?
    ensures var st1 := LowerArgs(cx, st, ops, dropped, i).value.st;
            Sound(st1) && st1.vmap.Keys == st.vmap.Keys
    decreases |ops| - i
  {
    hide LowerArg;
    if i < |ops| {
      LowerArgSound(cx, st, ops[i], dropped[i], ParamRegister(i));
      LowerArgsSound(cx, LowerArg(cx, st, ops[i], dropped[i], ParamRegister(i)).value.st, ops, dropped, i + 1);
    }
  }

  lemma LowerArithSound(cx: Context, st: Store, t: ArithType, ops: seq<Value>)
    requires Sound(st)
    requires LowerArith(cx, st, t, ops).Ok?
    ensures var st1 := LowerArith(cx, st, t, ops).value.st;
            Sound(st1) && Keeps(st, st1) && Grows(st, st1, {})
    ensures LowerArith(cx, st, t, ops).value.dest.Some?
  {
    hide EnsureInRegister;
    if RegisterOf(st, ops[0]).None? {
      EnsureInRegisterSound(cx.globals, st, ops[1]);
    }
  }

  lemma LowerCallSound(cx: Context, st: Store, g: Name, size: Size, ops: seq<Value>, dropped: seq<bool>)
    requires Sound(st)
    requires LowerCall(cx, st, g, size, ops, dropped).Ok?
    ensures var st1 := LowerCall(cx, st, g, size, ops, dropped).value.st;
            Sound(st1) && Keeps(st, st1) && Grows(st, st1, {})
    ensures LowerCall(cx, st, g, size, ops, dropped).value.dest.Some?
  {
    hide EmptyRegister, LowerArgs;
    LowerArgsSound(cx, st, ops, dropped, 0);
    EmptyRegisterSound(cx.globals, LowerArgs(cx, st, ops, dropped, 0).value.st, RAX);
  }

  lemma LowerSelectSound(cx: Context, st: Store, ops: seq<Value>)
    requires Sound(st)
    requires LowerSelect(cx, st, ops).Ok?
    ensures var st1 := LowerSelect(cx, st, ops).value.st;
            Sound(st1) && Keeps(st, st1) && Grows(st, st1, {})
    ensures LowerSelect(cx, st, ops).value.dest.Some?
  {
    hide ForceFindRegister;
    ForceFindSound(cx.globals, st, ValueSize(cx.globals, st, ops[1]).value);
  }

  lemma LowerLoadSound(cx: Context, st: Store, size: Size, ops: seq<Value>)
    requires Sound(st) && LowerLoad(cx, st, size, ops).Ok?
    ensures var low := LowerLoad(cx, st, size, ops).value;
            Sound(low.st) && Keeps(st, low.st) && Grows(st, low.st, {}) && low.dest.Some?
  {
    hide FirstFree, GetRegister, ValueOperand;
    if FirstFree(st.cells, 0).Some? {
      GetRegisterSound(st, FirstFree(st.cells, 0).value, size);
    }
  }

  lemma LowerOpSound(cx: Context, st: Store, inst: Inst)
    requires Sound(st)
    requires LowerOp(cx, st, inst).Ok?
    ensures var st1 := LowerOp(cx, st, inst).value.st;
            Sound(st1) && Keeps(st, st1) && Grows(st, st1, {})
    ensures Produces(inst.op) ==> LowerOp(cx, st, inst).value.dest.Some?
  {
    hide LowerArith, LowerCall, LowerSelect, LowerLoad, ValueOperand, SizedOperand, ValueSize, ConditionOf;
    match inst.op
    case Load(s) => LowerLoadSound(cx, st, s, inst.operands);
    case Arith(t) => LowerArithSound(cx, st, t, inst.operands);
    case Call(g, s) => LowerCallSound(cx, st, g, s, inst.operands, inst.dropped);
    case Select => LowerSelectSound(cx, st, inst.operands);
    case _ =>
  }

  // Names are found

  /** An operand resolves: a literal, a mapped name or a global string. */
  ghost predicate Resolves(globals: set<Name>, st: Store, v: Value) {
    v.Lit? || v.name in st.vmap || v.name in globals
  }

  ghost predicate AllResolve(globals: set<Name>, st: Store, ops: seq<Value>) {
    forall i | 0 <= i < |ops| :: Resolves(globals, st, ops[i])
  }

  lemma EnsureInRegisterFinds(globals: set<Name>, st: Store, v: Value)
    requires Sound(st) && Resolves(globals, st, v)
    ensures EnsureInRegister(globals, st, v) != Err(NotFound)
  {
    hide ForceFindRegister;
    if RegisterOf(st, v).None? {
      ForceFindKeepsNames(globals, st, ValueSize(globals, st, v).value);
    }
  }

  lemma LowerArithFinds(cx: Context, st: Store, t: ArithType, ops: seq<Value>)
    requires Sound(st) && AllResolve(cx.globals, st, ops)
    ensures LowerArith(cx, st, t, ops) != Err(NotFound)
  {
    hide EnsureInRegister;
    if |ops| == 2 {
      assert Resolves(cx.globals, st, ops[0]) && Resolves(cx.globals, st, ops[1]);
      EnsureInRegisterFinds(cx.globals, st, ops[1]);
      if Dominate(cx, st, ops[0], ops[1]).Ok? {
        if RegisterOf(st, ops[0]).None? {
          EnsureInRegisterSound(cx.globals, st, ops[1]);
        }
        ArithFinds(cx, st, t, Dominate(cx, st, ops[0], ops[1]).value);
      }
    }
  }

  lemma ArithFinds(cx: Context, st: Store, t: ArithType, placed: (Emit, Value, Value))
    requires RegisterOf(placed.0.st, placed.1).Some? && Keeps(st, placed.0.st)
    requires Resolves(cx.globals, st, placed.2)
    ensures ValueOperand(cx.globals, placed.0.st, placed.1) != Err(NotFound)
    ensures ValueOperand(cx.globals, placed.0.st, placed.2) != Err(NotFound)
  {
  }

  lemma {:induction false} LowerArgsFinds(cx: Context, st: Store, ops: seq<Value>, dropped: seq<bool>, i: nat)
    requires Sound(st) && AllResolve(cx.globals, st, ops) && i <= |ops|
    ensures LowerArgs(cx, st, ops, dropped, i) != Err(NotFound)
    decreases |ops| - i
  {
    hide EmptyRegister;
    if i < |ops| && i < MAX_ARGS && i < |dropped| {
      assert Resolves(cx.globals, st, ops[i]);
      EmptyRegisterSound(cx.globals, st, ParamRegister(i));
      var e := LowerArg(cx, st, ops[i], dropped[i], ParamRegister(i));
      if e.Ok? {
        LowerArgSound(cx, st, ops[i], dropped[i], ParamRegister(i));
        LowerArgsFinds(cx, e.value.st, ops, dropped, i + 1);
      }
    }
  }

  lemma LowerCallFinds(cx: Context, st: Store, g: Name, size: Size, ops: seq<Value>, dropped: seq<bool>)
    requires Sound(st) && AllResolve(cx.globals, st, ops)
    ensures LowerCall(cx, st, g, size, ops, dropped) != Err(NotFound)
  {
    hide EmptyRegister, LowerArgs;
    LowerArgsFinds(cx, st, ops, dropped, 0);
    if LowerArgs(cx, st, ops, dropped, 0).Ok? {
      LowerArgsSound(cx, st, ops, dropped, 0);
      EmptyRegisterSound(cx.globals, LowerArgs(cx, st, ops, dropped, 0).value.st, RAX);
    }
  }

  lemma SelectIntoFinds(cx: Context, e: Emit, r: Register, cond: IcmpType, onTrue: Value, onFalse: Value)
    requires Resolves(cx.globals, e.st, onTrue) && Resolves(cx.globals, e.st, onFalse)
    ensures SelectInto(cx, e, r, cond, onTrue, onFalse) != Err(NotFound)
  {
  }

  lemma LowerSelectFinds(cx: Context, st: Store, ops: seq<Value>)
    requires Sound(st) && AllResolve(cx.globals, st, ops)
    ensures LowerSelect(cx, st, ops) != Err(NotFound)
  {
    hide ForceFindRegister;
    if |ops| == 3 {
      assert Resolves(cx.globals, st, ops[0]) && Resolves(cx.globals, st, ops[1]) && Resolves(cx.globals, st, ops[2]);
      var size := ValueSize(cx.globals, st, ops[1]).value;
      ForceFindKeepsNames(cx.globals, st, size);
      var found := ForceFindRegister(cx.globals, st, size);
      if found.Ok? && ConditionOf(cx, st, ops[0]).Ok? {
        SelectIntoFinds(cx, found.value.0, found.value.1, ConditionOf(cx, st, ops[0]).value, ops[1], ops[2]);
      }
    }
  }

  lemma LowerLoadFinds(cx: Context, st: Store, size: Size, ops: seq<Value>)
    requires AllResolve(cx.globals, st, ops)
    ensures LowerLoad(cx, st, size, ops) != Err(NotFound)
  {
    hide FirstFree;
    assert forall i | 0 <= i < |ops| :: Resolves(cx.globals, st, ops[i]);
  }

  lemma LowerOpFinds(cx: Context, st: Store, inst: Inst)
    requires Sound(st) && AllResolve(cx.globals, st, inst.operands)
    ensures LowerOp(cx, st, inst) != Err(NotFound)
  {
    hide LowerArith, LowerCall, LowerSelect, LowerLoad;
    var ops := inst.operands;
    assert forall i | 0 <= i < |ops| :: Resolves(cx.globals, st, ops[i]);
    match inst.op
    case Load(s) => LowerLoadFinds(cx, st, s, ops);
    case Arith(t) => LowerArithFinds(cx, st, t, ops);
    case Call(g, s) => LowerCallFinds(cx, st, g, s, ops, inst.dropped);
    case Select => LowerSelectFinds(cx, st, ops);
    case _ =>
  }

  // Whole instructions

  lemma CleanTempsSound(st: Store)
    requires Sound(st)
    ensures Sound(CleanTemps(st)) && NoTempOwners(CleanTemps(st)) && CleanTemps(st).vmap == st.vmap
  {
  }

  lemma SettleSound(st: Store, inst: Inst, pending: seq<Name>, dest: Option<Loc>)
    requires Sound(st)
    requires inst.result.Some? ==> UserName(inst.result.value) && inst.result.value !in st.vmap
    ensures var st1 := Settle(st, inst, pending, dest);
            Sound(st1) && NoTempOwners(st1) &&
            (forall x | x in st.vmap && x !in pending :: x in st1.vmap) &&
            (dest.Some? && inst.result.Some? ==> inst.result.value in st1.vmap) &&
            Grows(st, st1, if inst.result.Some? then {inst.result.value} else {})
  {
    EraseAllSound(st, pending);
    var st1 := if AutoDrop(inst.op) then st else DropAll(st, pending);
    EraseAllSound(st1, pending);
    CleanTempsSound(EraseAll(st1, pending));
    if dest.Some? && inst.result.Some? {
      UserNamesSettled(CleanTemps(EraseAll(st1, pending)), inst.result.value);
      MapValueSound(CleanTemps(EraseAll(st1, pending)), inst.result.value, dest.value);
    }
  }

  lemma LowerInstSound(cx: Context, st: Store, inst: Inst)
    requires Sound(st)
    requires inst.result.Some? ==> UserName(inst.result.value) && inst.result.value !in st.vmap
    requires LowerInst(cx, st, inst).Ok?
    ensures |inst.dropped| == |inst.operands|
    ensures var st1 := LowerInst(cx, st, inst).value.st;
            Sound(st1) && NoTempOwners(st1) &&
            (forall x | x in st.vmap && x !in Pending(inst.operands, inst.dropped) :: x in st1.vmap) &&
            (Produces(inst.op) && inst.result.Some? ==> inst.result.value in st1.vmap) &&
            Grows(st, st1, if inst.result.Some? then {inst.result.value} else {})
  {
    hide LowerOp;
    var pending := Pending(inst.operands, inst.dropped);
    EraseAllSound(st, pending);
    var st1 := if AutoDrop(inst.op) then DropAll(st, pending) else st;
    LowerOpSound(cx, st1, inst);
    var low := LowerOp(cx, st1, inst).value;
    SettleSound(low.st, inst, pending, low.dest);
  }

  lemma LowerInstFinds(cx: Context, st: Store, inst: Inst)
    requires Sound(st) && AllResolve(cx.globals, st, inst.operands)
    ensures LowerInst(cx, st, inst) != Err(NotFound)
  {
    hide LowerOp;
    if |inst.dropped| == |inst.operands| {
      var pending := Pending(inst.operands, inst.dropped);
      EraseAllSound(st, pending);
      var st1 := if AutoDrop(inst.op) then DropAll(st, pending) else st;
      assert AllResolve(cx.globals, st1, inst.operands) by {
        assert forall i | 0 <= i < |inst.operands| :: Resolves(cx.globals, st, inst.operands[i]) ==>
               Resolves(cx.globals, st1, inst.operands[i]);
      }
      LowerOpFinds(cx, st1, inst);
    }
  }
}
