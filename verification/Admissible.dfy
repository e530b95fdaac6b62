/** A static condition under which a function is lowered safely: kinds and the number of
    names held in registers, counted over the instructions in layout order. */
module Admissible {
  import opened Wrappers
  import opened Ir
  import opened Machine
  import opened Storage
  import opened Lowering
  import opened Ownership
  import opened Tampering
  import opened Simulation
  import opened Settling
  import opened Lifetime
  import opened Reaching
  import opened ArgumentSetup
  import opened Stepping
  import opened Generation

  // The static condition

  /** What a name stands for: an integer in a register, allocated memory, or the outcome
      of a comparison. */
  datatype Kind = InRegister | Pointer | Outcome

  /** Kinds of the names in use, and those among them that own a register. */
  datatype Shape = Shape(kinds: map<Name, Kind>, held: set<Name>)

  function ResultKind(op: Op): Option<Kind> {
    match op
    case Allocate(_) => Some(Pointer)
    case Icmp(_) => Some(Outcome)
    case Load(_) => Some(InRegister)
    case Arith(_) => Some(InRegister)
    case Call(_, _) => Some(InRegister)
    case Select => Some(InRegister)
    case _ => None
  }

  /** Names that an instruction uses for the last time. */
  function Gone(inst: Inst, stay: set<Name>): set<Name> {
    Uses(inst) - stay
  }

  function After(sh: Shape, inst: Inst, stay: set<Name>): Shape {
    var kinds, held := sh.kinds - Gone(inst, stay), sh.held - Gone(inst, stay);
    if inst.result.Some? && ResultKind(inst.op).Some? then
      var x, kind := inst.result.value, ResultKind(inst.op).value;
      Shape(kinds[x := kind], if kind == InRegister then held + {x} else held)
    else Shape(kinds, held)
  }

  predicate IsKind(sh: Shape, v: Value, kind: Kind) {
    v.Var? && v.name in sh.kinds && sh.kinds[v.name] == kind
  }

  /** A 64-bit integer operand. */
  predicate IsInt(sh: Shape, v: Value) {
    v.size == I64 && (v.Var? ==> IsKind(sh, v, InRegister))
  }

  predicate AllInts(sh: Shape, ops: seq<Value>) {
    forall k | 0 <= k < |ops| :: IsInt(sh, ops[k])
  }

  /** At most two registers are taken, so rax, rbx or rcx is free. */
  predicate LowPressure(held: set<Name>) {
    |held| <= 2
  }

  /** No outcome of a comparison is needed. */
  predicate NoOutcomes(sh: Shape, need: set<Name>) {
    forall x | x in need && x in sh.kinds :: sh.kinds[x] != Outcome
  }

  /** No parameter still in its register is lost to a later argument: it is not needed
      any more, or is itself that argument for the last time. */
  predicate ParamsClear(params: seq<(Name, Size)>, sh: Shape, ops: seq<Value>, stay: set<Name>) {
    forall i | 0 <= i < |ops| && i < |params| ::
      var x := params[i].0;
      x in sh.kinds && x !in sh.held && x in stay + VarNames(ops[i + 1..]) ==>
          ops[i].Var? && ops[i].name == x && x !in stay
  }

  predicate OpAdmissible(f: Function, sh: Shape, inst: Inst, stay: set<Name>) {
    var ops := inst.operands;
    match inst.op
    case Allocate(n) => ops == [] && n >= 8
    case Store(s) => s == I64 && |ops| == 2 && IsKind(sh, ops[0], Pointer) && IsInt(sh, ops[1]) &&
      (ops[1].Lit? ==> ops[1].value != 0)
    case Load(s) => s == I64 && |ops| == 1 && IsKind(sh, ops[0], Pointer) && LowPressure(sh.held - Gone(inst, stay))
    case Icmp(_) => |ops| == 2 && ops[0].Var? && AllInts(sh, ops) && NoOutcomes(sh, stay)
    case Arith(t) =>
      |ops| == 2 && AllInts(sh, ops) && NoOutcomes(sh, stay) &&
      if ops[0].Var? then ops[0].name !in stay else t != Sub && ops[1].Var? && ops[1].name !in stay
    case Select =>
      |ops| == 3 && IsKind(sh, ops[0], Outcome) && IsInt(sh, ops[1]) && ops[1].Var? && IsInt(sh, ops[2]) &&
      (ops[2].Lit? ==> ops[2].value != 0) && LowPressure(sh.held)
    case Call(_, s) =>
      |ops| <= MAX_ARGS && AllInts(sh, ops) && (inst.result.Some? ==> s == I64) && NoOutcomes(sh, stay + Uses(inst)) &&
      LowPressure(sh.held) && ParamsClear(f.params, sh, ops, stay)
    case Ret => if ops == [] then f.returnType == NoSize else |ops| == 1 && AllInts(sh, ops) && f.returnType == I64
    case Branch(_, _) => |ops| == 1 && IsKind(sh, ops[0], Outcome)
    case Jmp(_) => ops == []
    case _ => false
  }

  predicate NoCalls(insts: seq<Inst>) {
    forall i | 0 <= i < |insts| :: !insts[i].op.Call?
  }

  /** No call lies between a jump and its target in layout. If the target is further up,
      every name that may still be read there is in use there, and is needed further down as
      well. */
  predicate JumpAdmissible(f: Function, b: nat, rest: seq<Inst>, l: Name, stay: set<Name>)
    requires b < |f.blocks|
  {
    l != STACKSAVE &&
    (FindBlock(f.blocks, l).Some? ==>
       var t := FindBlock(f.blocks, l).value;
       if b < t then NoCalls(rest) && forall c | b < c < t :: NoCalls(f.blocks[c].insts)
       else LoopAdmissible(f, t, stay) && forall c | t <= c <= b :: NoCalls(f.blocks[c].insts))
  }

  predicate LoopAdmissible(f: Function, t: nat, stay: set<Name>)
    requires t < |f.blocks|
  {
    forall x | x in BlocksMention(f.blocks) && Live(f.blocks, (t, 0), x) :: x in ShapeAt(f, t).kinds && x in stay
  }

  ghost predicate InstAdmissible(f: Function, b: nat, sh: Shape, inst: Inst, rest: seq<Inst>, stay: set<Name>)
    requires b < |f.blocks|
  {
    Flagged(inst, stay) && UserNames(stay + Uses(inst)) &&
    (inst.result.Some? ==>
       UserName(inst.result.value) && inst.result.value !in sh.kinds && ResultKind(inst.op).Some?) &&
    OpAdmissible(f, sh, inst, stay) && forall l | l in Targets(inst.op) :: JumpAdmissible(f, b, rest, l, stay)
  }

  ghost predicate InstsAdmissible(f: Function, b: nat, sh: Shape, insts: seq<Inst>)
    requires b < |f.blocks|
    decreases |insts|
  {
    insts == [] ||
    var stay := InstsMention(insts[1..]) + NeedFrom(f, b + 1);
    InstAdmissible(f, b, sh, insts[0], insts[1..], stay) && InstsAdmissible(f, b, After(sh, insts[0], stay), insts[1..])
  }

  /** One admissible instruction and what follows it. */
  lemma StepAdmissible(f: Function, b: nat, insts: seq<Inst>, inst: Inst, rest: seq<Inst>, sh: Shape, stay: set<Name>)
    requires b < |f.blocks| && insts == [inst] + rest && InstsMention(rest) + NeedFrom(f, b + 1) == stay
    requires InstAdmissible(f, b, sh, inst, rest, stay) && InstsAdmissible(f, b, After(sh, inst, stay), rest)
    ensures InstsAdmissible(f, b, sh, insts)
    ensures AfterInsts(sh, insts, NeedFrom(f, b + 1)) == AfterInsts(After(sh, inst, stay), rest, NeedFrom(f, b + 1))
  {
    hide InstAdmissible, After, NeedFrom;
    assert insts[1..] == rest;
  }

  function AfterInsts(sh: Shape, insts: seq<Inst>, after: set<Name>): Shape
    decreases |insts|
  {
    if insts == [] then sh else AfterInsts(After(sh, insts[0], InstsMention(insts[1..]) + after), insts[1..], after)
  }

  function ParamKinds(params: seq<(Name, Size)>): map<Name, Kind> {
    if params == [] then map[]
    else ParamKinds(params[..|params| - 1])[params[|params| - 1].0 := InRegister]
  }

  /** The shape at the start of block b. */
  function ShapeAt(f: Function, b: nat): Shape
    requires b <= |f.blocks|
  {
    if b == 0 then Shape(ParamKinds(f.params), {})
    else AfterInsts(ShapeAt(f, b - 1), f.blocks[b - 1].insts, NeedFrom(f, b))
  }

  ghost predicate FunctionAdmissible(f: Function) {
    |f.params| <= MAX_ARGS && f.blocks != [] && DistinctParams(f.params) &&
    forall b | 0 <= b < |f.blocks| :: InstsAdmissible(f, b, ShapeAt(f, b), f.blocks[b].insts)
  }

  // Storage states of a shape

  ghost predicate Home(params: seq<(Name, Size)>, x: Name, r: Register) {
    exists i | 0 <= i < |params| && i < MAX_ARGS :: params[i].0 == x && ParamRegister(i) == r
  }

  ghost predicate Located(st: Store, params: seq<(Name, Size)>, sh: Shape, x: Name)
    requires x in sh.kinds && x in st.vmap
  {
    var loc := st.vmap[x];
    match sh.kinds[x]
    case InRegister =>
      loc.InReg? && st.cells[loc.reg].size == I64 &&
      if x in sh.held then st.cells[loc.reg].owner == x else st.cells[loc.reg].owner == "" && Home(params, x, loc.reg)
    case Pointer => loc.Slot?
    case Outcome => loc.Flag?
  }

  /** Mapped registers are owned by the name that is mapped to them, or by none; owners
      are among those held. */
  ghost predicate Tidy(st: Store, held: set<Name>) {
    Coherent(st) &&
    (forall x | x in st.vmap && st.vmap[x].InReg? ::
       st.cells[st.vmap[x].reg].owner == x || st.cells[st.vmap[x].reg].owner == "") &&
    (forall r: Register | st.cells[r].owner != "" :: st.cells[r].owner in held)
  }

  /** The state has the shape, but for names in gone, which may have lost their register. */
  ghost predicate Shaped(st: Store, params: seq<(Name, Size)>, sh: Shape, gone: set<Name>) {
    st.vmap.Keys == sh.kinds.Keys && Tidy(st, sh.held) && (forall x | x in sh.kinds :: UserName(x)) &&
    forall x | x in sh.kinds && x !in gone :: Located(st, params, sh, x)
  }

  lemma HomeIsParam(params: seq<(Name, Size)>, x: Name, r: Register)
    requires Home(params, x, r)
    ensures IsParamRegister(r)
  {
  }

  /** Under low pressure a search finds rax, rbx or rcx. */
  lemma LowFree(st: Store, held: set<Name>)
    requires Tidy(st, held) && LowPressure(held)
    ensures FirstFree(st.cells, 0).Some? && FirstFree(st.cells, 0).value <= 2
  {
    if st.cells[0].owner != "" && st.cells[1].owner != "" && st.cells[2].owner != "" {
      var three := {st.cells[0].owner, st.cells[1].owner, st.cells[2].owner};
      assert st.vmap[st.cells[0].owner] == InReg(0) && st.vmap[st.cells[1].owner] == InReg(1) &&
             st.vmap[st.cells[2].owner] == InReg(2);
      assert |three| == 3;
      assert three <= held;
      SubsetSmaller(three, held);
    }
  }

  lemma {:induction false} SubsetSmaller<T>(a: set<T>, b: set<T>)
    requires a <= b
    ensures |a| <= |b|
  {
    if a != {} {
      var x :| x in a;
      SubsetSmaller(a - {x}, b - {x});
    }
  }

  /** A register without owner that is no parameter's is no located name's. */
  lemma FreeUnneeded(st: Store, params: seq<(Name, Size)>, sh: Shape, gone: set<Name>, need: set<Name>, r: Register)
    requires Shaped(st, params, sh, gone) && need !! gone && st.cells[r].owner == "" && !IsParamRegister(r)
    ensures Unneeded(st, need, r)
  {
    forall x | x in need && x in st.vmap ensures st.vmap[x] != InReg(r) {
      assert Located(st, params, sh, x);
      if st.vmap[x] == InReg(r) && x !in sh.held {
        HomeIsParam(params, x, r);
      }
    }
  }

  // Settling

  /** Registers lose the owners in xs, and nothing else changes in them. */
  ghost predicate Freed(st: Store, st1: Store, xs: seq<Name>) {
    (forall r: Register :: st1.cells[r].size == st.cells[r].size) &&
    (forall r: Register :: st1.cells[r].owner == if st.cells[r].owner in xs then "" else st.cells[r].owner)
  }

  lemma {:induction false} DropAllFrees(st: Store, xs: seq<Name>, held: set<Name>)
    requires Tidy(st, held)
    ensures Tidy(DropAll(st, xs), held) && Freed(st, DropAll(st, xs), xs) && DropAll(st, xs).vmap == st.vmap
    decreases |xs|
  {
    if xs != [] {
      DropAllFrees(DropOwnership(st, xs[0]), xs[1..], held);
    }
  }

  lemma {:induction false} EraseAllFrees(st: Store, xs: seq<Name>, held: set<Name>)
    requires Tidy(st, held)
    ensures Tidy(EraseAll(st, xs), held) && Freed(st, EraseAll(st, xs), xs)
    ensures forall x :: x in EraseAll(st, xs).vmap <==> x in st.vmap && x !in xs
    ensures forall x | x in EraseAll(st, xs).vmap :: EraseAll(st, xs).vmap[x] == st.vmap[x]
    decreases |xs|
  {
    if xs != [] {
      EraseAllFrees(EraseValue(st, xs[0]), xs[1..], held);
    }
  }

  lemma PendingAre(inst: Inst, stay: set<Name>)
    requires Flagged(inst, stay)
    ensures forall x :: x in Pending(inst.operands, inst.dropped) <==> x in Gone(inst, stay)
  {
    PendingNames(inst.operands, inst.dropped);
    forall x | x in Gone(inst, stay) ensures x in Pending(inst.operands, inst.dropped) {
      var v :| v in inst.operands && v.Var? && v.name == x;
      var k :| 0 <= k < |inst.operands| && inst.operands[k] == v;
      assert inst.dropped[k];
    }
    forall x | x in Pending(inst.operands, inst.dropped) ensures x in Gone(inst, stay) {
      var k :| 0 <= k < |inst.operands| && inst.dropped[k] && inst.operands[k].Var? && inst.operands[k].name == x;
      OperandUse(inst, k);
    }
  }

  lemma {:induction false} PendingNames(ops: seq<Value>, dropped: seq<bool>)
    requires |dropped| == |ops|
    ensures forall x | x in Pending(ops, dropped) :: exists k | 0 <= k < |ops| ::
              dropped[k] && ops[k].Var? && ops[k].name == x
    ensures forall k | 0 <= k < |ops| && dropped[k] && ops[k].Var? :: ops[k].name in Pending(ops, dropped)
  {
    if ops != [] {
      PendingNames(ops[1..], dropped[1..]);
      forall x | x in Pending(ops, dropped)
        ensures exists k | 0 <= k < |ops| :: dropped[k] && ops[k].Var? && ops[k].name == x
      {
        if x in Pending(ops[1..], dropped[1..]) {
          var k :| 0 <= k < |ops| - 1 && dropped[1..][k] && ops[1..][k].Var? && ops[1..][k].name == x;
          assert dropped[k + 1] && ops[k + 1].name == x;
        }
      }
      forall k | 0 <= k < |ops| && dropped[k] && ops[k].Var? ensures ops[k].name in Pending(ops, dropped) {
        if k > 0 {
          assert dropped[1..][k - 1] && ops[1..][k - 1] == ops[k];
        }
      }
    }
  }

  lemma CleanKeeps(st: Store, held: set<Name>)
    requires Tidy(st, held) && forall x | x in st.vmap :: UserName(x)
    ensures Tidy(CleanTemps(st), held) && Freed(st, CleanTemps(st), []) && CleanTemps(st).vmap == st.vmap
  {
    forall r: Register ensures CleanTemps(st).cells[r].owner == st.cells[r].owner {
      assert CleanTemps(st).cells[r] == CleanCell(st.cells[r]);
      if st.cells[r].owner == "" {
        assert !IsTemp("");
      }
    }
  }

  /** The state in which an instruction is lowered. */
  lemma StartShaped(st: Store, params: seq<(Name, Size)>, sh: Shape, inst: Inst, stay: set<Name>)
    requires Shaped(st, params, sh, {}) && Flagged(inst, stay)
    ensures var at := Start(st, inst);
            Shaped(at, params, sh, Gone(inst, stay)) && at.vmap == st.vmap &&
              (AutoDrop(inst.op) ==> Tidy(at, sh.held - Gone(inst, stay)))
  {
    var pending := Pending(inst.operands, inst.dropped);
    PendingAre(inst, stay);
    DropAllFrees(st, pending, sh.held);
    FreedShaped(st, Start(st, inst), params, sh, pending, Gone(inst, stay));
  }

  lemma FreedShaped(st: Store, st1: Store, params: seq<(Name, Size)>, sh: Shape, xs: seq<Name>, gone: set<Name>)
    requires Shaped(st, params, sh, gone) && Tidy(st1, sh.held) && st1.vmap == st.vmap &&
             (st1 == st || Freed(st, st1, xs)) && forall x | x in xs :: x in gone
    ensures Shaped(st1, params, sh, gone)
  {
  }

  /** A location for a result of a kind: no other name's. */
  ghost predicate Fitting(st: Store, sh: Shape, gone: set<Name>, loc: Loc, kind: Kind) {
    match kind
    case InRegister =>
      loc.InReg? && st.cells[loc.reg].size == I64 && forall x | x in st.vmap && x !in gone :: st.vmap[x] != loc
    case Pointer => loc.Slot?
    case Outcome => loc.Flag?
  }

  function Without(sh: Shape, gone: set<Name>): Shape {
    Shape(sh.kinds - gone, sh.held - gone)
  }

  lemma ErasedShaped(st: Store, params: seq<(Name, Size)>, sh: Shape, xs: seq<Name>, gone: set<Name>)
    requires Shaped(st, params, sh, gone) && forall x :: x in xs <==> x in gone
    ensures Shaped(EraseAll(st, xs), params, Without(sh, gone), {})
    ensures forall x | x in EraseAll(st, xs).vmap ::
              x in st.vmap && x !in gone && EraseAll(st, xs).vmap[x] == st.vmap[x]
    ensures forall r: Register :: EraseAll(st, xs).cells[r].size == st.cells[r].size
  {
    hide EraseAll, Coherent;
    EraseAllFrees(st, xs, sh.held);
    var st1, sh1 := EraseAll(st, xs), Without(sh, gone);
    assert Tidy(st1, sh1.held);
    assert st1.vmap.Keys == sh1.kinds.Keys;
    forall x | x in sh1.kinds ensures UserName(x) && Located(st1, params, sh1, x) {
      assert Located(st, params, sh, x);
    }
  }

  lemma CleanShaped(st: Store, params: seq<(Name, Size)>, sh: Shape)
    requires Shaped(st, params, sh, {})
    ensures Shaped(CleanTemps(st), params, sh, {}) && CleanTemps(st).vmap == st.vmap
    ensures forall r: Register :: CleanTemps(st).cells[r].size == st.cells[r].size
  {
    hide CleanTemps;
    CleanKeeps(st, sh.held);
    forall x | x in sh.kinds ensures Located(CleanTemps(st), params, sh, x) {
      assert Located(st, params, sh, x);
    }
  }

  lemma MapShaped(st: Store, params: seq<(Name, Size)>, sh: Shape, x: Name, loc: Loc, kind: Kind)
    requires Shaped(st, params, sh, {}) && UserName(x) && x !in sh.kinds && Fitting(st, sh, {}, loc, kind)
    ensures Shaped(MapValue(st, x, loc), params,
                   Shape(sh.kinds[x := kind], if kind == InRegister then sh.held + {x} else sh.held), {})
  {
    var st1 := MapValue(st, x, loc);
    var sh1 := Shape(sh.kinds[x := kind], if kind == InRegister then sh.held + {x} else sh.held);
    if loc.InReg? {
      FreeOfOwner(st, params, sh, loc.reg);
    }
    assert Tidy(st1, sh1.held);
    forall y | y in sh1.kinds ensures Located(st1, params, sh1, y) {
      if y != x {
        assert Located(st, params, sh, y);
        HeldKept(st, params, sh, x, y);
      }
    }
  }

  /** A register that no name is in has no owner. */
  lemma FreeOfOwner(st: Store, params: seq<(Name, Size)>, sh: Shape, r: Register)
    requires Shaped(st, params, sh, {}) && forall x | x in st.vmap :: st.vmap[x] != InReg(r)
    ensures st.cells[r].owner == ""
  {
  }

  lemma HeldKept(st: Store, params: seq<(Name, Size)>, sh: Shape, x: Name, y: Name)
    requires x != y
    ensures y in sh.held + {x} <==> y in sh.held
  {
  }

  lemma FittingLater(st: Store, st1: Store, sh: Shape, sh1: Shape, gone: set<Name>, loc: Loc, kind: Kind)
    requires Fitting(st, sh, gone, loc, kind)
    requires forall x | x in st1.vmap :: x in st.vmap && x !in gone && st1.vmap[x] == st.vmap[x]
    requires forall r: Register :: st1.cells[r].size == st.cells[r].size
    ensures Fitting(st1, sh1, {}, loc, kind)
  {
  }

  /** The end of an instruction leaves a state of the shape after it. */
  lemma SettleShaped(st: Store, params: seq<(Name, Size)>, sh: Shape, inst: Inst, stay: set<Name>, dest: Option<Loc>)
    requires Flagged(inst, stay) && Shaped(st, params, sh, Gone(inst, stay))
    requires dest.Some? <==> ResultKind(inst.op).Some?
    requires inst.result.Some? ==>
               dest.Some? && UserName(inst.result.value) && inst.result.value !in sh.kinds &&
               Fitting(st, sh, Gone(inst, stay), dest.value, ResultKind(inst.op).value)
    ensures Shaped(Settle(st, inst, Pending(inst.operands, inst.dropped), dest), params, After(sh, inst, stay), {})
    ensures forall x | x in stay && x in st.vmap ::
              var st1 := Settle(st, inst, Pending(inst.operands, inst.dropped), dest);
              x in st1.vmap && st1.vmap[x] == st.vmap[x]
  {
    hide Shaped, DropAll, EraseAll, CleanTemps, Fitting, ResultKind;
    var pending, gone := Pending(inst.operands, inst.dropped), Gone(inst, stay);
    PendingAre(inst, stay);
    var st1 := if AutoDrop(inst.op) then st else DropAll(st, pending);
    DroppedShaped(st, params, sh, pending, gone);
    ErasedShaped(st1, params, sh, pending, gone);
    var st2 := EraseAll(st1, pending);
    CleanShaped(st2, params, Without(sh, gone));
    var st3 := CleanTemps(st2);
    ErasedNames(st1, params, sh, pending);
    if inst.result.Some? {
      var x := inst.result.value;
      FittingLater(st, st3, sh, Without(sh, gone), gone, dest.value, ResultKind(inst.op).value);
      MapShaped(st3, params, Without(sh, gone), x, dest.value, ResultKind(inst.op).value);
      ShapedKeys(st, params, sh, gone);
    }
  }

  lemma ShapedKeys(st: Store, params: seq<(Name, Size)>, sh: Shape, gone: set<Name>)
    requires Shaped(st, params, sh, gone)
    ensures st.vmap.Keys == sh.kinds.Keys
  {
  }

  lemma ErasedNames(st: Store, params: seq<(Name, Size)>, sh: Shape, xs: seq<Name>)
    requires exists gone :: Shaped(st, params, sh, gone)
    ensures forall x | x in st.vmap && x !in xs :: x in EraseAll(st, xs).vmap && EraseAll(st, xs).vmap[x] == st.vmap[x]
  {
    EraseAllFrees(st, xs, sh.held);
  }

  lemma DroppedShaped(st: Store, params: seq<(Name, Size)>, sh: Shape, xs: seq<Name>, gone: set<Name>)
    requires Shaped(st, params, sh, gone) && forall x | x in xs :: x in gone
    ensures Shaped(DropAll(st, xs), params, sh, gone) && DropAll(st, xs).vmap == st.vmap
    ensures forall r: Register :: DropAll(st, xs).cells[r].size == st.cells[r].size
  {
    DropAllFrees(st, xs, sh.held);
    FreedShaped(st, DropAll(st, xs), params, sh, xs, gone);
  }

  // Lowering

  /** The state an instruction is lowered in differs only in lost owners. */
  ghost predicate Alike(st: Store, at: Store) {
    at.vmap == st.vmap && at.frame == st.frame && forall r: Register :: at.cells[r].size == st.cells[r].size
  }

  lemma StartAlike(st: Store, params: seq<(Name, Size)>, sh: Shape, inst: Inst, stay: set<Name>)
    requires Shaped(st, params, sh, {}) && Flagged(inst, stay)
    ensures Alike(st, Start(st, inst))
  {
    var pending := Pending(inst.operands, inst.dropped);
    DropAllFrees(st, pending, sh.held);
    DropAllFrame(st, pending);
  }

  lemma {:induction false} DropAllFrame(st: Store, xs: seq<Name>)
    ensures DropAll(st, xs).frame == st.frame
    decreases |xs|
  {
    if xs != [] {
      DropAllFrame(DropOwnership(st, xs[0]), xs[1..]);
    }
  }

  /** An integer operand is a literal or in a register of eight bytes. */
  lemma IntAt(globals: set<Name>, st: Store, at: Store, params: seq<(Name, Size)>, sh: Shape, v: Value)
    requires Shaped(st, params, sh, {}) && Alike(st, at) && IsInt(sh, v)
    ensures ValueSize(globals, at, v) == Ok(I64) && ValueOperand(globals, at, v).Ok?
    ensures v.Var? ==> RegisterOf(at, v).Some?
    ensures !InSlot(at, v)
  {
    if v.Var? {
      assert Located(st, params, sh, v.name);
    }
  }

  /** What lowering an instruction gives: a state of the shape, and a fitting result. */
  ghost predicate Lowerable(cx: Context, st: Store, params: seq<(Name, Size)>, sh: Shape, inst: Inst, stay: set<Name>)
    requires |inst.dropped| == |inst.operands|
  {
    var r := LowerOp(cx, Start(st, inst), inst);
    r.Ok? && Shaped(r.value.st, params, sh, Gone(inst, stay)) && (r.value.dest.Some? <==> ResultKind(inst.op).Some?) &&
    (r.value.dest.Some? && inst.result.Some? ==>
     Fitting(r.value.st, sh, Gone(inst, stay), r.value.dest.value, ResultKind(inst.op).value))
  }

  lemma OutcomeFree(st: Store, at: Store, params: seq<(Name, Size)>, sh: Shape, need: set<Name>)
    requires Shaped(st, params, sh, {}) && Alike(st, at) && NoOutcomes(sh, need)
    ensures FlagsFree(at, need)
  {
    forall x | x in need && x in at.vmap ensures !at.vmap[x].Flag? {
      assert Located(st, params, sh, x);
    }
  }

  lemma PlainLowers(cx: Context, st: Store, params: seq<(Name, Size)>, sh: Shape, f: Function, inst: Inst,
                    stay: set<Name>)
    requires Shaped(st, params, sh, {}) && Flagged(inst, stay) && OpAdmissible(f, sh, inst, stay)
    requires inst.op.Allocate? || inst.op.Store? || inst.op.Icmp?
    ensures Lowerable(cx, st, params, sh, inst, stay) && LowerOp(cx, Start(st, inst), inst).value.st.vmap == st.vmap &&
            StepSafe(cx, st, inst, stay)
  {
    hide Shaped, DropAll;
    var at := Start(st, inst);
    StartShaped(st, params, sh, inst, stay);
    StartAlike(st, params, sh, inst, stay);
    if inst.op.Allocate? {
      FrameShaped(at, LowerOp(cx, at, inst).value.st, params, sh, Gone(inst, stay));
    } else if inst.op.Store? {
      PointerAt(cx.globals, st, at, params, sh, inst.operands[0]);
      IntAt(cx.globals, st, at, params, sh, inst.operands[1]);
    } else {
      IntAt(cx.globals, st, at, params, sh, inst.operands[0]);
      IntAt(cx.globals, st, at, params, sh, inst.operands[1]);
      OutcomeFree(st, at, params, sh, stay);
    }
  }

  lemma FrameShaped(st: Store, st1: Store, params: seq<(Name, Size)>, sh: Shape, gone: set<Name>)
    requires Shaped(st, params, sh, gone) && st1.cells == st.cells && st1.vmap == st.vmap
    ensures Shaped(st1, params, sh, gone)
  {
  }

  lemma PointerAt(globals: set<Name>, st: Store, at: Store, params: seq<(Name, Size)>, sh: Shape, v: Value)
    requires Shaped(st, params, sh, {}) && at.vmap == st.vmap && IsKind(sh, v, Pointer)
    ensures v.name in at.vmap && at.vmap[v.name].Slot? && Lookup(globals, at, v.name) == Ok(at.vmap[v.name])
  {
    assert Located(st, params, sh, v.name);
  }

  lemma OutcomeAt(st: Store, at: Store, params: seq<(Name, Size)>, sh: Shape, v: Value, cx: Context)
    requires Shaped(st, params, sh, {}) && at.vmap == st.vmap && IsKind(sh, v, Outcome)
    ensures ConditionOf(cx, at, v).Ok?
  {
    assert Located(st, params, sh, v.name);
  }

  /** A register that a search found, taken for the result. */
  lemma TakenShaped(st: Store, params: seq<(Name, Size)>, sh: Shape, gone: set<Name>, h: Register, size: Size)
    requires Shaped(st, params, sh, gone) && st.cells[h].owner == "" && !IsParamRegister(h)
    ensures Shaped(GetRegister(st, h, size), params, sh, gone)
    ensures size == I64 ==> Fitting(GetRegister(st, h, size), sh, gone, InReg(h), InRegister)
    ensures GetRegister(st, h, size).vmap == st.vmap
  {
    var st1 := GetRegister(st, h, size);
    forall x | x in sh.kinds && x !in gone ensures Located(st1, params, sh, x) && st.vmap[x] != InReg(h) {
      assert Located(st, params, sh, x);
      if st.vmap[x] == InReg(h) && x !in sh.held {
        HomeIsParam(params, x, h);
      }
    }
  }

  lemma LoadLowers(cx: Context, st: Store, params: seq<(Name, Size)>, sh: Shape, f: Function, inst: Inst,
                   stay: set<Name>)
    requires Shaped(st, params, sh, {}) && Flagged(inst, stay) && OpAdmissible(f, sh, inst, stay) && inst.op.Load?
    ensures Lowerable(cx, st, params, sh, inst, stay) && LowerOp(cx, Start(st, inst), inst).value.st.vmap == st.vmap &&
            StepSafe(cx, st, inst, stay)
  {
    hide Shaped, DropAll, Fitting, FirstFree, GetRegister, LowerOp, Tidy, Lookup;
    var at, gone := Start(st, inst), Gone(inst, stay);
    StartShaped(st, params, sh, inst, stay);
    StartAlike(st, params, sh, inst, stay);
    LowFree(at, sh.held - gone);
    var h := FirstFree(at.cells, 0).value;
    FreeUnneeded(at, params, sh, gone, stay, h);
    TakenShaped(at, params, sh, gone, h, I64);
    PointerAt(cx.globals, st, GetRegister(at, h, I64), params, sh, inst.operands[0]);
    LoadIs(cx, at, inst, h);
  }

  lemma LoadIs(cx: Context, st: Store, inst: Inst, h: Register)
    requires inst.op.Load? && |inst.operands| == 1 && FirstFree(st.cells, 0) == Some(h)
    requires inst.operands[0].Var?
    requires var found := Lookup(cx.globals, GetRegister(st, h, inst.op.size), inst.operands[0].name);
               found.Ok? && found.value.Slot?
    ensures LowerOp(cx, st, inst).Ok? && LowerOp(cx, st, inst).value.st == GetRegister(st, h, inst.op.size) &&
            LowerOp(cx, st, inst).value.dest == Some(InReg(h))
  {
    hide GetRegister, Lookup;
  }

  lemma ArithLowersShaped(cx: Context, st: Store, params: seq<(Name, Size)>, sh: Shape, f: Function, inst: Inst,
                          stay: set<Name>)
    requires Shaped(st, params, sh, {}) && Flagged(inst, stay) && OpAdmissible(f, sh, inst, stay) && inst.op.Arith?
    ensures Lowerable(cx, st, params, sh, inst, stay) && LowerOp(cx, Start(st, inst), inst).value.st.vmap == st.vmap &&
            StepSafe(cx, st, inst, stay)
  {
    hide Shaped, Fitting, EnsureInRegister, Tidy, FlagsFree;
    var ops := inst.operands;
    StartShaped(st, params, sh, inst, stay);
    StartAlike(st, params, sh, inst, stay);
    IntAt(cx.globals, st, st, params, sh, ops[0]);
    IntAt(cx.globals, st, st, params, sh, ops[1]);
    OutcomeFree(st, st, params, sh, stay);
    var dom := if ops[0].Var? then ops[0] else ops[1];
    EnsureHas(cx.globals, st, ops[1]);
    OperandUse(inst, if ops[0].Var? then 0 else 1);
    DominatorFits(st, params, sh, inst, stay, dom.name);
  }

  lemma EnsureHas(globals: set<Name>, st: Store, v: Value)
    ensures RegisterOf(st, v).Some? ==> EnsureInRegister(globals, st, v) == Ok((Emit(st, []), v))
  {
  }

  /** The register of a name used for the last time fits the result. */
  lemma DominatorFits(st: Store, params: seq<(Name, Size)>, sh: Shape, inst: Inst, stay: set<Name>, x: Name)
    requires Shaped(st, params, sh, {}) && x in Gone(inst, stay) && x in sh.kinds && sh.kinds[x] == InRegister
    ensures Fitting(st, sh, Gone(inst, stay), st.vmap[x], InRegister)
  {
    assert Located(st, params, sh, x);
    forall y | y in st.vmap && y !in Gone(inst, stay) ensures st.vmap[y] != st.vmap[x] {
      assert Located(st, params, sh, y);
      if st.vmap[y] == st.vmap[x] {
        SameHome(params, x, y, st.vmap[x].reg, st, sh);
      }
    }
  }

  /** Two names are not in one register. */
  lemma SameHome(params: seq<(Name, Size)>, x: Name, y: Name, r: Register, st: Store, sh: Shape)
    requires x in sh.kinds && y in sh.kinds && x in st.vmap && y in st.vmap && Located(st, params, sh, x) &&
             Located(st, params, sh, y)
    requires st.vmap[x] == InReg(r) && st.vmap[y] == InReg(r) && (forall z | z in sh.kinds :: UserName(z))
    requires sh.kinds[x] == InRegister && sh.kinds[y] == InRegister
    ensures x == y
  {
    if x !in sh.held && y !in sh.held {
      var i :| 0 <= i < |params| && i < MAX_ARGS && params[i].0 == x && ParamRegister(i) == r;
      var j :| 0 <= j < |params| && j < MAX_ARGS && params[j].0 == y && ParamRegister(j) == r;
      if i < j {
        ArgRegistersDistinct(j, i);
      } else if j < i {
        ArgRegistersDistinct(i, j);
      }
    }
  }

  lemma SelectLowersShaped(cx: Context, st: Store, params: seq<(Name, Size)>, sh: Shape, f: Function, inst: Inst,
                           stay: set<Name>)
    requires Shaped(st, params, sh, {}) && Flagged(inst, stay) && OpAdmissible(f, sh, inst, stay) && inst.op.Select?
    ensures Lowerable(cx, st, params, sh, inst, stay) && LowerOp(cx, Start(st, inst), inst).value.st.vmap == st.vmap &&
            StepSafe(cx, st, inst, stay)
  {
    hide Shaped, Fitting, FirstFree, GetRegister, LowerOp, Tidy, IsInt, ConditionOf;
    var ops := inst.operands;
    StartShaped(st, params, sh, inst, stay);
    OutcomeAt(st, st, params, sh, ops[0], cx);
    IntAt(cx.globals, st, st, params, sh, ops[1]);
    IntAt(cx.globals, st, st, params, sh, ops[2]);
    ShapedTidy(st, params, sh, {});
    LowFree(st, sh.held);
    var h := FirstFree(st.cells, 0).value;
    FreeUnneeded(st, params, sh, {}, stay + Uses(inst), h);
    TakenShaped(st, params, sh, Gone(inst, stay), h, I64);
    TakenReads(cx.globals, st, params, sh, h, ops[1]);
    TakenReads(cx.globals, st, params, sh, h, ops[2]);
    SelectIs(cx, st, inst, h);
  }

  lemma ShapedTidy(st: Store, params: seq<(Name, Size)>, sh: Shape, gone: set<Name>)
    requires Shaped(st, params, sh, gone)
    ensures Tidy(st, sh.held)
  {
  }

  lemma TakenReads(globals: set<Name>, st: Store, params: seq<(Name, Size)>, sh: Shape, h: Register, v: Value)
    requires Shaped(st, params, sh, {}) && IsInt(sh, v)
    ensures ValueOperand(globals, GetRegister(st, h, I64), v).Ok?
  {
    if v.Var? {
      assert Located(st, params, sh, v.name);
    }
  }

  lemma SelectIs(cx: Context, st: Store, inst: Inst, h: Register)
    requires inst.op.Select? && |inst.operands| == 3 && FirstFree(st.cells, 0) == Some(h) &&
             ConditionOf(cx, st, inst.operands[0]).Ok?
    requires ValueSize(cx.globals, st, inst.operands[1]) == Ok(I64) == ValueSize(cx.globals, st, inst.operands[2]) &&
             inst.operands[1].Var?
    requires ValueOperand(cx.globals, GetRegister(st, h, I64), inst.operands[1]).Ok? &&
             ValueOperand(cx.globals, GetRegister(st, h, I64), inst.operands[2]).Ok?
    ensures LowerOp(cx, st, inst).Ok? && LowerOp(cx, st, inst).value.st == GetRegister(st, h, I64) &&
            LowerOp(cx, st, inst).value.dest == Some(InReg(h))
  {
    hide GetRegister, ValueOperand, ValueSize, ConditionOf;
  }

  lemma TerminatorLowersShaped(cx: Context, st: Store, params: seq<(Name, Size)>, sh: Shape, f: Function, inst: Inst,
                               stay: set<Name>)
    requires Shaped(st, params, sh, {}) && Flagged(inst, stay) && OpAdmissible(f, sh, inst, stay) &&
             IsTerminator(inst.op) && cx.returnType == f.returnType
    ensures Lowerable(cx, st, params, sh, inst, stay) && LowerOp(cx, Start(st, inst), inst).value.st.vmap == st.vmap
    ensures inst.op.Ret? ==>
              inst.operands == [] ||
              (|inst.operands| == 1 && ValueSize(cx.globals, Start(st, inst), inst.operands[0]) == Ok(I64))
  {
    hide Shaped, Fitting, DropAll, ConditionOf, ValueSize, ValueOperand, IsInt;
    StartShaped(st, params, sh, inst, stay);
    StartAlike(st, params, sh, inst, stay);
    if inst.op.Branch? {
      OutcomeAt(st, Start(st, inst), params, sh, inst.operands[0], cx);
    } else if inst.op.Ret? && inst.operands != [] {
      IntAt(cx.globals, st, Start(st, inst), params, sh, inst.operands[0]);
    }
  }

  // Calls

  lemma RemapSizes(st: Store, x: Name, loc: Loc)
    ensures forall r: Register :: RemapValue(st, x, loc).cells[r].size == st.cells[r].size
  {
  }

  /** The owner of a register, located. */
  lemma OwnerLocated(st: Store, params: seq<(Name, Size)>, sh: Shape, r: Register)
    requires Shaped(st, params, sh, {}) && st.cells[r].owner != ""
    ensures var x := st.cells[r].owner;
            x in sh.kinds && x in st.vmap && sh.kinds[x] == InRegister && x in sh.held && st.vmap[x] == InReg(r) &&
              st.cells[r].size == I64
  {
    assert Located(st, params, sh, st.cells[r].owner);
  }

  lemma MovedShaped(st: Store, st1: Store, params: seq<(Name, Size)>, sh: Shape, r: Register, h: Register)
    requires Shaped(st, params, sh, {}) && st.cells[r].owner != "" && !IsParamRegister(h)
    requires Moved(st, st1, st.cells[r].owner, r, InReg(h)) && st1.cells[h].size == I64
    ensures Shaped(st1, params, sh, {})
  {
    var x := st.cells[r].owner;
    OwnerLocated(st, params, sh, r);
    forall y | y in sh.kinds ensures Located(st1, params, sh, y) &&
      (y != x ==> st.vmap[y] != InReg(h) && st.vmap[y] != InReg(r)) {
      assert Located(st, params, sh, y);
      if y != x && st.vmap[y].InReg? {
        if y !in sh.held {
          HomeIsParam(params, y, st.vmap[y].reg);
        }
        assert st.vmap[y] != InReg(r) && st.vmap[y] != InReg(h);
      }
    }
  }

  /** Vacating a register under low pressure. */
  lemma EmptyShaped(globals: set<Name>, st: Store, params: seq<(Name, Size)>, sh: Shape, r: Register)
    requires Shaped(st, params, sh, {}) && LowPressure(sh.held)
    ensures EmptyRegister(globals, st, r).Ok?
    ensures var st1 := EmptyRegister(globals, st, r).value.st; Shaped(st1, params, sh, {}) && st1.cells[r].owner == ""
  {
    if st.cells[r].owner != "" {
      hide Shaped, Moved, RemapValue, FirstFree, Tidy, LowPressure;
      var x := st.cells[r].owner;
      OwnerLocated(st, params, sh, r);
      ShapedTidy(st, params, sh, {});
      LowFree(st, sh.held);
      var h := FirstFree(st.cells, 0).value;
      var st1 := GetRegister(st, h, I64);
      TidyCoherent(st, sh.held);
      RemapMoves(st, st1, x, r, InReg(h));
      RemapSizes(st1, x, InReg(h));
      MovedShaped(st, RemapValue(st1, x, InReg(h)), params, sh, r, h);
      MovedOwner(st, RemapValue(st1, x, InReg(h)), x, r, InReg(h));
    }
  }

  lemma TidyCoherent(st: Store, held: set<Name>)
    requires Tidy(st, held)
    ensures Coherent(st)
  {
  }

  lemma MovedOwner(st: Store, st1: Store, x: Name, r: Register, home: Loc)
    requires Moved(st, st1, x, r, home)
    ensures st1.cells[r].owner == ""
  {
  }

  /** A vacated value finds a home that is no argument register. */
  lemma HomeSafe(st: Store, params: seq<(Name, Size)>, sh: Shape, need: set<Name>, n: nat)
    requires Shaped(st, params, sh, {}) && LowPressure(sh.held)
    ensures SafeHome(st, need, ArgRegisters(n))
  {
    ShapedTidy(st, params, sh, {});
    LowFree(st, sh.held);
    var h := FirstFree(st.cells, 0).value;
    assert need !! {};
    FreeUnneeded(st, params, sh, {}, need, h);
  }

  /** What is left in an argument register that has no owner is its parameter. */
  lemma InPlace(st: Store, params: seq<(Name, Size)>, sh: Shape, x: Name, i: nat)
    requires Shaped(st, params, sh, {}) && i < MAX_ARGS && st.cells[ParamRegister(i)].owner == ""
    requires x in st.vmap && st.vmap[x] == InReg(ParamRegister(i))
    ensures i < |params| && params[i].0 == x && x in sh.kinds && x !in sh.held
  {
    assert Located(st, params, sh, x);
    assert Home(params, x, ParamRegister(i));
    var j :| 0 <= j < |params| && j < MAX_ARGS && params[j].0 == x && ParamRegister(j) == ParamRegister(i);
    if i < j {
      ArgRegistersDistinct(j, i);
    } else if j < i {
      ArgRegistersDistinct(i, j);
    }
  }

  lemma ArgIsSafe(st: Store, params: seq<(Name, Size)>, sh: Shape, ops: seq<Value>, i: nat, stay: set<Name>)
    requires Shaped(st, params, sh, {}) && LowPressure(sh.held) && i < |ops| <= MAX_ARGS &&
             ParamsClear(params, sh, ops, stay)
    ensures ArgSafe(st, ops[i], i, stay + VarNames(ops), stay + VarNames(ops[i + 1..]), stay)
  {
    hide Shaped, SafeHome, LowPressure;
    HomeSafe(st, params, sh, stay + VarNames(ops), i);
    var p := ParamRegister(i);
    if st.cells[p].owner == "" {
      forall x | x in stay + VarNames(ops[i + 1..]) && x in st.vmap && st.vmap[x] == InReg(p)
        ensures ops[i].Var? && ops[i].name == x && x !in stay
      {
        InPlace(st, params, sh, x, i);
      }
    }
  }

  lemma ArgLowersShaped(cx: Context, st: Store, params: seq<(Name, Size)>, sh: Shape, v: Value, dropped: bool,
                        r: Register)
    requires Shaped(st, params, sh, {}) && LowPressure(sh.held) && IsInt(sh, v)
    ensures LowerArg(cx, st, v, dropped, r).Ok? && Shaped(LowerArg(cx, st, v, dropped, r).value.st, params, sh, {})
  {
    hide Shaped, EmptyRegister, LowPressure;
    EmptyShaped(cx.globals, st, params, sh, r);
    var st1 := EmptyRegister(cx.globals, st, r).value.st;
    IntAt(cx.globals, st1, st1, params, sh, v) by { AlikeSelf(st1); }
  }

  lemma AlikeSelf(st: Store)
    ensures Alike(st, st)
  {
  }

  lemma {:induction false} ArgsLowerShaped(cx: Context, st: Store, params: seq<(Name, Size)>, sh: Shape,
                                           ops: seq<Value>, dropped: seq<bool>, i: nat, stay: set<Name>)
    requires Shaped(st, params, sh, {}) && LowPressure(sh.held) && AllInts(sh, ops) && |dropped| == |ops| <= MAX_ARGS &&
             i <= |ops| && ParamsClear(params, sh, ops, stay)
    ensures ArgsSafe(cx, st, ops, dropped, i, stay)
    ensures LowerArgs(cx, st, ops, dropped, i).Ok? &&
            Shaped(LowerArgs(cx, st, ops, dropped, i).value.st, params, sh, {})
    decreases |ops| - i
  {
    hide Shaped, LowerArg, ArgSafe, LowPressure, IsInt, ParamsClear;
    if i < |ops| {
      ArgIsSafe(st, params, sh, ops, i, stay);
      ArgLowersShaped(cx, st, params, sh, ops[i], dropped[i], ParamRegister(i));
      ArgsLowerShaped(cx, LowerArg(cx, st, ops[i], dropped[i], ParamRegister(i)).value.st, params, sh, ops, dropped,
                      i + 1, stay);
    }
  }

  lemma CallLowersShaped(cx: Context, st: Store, params: seq<(Name, Size)>, sh: Shape, f: Function, inst: Inst,
                         stay: set<Name>)
    requires Shaped(st, params, sh, {}) && Flagged(inst, stay) && OpAdmissible(f, sh, inst, stay) && inst.op.Call? &&
             params == f.params
    ensures Lowerable(cx, st, params, sh, inst, stay) && CallSafe(cx, st, inst, stay)
  {
    hide Shaped, EmptyRegister, Fitting, LowerArgs, ArgsSafe, GetRegister, FlagsFree, SafeHome, IsInt, ParamsClear,
         LowPressure;
    var ops := inst.operands;
    AlikeSelf(st);
    OutcomeFree(st, st, params, sh, stay + Uses(inst));
    ArgsLowerShaped(cx, st, params, sh, ops, inst.dropped, 0, stay);
    var args := LowerArgs(cx, st, ops, inst.dropped, 0).value;
    HomeSafe(args.st, params, sh, stay + VarNames(ops), |ops|);
    EmptyShaped(cx.globals, args.st, params, sh, RAX);
    var rax := EmptyRegister(cx.globals, args.st, RAX).value.st;
    ShapedMore(rax, params, sh, Gone(inst, stay));
    TakenShaped(rax, params, sh, Gone(inst, stay), RAX, inst.op.retSize);
  }

  lemma ShapedMore(st: Store, params: seq<(Name, Size)>, sh: Shape, gone: set<Name>)
    requires Shaped(st, params, sh, {})
    ensures Shaped(st, params, sh, gone)
  {
  }

  // Instructions, blocks and functions

  lemma LowerInstIs(cx: Context, st: Store, inst: Inst)
    requires |inst.dropped| == |inst.operands| && LowerOp(cx, Start(st, inst), inst).Ok?
    ensures var low := LowerOp(cx, Start(st, inst), inst).value;
            LowerInst(cx, st, inst) == Ok(Emit(Settle(low.st, inst, Pending(inst.operands, inst.dropped), low.dest),
                                               low.nodes))
  {
    hide LowerOp, Settle, DropAll;
  }

  /** What an admissible instruction needs of the state it is lowered in. */
  ghost predicate Meets(cx: Context, st: Store, inst: Inst, stay: set<Name>)
    requires |inst.dropped| == |inst.operands|
  {
    (inst.op.Call? ==> CallSafe(cx, st, inst, stay)) &&
    (inst.op.Ret? ==>
       inst.operands == [] ||
       (|inst.operands| == 1 && ValueSize(cx.globals, Start(st, inst), inst.operands[0]) == Ok(I64))) &&
    (!inst.op.Call? && !IsTerminator(inst.op) ==> StepSafe(cx, st, inst, stay))
  }

  lemma OpLowersShaped(cx: Context, st: Store, sh: Shape, f: Function, inst: Inst, stay: set<Name>)
    requires Shaped(st, f.params, sh, {}) && Flagged(inst, stay) && OpAdmissible(f, sh, inst, stay) &&
             cx.returnType == f.returnType
    ensures Lowerable(cx, st, f.params, sh, inst, stay) && Meets(cx, st, inst, stay)
    ensures !inst.op.Call? ==> LowerOp(cx, Start(st, inst), inst).value.st.vmap == st.vmap
  {
    hide Shaped, Lowerable, LowerOp, Start, StepSafe, CallSafe, ValueSize;
    if inst.op.Call? {
      CallLowersShaped(cx, st, f.params, sh, f, inst, stay);
    } else if IsTerminator(inst.op) {
      TerminatorLowersShaped(cx, st, f.params, sh, f, inst, stay);
    } else if inst.op.Load? {
      LoadLowers(cx, st, f.params, sh, f, inst, stay);
    } else if inst.op.Arith? {
      ArithLowersShaped(cx, st, f.params, sh, f, inst, stay);
    } else if inst.op.Select? {
      SelectLowersShaped(cx, st, f.params, sh, f, inst, stay);
    } else {
      PlainLowers(cx, st, f.params, sh, f, inst, stay);
    }
  }

  /** An admissible instruction is lowered, and what follows has the shape after it. */
  lemma InstLowersShaped(cx: Context, st: Store, sh: Shape, f: Function, b: nat, inst: Inst, rest: seq<Inst>,
                         stay: set<Name>)
    requires b < |f.blocks| && Shaped(st, f.params, sh, {}) && InstAdmissible(f, b, sh, inst, rest, stay) &&
             cx.returnType == f.returnType
    ensures Meets(cx, st, inst, stay) && LowerInst(cx, st, inst).Ok?
    ensures Shaped(LowerInst(cx, st, inst).value.st, f.params, After(sh, inst, stay), {})
    ensures !inst.op.Call? ==> LocationsAgree(st, LowerInst(cx, st, inst).value.st, stay)
  {
    hide Shaped, LowerOp, Start, OpAdmissible, JumpAdmissible, Meets, Settle, Fitting, ResultKind, LowerInst, After;
    OpLowersShaped(cx, st, sh, f, inst, stay);
    LowerInstIs(cx, st, inst);
    var low := LowerOp(cx, Start(st, inst), inst).value;
    SettleShaped(low.st, f.params, sh, inst, stay, low.dest);
  }

  lemma AgreeThen(st: Store, st1: Store, st2: Store, need: set<Name>, less: set<Name>)
    requires LocationsAgree(st, st1, need) && LocationsAgree(st1, st2, less) && less <= need
    ensures LocationsAgree(st, st2, less)
  {
  }

  lemma AgreeSelf(st: Store, need: set<Name>)
    ensures LocationsAgree(st, st, need)
  {
  }

  lemma NoCallsRest(insts: seq<Inst>)
    requires NoCalls(insts) && insts != []
    ensures NoCalls(insts[1..]) && !insts[0].op.Call?
  {
  }

  lemma {:induction false} InstsLowerShaped(cx: Context, st: Store, sh: Shape, f: Function, b: nat, insts: seq<Inst>)
    requires b < |f.blocks| && Shaped(st, f.params, sh, {}) && InstsAdmissible(f, b, sh, insts) &&
             cx.returnType == f.returnType
    ensures LowerInsts(cx, st, insts).Ok?
    ensures Shaped(LowerInsts(cx, st, insts).value.st, f.params, AfterInsts(sh, insts, NeedFrom(f, b + 1)), {})
    ensures NoCalls(insts) ==> LocationsAgree(st, LowerInsts(cx, st, insts).value.st, NeedFrom(f, b + 1))
    decreases |insts|
  {
    hide Shaped, InstAdmissible, After, LowerInst, LocationsAgree, NoCalls, Meets, NeedFrom;
    if insts == [] {
      AgreeSelf(st, NeedFrom(f, b + 1));
    } else {
      var stay := InstsMention(insts[1..]) + NeedFrom(f, b + 1);
      InstLowersShaped(cx, st, sh, f, b, insts[0], insts[1..], stay);
      var e := LowerInst(cx, st, insts[0]).value;
      InstsLowerShaped(cx, e.st, After(sh, insts[0], stay), f, b, insts[1..]);
      if NoCalls(insts) {
        NoCallsRest(insts);
        AgreeThen(st, e.st, LowerInsts(cx, st, insts).value.st, stay, NeedFrom(f, b + 1));
      }
    }
  }

  lemma ParamLocated(params: seq<(Name, Size)>, i: nat)
    requires |params| <= MAX_ARGS && DistinctParams(params) && i < |params|
    ensures var st, sh, x := PlaceParams(params), Shape(ParamKinds(params), {}), params[i].0;
            UserName(x) && x in st.vmap && (x in sh.kinds ==> Located(st, params, sh, x))
  {
    hide PlaceParams, ParamKinds;
    ParamsPlaced(params);
    ParamKindsAre(params);
    PlacedUnowned(params);
    assert ParamAt(PlaceParams(params), params[i].0, i);
    assert Home(params, params[i].0, ParamRegister(i));
  }

  lemma {:induction false} ParamsShaped(params: seq<(Name, Size)>)
    requires |params| <= MAX_ARGS && DistinctParams(params)
    ensures Shaped(PlaceParams(params), params, Shape(ParamKinds(params), {}), {})
  {
    hide PlaceParams, ParamKinds, Located;
    ParamsApart(params, {});
    ParamKindsAre(params);
    PlacedUnowned(params);
    var st, sh := PlaceParams(params), Shape(ParamKinds(params), {});
    forall x | x in sh.kinds ensures UserName(x) && x in st.vmap && Located(st, params, sh, x) {
      var i :| 0 <= i < |params| && params[i].0 == x;
      ParamLocated(params, i);
    }
    assert st.vmap.Keys == sh.kinds.Keys by { PlacedKeys(params); }
  }

  lemma {:induction false} ParamKindsAre(params: seq<(Name, Size)>)
    ensures forall x | x in ParamKinds(params) :: ParamKinds(params)[x] == InRegister && exists i | 0 <= i < |params| ::
            params[i].0 == x
  {
    if params != [] {
      ParamKindsAre(params[..|params| - 1]);
    }
  }

  lemma {:induction false} PlacedKeys(params: seq<(Name, Size)>)
    requires |params| <= MAX_ARGS
    ensures PlaceParams(params).vmap.Keys == ParamKinds(params).Keys
  {
    if params != [] {
      PlacedKeys(params[..|params| - 1]);
    }
  }

  lemma {:induction false} PlacedUnowned(params: seq<(Name, Size)>)
    requires |params| <= MAX_ARGS
    ensures forall r: Register :: PlaceParams(params).cells[r].owner == ""
    ensures forall x | x in PlaceParams(params).vmap :: PlaceParams(params).vmap[x].InReg?
  {
    if params != [] {
      PlacedUnowned(params[..|params| - 1]);
    }
  }

  lemma BlockStartStep(cx: Context, f: Function, b: nat)
    requires |f.params| <= MAX_ARGS && b < |f.blocks| && BlockStart(cx, f, b).Ok?
    ensures var e := LowerInsts(cx, BlockStart(cx, f, b).value, f.blocks[b].insts);
            e.Ok? ==> BlockStart(cx, f, b + 1) == Ok(e.value.st)
  {
    hide LowerInsts, PlaceParams;
    var st := PlaceParams(f.params);
    assert f.blocks[..b + 1] == f.blocks[..b] + [f.blocks[b]];
    BlocksThen(cx, st, f.blocks[..b], f.blocks[b]);
  }

  lemma {:induction false} BlocksThen(cx: Context, st: Store, blocks: seq<Block>, last: Block)
    requires LowerBlocks(cx, st, blocks).Ok?
    ensures var e := LowerInsts(cx, LowerBlocks(cx, st, blocks).value.0, last.insts);
            e.Ok? ==>
              LowerBlocks(cx, st, blocks + [last]).Ok? &&
              LowerBlocks(cx, st, blocks + [last]).value.0 == e.value.st
    decreases |blocks|
  {
    hide LowerInsts;
    if blocks == [] {
      assert blocks + [last] == [last] && [last][1..] == [];
    } else {
      assert (blocks + [last])[1..] == blocks[1..] + [last] && (blocks + [last])[0] == blocks[0];
      BlocksThen(cx, LowerInsts(cx, st, blocks[0].insts).value.st, blocks[1..], last);
    }
  }

  /** Every block of an admissible function starts in a state of its shape. */
  lemma {:induction false} BlocksShaped(globals: set<Name>, f: Function, b: nat)
    requires FunctionAdmissible(f) && b <= |f.blocks|
    ensures BlockStart(Context(f.returnType, globals), f, b).Ok?
    ensures Shaped(BlockStart(Context(f.returnType, globals), f, b).value, f.params, ShapeAt(f, b), {})
  {
    hide BlockStart, Shaped, LowerInsts, InstsAdmissible, NeedFrom, AfterInsts, DistinctParams, PlaceParams, ParamKinds;
    var cx := Context(f.returnType, globals);
    if b == 0 {
      FirstBlockStart(cx, f);
      ParamsShaped(f.params);
    } else {
      BlocksShaped(globals, f, b - 1);
      InstsLowerShaped(cx, BlockStart(cx, f, b - 1).value, ShapeAt(f, b - 1), f, b - 1, f.blocks[b - 1].insts);
      BlockStartStep(cx, f, b - 1);
    }
  }

  /** Where blocks without calls lie between, needed names stay where they are. */
  lemma {:induction false} BlocksAgree(globals: set<Name>, f: Function, b: nat, t: nat)
    requires FunctionAdmissible(f) && b <= t <= |f.blocks| && forall c | b <= c < t :: NoCalls(f.blocks[c].insts)
    ensures var cx := Context(f.returnType, globals);
            BlockStart(cx, f, b).Ok? && BlockStart(cx, f, t).Ok? &&
            LocationsAgree(BlockStart(cx, f, b).value, BlockStart(cx, f, t).value, NeedFrom(f, t))
    decreases t - b
  {
    hide BlockStart, Shaped, LowerInsts, InstsAdmissible, NeedFrom, AfterInsts, LocationsAgree, NoCalls, DistinctParams,
         ShapeAt;
    var cx := Context(f.returnType, globals);
    BlocksShaped(globals, f, b);
    if b == t {
      AgreeSelf(BlockStart(cx, f, b).value, NeedFrom(f, t));
    } else {
      InstsLowerShaped(cx, BlockStart(cx, f, b).value, ShapeAt(f, b), f, b, f.blocks[b].insts);
      BlockStartStep(cx, f, b);
      BlocksAgree(globals, f, b + 1, t);
      NeedShrinks(f, b + 1, t);
      AgreeThen(BlockStart(cx, f, b).value, BlockStart(cx, f, b + 1).value, BlockStart(cx, f, t).value,
                NeedFrom(f, b + 1), NeedFrom(f, t));
    }
  }

  /** The names in need that are mapped at the start of block b stay where they are up to st,
      if the block has no calls. */
  ghost predicate SinceStart(cx: Context, f: Function, b: nat, st: Store, need: set<Name>)
    requires |f.params| <= MAX_ARGS && b < |f.blocks|
  {
    NoCalls(f.blocks[b].insts) ==>
      BlockStart(cx, f, b).Ok? && LocationsAgree(BlockStart(cx, f, b).value, st, need)
  }

  lemma JumpDown(globals: set<Name>, f: Function, b: nat, st: Store, end: Store, rest: seq<Inst>, t: nat)
    requires FunctionAdmissible(f) && |f.params| <= MAX_ARGS && b < t < |f.blocks|
    requires NoCalls(rest) && forall c | b < c < t :: NoCalls(f.blocks[c].insts)
    requires BlockStart(Context(f.returnType, globals), f, b + 1) == Ok(end)
    requires NoCalls(rest) ==> LocationsAgree(st, end, NeedFrom(f, b + 1))
    ensures BlockStart(Context(f.returnType, globals), f, t).Ok?
    ensures LocationsAgree(st, BlockStart(Context(f.returnType, globals), f, t).value, NeedFrom(f, t))
  {
    hide BlockStart, LowerInsts, FunctionAdmissible, NeedFrom, LocationsAgree, NoCalls;
    var cx := Context(f.returnType, globals);
    BlocksAgree(globals, f, b + 1, t);
    NeedShrinks(f, b + 1, t);
    AgreeThen(st, end, BlockStart(cx, f, t).value, NeedFrom(f, b + 1), NeedFrom(f, t));
  }

  lemma JumpUp(globals: set<Name>, f: Function, b: nat, st: Store, t: nat, stay: set<Name>)
    requires FunctionAdmissible(f) && |f.params| <= MAX_ARGS && t <= b < |f.blocks|
    requires LoopAdmissible(f, t, stay) && forall c | t <= c <= b :: NoCalls(f.blocks[c].insts)
    requires SinceStart(Context(f.returnType, globals), f, b, st, stay) && stay <= NeedFrom(f, b)
    ensures BlockStart(Context(f.returnType, globals), f, t).Ok?
    ensures LoopAgrees(st, BlockStart(Context(f.returnType, globals), f, t).value, f.blocks, t, stay)
  {
    hide BlockStart, FunctionAdmissible, NeedFrom, NoCalls, Tidy, Located, Live, ShapeAt, LocationsAgree;
    var cx := Context(f.returnType, globals);
    BlocksAgree(globals, f, t, b);
    var at := BlockStart(cx, f, t).value;
    AgreeThen(at, BlockStart(cx, f, b).value, st, NeedFrom(f, b), stay);
    BlocksShaped(globals, f, t);
    forall x | Live(f.blocks, (t, 0), x)
      ensures x in stay && (x in st.vmap ==> x in at.vmap && at.vmap[x] == st.vmap[x])
    {
      LiveMentioned(f.blocks, (t, 0), x);
      AgreesOn(at, st, stay, x);
    }
  }

  lemma AgreesOn(st: Store, at: Store, need: set<Name>, x: Name)
    requires LocationsAgree(st, at, need) && x in need && x in st.vmap
    ensures x in at.vmap && at.vmap[x] == st.vmap[x]
  {
  }

  lemma LiveMentioned(blocks: seq<Block>, p: Place, x: Name)
    requires Live(blocks, p, x)
    ensures x in BlocksMention(blocks)
  {
    hide Reach;
    var q :| q in {p} + Reach(blocks, Definers(blocks, x), p) && IsPlace(blocks, q) && x in Uses(At(blocks, q));
    BlocksMentionIn(blocks, x);
  }

  lemma JumpIsSafe(globals: set<Name>, f: Function, b: nat, st: Store, end: Store, rest: seq<Inst>, l: Name,
                   stay: set<Name>)
    requires FunctionAdmissible(f) && |f.params| <= MAX_ARGS && b < |f.blocks| && JumpAdmissible(f, b, rest, l, stay)
    requires BlockStart(Context(f.returnType, globals), f, b + 1) == Ok(end)
    requires NoCalls(rest) ==> LocationsAgree(st, end, NeedFrom(f, b + 1))
    requires SinceStart(Context(f.returnType, globals), f, b, st, stay) && stay <= NeedFrom(f, b)
    ensures JumpSafe(Context(f.returnType, globals), f, b, st, l, stay)
  {
    hide BlockStart, FunctionAdmissible, NeedFrom, LocationsAgree, NoCalls, SinceStart, LoopAdmissible, LoopAgrees;
    if FindBlock(f.blocks, l).Some? {
      var t := FindBlock(f.blocks, l).value;
      if b < t {
        JumpDown(globals, f, b, st, end, rest, t);
      } else {
        JumpUp(globals, f, b, st, t, stay);
      }
    }
  }

  lemma InstIsSafe(cx: Context, f: Function, b: nat, st: Store, sh: Shape, inst: Inst, rest: seq<Inst>, stay: set<Name>)
    requires b < |f.blocks| && |f.params| <= MAX_ARGS
    requires Shaped(st, f.params, sh, {}) && InstAdmissible(f, b, sh, inst, rest, stay) && Meets(cx, st, inst, stay)
    requires LowerInst(cx, st, inst).Ok?
    requires forall l | l in Targets(inst.op) :: JumpSafe(cx, f, b, LowerInst(cx, st, inst).value.st, l, stay)
    ensures InstSafe(cx, f, b, st, inst, stay)
  {
    hide LowerInst, JumpSafe, StepSafe, CallSafe, OpAdmissible, JumpAdmissible, ValueSize, Start, Tidy, Located;
  }

  /** The instructions left of block b, whose names the block mentions. */
  ghost predicate Remaining(f: Function, b: nat, insts: seq<Inst>)
    requires b < |f.blocks|
  {
    InstsMention(insts) <= InstsMention(f.blocks[b].insts) && (NoCalls(f.blocks[b].insts) ==> NoCalls(insts))
  }

  lemma RemainingStep(f: Function, b: nat, insts: seq<Inst>)
    requires b < |f.blocks| && Remaining(f, b, insts) && insts != []
    ensures Remaining(f, b, insts[1..])
    ensures InstsMention(insts[1..]) + NeedFrom(f, b + 1) <= InstsMention(insts) + NeedFrom(f, b + 1) <= NeedFrom(f, b)
  {
    hide Mentions;
    NeedStep(f, b);
  }

  lemma SinceStartStep(cx: Context, f: Function, b: nat, st: Store, st1: Store, insts: seq<Inst>)
    requires |f.params| <= MAX_ARGS && b < |f.blocks| && insts != [] && Remaining(f, b, insts)
    requires SinceStart(cx, f, b, st, InstsMention(insts) + NeedFrom(f, b + 1))
    requires !insts[0].op.Call? ==> LocationsAgree(st, st1, InstsMention(insts[1..]) + NeedFrom(f, b + 1))
    ensures SinceStart(cx, f, b, st1, InstsMention(insts[1..]) + NeedFrom(f, b + 1))
  {
    hide BlockStart, NeedFrom, LocationsAgree, Mentions;
    RemainingStep(f, b, insts);
    if NoCalls(f.blocks[b].insts) {
      AgreeThen(BlockStart(cx, f, b).value, st, st1, InstsMention(insts) + NeedFrom(f, b + 1),
                InstsMention(insts[1..]) + NeedFrom(f, b + 1));
    }
  }

  lemma {:induction false} InstsAreSafe(globals: set<Name>, f: Function, b: nat, st: Store, sh: Shape, insts: seq<Inst>)
    requires FunctionAdmissible(f) && b < |f.blocks| && |f.params| <= MAX_ARGS
    requires Shaped(st, f.params, sh, {}) && InstsAdmissible(f, b, sh, insts) && Remaining(f, b, insts)
    requires SinceStart(Context(f.returnType, globals), f, b, st, InstsMention(insts) + NeedFrom(f, b + 1))
    requires var e := LowerInsts(Context(f.returnType, globals), st, insts);
             e.Ok? ==> BlockStart(Context(f.returnType, globals), f, b + 1) == Ok(e.value.st)
    ensures InstsSafe(Context(f.returnType, globals), f, b, st, insts)
    decreases |insts|
  {
    hide FunctionAdmissible, BlockStart, Shaped, InstAdmissible, After, LowerInst, LocationsAgree, NoCalls, Meets,
         NeedFrom, InstSafe, JumpSafe, SinceStart, Remaining;
    if insts != [] {
      var cx := Context(f.returnType, globals);
      var stay := InstsMention(insts[1..]) + NeedFrom(f, b + 1);
      InstLowersShaped(cx, st, sh, f, b, insts[0], insts[1..], stay);
      var st1, sh1 := LowerInst(cx, st, insts[0]).value.st, After(sh, insts[0], stay);
      InstsLowerShaped(cx, st1, sh1, f, b, insts[1..]);
      JumpsAdmissible(f, b, sh, insts[0], insts[1..], stay);
      RemainingStep(f, b, insts);
      SinceStartStep(cx, f, b, st, st1, insts);
      forall l | l in Targets(insts[0].op) ensures JumpSafe(cx, f, b, st1, l, stay) {
        JumpIsSafe(globals, f, b, st1, LowerInsts(cx, st1, insts[1..]).value.st, insts[1..], l, stay);
      }
      InstIsSafe(cx, f, b, st, sh, insts[0], insts[1..], stay);
      InstsAreSafe(globals, f, b, st1, sh1, insts[1..]);
    }
  }

  lemma JumpsAdmissible(f: Function, b: nat, sh: Shape, inst: Inst, rest: seq<Inst>, stay: set<Name>)
    requires b < |f.blocks| && InstAdmissible(f, b, sh, inst, rest, stay)
    ensures forall l | l in Targets(inst.op) :: JumpAdmissible(f, b, rest, l, stay)
    ensures |inst.dropped| == |inst.operands|
  {
  }

  /** An admissible function is compiled, and lowered safely. */
  lemma AdmissibleFunctionsAreSafe(globals: set<Name>, f: Function)
    requires FunctionAdmissible(f)
    ensures CompileFunction(globals, f).Ok? && FunctionSafe(globals, f)
  {
    hide BlockStart, Shaped, InstsAdmissible, InstsSafe, LowerInsts, DistinctParams, ShapeAt, LowerBlocks, PlaceParams,
         SavedFrom;
    var cx := Context(f.returnType, globals);
    forall b | 0 <= b < |f.blocks| && BlockStart(cx, f, b).Ok?
      ensures InstsSafe(cx, f, b, BlockStart(cx, f, b).value, f.blocks[b].insts)
    {
      BlocksShaped(globals, f, b);
      BlockStartStep(cx, f, b);
      AgreeSelf(BlockStart(cx, f, b).value, InstsMention(f.blocks[b].insts) + NeedFrom(f, b + 1));
      InstsAreSafe(globals, f, b, BlockStart(cx, f, b).value, ShapeAt(f, b), f.blocks[b].insts);
    }
    BlocksShaped(globals, f, |f.blocks|);
    StartOfEnd(cx, f);
  }

  lemma StartOfEnd(cx: Context, f: Function)
    requires |f.params| <= MAX_ARGS && BlockStart(cx, f, |f.blocks|).Ok?
    ensures LowerBlocks(cx, PlaceParams(f.params), f.blocks).Ok?
  {
    hide LowerBlocks, PlaceParams;
    assert f.blocks[..|f.blocks|] == f.blocks;
  }

  // Admissible functions are flagged as the analysis does it

  lemma {:induction false} InstsAdmissibleFlagged(f: Function, b: nat, sh: Shape, insts: seq<Inst>)
    requires b < |f.blocks| && InstsAdmissible(f, b, sh, insts)
    ensures FlaggedInsts(insts, NeedFrom(f, b + 1))
    decreases |insts|
  {
    hide NeedFrom, After, Flagged, OpAdmissible, JumpAdmissible;
    if insts != [] {
      InstsAdmissibleFlagged(f, b, After(sh, insts[0], InstsMention(insts[1..]) + NeedFrom(f, b + 1)), insts[1..]);
    }
  }

  lemma {:induction false} BlocksAdmissibleFlagged(f: Function, b: nat)
    requires FunctionAdmissible(f) && b <= |f.blocks|
    ensures FlaggedBlocks(f.blocks[b..])
    decreases |f.blocks| - b
  {
    hide InstsAdmissible, ShapeAt, FlaggedInsts;
    if b < |f.blocks| {
      InstsAdmissibleFlagged(f, b, ShapeAt(f, b), f.blocks[b].insts);
      BlocksAdmissibleFlagged(f, b + 1);
      assert f.blocks[b..][0] == f.blocks[b] && f.blocks[b..][1..] == f.blocks[b + 1..];
    }
  }

  /** The analysis gives an admissible function the flags it has. */
  lemma AdmissibleIsAnalyzed(f: Function, g: Function)
    requires SameCode(f, g) && FunctionAdmissible(g)
    ensures Analyzed(f) == g
  {
    hide FunctionAdmissible, SameBlocks, AnalyzedBlocks;
    BlocksAdmissibleFlagged(g, 0);
    assert g.blocks[0..] == g.blocks;
    AnalysisIsUnique(f, g);
  }
}
