/** What the register search finds, and what happens once three registers are taken. */
module Crowded {
  import opened Wrappers
  import opened Ir
  import opened Machine
  import opened IrSemantics
  import opened Storage
  import opened Lowering
  import opened Text
  import opened Simulation
  import opened Lifetime
  import opened Reaching
  import opened ArgumentSetup
  import opened Frames
  import opened Generation
  import opened Admissible
  import opened Evaluation
  import Correctness

  // The search

  /** The search finds a register exactly when that one has no owner and all below it have. */
  lemma {:induction false} SearchFindsExactly(cells: Cells, i: nat, r: Register)
    requires i <= r
    ensures FirstFree(cells, i) == Some(r) <==> cells[r].owner == "" && forall j | i <= j < r :: cells[j].owner != ""
    decreases r - i
  {
    if i < r && cells[i].owner != "" {
      SearchFindsExactly(cells, i + 1, r);
    }
  }

  /** With k names held, the search stays at or below register k. */
  lemma SearchStaysBelow(st: Store, held: set<Name>, k: nat)
    requires Tidy(st, held) && |held| == k < REGISTERS
    ensures FirstFree(st.cells, 0).Some? && FirstFree(st.cells, 0).value <= k
  {
    if forall j: Register | j <= k :: st.cells[j].owner != "" {
      OwnersHeld(st, held, k + 1);
    }
  }

  lemma OwnersHeld(st: Store, held: set<Name>, n: nat)
    requires Tidy(st, held) && n <= REGISTERS && forall j: Register | j < n :: st.cells[j].owner != ""
    ensures |held| >= n
  {
    var owners := Owners(st, n);
    OwnersCounted(st, held, n);
    SubsetSmaller(owners, held);
  }

  function Owners(st: Store, n: nat): set<Name>
    requires n <= REGISTERS
  {
    set j: Register | j < n :: st.cells[j].owner
  }

  lemma LastOwner(st: Store, held: set<Name>, n: nat)
    requires Tidy(st, held) && 0 < n <= REGISTERS && forall j: Register | j < n :: st.cells[j].owner != ""
    ensures st.cells[n - 1].owner in held && st.cells[n - 1].owner !in Owners(st, n - 1)
  {
    var last := st.cells[n - 1].owner;
    forall j: Register | j < n - 1 ensures st.cells[j].owner != last {
      assert st.vmap[st.cells[j].owner] == InReg(j) && st.vmap[last] == InReg(n - 1);
    }
  }

  lemma {:induction false} OwnersCounted(st: Store, held: set<Name>, n: nat)
    requires Tidy(st, held) && n <= REGISTERS && forall j: Register | j < n :: st.cells[j].owner != ""
    ensures |Owners(st, n)| == n && Owners(st, n) <= held
  {
    hide Tidy;
    if n > 0 {
      OwnersCounted(st, held, n - 1);
      var last := st.cells[n - 1].owner;
      LastOwner(st, held, n);
      assert Owners(st, n) == Owners(st, n - 1) + {last};
    }
  }

  /** A parameter in its register, which has no owner, loses it to the next search exactly
      when all registers below have owners. For rdx these are rax, rbx and rcx. */
  lemma ParameterLostExactly(st: Store, x: Name, r: Register)
    requires x in st.vmap && st.vmap[x] == InReg(r) && st.cells[r].owner == ""
    ensures FirstFree(st.cells, 0) == Some(r) <==> forall j: Register | j < r :: st.cells[j].owner != ""
  {
    SearchFindsExactly(st.cells, 0, r);
  }

  // Three names held

  const P := Var(Ptr, "p")

  function LoadTo(x: Name, last: bool): Inst {
    Inst(Load(I64), [P], Some(x), [], [last])
  }

  const TAKE := Inst(Allocate(8), [], Some("p"), [], [])
  const FIRST := Inst(Op.Store(I64), [P, Lit(I64, 1)], None, [], [false, false])
  const RESULT := Inst(Ret, [Var(I64, "z")], None, [], [true])

  const INSTS := [TAKE, FIRST, LoadTo("a", false), LoadTo("b", false), LoadTo("c", false), LoadTo("d", true), RESULT]

  /** Returns its third parameter, which the fourth load overwrites. */
  const CROWD := Function("crowd", [("x", I64), ("y", I64), ("z", I64)], [Block("entry", INSTS)], I64)

  const CX := Context(I64, {})

  const CELL := OMem(8, I64)

  const RBX: nat := 1
  const RCX: nat := 2

  const NODES: seq<Node> := [
    NMov(CELL, OImm(1, I64)),
    NMov(OReg(RAX, I64), CELL),
    NMov(OReg(RBX, I64), CELL),
    NMov(OReg(RCX, I64), CELL),
    NMov(OReg(RDX, I64), CELL),
    NMov(OReg(RAX, I64), OReg(RDX, I64))]

  const ASM := AsmFunction([Label(STACKSAVE, [NStackSave]), Label("entry", NODES + [NRet])], 8, [RBX, RCX])

  function St(rax: Cell, rbx: Cell, rcx: Cell, rdx: Cell, vmap: map<Name, Loc>): Store {
    Store.Store(EMPTY_CELLS[RAX := rax][RBX := rbx][RCX := rcx][RDX := rdx][RSI := Thawed("")][RDI := Thawed("")], vmap,
                8, 0)
  }

  const M0: map<Name, Loc> := map["x" := InReg(RDI), "y" := InReg(RSI), "z" := InReg(RDX)]
  const M1: map<Name, Loc> := M0["p" := Slot(8)]
  const M2: map<Name, Loc> := M1["a" := InReg(RAX)]
  const M3: map<Name, Loc> := M2["b" := InReg(RBX)]
  const M4: map<Name, Loc> := M3["c" := InReg(RCX)]
  const M5: map<Name, Loc> := (M4 - {"p"})["d" := InReg(RDX)]

  const S1 := St(EMPTY_CELL, EMPTY_CELL, EMPTY_CELL, Thawed(""), M1)
  const S2 := St(Owned("a"), EMPTY_CELL, EMPTY_CELL, Thawed(""), M2)
  const S3 := St(Thawed("a"), Owned("b"), EMPTY_CELL, Thawed(""), M3)
  const S4 := St(Thawed("a"), Thawed("b"), Owned("c"), Thawed(""), M4)
  const S5 := St(Thawed("a"), Thawed("b"), Thawed("c"), Owned("d"), M5)
  const S6 := St(Thawed("a"), Thawed("b"), Thawed("c"), Thawed(""), M5 - {"z"})

  lemma Temporaries()
    ensures !StartsWith("", TEMP_PREFIX) && !StartsWith("a", TEMP_PREFIX) && !StartsWith("b", TEMP_PREFIX)
    ensures !StartsWith("c", TEMP_PREFIX) && !StartsWith("d", TEMP_PREFIX)
  {
  }

  function Cooled(c: Cell): Cell {
    c.(frozen := false)
  }

  lemma CleanCellIs(c: Cell)
    requires !StartsWith(c.owner, TEMP_PREFIX)
    ensures CleanCell(c) == Cooled(c)
  {
  }

  lemma CellsOf(rax: Cell, rbx: Cell, rcx: Cell, rdx: Cell, vmap: map<Name, Loc>, i: Register)
    ensures St(rax, rbx, rcx, rdx, vmap).cells[i] ==
            if i == RAX then rax else if i == RBX then rbx else if i == RCX then rcx else if i == RDX then rdx
            else if i == RSI || i == RDI then Thawed("") else EMPTY_CELL
  {
  }

  lemma SameButCells(rax: Cell, rbx: Cell, rcx: Cell, rdx: Cell, vmap: map<Name, Loc>)
    ensures St(rax, rbx, rcx, rdx, vmap) ==
              St(Cooled(rax), Cooled(rbx), Cooled(rcx), Cooled(rdx), vmap).(cells := St(rax, rbx, rcx, rdx, vmap).cells)
  {
  }

  lemma Cleaned(rax: Cell, rbx: Cell, rcx: Cell, rdx: Cell, vmap: map<Name, Loc>)
    requires !StartsWith(rax.owner, TEMP_PREFIX) && !StartsWith(rbx.owner, TEMP_PREFIX)
    requires !StartsWith(rcx.owner, TEMP_PREFIX) && !StartsWith(rdx.owner, TEMP_PREFIX)
    ensures CleanTemps(St(rax, rbx, rcx, rdx, vmap)) == St(Cooled(rax), Cooled(rbx), Cooled(rcx), Cooled(rdx), vmap)
  {
    hide StartsWith, CleanCell, St;
    assert !StartsWith("", TEMP_PREFIX) by { Temporaries(); }
    var was, now := St(rax, rbx, rcx, rdx, vmap), St(Cooled(rax), Cooled(rbx), Cooled(rcx), Cooled(rdx), vmap);
    forall i: Register ensures CleanCell(was.cells[i]) == now.cells[i] {
      CellsOf(rax, rbx, rcx, rdx, vmap, i);
      CellsOf(Cooled(rax), Cooled(rbx), Cooled(rcx), Cooled(rdx), vmap, i);
      CleanCellIs(was.cells[i]);
    }
    assert CleanTemps(was).cells == now.cells;
    SameButCells(rax, rbx, rcx, rdx, vmap);
  }

  /** A load into the register that the search finds. */
  lemma LoadLowers(st: Store, x: Name, last: bool, r: Register)
    requires FirstFree(st.cells, 0) == Some(r) && "p" in st.vmap && st.vmap["p"] == Slot(8)
    ensures var taken := GetRegister(st, r, I64);
            var st1 := CleanTemps(if last then taken.(vmap := taken.vmap - {"p"}) else taken);
            LowerInst(CX, st, LoadTo(x, last)) == Ok(Emit(MapValue(st1, x, InReg(r)), [NMov(OReg(r, I64), CELL)]))
  {
    hide CleanTemps, FirstFree, DropAll, EraseAll, Pending, MapValue, GetRegister;
    PendingOf(P, P, last, false);
    OneName(st, "p");
    LoadIs(st, r);
    OneName(GetRegister(st, r, I64), "p");
    SameMap(st, r);
    assert DropAll(st, []) == st && EraseAll(GetRegister(st, r, I64), []) ==
           GetRegister(st, r, I64) by { NoNames(st, r); }
  }

  lemma SameMap(st: Store, r: Register)
    ensures GetRegister(st, r, I64).vmap == st.vmap
  {
  }

  lemma NoNames(st: Store, r: Register)
    ensures DropAll(st, []) == st && EraseAll(GetRegister(st, r, I64), []) == GetRegister(st, r, I64)
  {
  }

  lemma LoadIs(st: Store, r: Register)
    requires FirstFree(st.cells, 0) == Some(r) && "p" in st.vmap && st.vmap["p"] == Slot(8)
    ensures LowerLoad(CX, st, I64, [P]) ==
            Ok(Lowered(GetRegister(st, r, I64), [NMov(OReg(r, I64), CELL)], Some(InReg(r))))
  {
    hide FirstFree;
  }

  lemma ParamsPlaced()
    ensures PlaceParams(CROWD.params) == St(EMPTY_CELL, EMPTY_CELL, EMPTY_CELL, Owned(""), M0).(
              cells := EMPTY_CELLS[RDI := Owned("")][RSI := Owned("")][RDX := Owned("")], frame := 0)
  {
    var params := CROWD.params;
    assert params[..2] == [("x", I64), ("y", I64)] && params[..2][..1] == [("x", I64)] && [("x", I64)][..0] == [];
    var st := PlaceParams([("x", I64)]);
    assert st.cells == EMPTY_CELLS[RDI := Owned("")] && st.vmap == map["x" := InReg(RDI)];
    var st1 := PlaceParams(params[..2]);
    assert st1.cells == EMPTY_CELLS[RDI := Owned("")][RSI := Owned("")] &&
           st1.vmap == map["x" := InReg(RDI), "y" := InReg(RSI)];
  }

  lemma TakeLowers()
    ensures LowerInst(CX, PlaceParams(CROWD.params), TAKE) == Ok(Emit(S1, []))
  {
    hide CleanTemps, StartsWith, PlaceParams;
    ParamsPlaced();
    Temporaries();
    PendingOf(P, P, false, false);
    var st := PlaceParams(CROWD.params);
    assert LowerOp(CX, st, TAKE) == Ok(Lowered(st.(frame := 8), [], Some(Slot(8))));
    assert CleanTemps(st.(frame := 8)).cells == S1.cells by { ParamsThawed(st.(frame := 8)); }
    assert CleanTemps(st.(frame := 8)) == S1.(vmap := M0) by { CleanKeepsMap(st.(frame := 8)); }
  }

  lemma ParamsThawed(st: Store)
    requires st.cells == EMPTY_CELLS[RDI := Owned("")][RSI := Owned("")][RDX := Owned("")]
    ensures CleanTemps(st).cells == S1.cells
  {
    hide StartsWith;
    Temporaries();
  }

  lemma CleanKeepsMap(st: Store)
    ensures CleanTemps(st) == st.(cells := CleanTemps(st).cells)
  {
  }

  lemma FirstLowers()
    ensures LowerInst(CX, S1, FIRST) == Ok(Emit(S1, [NODES[0]]))
  {
    hide CleanTemps, StartsWith;
    Temporaries();
    PendingOf(P, Lit(I64, 1), false, false);
    assert LowerOp(CX, S1, FIRST) == Ok(Lowered(S1, [NODES[0]], None));
    Cleaned(EMPTY_CELL, EMPTY_CELL, EMPTY_CELL, Thawed(""), M1);
  }

  lemma LoadALowers()
    ensures LowerInst(CX, S1, LoadTo("a", false)) == Ok(Emit(S2, [NODES[1]]))
  {
    hide CleanTemps, StartsWith, FirstFree, LowerInst;
    Temporaries();
    SearchFindsExactly(S1.cells, 0, RAX);
    LoadLowers(S1, "a", false, RAX);
    var taken := St(Owned(""), EMPTY_CELL, EMPTY_CELL, Thawed(""), M1);
    assert GetRegister(S1, RAX, I64) == taken by { assert GetRegister(S1, RAX, I64).cells == taken.cells; }
    Cleaned(Owned(""), EMPTY_CELL, EMPTY_CELL, Thawed(""), M1);
    assert MapValue(St(Thawed(""), EMPTY_CELL, EMPTY_CELL, Thawed(""), M1), "a", InReg(RAX)).cells == S2.cells;
  }

  lemma LoadBLowers()
    ensures LowerInst(CX, S2, LoadTo("b", false)) == Ok(Emit(S3, [NODES[2]]))
  {
    hide CleanTemps, StartsWith, FirstFree, LowerInst;
    Temporaries();
    SearchFindsExactly(S2.cells, 0, RBX);
    LoadLowers(S2, "b", false, RBX);
    var taken := St(Owned("a"), Owned(""), EMPTY_CELL, Thawed(""), M2);
    assert GetRegister(S2, RBX, I64) == taken by { assert GetRegister(S2, RBX, I64).cells == taken.cells; }
    Cleaned(Owned("a"), Owned(""), EMPTY_CELL, Thawed(""), M2);
    assert MapValue(St(Thawed("a"), Thawed(""), EMPTY_CELL, Thawed(""), M2), "b", InReg(RBX)).cells == S3.cells;
  }

  lemma LoadCLowers()
    ensures LowerInst(CX, S3, LoadTo("c", false)) == Ok(Emit(S4, [NODES[3]]))
  {
    hide CleanTemps, StartsWith, FirstFree, LowerInst;
    Temporaries();
    SearchFindsExactly(S3.cells, 0, RCX);
    LoadLowers(S3, "c", false, RCX);
    var taken := St(Thawed("a"), Owned("b"), Owned(""), Thawed(""), M3);
    assert GetRegister(S3, RCX, I64) == taken by { assert GetRegister(S3, RCX, I64).cells == taken.cells; }
    Cleaned(Thawed("a"), Owned("b"), Owned(""), Thawed(""), M3);
    assert MapValue(St(Thawed("a"), Thawed("b"), Thawed(""), Thawed(""), M3), "c", InReg(RCX)).cells == S4.cells;
  }

  /** The fourth load takes rdx, which holds z. */
  lemma LoadDLowers()
    ensures LowerInst(CX, S4, LoadTo("d", true)) == Ok(Emit(S5, [NODES[4]]))
    ensures S5.vmap["z"] == S5.vmap["d"] == InReg(RDX)
  {
    hide CleanTemps, StartsWith, FirstFree, LowerInst;
    Temporaries();
    SearchFindsExactly(S4.cells, 0, RDX);
    LoadLowers(S4, "d", true, RDX);
    var taken := St(Thawed("a"), Thawed("b"), Owned("c"), Owned(""), M4 - {"p"});
    assert GetRegister(S4, RDX, I64).(vmap := M4 - {"p"}) ==
           taken by { assert GetRegister(S4, RDX, I64).cells == taken.cells; }
    Cleaned(Thawed("a"), Thawed("b"), Owned("c"), Owned(""), M4 - {"p"});
    assert MapValue(St(Thawed("a"), Thawed("b"), Thawed("c"), Thawed(""), M4 - {"p"}), "d", InReg(RDX)).cells ==
           S5.cells;
  }

  lemma ResultLowers()
    ensures LowerInst(CX, S5, RESULT) == Ok(Emit(S6, [NODES[5], NRet]))
  {
    hide CleanTemps, StartsWith, EraseAll, DropAll, Pending;
    Temporaries();
    PendingOf(Var(I64, "z"), P, true, false);
    OneName(S5, "z");
    var at := St(Thawed("a"), Thawed("b"), Thawed("c"), Thawed(""), M5);
    assert DropOwnership(S5, "z") == at by { assert DropOwnership(S5, "z").cells == at.cells; }
    OneName(at, "z");
    assert LowerOp(CX, at, RESULT) == Ok(Lowered(at, [NODES[5], NRet], None));
    assert EraseValue(at, "z") == S6 by { assert EraseValue(at, "z").cells == S6.cells; }
    Cleaned(Thawed("a"), Thawed("b"), Thawed("c"), Thawed(""), M5 - {"z"});
  }

  /** Two names are in rdx after the fourth load, and the body ends with a mov from it. */
  lemma CrowdLowers()
    ensures LowerInsts(CX, PlaceParams(CROWD.params), INSTS) == Ok(Emit(S6, NODES + [NRet]))
  {
    hide LowerInst, LowerInsts;
    TakeLowers();
    FirstLowers();
    LoadALowers();
    LoadBLowers();
    LoadCLowers();
    LoadDLowers();
    ResultLowers();
    var e := Emit(S6, [NODES[5], NRet]);
    var d, c, b, a := LoadTo("d", true), LoadTo("c", false), LoadTo("b", false), LoadTo("a", false);
    LowerNone(CX, e.st);
    LowerOne(CX, S5, RESULT, [], e);
    assert [RESULT] + [] == [RESULT];
    LowerOne(CX, S4, d, [RESULT], Emit(S5, [NODES[4]]));
    assert [d] + [RESULT] == [d, RESULT];
    LowerOne(CX, S3, c, [d, RESULT], Emit(S4, [NODES[3]]));
    assert [c] + [d, RESULT] == [c, d, RESULT];
    LowerOne(CX, S2, b, [c, d, RESULT], Emit(S3, [NODES[2]]));
    assert [b] + [c, d, RESULT] == [b, c, d, RESULT];
    LowerOne(CX, S1, a, [b, c, d, RESULT], Emit(S2, [NODES[1]]));
    assert [a] + [b, c, d, RESULT] == [a, b, c, d, RESULT];
    LowerOne(CX, S1, FIRST, [a, b, c, d, RESULT], Emit(S1, [NODES[0]]));
    assert [FIRST] + [a, b, c, d, RESULT] == [FIRST, a, b, c, d, RESULT];
    LowerOne(CX, PlaceParams(CROWD.params), TAKE, [FIRST, a, b, c, d, RESULT], Emit(S1, []));
    assert [TAKE] + [FIRST, a, b, c, d, RESULT] == INSTS;
    assert [] + ([NODES[0]] + ([NODES[1]] + ([NODES[2]] + ([NODES[3]] + ([NODES[4]] + ([NODES[5], NRet] + [])))))) ==
           NODES + [NRet];
  }

  lemma {:induction false} NoneSaved(i: nat)
    requires 3 <= i <= REGISTERS
    ensures SavedFrom(S6.cells, ArgRegisters(3), i) == []
    decreases REGISTERS - i
  {
    if i < REGISTERS {
      assert RDI == ParamRegister(0) && RSI == ParamRegister(1) && RDX == ParamRegister(2);
      NoneSaved(i + 1);
    }
  }

  lemma TwoSaved()
    ensures SavedFrom(S6.cells, ArgRegisters(3), 1) == [RBX, RCX]
  {
    NoneSaved(3);
    assert SavedFrom(S6.cells, ArgRegisters(3), 2) == [RCX] + [];
  }

  lemma Compiled()
    ensures CompileFunction({}, CROWD) == Ok(ASM)
  {
    hide LowerInsts, PlaceParams, SavedFrom, LowerBlocks;
    CrowdLowers();
    TwoSaved();
    var st, body := PlaceParams(CROWD.params), Label("entry", NODES + [NRet]);
    NoBlocks(CX, S6);
    assert [CROWD.blocks[0]] + [] == CROWD.blocks && [body] + [] == [body];
    LowerBlock(CX, st, CROWD.blocks[0], [], Emit(S6, NODES + [NRet]), S6, []);
    assert [Label(STACKSAVE, [NStackSave])] + [body] == ASM.blocks;
  }

  // What the function computes

  const PROGRAM: Program := map["crowd" := CROWD]

  predicate Holding(env: Env, z: Word) {
    "z" in env.vals && env.vals["z"] == IntV(z) && "p" in env.vals && env.vals["p"] == PtrV(8) && "p" in env.cells &&
      env.cells["p"] == 1
  }

  lemma LoadRuns(env: Env, z: Word, x: Name, last: bool, rest: seq<Inst>, fuel: nat, calls: nat) returns (env1: Env)
    requires Holding(env, z) && x != "z" && x != "p"
    ensures Holding(env1, z)
    ensures IrSemantics.Run(PROGRAM, CROWD, [LoadTo(x, last)] + rest, 0, env, fuel, calls) ==
            IrSemantics.Run(PROGRAM, CROWD, rest, 0, env1, fuel, calls)
  {
    hide IrSemantics.Run;
    env1 := With(env, x, IntV(1));
    assert Perform(LoadTo(x, last), env) == Some(env1);
    OneInst(PROGRAM, CROWD, LoadTo(x, last), rest, 0, env, env1, fuel, calls);
  }

  lemma StartRuns(e0: Env, z: Word, rest: seq<Inst>, fuel: nat, calls: nat) returns (env: Env)
    requires "z" in e0.vals && e0.vals["z"] == IntV(z)
    ensures Holding(env, z)
    ensures IrSemantics.Run(PROGRAM, CROWD, [TAKE] + ([FIRST] + rest), 0, e0, fuel, calls) ==
            IrSemantics.Run(PROGRAM, CROWD, rest, 0, env, fuel, calls)
  {
    hide IrSemantics.Run;
    var e1 := Perform(TAKE, e0).value;
    env := Perform(FIRST, e1).value;
    OneInst(PROGRAM, CROWD, TAKE, [FIRST] + rest, 0, e0, e1, fuel, calls);
    OneInst(PROGRAM, CROWD, FIRST, rest, 0, e1, env, fuel, calls);
  }

  lemma Arguments(x: Word, y: Word, z: Word)
    ensures var vals := BindParams(CROWD.params, [x, y, z]); "z" in vals && vals["z"] == IntV(z)
  {
    hide BindParams;
    assert BindParams(CROWD.params, [x, y, z]) == BindParams(CROWD.params[..2], [x, y, z][..2])["z" := IntV(z)] by {
      LastParam(x, y, z);
    }
  }

  lemma LastParam(x: Word, y: Word, z: Word)
    ensures BindParams(CROWD.params, [x, y, z]) == BindParams(CROWD.params[..2], [x, y, z][..2])["z" := IntV(z)]
  {
  }

  lemma CrowdComputes(x: Word, y: Word, z: Word, fuel: nat, calls: nat)
    requires fuel > 0 && calls > 0
    ensures IrSemantics.Invoke(PROGRAM, "crowd", [x, y, z], fuel, calls) == Some(Some(z))
  {
    hide IrSemantics.Run, BindParams, Holding;
    Arguments(x, y, z);
    var e0 := Env(BindParams(CROWD.params, [x, y, z]), map[]);
    var d, c, b, a := LoadTo("d", true), LoadTo("c", false), LoadTo("b", false), LoadTo("a", false);
    var e1 := StartRuns(e0, z, [a] + ([b] + ([c] + ([d] + [RESULT]))), fuel - 1, calls - 1);
    assert [TAKE] + ([FIRST] + ([a] + ([b] + ([c] + ([d] + [RESULT]))))) == INSTS;
    var e2 := LoadRuns(e1, z, "a", false, [b] + ([c] + ([d] + [RESULT])), fuel - 1, calls - 1);
    var e3 := LoadRuns(e2, z, "b", false, [c] + ([d] + [RESULT]), fuel - 1, calls - 1);
    var e4 := LoadRuns(e3, z, "c", false, [d] + [RESULT], fuel - 1, calls - 1);
    var e5 := LoadRuns(e4, z, "d", true, [RESULT], fuel - 1, calls - 1);
    ResultRuns(e5, z, fuel - 1, calls - 1);
  }

  lemma ResultRuns(env: Env, z: Word, fuel: nat, calls: nat)
    requires Holding(env, z)
    ensures IrSemantics.Run(PROGRAM, CROWD, [RESULT], 0, env, fuel, calls) == Some(Some(z))
  {
  }

  // What is compiled for it

  /** Straight-line nodes that keep within a frame and some registers. */
  ghost predicate Leads(nodes: seq<Node>, m: State, m1: State, changed: set<nat>)
    requires m.Valid()
  {
    Steps(nodes, m) == Some(m1) && m1.Valid() && Within(m, m1, 8, changed)
  }

  lemma NodeLeads(nodes: seq<Node>, i: nat, m: State, m1: State, m2: State, changed: set<nat>)
    requires i < |nodes| && m.Valid() && Step(nodes[i], m) == Some(m1) && Within(m, m1, 8, changed)
    requires Leads(nodes[i + 1..], m1, m2, changed)
    ensures Leads(nodes[i..], m, m2, changed)
  {
    hide Step, Within;
    assert nodes[i..][0] == nodes[i] && nodes[i..][1..] == nodes[i + 1..];
    WithinTransitive(m, m1, m2, 8, 8, changed, changed);
  }

  lemma NothingLeads(m: State, changed: set<nat>)
    requires m.Valid()
    ensures Leads([], m, m, changed)
  {
  }

  const COMMON: set<nat> := {RAX, RBX, RCX, RDX}

  /** Memory holds 1 in the frame's cell. */
  predicate Stored(m: State) {
    m.rbp - 8 in m.mem && m.mem[m.rbp - 8] == 1
  }

  lemma StoreLeads(m: State) returns (m1: State)
    requires m.Valid()
    ensures Step(NODES[0], m) == Some(m1) && Within(m, m1, 8, COMMON) && Stored(m1)
  {
    m1 := Step(NODES[0], m).value;
  }

  lemma LoadLeads(i: nat, m: State) returns (m1: State)
    requires m.Valid() && Stored(m) && 1 <= i <= 4
    ensures Step(NODES[i], m) == Some(m1) && m1.Valid() && Within(m, m1, 8, COMMON) && Stored(m1) && m1.regs[i - 1] == 1
  {
    assert NODES[i] == NMov(OReg(i - 1, I64), CELL);
    m1 := Step(NODES[i], m).value;
  }

  lemma MoveLeads(m: State) returns (m1: State)
    requires m.Valid() && m.regs[RDX] == 1
    ensures Step(NODES[5], m) == Some(m1) && m1.Valid() && Within(m, m1, 8, COMMON) && m1.regs[RAX] == 1
  {
    m1 := Step(NODES[5], m).value;
  }

  /** Loads of the stored 1, and the mov from rdx. */
  lemma NodesRun(m: State) returns (m1: State)
    requires m.Valid()
    ensures Leads(NODES, m, m1, COMMON) && m1.regs[RAX] == 1
  {
    hide Step, Within, Leads, Stored;
    var s1 := StoreLeads(m);
    var s2 := LoadLeads(1, s1);
    var s3 := LoadLeads(2, s2);
    var s4 := LoadLeads(3, s3);
    var s5 := LoadLeads(4, s4);
    m1 := MoveLeads(s5);
    NothingLeads(m1, COMMON);
    assert NODES[6..] == [] && NODES[0..] == NODES;
    NodeLeads(NODES, 5, s5, m1, m1, COMMON);
    NodeLeads(NODES, 4, s4, s5, m1, COMMON);
    NodeLeads(NODES, 3, s3, s4, m1, COMMON);
    NodeLeads(NODES, 2, s2, s3, m1, COMMON);
    NodeLeads(NODES, 1, s1, s2, m1, COMMON);
    NodeLeads(NODES, 0, m, s1, m1, COMMON);
  }

  const LINKED: AsmProgram := map["crowd" := ASM]

  lemma EndState()
    ensures BlockStart(CX, CROWD, 1) == Ok(S6)
  {
    hide LowerInsts, PlaceParams;
    CrowdLowers();
    var st := PlaceParams(CROWD.params);
    NoBlocks(CX, S6);
    assert [CROWD.blocks[0]] + [] == CROWD.blocks == CROWD.blocks[..1];
    LowerBlock(CX, st, CROWD.blocks[0], [], Emit(S6, NODES + [NRet]), S6, []);
  }

  /** The body stays within the registers that the function may change. */
  lemma BodyKeeps(m0: State, m1: State, m2: State)
    requires m0.Valid() && m1.Valid() && m2.Valid() && Entered(8, [RBX, RCX], m0, m1) && Within(m1, m2, 8, COMMON)
    ensures Correctness.InBody(ASM, Correctness.Changed(CROWD, S6), m1, m2)
  {
    assert Correctness.InBody(ASM, Correctness.Changed(CROWD, S6), m1, m1);
    CommonChanged();
    Correctness.InBodyWithin(ASM, Correctness.Changed(CROWD, S6), m1, m1, m2, 8, COMMON);
  }

  lemma CommonChanged()
    ensures COMMON <= Correctness.Changed(CROWD, S6)
  {
    assert ParamRegister(2) == RDX;
    assert S6.cells[RBX].tampered && S6.cells[RCX].tampered;
  }

  /** The compiled function comes back with 1 in rax. */
  lemma CrowdReturns(m: State, site: Word, fuel: nat)
    requires m.Valid() && 40 <= m.rsp && m.rsp + 8 < WORD && fuel > 0
    ensures var r := Machine.Invoke(LINKED, "crowd", site, m, fuel); r.Some? && r.value.regs[RAX] == 1
  {
    hide Steps, Entered, Leads, Machine.Run, Correctness.InBody, Correctness.Changed, Prologue, CompileFunction,
         Correctness.Returns, Machine.Invoke, BlockStart;
    var m0 := Push(m, site).value;
    PrologueEnters(8, [RBX, RCX], m0);
    var m1 := Prologue(8, [RBX, RCX], m0).value;
    var m2 := BodyRuns(m0, m1, fuel - 1);
    Compiled();
    EndState();
    BodyKeeps(m0, m1, m2);
    Correctness.RetReturns({}, LINKED, CROWD, 1, [], fuel - 1, m0, m1, m2, Some(1));
    assert [NRet] + [] == [NRet];
    var m3 := Correctness.CallReturns(LINKED, "crowd", CROWD, site, m, fuel, Some(1));
  }

  lemma BodyRuns(m0: State, m1: State, fuel: nat) returns (m2: State)
    requires m0.Valid() && m1.Valid() && Prologue(8, [RBX, RCX], m0) == Some(m1)
    ensures m2.Valid() && Within(m1, m2, 8, COMMON) && m2.regs[RAX] == 1
    ensures Machine.Run(LINKED, ASM, [NStackSave], 0, m0, fuel) == Machine.Run(LINKED, ASM, [NRet], 1, m2, fuel)
  {
    hide Steps, Within, Prologue;
    m2 := NodesRun(m1);
    Correctness.RunSteps(LINKED, ASM, NODES, [NRet], 1, m1, fuel);
    assert [NStackSave][1..] == [];
    assert Machine.Run(LINKED, ASM, [NStackSave], 0, m0, fuel) == Machine.Run(LINKED, ASM, [], 0, m1, fuel);
  }

  // Its flags

  lemma AllMentions()
    ensures Mentions(FIRST) == {"p"} && Mentions(RESULT) == {"z"}
    ensures forall x, last :: Mentions(LoadTo(x, last)) == {"p", x}
  {
    assert P in FIRST.operands && Var(I64, "z") in RESULT.operands;
    forall x, last ensures Mentions(LoadTo(x, last)) == {"p", x} {
      assert P in LoadTo(x, last).operands;
    }
  }

  lemma Laters()
    ensures InstsMention(INSTS[7..]) == {} && InstsMention(INSTS[6..]) == {"z"}
    ensures InstsMention(INSTS[5..]) == {"z", "p", "d"} && InstsMention(INSTS[4..]) == {"z", "p", "d", "c"}
    ensures InstsMention(INSTS[3..]) == {"z", "p", "d", "c", "b"}
    ensures InstsMention(INSTS[2..]) == {"z", "p", "d", "c", "b", "a"} == InstsMention(INSTS[1..])
  {
    hide Mentions, InstsMention;
    AllMentions();
    MentionedNone();
    assert INSTS[7..] == [];
    MentionedFirst(RESULT, INSTS[7..], {"z"});
    MentionedFirst(LoadTo("d", true), INSTS[6..], {"p", "d"});
    MentionedFirst(LoadTo("c", false), INSTS[5..], {"p", "c"});
    MentionedFirst(LoadTo("b", false), INSTS[4..], {"p", "b"});
    MentionedFirst(LoadTo("a", false), INSTS[3..], {"p", "a"});
    MentionedFirst(FIRST, INSTS[2..], {"p"});
    forall i | 0 <= i < 7 ensures [INSTS[i]] + INSTS[i + 1..] == INSTS[i..] {
    }
  }

  lemma InstFlagged(i: nat)
    requires i < |INSTS|
    ensures Flagged(INSTS[i], InstsMention(INSTS[i + 1..]) + {})
  {
    hide InstsMention;
    Laters();
  }

  /** The flags are those that the analysis sets. */
  lemma FlagsAreRight()
    ensures AllFlagged(CROWD.blocks)
  {
    hide Flagged, InstsMention;
    assert CROWD.blocks[1..] == [];
    forall p: Place | IsPlace(CROWD.blocks, p) ensures Flagged(At(CROWD.blocks, p), Later(CROWD.blocks, p)) {
      InstFlagged(p.1);
    }
  }

  lemma ThreeHeld()
    ensures Tidy(S4, {"a", "b", "c"}) && FirstFree(S4.cells, 0) == Some(RDX)
  {
    hide FirstFree;
    SearchFindsExactly(S4.cells, 0, RDX);
    CellsOfFour();
  }

  lemma CellsOfFour()
    ensures forall r: Register :: S4.cells[r].owner == if r == RAX then "a" else if r == RBX then "b"
            else if r == RCX then "c" else ""
  {
  }

  /** The bound of two held names is sharp: with three, a register search takes the register
      of a parameter that is still needed. The function, flagged as the analysis does it,
      returns its third parameter; what is compiled for it returns 1, from every machine
      state with 40 bytes of stack. */
  lemma ThreeNamesCrowd(x: Word, y: Word, z: Word, site: Word, m: State, fuel: nat)
    requires m.Valid() && 40 <= m.rsp && m.rsp + 8 < WORD && fuel > 0
    ensures Tidy(S4, {"a", "b", "c"}) && S4.vmap["z"] == InReg(RDX) && FirstFree(S4.cells, 0) == Some(RDX)
    ensures AllFlagged(CROWD.blocks)
    ensures CompileFunction({}, CROWD) == Ok(ASM)
    ensures IrSemantics.Invoke(PROGRAM, "crowd", [x, y, z], fuel, 1) == Some(Some(z))
    ensures var r := Machine.Invoke(map["crowd" := ASM], "crowd", site, m, fuel); r.Some? && r.value.regs[RAX] == 1
  {
    hide IrSemantics.Invoke, CompileFunction, Machine.Invoke, AllFlagged;
    ThreeHeld();
    FlagsAreRight();
    Compiled();
    CrowdComputes(x, y, z, fuel, 1);
    CrowdReturns(m, site, fuel);
  }
}
