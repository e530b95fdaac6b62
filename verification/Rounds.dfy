/** A loop that reads a name again after its drop: what is compiled for it returns something
    else than the loop does. */
module Rounds {
  import opened Wrappers
  import opened Ir
  import opened Machine
  import opened IrSemantics
  import opened Storage
  import opened Lowering
  import opened Lifetime
  import opened Reaching
  import opened ArgumentSetup
  import opened Evaluation
  import opened Text
  import Conditions

  const P := Var(Ptr, "p")

  const TAKE := Inst(Allocate(8), [], Some("p"), [], [])
  const FIRST := Inst(Op.Store(I64), [P, L(1)], None, [], [false, false])
  const ROUND := Inst(Load(I64), [P], Some("i"), [], [false])
  const SECOND := Inst(Op.Store(I64), [P, L(2)], None, [], [true, false])
  const INCREASE := Inst(Arith(Add), [V("n"), L(1)], Some("a"), [], [true, false])
  const AGAIN := Inst(Icmp(Eq), [V("i"), L(1)], Some("c"), [], [true, false])
  const LOOP := Inst(Branch("body", "done"), [V("c")], None, ["body", "done"], [true])
  const RESULT := Inst(Ret, [V("a")], None, [], [true])

  const ENTRY := Block("entry", [TAKE, FIRST])
  const BODY := Block("body", [ROUND, SECOND, INCREASE, AGAIN, LOOP])
  const DONE := Block("done", [RESULT])

  /** The body runs twice, and gives a the same value both times. */
  const ROUNDS := Function("rounds", [("n", I64)], [ENTRY, BODY, DONE], I64)

  const PROGRAM: Program := map["rounds" := ROUNDS]

  // What is compiled for it

  const CX := Context(I64, {})

  const CELL := OMem(8, I64)

  const ASM_ENTRY: seq<Node> := [NMov(CELL, OImm(1, I64))]
  const ASM_BODY: seq<Node> := [
    NMov(OReg(RAX, I64), CELL),
    NMov(CELL, OImm(2, I64)),
    NArith(Add, OReg(RDI, I64), OImm(1, I64)),
    NCmp(OReg(RAX, I64), OImm(1, I64)),
    NCondJmp(Eq, "body"),
    NJmp("done")]
  const ASM_DONE: seq<Node> := [NMov(OReg(RAX, I64), OReg(RDI, I64)), NRet]

  const ASM := AsmFunction([
      Label(STACKSAVE, [NStackSave]), Label("entry", ASM_ENTRY), Label("body", ASM_BODY), Label("done", ASM_DONE)], 8,
        [])

  /** The storage with two registers in use: rax and rdi. */
  function Cells2(rax: Cell, rdi: Cell): Cells {
    EMPTY_CELLS[RAX := rax][RDI := rdi]
  }

  function St(rax: Cell, rdi: Cell, vmap: map<Name, Loc>, frame: nat): Store {
    Store.Store(Cells2(rax, rdi), vmap, frame, 0)
  }

  const N_P: map<Name, Loc> := map["n" := InReg(RDI), "p" := Slot(8)]

  const S0 := St(EMPTY_CELL, Owned(""), map["n" := InReg(RDI)], 0)
  const S1 := St(EMPTY_CELL, Thawed(""), N_P, 8)
  const S2 := St(Owned("i"), Thawed(""), N_P["i" := InReg(RAX)], 8)
  const S3 := St(Thawed("i"), Thawed(""), map["n" := InReg(RDI), "i" := InReg(RAX)], 8)
  const S4 := St(Thawed("i"), Owned("a"), map["i" := InReg(RAX), "a" := InReg(RDI)], 8)
  const S5 := St(Thawed(""), Thawed("a"), map["a" := InReg(RDI), "c" := Flag(Eq)], 8)
  const S6 := St(Thawed(""), Thawed("a"), map["a" := InReg(RDI)], 8)
  const S7 := St(Thawed(""), Thawed(""), map[], 8)

  lemma Cleaned(rax: Cell, rdi: Cell, vmap: map<Name, Loc>, frame: nat)
    requires !StartsWith(rax.owner, TEMP_PREFIX) && !StartsWith(rdi.owner, TEMP_PREFIX)
    ensures CleanTemps(St(rax, rdi, vmap, frame)) == St(rax.(frozen := false), rdi.(frozen := false), vmap, frame)
  {
    assert CleanTemps(St(rax, rdi, vmap, frame)).cells == Cells2(rax.(frozen := false), rdi.(frozen := false));
  }

  lemma Temporaries()
    ensures !StartsWith("", TEMP_PREFIX) && !StartsWith("a", TEMP_PREFIX) && !StartsWith("i", TEMP_PREFIX)
  {
  }

  lemma LowerTake()
    ensures LowerInst(CX, S0, TAKE) == Ok(Emit(S1, []))
  {
    hide CleanTemps, StartsWith;
    Temporaries();
    PendingOf(P, P, false, false);
    assert LowerOp(CX, S0, TAKE) == Ok(Lowered(S0.(frame := 8), [], Some(Slot(8))));
    Cleaned(EMPTY_CELL, Owned(""), S0.vmap, 8);
  }

  lemma LowerFirst()
    ensures LowerInst(CX, S1, FIRST) == Ok(Emit(S1, ASM_ENTRY))
  {
    hide CleanTemps, StartsWith;
    Temporaries();
    PendingOf(P, L(1), false, false);
    assert LowerOp(CX, S1, FIRST) == Ok(Lowered(S1, ASM_ENTRY, None));
    Cleaned(EMPTY_CELL, Thawed(""), S1.vmap, 8);
  }

  lemma LowerRound()
    ensures LowerInst(CX, S1, ROUND) == Ok(Emit(S2, [NMov(OReg(RAX, I64), CELL)]))
  {
    hide CleanTemps, StartsWith;
    Temporaries();
    PendingOf(P, P, false, false);
    var taken := St(Owned(""), Thawed(""), N_P, 8);
    assert GetRegister(S1, RAX, I64) == taken by {
      assert GetRegister(S1, RAX, I64).cells == taken.cells;
    }
    assert LowerOp(CX, S1, ROUND) == Ok(Lowered(taken, [NMov(OReg(RAX, I64), CELL)], Some(InReg(RAX))));
    Cleaned(Owned(""), Thawed(""), N_P, 8);
    assert MapValue(St(Thawed(""), Thawed(""), N_P, 8), "i", InReg(RAX)).cells == S2.cells;
  }

  lemma LowerSecond()
    ensures LowerInst(CX, S2, SECOND) == Ok(Emit(S3, [NMov(CELL, OImm(2, I64))]))
  {
    hide CleanTemps, StartsWith, DropAll, EraseAll;
    Temporaries();
    PendingOf(P, L(2), true, false);
    OneName(S2, "p");
    assert LowerOp(CX, S2, SECOND) == Ok(Lowered(S2, [NMov(CELL, OImm(2, I64))], None));
    assert S2.vmap - {"p"} == S3.vmap;
    Cleaned(Owned("i"), Thawed(""), S3.vmap, 8);
  }

  lemma LowerIncrease()
    ensures LowerInst(CX, S3, INCREASE) == Ok(Emit(S4, [NArith(Add, OReg(RDI, I64), OImm(1, I64))]))
  {
    hide CleanTemps, StartsWith, DropAll, EraseAll, LowerOp, Pending;
    Temporaries();
    PendingOf(V("n"), L(1), true, false);
    OneName(S3, "n");
    IncreaseLowers();
    assert DropOwnership(S3, "n") == S3 by {
      assert DropOwnership(S3, "n").cells == S3.cells;
    }
    var vmap := map["i" := InReg(RAX)];
    assert EraseValue(S3, "n") == St(Thawed("i"), Thawed(""), vmap, 8) by {
      assert EraseValue(S3, "n").cells == S3.cells;
      assert S3.vmap - {"n"} == vmap;
    }
    Cleaned(Thawed("i"), Thawed(""), vmap, 8);
    assert MapValue(St(Thawed("i"), Thawed(""), vmap, 8), "a", InReg(RDI)).cells == S4.cells;
  }

  lemma IncreaseLowers()
    ensures LowerOp(CX, S3, INCREASE) == Ok(Lowered(S3, [NArith(Add, OReg(RDI, I64), OImm(1, I64))], Some(InReg(RDI))))
  {
    var nodes := [NArith(Add, OReg(RDI, I64), OImm(1, I64))];
    assert [] + nodes == nodes;
  }

  lemma LowerAgain()
    ensures LowerInst(CX, S4, AGAIN) == Ok(Emit(S5, [NCmp(OReg(RAX, I64), OImm(1, I64))]))
  {
    hide CleanTemps, StartsWith, DropAll, EraseAll, Pending;
    Temporaries();
    PendingOf(V("i"), L(1), true, false);
    OneName(S4, "i");
    var at := St(Thawed(""), Owned("a"), S4.vmap, 8);
    assert DropOwnership(S4, "i") == at by {
      assert DropOwnership(S4, "i").cells == at.cells;
    }
    OneName(at, "i");
    assert LowerOp(CX, at, AGAIN) == Ok(Lowered(at, [NCmp(OReg(RAX, I64), OImm(1, I64))], Some(Flag(Eq))));
    var vmap := map["a" := InReg(RDI)];
    assert EraseValue(at, "i") == St(Thawed(""), Owned("a"), vmap, 8) by {
      assert EraseValue(at, "i").cells == at.cells;
      assert at.vmap - {"i"} == vmap;
    }
    Cleaned(Thawed(""), Owned("a"), vmap, 8);
    assert vmap["c" := Flag(Eq)] == S5.vmap;
  }

  lemma LowerLoop()
    ensures LowerInst(CX, S5, LOOP) == Ok(Emit(S6, [NCondJmp(Eq, "body"), NJmp("done")]))
  {
    hide CleanTemps, StartsWith, DropAll, EraseAll, Pending;
    Temporaries();
    PendingOf(V("c"), P, true, false);
    OneName(S5, "c");
    assert LowerOp(CX, S5, LOOP) == Ok(Lowered(S5, [NCondJmp(Eq, "body"), NJmp("done")], None));
    assert S5.vmap - {"c"} == S6.vmap;
    Cleaned(Thawed(""), Thawed("a"), S6.vmap, 8);
  }

  lemma LowerResult()
    ensures LowerInst(CX, S6, RESULT) == Ok(Emit(S7, ASM_DONE))
  {
    hide CleanTemps, StartsWith, DropAll, EraseAll, Pending;
    Temporaries();
    PendingOf(V("a"), P, true, false);
    OneName(S6, "a");
    var at := St(Thawed(""), Thawed(""), S6.vmap, 8);
    assert DropOwnership(S6, "a") == at by {
      assert DropOwnership(S6, "a").cells == at.cells;
    }
    OneName(at, "a");
    assert LowerOp(CX, at, RESULT) == Ok(Lowered(at, ASM_DONE, None));
    assert EraseValue(at, "a") == S7 by {
      assert EraseValue(at, "a").cells == at.cells;
      assert at.vmap - {"a"} == map[];
    }
    Cleaned(Thawed(""), Thawed(""), map[], 8);
  }

  lemma LowerEntry()
    ensures LowerInsts(CX, S0, ENTRY.insts) == Ok(Emit(S1, ASM_ENTRY))
  {
    hide LowerInst, LowerInsts;
    LowerTake();
    LowerFirst();
    LowerNone(CX, S1);
    LowerOne(CX, S1, FIRST, [], Emit(S1, ASM_ENTRY));
    LowerOne(CX, S0, TAKE, [FIRST], Emit(S1, []));
    assert [TAKE] + [FIRST] == ENTRY.insts && [FIRST] + [] == [FIRST] && [] + (ASM_ENTRY + []) == ASM_ENTRY;
  }

  lemma LowerBody()
    ensures LowerInsts(CX, S1, BODY.insts) == Ok(Emit(S6, ASM_BODY))
  {
    hide LowerInst, LowerInsts;
    LowerRound();
    LowerSecond();
    LowerIncrease();
    LowerAgain();
    LowerLoop();
    LowerNone(CX, S6);
    LowerOne(CX, S5, LOOP, [], Emit(S6, ASM_BODY[4..]));
    LowerOne(CX, S4, AGAIN, [LOOP], Emit(S5, [ASM_BODY[3]]));
    LowerOne(CX, S3, INCREASE, [AGAIN, LOOP], Emit(S4, [ASM_BODY[2]]));
    LowerOne(CX, S2, SECOND, [INCREASE, AGAIN, LOOP], Emit(S3, [ASM_BODY[1]]));
    LowerOne(CX, S1, ROUND, [SECOND, INCREASE, AGAIN, LOOP], Emit(S2, [ASM_BODY[0]]));
    assert [LOOP] + [] == [LOOP] && [AGAIN] + [LOOP] == [AGAIN, LOOP];
    assert [INCREASE] + [AGAIN, LOOP] == [INCREASE, AGAIN, LOOP];
    assert [SECOND] + [INCREASE, AGAIN, LOOP] == [SECOND, INCREASE, AGAIN, LOOP];
    assert [ROUND] + [SECOND, INCREASE, AGAIN, LOOP] == BODY.insts;
    assert [ASM_BODY[0]] + ([ASM_BODY[1]] + ([ASM_BODY[2]] + ([ASM_BODY[3]] + (ASM_BODY[4..] + [])))) == ASM_BODY;
  }

  lemma LowerDone()
    ensures LowerInsts(CX, S6, DONE.insts) == Ok(Emit(S7, ASM_DONE))
  {
    hide LowerInst, LowerInsts;
    LowerResult();
    LowerNone(CX, S7);
    LowerOne(CX, S6, RESULT, [], Emit(S7, ASM_DONE));
    assert [RESULT] + [] == DONE.insts && ASM_DONE + [] == ASM_DONE;
  }

  lemma Placed()
    ensures PlaceParams(ROUNDS.params) == S0
  {
    assert ROUNDS.params[..0] == [];
    assert PlaceParams(ROUNDS.params).cells == S0.cells;
  }

  lemma {:induction false} NothingSaved(i: nat)
    requires 1 <= i <= REGISTERS
    ensures SavedFrom(S7.cells, ArgRegisters(1), i) == []
    decreases REGISTERS - i
  {
    if i < REGISTERS {
      assert RDI == ParamRegister(0) && RDI in ArgRegisters(1);
      NothingSaved(i + 1);
    }
  }

  lemma Compiled()
    ensures CompileFunction({}, ROUNDS) == Ok(ASM)
  {
    hide LowerInsts, PlaceParams, SavedFrom, LowerBlocks;
    Placed();
    LowerEntry();
    LowerBody();
    LowerDone();
    NothingSaved(1);
    var entry, body, done := Label("entry", ASM_ENTRY), Label("body", ASM_BODY), Label("done", ASM_DONE);
    assert [DONE] + [] == [DONE] && [done] + [] == [done];
    assert [BODY] + [DONE] == [BODY, DONE] && [body] + [done] == [body, done];
    assert [ENTRY] + [BODY, DONE] == ROUNDS.blocks && [entry] + [body, done] == [entry, body, done];
    NoBlocks(CX, S7);
    LowerBlock(CX, S6, DONE, [], Emit(S7, ASM_DONE), S7, []);
    LowerBlock(CX, S1, BODY, [DONE], Emit(S6, ASM_BODY), S7, [done]);
    LowerBlock(CX, S0, ENTRY, [BODY, DONE], Emit(S1, ASM_ENTRY), S7, [body, done]);
    assert [Label(STACKSAVE, [NStackSave])] + [entry, body, done] == ASM.blocks;
  }

  // What the function computes

  lemma FindsBlocks()
    ensures FindBlock(ROUNDS.blocks, "body") == Some(1) && FindBlock(ROUNDS.blocks, "done") == Some(2)
  {
    assert ROUNDS.blocks[1..] == [BODY, DONE] && [BODY, DONE][1..] == [DONE];
    assert "entry"[0] != 'b' && "entry"[0] != 'd' && "body"[0] != 'd';
    assert FindBlock([DONE], "done") == Some(0);
    assert FindBlock([BODY, DONE], "done") == Some(1);
  }

  /** n and the pointer have their values, and w is stored. */
  predicate InRound(env: Env, n: Word, w: Word) {
    "n" in env.vals && env.vals["n"] == IntV(n) && "p" in env.vals && env.vals["p"] == PtrV(8) &&
    "p" in env.cells && env.cells["p"] == w
  }

  function Plus(n: Word, k: Word): Word {
    (n + k) % WORD
  }

  lemma EntryRuns(n: Word, fuel: nat, calls: nat) returns (env: Env)
    ensures InRound(env, n, 1)
    ensures IrSemantics.Run(PROGRAM, ROUNDS, ENTRY.insts, 0, Env(map["n" := IntV(n)], map[]), fuel, calls) ==
            IrSemantics.Run(PROGRAM, ROUNDS, BODY.insts, 1, env, fuel, calls)
  {
    var e0 := Env(map["n" := IntV(n)], map[]);
    var e1 := Perform(TAKE, e0).value;
    env := Perform(FIRST, e1).value;
    OneInst(PROGRAM, ROUNDS, TAKE, [FIRST], 0, e0, e1, fuel, calls);
    OneInst(PROGRAM, ROUNDS, FIRST, [], 0, e1, env, fuel, calls);
    assert ENTRY.insts == [TAKE] + [FIRST] && [FIRST] == [FIRST] + [];
  }

  lemma RoundValues(env: Env, n: Word, w: Word) returns (e1: Env, e2: Env, e3: Env, e4: Env)
    requires InRound(env, n, w)
    ensures Perform(ROUND, env) == Some(e1) && Perform(SECOND, e1) == Some(e2)
    ensures Perform(INCREASE, e2) == Some(e3) && Perform(AGAIN, e3) == Some(e4)
    ensures InRound(e4, n, 2) && "a" in e4.vals && e4.vals["a"] == IntV(Plus(n, 1)) &&
            BoolOf(e4, V("c")) == Some(w == 1)
  {
    e1 := env.(vals := env.vals["i" := IntV(w)]);
    e2 := e1.(cells := e1.cells["p" := 2]);
    e3 := e2.(vals := e2.vals["a" := IntV(Plus(n, 1))]);
    e4 := e3.(vals := e3.vals["c" := BoolV(w == 1)]);
    assert Perform(ROUND, env) == Some(e1);
    assert Perform(SECOND, e1) == Some(e2);
    assert Perform(INCREASE, e2) == Some(e3);
    assert Perform(AGAIN, e3) == Some(e4);
  }

  lemma BodyRuns(env: Env, n: Word, w: Word, fuel: nat, calls: nat) returns (env1: Env)
    requires InRound(env, n, w)
    ensures InRound(env1, n, 2) && "a" in env1.vals && env1.vals["a"] == IntV(Plus(n, 1))
    ensures IrSemantics.Run(PROGRAM, ROUNDS, BODY.insts, 1, env, fuel, calls) ==
            IrSemantics.Goto(PROGRAM, ROUNDS, if w == 1 then "body" else "done", env1, fuel, calls)
  {
    hide IrSemantics.Goto, Perform, InRound;
    var e1, e2, e3, e4 := RoundValues(env, n, w);
    OneInst(PROGRAM, ROUNDS, ROUND, [SECOND, INCREASE, AGAIN, LOOP], 1, env, e1, fuel, calls);
    OneInst(PROGRAM, ROUNDS, SECOND, [INCREASE, AGAIN, LOOP], 1, e1, e2, fuel, calls);
    OneInst(PROGRAM, ROUNDS, INCREASE, [AGAIN, LOOP], 1, e2, e3, fuel, calls);
    OneInst(PROGRAM, ROUNDS, AGAIN, [LOOP], 1, e3, e4, fuel, calls);
    assert BODY.insts == [ROUND] + [SECOND, INCREASE, AGAIN, LOOP] &&
           [SECOND, INCREASE, AGAIN, LOOP] == [SECOND] + [INCREASE, AGAIN, LOOP];
    assert [INCREASE, AGAIN, LOOP] == [INCREASE] + [AGAIN, LOOP] && [AGAIN, LOOP] == [AGAIN] + [LOOP];
    env1 := e4;
  }

  lemma Computes(n: Word, fuel: nat, calls: nat)
    requires fuel >= 3 && calls > 0
    ensures IrSemantics.Invoke(PROGRAM, "rounds", [n], fuel, calls) == Some(Some(Plus(n, 1)))
  {
    hide IrSemantics.Run;
    FindsBlocks();
    assert BindParams([("n", I64)], [n]) == map["n" := IntV(n)] by {
      assert [("n", I64)][..0] == [] && [n][..0] == [];
    }
    var e1 := EntryRuns(n, fuel - 1, calls - 1);
    var e2 := BodyRuns(e1, n, 1, fuel - 1, calls - 1);
    var e3 := BodyRuns(e2, n, 2, fuel - 2, calls - 1);
    DoneRuns(e3, Plus(n, 1), fuel - 3, calls - 1);
  }

  lemma DoneRuns(env: Env, w: Word, fuel: nat, calls: nat)
    requires "a" in env.vals && env.vals["a"] == IntV(w)
    ensures IrSemantics.Run(PROGRAM, ROUNDS, DONE.insts, 2, env, fuel, calls) == Some(Some(w))
  {
  }

  // What the compiled function computes

  lemma FindsLabels()
    ensures FindLabel(ASM.blocks, "body") == Some(2) && FindLabel(ASM.blocks, "done") == Some(3)
  {
    hide FindLabel;
    var entry, body, done := Label("entry", ASM_ENTRY), Label("body", ASM_BODY), Label("done", ASM_DONE);
    assert STACKSAVE[0] == '_' && "entry"[0] != 'b' && "entry"[0] != 'd' && "body"[0] != 'd';
    FindHere(done, [], "done");
    FindHere(body, [done], "done");
    FindHere(body, [done], "body");
    FindHere(entry, [body, done], "body");
    FindHere(entry, [body, done], "done");
    FindHere(Label(STACKSAVE, [NStackSave]), [entry, body, done], "body");
    FindHere(Label(STACKSAVE, [NStackSave]), [entry, body, done], "done");
    assert [done] + [] == [done] && [body] + [done] == [body, done] && [entry] + [body, done] == [entry, body, done];
    assert [Label(STACKSAVE, [NStackSave])] + [entry, body, done] == ASM.blocks;
  }

  const LINKED: AsmProgram := map["rounds" := ASM]

  /** The frame's cell holds w and rdi holds n; the caller's rbp and return address are above. */
  ghost predicate Running(m: State, n: Word, w: Word, rbp: Word, site: Word) {
    m.Valid() && m.regs[RDI] == n && m.rbp - 8 in m.mem && m.mem[m.rbp - 8] == w &&
    m.rbp in m.mem && m.mem[m.rbp] == rbp && m.rbp + 8 in m.mem && m.mem[m.rbp + 8] == site && m.rbp + 16 < WORD
  }

  lemma EnterSteps(m: State, n: Word, site: Word) returns (m0: State, m2: State, m1: State)
    requires m.Valid() && m.regs[RDI] == n && 24 <= m.rsp && m.rsp + 8 < WORD
    ensures Push(m, site) == Some(m0) && m0.Valid() && Prologue(8, [], m0) == Some(m2) && m2.Valid()
    ensures Step(ASM_ENTRY[0], m2) == Some(m1) && Running(m1, n, 1, m.rbp, site)
  {
    m0 := Push(m, site).value;
    m2 := Prologue(8, [], m0).value;
    m1 := Step(ASM_ENTRY[0], m2).value;
  }

  lemma Enters(m: State, n: Word, site: Word, fuel: nat) returns (m1: State)
    requires m.Valid() && m.regs[RDI] == n && 24 <= m.rsp && m.rsp + 8 < WORD
    ensures Running(m1, n, 1, m.rbp, site) && m1.Valid()
    ensures Push(m, site).Some?
    ensures Machine.Run(LINKED, ASM, ASM.blocks[0].nodes, 0, Push(m, site).value, fuel) ==
            Machine.Run(LINKED, ASM, ASM_BODY, 2, m1, fuel)
  {
    hide Push, Prologue, Step;
    var m0, m2, m3 := EnterSteps(m, n, site);
    m1 := m3;
    assert [NStackSave][1..] == [] && ASM_ENTRY[1..] == [];
    assert Machine.Run(LINKED, ASM, ASM_ENTRY, 1, m2, fuel) == Machine.Run(LINKED, ASM, [], 1, m1, fuel);
    assert Machine.Run(LINKED, ASM, [NStackSave], 0, m0, fuel) == Machine.Run(LINKED, ASM, [], 0, m2, fuel);
  }

  lemma RoundSteps(m: State, n: Word, w: Word, rbp: Word, site: Word)
      returns (m1: State, m2: State, m3: State, m4: State)
    requires Running(m, n, w, rbp, site)
    ensures Step(ASM_BODY[0], m) == Some(m1) && m1.Valid() && Step(ASM_BODY[1], m1) == Some(m2) && m2.Valid()
    ensures Step(ASM_BODY[2], m2) == Some(m3) && m3.Valid() && Step(ASM_BODY[3], m3) == Some(m4)
    ensures Running(m4, Plus(n, 1), 2, rbp, site)
    ensures m4.flags.Some? && Conditions.Holds(Conditions.CondInst(Eq), m4.flags.value) == (w == 1)
  {
    m1 := Step(ASM_BODY[0], m).value;
    m2 := Step(ASM_BODY[1], m1).value;
    m3 := Step(ASM_BODY[2], m2).value;
    m4 := Step(ASM_BODY[3], m3).value;
  }

  lemma JumpsRun(m: State, again: bool, fuel: nat)
    requires m.Valid() && m.flags.Some? && Conditions.Holds(Conditions.CondInst(Eq), m.flags.value) == again
    ensures Machine.Run(LINKED, ASM, [NCondJmp(Eq, "body"), NJmp("done")], 2, m, fuel) ==
            Machine.Goto(LINKED, ASM, if again then "body" else "done", m, fuel)
  {
    hide Machine.Goto, Conditions.Holds;
    assert [NCondJmp(Eq, "body"), NJmp("done")][1..] == [NJmp("done")];
  }

  lemma Rounded(m: State, n: Word, w: Word, rbp: Word, site: Word, fuel: nat) returns (m1: State)
    requires Running(m, n, w, rbp, site)
    ensures Running(m1, Plus(n, 1), 2, rbp, site)
    ensures Machine.Run(LINKED, ASM, ASM_BODY, 2, m, fuel) ==
            Machine.Goto(LINKED, ASM, if w == 1 then "body" else "done", m1, fuel)
  {
    hide Machine.Goto, Machine.Run, Step, Conditions.Holds;
    var s1, s2, s3, s4 := RoundSteps(m, n, w, rbp, site);
    var jumps := [NCondJmp(Eq, "body"), NJmp("done")];
    JumpsRun(s4, w == 1, fuel);
    OneNode(LINKED, ASM, ASM_BODY[0], [ASM_BODY[1], ASM_BODY[2], ASM_BODY[3]] + jumps, 2, m, s1, fuel);
    OneNode(LINKED, ASM, ASM_BODY[1], [ASM_BODY[2], ASM_BODY[3]] + jumps, 2, s1, s2, fuel);
    OneNode(LINKED, ASM, ASM_BODY[2], [ASM_BODY[3]] + jumps, 2, s2, s3, fuel);
    OneNode(LINKED, ASM, ASM_BODY[3], jumps, 2, s3, s4, fuel);
    assert [ASM_BODY[0]] + ([ASM_BODY[1], ASM_BODY[2], ASM_BODY[3]] + jumps) == ASM_BODY;
    assert [ASM_BODY[1]] + ([ASM_BODY[2], ASM_BODY[3]] + jumps) == [ASM_BODY[1], ASM_BODY[2], ASM_BODY[3]] + jumps;
    assert [ASM_BODY[2]] + ([ASM_BODY[3]] + jumps) == [ASM_BODY[2], ASM_BODY[3]] + jumps;
    m1 := s4;
  }

  lemma Leaves(m: State, n: Word, rbp: Word, site: Word, fuel: nat)
    requires Running(m, n, 2, rbp, site)
    ensures var r := Machine.Run(LINKED, ASM, ASM_DONE, 3, m, fuel);
            r.Some? && r.value.0 == site && r.value.1.regs[RAX] == n
  {
    var m1 := Step(ASM_DONE[0], m).value;
    assert ASM_DONE[1..] == [NRet];
    assert Machine.Run(LINKED, ASM, ASM_DONE, 3, m, fuel) == Machine.Run(LINKED, ASM, [NRet], 3, m1, fuel);
  }

  lemma Returns(m: State, n: Word, site: Word, fuel: nat)
    requires m.Valid() && m.regs[RDI] == n && 24 <= m.rsp && m.rsp + 8 < WORD && fuel >= 3
    ensures var r := Machine.Invoke(LINKED, "rounds", site, m, fuel); r.Some? && r.value.regs[RAX] == Plus(n, 2)
  {
    hide Machine.Run, Running;
    FindsLabels();
    var m1 := Enters(m, n, site, fuel - 1);
    var m2 := Rounded(m1, n, 1, m.rbp, site, fuel - 1);
    var m3 := Rounded(m2, Plus(n, 1), 2, m.rbp, site, fuel - 2);
    Leaves(m3, Plus(Plus(n, 1), 1), m.rbp, site, fuel - 3);
  }

  // Its flags

  lemma AllMentions()
    ensures Mentions(FIRST) == {"p"} && Mentions(ROUND) == {"p", "i"} && Mentions(SECOND) == {"p"} &&
            Mentions(RESULT) == {"a"}
    ensures Mentions(INCREASE) == {"n", "a"} && Mentions(AGAIN) == {"i", "c"} && Mentions(LOOP) == {"c"}
  {
    assert P in FIRST.operands && P in ROUND.operands && P in SECOND.operands;
    assert V("n") in INCREASE.operands && V("i") in AGAIN.operands && V("c") in LOOP.operands &&
           V("a") in RESULT.operands;
  }

  /** What is mentioned after each place. */
  lemma Laters()
    ensures BlocksMention([DONE]) == {"a"} && BlocksMention([BODY, DONE]) == {"p", "i", "n", "a", "c"}
    ensures InstsMention([FIRST]) == {"p"} && InstsMention([LOOP]) == {"c"} && InstsMention([AGAIN, LOOP]) == {"i", "c"}
    ensures InstsMention([INCREASE, AGAIN, LOOP]) == {"n", "a", "i", "c"}
    ensures InstsMention([SECOND, INCREASE, AGAIN, LOOP]) == {"p", "n", "a", "i", "c"} && InstsMention([]) == {}
  {
    hide Mentions, InstsMention;
    AllMentions();
    MentionedNone();
    MentionedFirst(RESULT, [], {"a"});
    MentionedFirst(FIRST, [], {"p"});
    MentionedFirst(LOOP, [], {"c"});
    MentionedFirst(AGAIN, [LOOP], {"i", "c"});
    MentionedFirst(INCREASE, [AGAIN, LOOP], {"n", "a"});
    MentionedFirst(SECOND, [INCREASE, AGAIN, LOOP], {"p"});
    MentionedFirst(ROUND, [SECOND, INCREASE, AGAIN, LOOP], {"p", "i"});
    assert [RESULT] + [] == DONE.insts && [FIRST] + [] == [FIRST] && [LOOP] + [] == [LOOP] &&
           [AGAIN] + [LOOP] == [AGAIN, LOOP];
    assert [INCREASE] + [AGAIN, LOOP] == [INCREASE, AGAIN, LOOP];
    assert [SECOND] + [INCREASE, AGAIN, LOOP] == [SECOND, INCREASE, AGAIN, LOOP];
    assert [ROUND] + [SECOND, INCREASE, AGAIN, LOOP] == BODY.insts;
    assert [DONE][1..] == [] && [BODY, DONE][1..] == [DONE];
  }

  lemma EntryFlagged(i: nat)
    requires i < |ENTRY.insts|
    ensures Flagged(ENTRY.insts[i], InstsMention(ENTRY.insts[i + 1..]) + {"p", "i", "n", "a", "c"})
  {
    hide InstsMention;
    Laters();
    assert ENTRY.insts[1..] == [FIRST] && ENTRY.insts[2..] == [];
  }

  lemma BodyFlagged(i: nat)
    requires i < |BODY.insts|
    ensures Flagged(BODY.insts[i], InstsMention(BODY.insts[i + 1..]) + {"a"})
  {
    hide InstsMention;
    Laters();
    assert BODY.insts[1..] == [SECOND, INCREASE, AGAIN, LOOP] && BODY.insts[2..] == [INCREASE, AGAIN, LOOP];
    assert BODY.insts[3..] == [AGAIN, LOOP] && BODY.insts[4..] == [LOOP] && BODY.insts[5..] == [];
  }

  lemma BlocksAfter()
    ensures BlocksMention(ROUNDS.blocks[1..]) == {"p", "i", "n", "a", "c"}
    ensures BlocksMention(ROUNDS.blocks[2..]) == {"a"} && BlocksMention(ROUNDS.blocks[3..]) == {}
  {
    hide BlocksMention, InstsMention;
    Laters();
    MentionedNone();
    assert ROUNDS.blocks[1..] == [BODY, DONE] && ROUNDS.blocks[2..] == [DONE] && ROUNDS.blocks[3..] == [];
  }

  lemma PlaceFlagged(p: Place)
    requires IsPlace(ROUNDS.blocks, p)
    ensures Flagged(At(ROUNDS.blocks, p), Later(ROUNDS.blocks, p))
  {
    hide InstsMention, BlocksMention, Flagged;
    BlocksAfter();
    if p.0 == 0 {
      EntryFlagged(p.1);
    } else if p.0 == 1 {
      BodyFlagged(p.1);
    } else {
      ResultFlagged();
    }
  }

  /** The flags are those that the analysis sets. */
  lemma FlagsAreRight()
    ensures AllFlagged(ROUNDS.blocks)
  {
    hide Flagged, Later;
    forall p: Place | IsPlace(ROUNDS.blocks, p) ensures Flagged(At(ROUNDS.blocks, p), Later(ROUNDS.blocks, p)) {
      PlaceFlagged(p);
    }
  }

  lemma ResultFlagged()
    ensures Flagged(RESULT, InstsMention(DONE.insts[1..]) + {})
  {
    assert DONE.insts[1..] == [];
  }

  /** Its second round reads n again, which the first has dropped. */
  lemma SecondRound() returns (run: seq<Place>)
    ensures Passes(ROUNDS.blocks, run, 5, 10) && run[0] == (0, 0) && run[5] == run[10] == (1, 2)
    ensures "n" in DroppedNames(At(ROUNDS.blocks, (1, 2))) && "n" in Uses(At(ROUNDS.blocks, (1, 2)))
    ensures forall p | p in run :: !IsPlace(ROUNDS.blocks, p) || At(ROUNDS.blocks, p).result != Some("n")
  {
    hide FindBlock;
    FindsBlocks();
    run := [(0, 0), (0, 1), (0, 2), (1, 0), (1, 1), (1, 2), (1, 3), (1, 4), (1, 0), (1, 1), (1, 2)];
    assert V("n") in INCREASE.operands && INCREASE.dropped[0];
    assert "body" in Targets(LOOP.op);
  }

  lemma DropsUnsound()
    ensures AllFlagged(ROUNDS.blocks)
    ensures !DropsSound(ROUNDS.blocks, {(0, 0)}) && !ReadsFresh(ROUNDS.blocks, {(0, 0)})
  {
    hide AllFlagged, Definers, DroppedNames, Uses;
    FlagsAreRight();
    var run := SecondRound();
    assert "n" in Mentions(At(ROUNDS.blocks, run[10]));
    assert !Redefined(ROUNDS.blocks, run, 5, 10, "n") by { NeverDefined(run); }
  }

  lemma NeverDefined(run: seq<Place>)
    requires |run| > 10 && forall p | p in run :: !IsPlace(ROUNDS.blocks, p) || At(ROUNDS.blocks, p).result != Some("n")
    ensures !Redefined(ROUNDS.blocks, run, 5, 10, "n")
  {
    forall j | 5 <= j < 10 ensures run[j] !in Definers(ROUNDS.blocks, "n") {
      assert run[j] in run;
    }
  }

  /** Where control goes back to a name's last use, the generator is wrong: from every machine
      state that passes n, the compiled function returns n + 2 where the IR function returns
      n + 1, because the drop of n in the first round lets the sum replace it. */
  lemma BackEdgesBreakDrops(n: Word, site: Word, m: State, fuel: nat)
    requires m.Valid() && ArgsInPlace(m, [n], 1) && 24 <= m.rsp && m.rsp + 8 < WORD && fuel >= 3
    ensures AllFlagged(ROUNDS.blocks)
    ensures !DropsSound(ROUNDS.blocks, {(0, 0)}) && !ReadsFresh(ROUNDS.blocks, {(0, 0)})
    ensures CompileFunction({}, ROUNDS) == Ok(ASM)
    ensures IrSemantics.Invoke(PROGRAM, "rounds", [n], fuel, 1) == Some(Some(Plus(n, 1)))
    ensures var r := Machine.Invoke(map["rounds" := ASM], "rounds", site, m, fuel);
            r.Some? && r.value.regs[RAX] == Plus(n, 2)
    ensures Plus(n, 1) != Plus(n, 2)
  {
    hide CompileFunction, IrSemantics.Invoke, Machine.Invoke, DropsSound, ReadsFresh, AllFlagged;
    assert m.regs[ParamRegister(0)] == n;
    DropsUnsound();
    Compiled();
    Computes(n, fuel, 1);
    Returns(m, n, site, fuel);
  }
}
