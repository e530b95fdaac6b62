/** A loop that is compiled correctly: control goes back only to code that reads names which
    are needed further down as well, so none of them is dropped on the way. */
module Factorial {
  import opened Wrappers
  import opened Ir
  import opened Machine
  import opened IrSemantics
  import opened Storage
  import opened Lowering
  import opened Ownership
  import opened Settling
  import opened Lifetime
  import opened Reaching
  import opened ArgumentSetup
  import opened Generation
  import opened Correctness
  import opened Admissible
  import opened Footprint
  import opened Pipeline
  import opened Evaluation
  import Conditions

  function Product(n: nat): nat {
    if n == 0 then 1 else n * Product(n - 1)
  }

  function At8(x: Name): Value {
    Var(Ptr, x)
  }

  const COUNTER := Inst(Allocate(8), [], Some("i"), [], [])
  const TOTAL := Inst(Allocate(8), [], Some("s"), [], [])
  const START := Inst(Op.Store(I64), [At8("i"), V("n")], None, [], [false, true])
  const UNIT := Inst(Op.Store(I64), [At8("s"), L(1)], None, [], [false, false])

  const LOAD_C := Inst(Load(I64), [At8("i")], Some("c"), [], [false])
  const LOAD_A := Inst(Load(I64), [At8("s")], Some("a"), [], [false])
  const TIMES := Inst(Arith(Mul), [V("a"), V("c")], Some("b"), [], [true, false])
  const STORE_B := Inst(Op.Store(I64), [At8("s"), V("b")], None, [], [false, true])
  const LESS := Inst(Arith(Sub), [V("c"), L(1)], Some("d"), [], [true, false])
  const STORE_D := Inst(Op.Store(I64), [At8("i"), V("d")], None, [], [false, false])
  const MORE := Inst(Icmp(Ugt), [V("d"), L(0)], Some("t"), [], [true, false])
  const AGAIN := Inst(Branch("body", "done"), [V("t")], None, ["body", "done"], [true])

  const LOAD_R := Inst(Load(I64), [At8("s")], Some("r"), [], [true])
  const LOAD_Z := Inst(Load(I64), [At8("i")], Some("z"), [], [true])
  const SUM := Inst(Arith(Add), [V("r"), V("z")], Some("w"), [], [true, true])
  const RESULT := Inst(Ret, [V("w")], None, [], [true])

  const ENTRY := Block("entry", [COUNTER, TOTAL, START, UNIT])
  const BODY := Block("body", [LOAD_C, LOAD_A, TIMES, STORE_B, LESS, STORE_D, MORE, AGAIN])
  const DONE := Block("done", [LOAD_R, LOAD_Z, SUM, RESULT])

  /** The counter, which is 0 in the end, is read after the loop: without that the lifetime
      analysis would drop it in the first round. */
  const FACTORIAL := Function("factorial", [("n", I64)], [ENTRY, BODY, DONE], I64)

  const PROGRAM: Program := map["factorial" := FACTORIAL]

  // What the function computes

  lemma FindsBlocks()
    ensures FindBlock(FACTORIAL.blocks, "body") == Some(1) && FindBlock(FACTORIAL.blocks, "done") == Some(2)
  {
    assert FACTORIAL.blocks[1..] == [BODY, DONE] && [BODY, DONE][1..] == [DONE];
    assert "entry"[0] != 'b' && "entry"[0] != 'd' && "body"[0] != 'd';
    assert FindBlock([DONE], "done") == Some(0);
    assert FindBlock([BODY, DONE], "done") == Some(1);
  }

  /** The counter is k and the product so far is w. */
  predicate InRound(env: Env, k: Word, w: Word) {
    "i" in env.vals && env.vals["i"] == PtrV(8) && "i" in env.cells && env.cells["i"] == k &&
    "s" in env.vals && env.vals["s"] == PtrV(8) && "s" in env.cells && env.cells["s"] == w
  }

  lemma EntryValues(n: Word) returns (e1: Env, e2: Env, e3: Env, e4: Env)
    ensures Perform(COUNTER, Env(map["n" := IntV(n)], map[])) == Some(e1) && Perform(TOTAL, e1) == Some(e2)
    ensures Perform(START, e2) == Some(e3) && Perform(UNIT, e3) == Some(e4) && InRound(e4, n, 1)
  {
    e1 := Perform(COUNTER, Env(map["n" := IntV(n)], map[])).value;
    e2 := Perform(TOTAL, e1).value;
    e3 := Perform(START, e2).value;
    e4 := Perform(UNIT, e3).value;
  }

  lemma EntryRuns(n: Word, fuel: nat, calls: nat) returns (env: Env)
    ensures InRound(env, n, 1)
    ensures IrSemantics.Run(PROGRAM, FACTORIAL, ENTRY.insts, 0, Env(map["n" := IntV(n)], map[]), fuel, calls) ==
            IrSemantics.Run(PROGRAM, FACTORIAL, BODY.insts, 1, env, fuel, calls)
  {
    hide Perform, InRound;
    var e0 := Env(map["n" := IntV(n)], map[]);
    var e1, e2, e3, e4 := EntryValues(n);
    OneInst(PROGRAM, FACTORIAL, COUNTER, [TOTAL, START, UNIT], 0, e0, e1, fuel, calls);
    OneInst(PROGRAM, FACTORIAL, TOTAL, [START, UNIT], 0, e1, e2, fuel, calls);
    OneInst(PROGRAM, FACTORIAL, START, [UNIT], 0, e2, e3, fuel, calls);
    OneInst(PROGRAM, FACTORIAL, UNIT, [], 0, e3, e4, fuel, calls);
    assert ENTRY.insts == [COUNTER] + [TOTAL, START, UNIT] && [TOTAL, START, UNIT] == [TOTAL] + [START, UNIT];
    assert [START, UNIT] == [START] + [UNIT] && [UNIT] == [UNIT] + [];
    env := e4;
  }

  lemma FirstHalf(env: Env, k: Word, w: Word) returns (e1: Env, e2: Env, e3: Env, e4: Env)
    requires InRound(env, k, w)
    ensures Perform(LOAD_C, env) == Some(e1) && Perform(LOAD_A, e1) == Some(e2)
    ensures Perform(TIMES, e2) == Some(e3) && Perform(STORE_B, e3) == Some(e4)
    ensures InRound(e4, k, (w * k) % WORD) && IntOf(e4, V("c")) == Some(k)
  {
    e1 := With(env, "c", IntV(k));
    e2 := With(e1, "a", IntV(w));
    e3 := With(e2, "b", IntV((w * k) % WORD));
    e4 := e3.(cells := e3.cells["s" := (w * k) % WORD]);
    assert Perform(LOAD_C, env) == Some(e1);
    assert Perform(LOAD_A, e1) == Some(e2);
    assert Perform(TIMES, e2) == Some(e3);
    assert Perform(STORE_B, e3) == Some(e4);
  }

  lemma SecondHalf(env: Env, k: Word, w: Word) returns (e1: Env, e2: Env, e3: Env)
    requires InRound(env, k, w) && IntOf(env, V("c")) == Some(k) && k > 0
    ensures Perform(LESS, env) == Some(e1) && Perform(STORE_D, e1) == Some(e2) && Perform(MORE, e2) == Some(e3)
    ensures InRound(e3, k - 1, w) && BoolOf(e3, V("t")) == Some(k - 1 > 0)
  {
    e1 := With(env, "d", IntV(k - 1));
    e2 := e1.(cells := e1.cells["i" := k - 1]);
    e3 := With(e2, "t", BoolV(k - 1 > 0));
    assert Perform(LESS, env) == Some(e1);
    assert Perform(STORE_D, e1) == Some(e2);
    assert Perform(MORE, e2) == Some(e3);
  }

  const HALF_OF_BODY := [LESS, STORE_D, MORE, AGAIN]

  lemma FirstHalfRuns(env: Env, k: Word, w: Word, fuel: nat, calls: nat) returns (e4: Env)
    requires InRound(env, k, w)
    ensures InRound(e4, k, (w * k) % WORD) && IntOf(e4, V("c")) == Some(k)
    ensures IrSemantics.Run(PROGRAM, FACTORIAL, BODY.insts, 1, env, fuel, calls) ==
            IrSemantics.Run(PROGRAM, FACTORIAL, HALF_OF_BODY, 1, e4, fuel, calls)
  {
    hide IrSemantics.Run, Perform, InRound, With, IntOf;
    var e1, e2, e3, end := FirstHalf(env, k, w);
    e4 := end;
    OneInst(PROGRAM, FACTORIAL, LOAD_C, [LOAD_A, TIMES, STORE_B] + HALF_OF_BODY, 1, env, e1, fuel, calls);
    OneInst(PROGRAM, FACTORIAL, LOAD_A, [TIMES, STORE_B] + HALF_OF_BODY, 1, e1, e2, fuel, calls);
    OneInst(PROGRAM, FACTORIAL, TIMES, [STORE_B] + HALF_OF_BODY, 1, e2, e3, fuel, calls);
    OneInst(PROGRAM, FACTORIAL, STORE_B, HALF_OF_BODY, 1, e3, e4, fuel, calls);
    assert BODY.insts == [LOAD_C] + ([LOAD_A, TIMES, STORE_B] + HALF_OF_BODY);
    assert [LOAD_A, TIMES, STORE_B] + HALF_OF_BODY == [LOAD_A] + ([TIMES, STORE_B] + HALF_OF_BODY);
    assert [TIMES, STORE_B] + HALF_OF_BODY == [TIMES] + ([STORE_B] + HALF_OF_BODY);
  }

  lemma BodyRuns(env: Env, k: Word, w: Word, fuel: nat, calls: nat) returns (env1: Env)
    requires InRound(env, k, w) && k > 0
    ensures InRound(env1, k - 1, (w * k) % WORD)
    ensures IrSemantics.Run(PROGRAM, FACTORIAL, BODY.insts, 1, env, fuel, calls) ==
            IrSemantics.Goto(PROGRAM, FACTORIAL, if k - 1 > 0 then "body" else "done", env1, fuel, calls)
  {
    hide IrSemantics.Goto, IrSemantics.Run, Perform, InRound, With, IntOf, BoolOf;
    var e4 := FirstHalfRuns(env, k, w, fuel, calls);
    var e5, e6, e7 := SecondHalf(e4, k, (w * k) % WORD);
    env1 := e7;
    OneInst(PROGRAM, FACTORIAL, LESS, [STORE_D, MORE, AGAIN], 1, e4, e5, fuel, calls);
    OneInst(PROGRAM, FACTORIAL, STORE_D, [MORE, AGAIN], 1, e5, e6, fuel, calls);
    OneInst(PROGRAM, FACTORIAL, MORE, [AGAIN], 1, e6, env1, fuel, calls);
    assert HALF_OF_BODY == [LESS] + [STORE_D, MORE, AGAIN];
    assert [STORE_D, MORE, AGAIN] == [STORE_D] + [MORE, AGAIN] && [MORE, AGAIN] == [MORE] + [AGAIN];
    BranchRuns(env1, k - 1 > 0, fuel, calls);
  }

  lemma BranchRuns(env: Env, again: bool, fuel: nat, calls: nat)
    requires BoolOf(env, V("t")) == Some(again)
    ensures IrSemantics.Run(PROGRAM, FACTORIAL, [AGAIN], 1, env, fuel, calls) ==
            IrSemantics.Goto(PROGRAM, FACTORIAL, if again then "body" else "done", env, fuel, calls)
  {
    hide IrSemantics.Goto;
  }

  lemma LastValues(env: Env, w: Word) returns (e1: Env, e2: Env, e3: Env)
    requires InRound(env, 0, w)
    ensures Perform(LOAD_R, env) == Some(e1) && Perform(LOAD_Z, e1) == Some(e2) && Perform(SUM, e2) == Some(e3)
    ensures IntOf(e3, V("w")) == Some(w)
  {
    e1 := With(env, "r", IntV(w));
    e2 := With(e1, "z", IntV(0));
    e3 := With(e2, "w", IntV(w));
    assert Perform(LOAD_R, env) == Some(e1);
    assert Perform(LOAD_Z, e1) == Some(e2);
    assert Perform(SUM, e2) == Some(e3);
  }

  lemma DoneRuns(env: Env, w: Word, fuel: nat, calls: nat)
    requires InRound(env, 0, w)
    ensures IrSemantics.Run(PROGRAM, FACTORIAL, DONE.insts, 2, env, fuel, calls) == Some(Some(w))
  {
    hide Perform, InRound, IntOf;
    var e1, e2, e3 := LastValues(env, w);
    OneInst(PROGRAM, FACTORIAL, LOAD_R, [LOAD_Z, SUM, RESULT], 2, env, e1, fuel, calls);
    OneInst(PROGRAM, FACTORIAL, LOAD_Z, [SUM, RESULT], 2, e1, e2, fuel, calls);
    OneInst(PROGRAM, FACTORIAL, SUM, [RESULT], 2, e2, e3, fuel, calls);
    assert DONE.insts == [LOAD_R] + [LOAD_Z, SUM, RESULT] && [LOAD_Z, SUM, RESULT] == [LOAD_Z] + [SUM, RESULT];
    assert [SUM, RESULT] == [SUM] + [RESULT];
  }

  lemma ProductStep(w: nat, k: nat)
    requires k > 0
    ensures (((w * k) % WORD) * Product(k - 1)) % WORD == (w * Product(k)) % WORD
  {
    var p := Product(k - 1);
    assert w * Product(k) == (w * k) * p by { assert Product(k) == k * p; }
    ModTimes(w * k, p);
  }

  lemma ModTimes(a: nat, b: nat)
    ensures ((a % WORD) * b) % WORD == (a * b) % WORD
  {
    var q := a / WORD;
    assert a * b == (a % WORD) * b + (q * b) * WORD by { assert a == (a % WORD) + q * WORD; }
    ModPlus((a % WORD) * b, q * b);
  }

  lemma {:induction false} ModPlus(a: nat, q: nat)
    ensures (a + q * WORD) % WORD == a % WORD
  {
    if q > 0 {
      ModPlus(a, q - 1);
      assert a + q * WORD == (a + (q - 1) * WORD) + WORD;
    }
  }

  lemma {:induction false} LoopRuns(env: Env, k: Word, w: Word, fuel: nat, calls: nat)
    requires InRound(env, k, w) && k > 0 && fuel >= k
    ensures IrSemantics.Run(PROGRAM, FACTORIAL, BODY.insts, 1, env, fuel, calls) == Some(Some((w * Product(k)) % WORD))
    decreases k
  {
    hide IrSemantics.Run, InRound;
    FindsBlocks();
    var env1 := BodyRuns(env, k, w, fuel, calls);
    ProductStep(w, k);
    if k - 1 > 0 {
      LoopRuns(env1, k - 1, (w * k) % WORD, fuel - 1, calls);
    } else {
      DoneRuns(env1, (w * k) % WORD, fuel - 1, calls);
    }
  }

  /** The loop computes the factorial modulo 2^64. */
  lemma Computes(n: Word, fuel: nat, calls: nat)
    requires n > 0 && fuel >= n + 1 && calls > 0
    ensures IrSemantics.Invoke(PROGRAM, "factorial", [n], fuel, calls) == Some(Some(Product(n) % WORD))
  {
    hide IrSemantics.Run;
    assert BindParams([("n", I64)], [n]) == map["n" := IntV(n)] by {
      assert [("n", I64)][..0] == [] && [n][..0] == [];
    }
    var env := EntryRuns(n, fuel - 1, calls - 1);
    LoopRuns(env, n, 1, fuel - 1, calls - 1);
  }

  // It meets the static condition

  lemma AllMentions()
    ensures Mentions(COUNTER) == {"i"} && Mentions(TOTAL) == {"s"} && Mentions(START) == {"i", "n"} &&
            Mentions(UNIT) == {"s"}
    ensures Mentions(LOAD_C) == {"i", "c"} && Mentions(LOAD_A) == {"s", "a"} && Mentions(TIMES) == {"a", "c", "b"}
    ensures Mentions(STORE_B) == {"s", "b"} && Mentions(LESS) == {"c", "d"} && Mentions(STORE_D) == {"i", "d"}
    ensures Mentions(MORE) == {"d", "t"} && Mentions(AGAIN) == {"t"}
    ensures Mentions(LOAD_R) == {"s", "r"} && Mentions(LOAD_Z) == {"i", "z"} && Mentions(SUM) == {"r", "z", "w"} &&
            Mentions(RESULT) == {"w"}
  {
    hide Uses;
    EntryUses();
    BodyUses();
    HalfUses();
    DoneUses();
  }

  lemma EntryUses()
    ensures Uses(COUNTER) == Uses(TOTAL) == {} && Uses(START) == {"i", "n"} && Uses(UNIT) == {"s"}
  {
    NamesOfTwo(At8("i"), V("n"));
    NamesOfTwo(At8("s"), L(1));
  }

  lemma BodyUses()
    ensures Uses(LOAD_C) == {"i"} && Uses(LOAD_A) == {"s"} && Uses(TIMES) == {"a", "c"} && Uses(STORE_B) == {"s", "b"}
  {
    NamesOfTwo(At8("i"), L(1));
    NamesOfTwo(At8("s"), V("b"));
    NamesOfTwo(V("a"), V("c"));
  }

  lemma HalfUses()
    ensures Uses(LESS) == {"c"} && Uses(STORE_D) == {"i", "d"} && Uses(MORE) == {"d"} && Uses(AGAIN) == {"t"}
  {
    NamesOfTwo(V("c"), L(1));
    NamesOfTwo(At8("i"), V("d"));
    NamesOfTwo(V("d"), L(0));
    NamesOfTwo(V("t"), L(0));
  }

  lemma DoneUses()
    ensures Uses(LOAD_R) == {"s"} && Uses(LOAD_Z) == {"i"} && Uses(SUM) == {"r", "z"} && Uses(RESULT) == {"w"}
  {
    NamesOfTwo(At8("s"), L(0));
    NamesOfTwo(At8("i"), L(0));
    NamesOfTwo(V("r"), V("z"));
    NamesOfTwo(V("w"), L(0));
  }

  const FROM_START := [START, UNIT]
  const FROM_LOAD_A := [LOAD_A, TIMES, STORE_B, LESS, STORE_D, MORE, AGAIN]
  const FROM_TIMES := [TIMES, STORE_B, LESS, STORE_D, MORE, AGAIN]
  const FROM_STORE_B := [STORE_B, LESS, STORE_D, MORE, AGAIN]
  const FROM_STORE_D := [STORE_D, MORE, AGAIN]
  const FROM_MORE := [MORE, AGAIN]

  const DONE_NEEDS: set<Name> := {"s", "i", "r", "z", "w"}
  const NEEDS: set<Name> := DONE_NEEDS + {"a", "b", "c", "d", "t"}

  lemma DoneNeeds()
    ensures InstsMention([RESULT]) == {"w"} && InstsMention([SUM, RESULT]) == {"r", "z", "w"}
    ensures InstsMention([LOAD_Z, SUM, RESULT]) == {"i", "r", "z", "w"} && InstsMention(DONE.insts) == DONE_NEEDS
  {
    hide InstsMention, Mentions;
    AllMentions();
    MentionedNone();
    MentionedFirst(RESULT, [], {"w"});
    MentionedFirst(SUM, [RESULT], {"r", "z", "w"});
    MentionedFirst(LOAD_Z, [SUM, RESULT], {"i", "z"});
    MentionedFirst(LOAD_R, [LOAD_Z, SUM, RESULT], {"s", "r"});
    assert [RESULT] + [] == [RESULT] && [SUM] + [RESULT] == [SUM, RESULT] &&
           [LOAD_Z] + [SUM, RESULT] == [LOAD_Z, SUM, RESULT];
    assert [LOAD_R] + [LOAD_Z, SUM, RESULT] == DONE.insts;
  }

  lemma BodyNeeds()
    ensures InstsMention([AGAIN]) == {"t"} && InstsMention(FROM_MORE) == {"d", "t"} &&
            InstsMention(FROM_STORE_D) == {"i", "d", "t"}
    ensures InstsMention(HALF_OF_BODY) == {"i", "c", "d", "t"} &&
            InstsMention(FROM_STORE_B) == {"s", "b", "i", "c", "d", "t"}
    ensures InstsMention(FROM_TIMES) == {"a", "s", "b", "i", "c", "d", "t"}
    ensures InstsMention(FROM_LOAD_A) == InstsMention(BODY.insts) == {"a", "s", "b", "i", "c", "d", "t"}
  {
    hide InstsMention, Mentions;
    AllMentions();
    MentionedNone();
    MentionedFirst(AGAIN, [], {"t"});
    MentionedFirst(MORE, [AGAIN], {"d", "t"});
    MentionedFirst(STORE_D, FROM_MORE, {"i", "d"});
    MentionedFirst(LESS, FROM_STORE_D, {"c", "d"});
    MentionedFirst(STORE_B, HALF_OF_BODY, {"s", "b"});
    MentionedFirst(TIMES, FROM_STORE_B, {"a", "c", "b"});
    MentionedFirst(LOAD_A, FROM_TIMES, {"s", "a"});
    MentionedFirst(LOAD_C, FROM_LOAD_A, {"i", "c"});
    assert [AGAIN] + [] == [AGAIN] && [MORE] + [AGAIN] == FROM_MORE && [STORE_D] + FROM_MORE == FROM_STORE_D;
    assert [LESS] + FROM_STORE_D == HALF_OF_BODY && [STORE_B] + HALF_OF_BODY == FROM_STORE_B;
    assert [TIMES] + FROM_STORE_B == FROM_TIMES && [LOAD_A] + FROM_TIMES == FROM_LOAD_A &&
           [LOAD_C] + FROM_LOAD_A == BODY.insts;
  }

  lemma EntryNeeds()
    ensures InstsMention([UNIT]) == {"s"} && InstsMention(FROM_START) == {"i", "n", "s"} &&
            InstsMention([TOTAL] + FROM_START) == {"i", "n", "s"}
  {
    hide InstsMention, Mentions;
    AllMentions();
    MentionedNone();
    MentionedFirst(UNIT, [], {"s"});
    MentionedFirst(START, [UNIT], {"i", "n"});
    MentionedFirst(TOTAL, FROM_START, {"s"});
    assert [UNIT] + [] == [UNIT] && [START] + [UNIT] == FROM_START;
  }

  lemma NeedsAre()
    ensures NeedFrom(FACTORIAL, 3) == {} && NeedFrom(FACTORIAL, 2) == DONE_NEEDS && NeedFrom(FACTORIAL, 1) == NEEDS
  {
    hide InstsMention;
    DoneNeeds();
    BodyNeeds();
    MentionedNone();
    NeedStep(FACTORIAL, 2);
    NeedStep(FACTORIAL, 1);
    assert FACTORIAL.blocks[3..] == [];
  }

  lemma UserNamesHere()
    ensures UserName("i") && UserName("s") && UserName("n") && UserName("a") && UserName("b") && UserName("c") &&
            UserName("d")
    ensures UserName("t") && UserName("r") && UserName("z") && UserName("w")
  {
  }

  const S_START := Shape(map["n" := InRegister], {})
  const S_I := Shape(map["n" := InRegister, "i" := Pointer], {})
  const S_IS := Shape(map["n" := InRegister, "i" := Pointer, "s" := Pointer], {})
  const S_LOOP := Shape(map["i" := Pointer, "s" := Pointer], {})
  const S_C := Shape(map["i" := Pointer, "s" := Pointer, "c" := InRegister], {"c"})
  const S_CA := Shape(map["i" := Pointer, "s" := Pointer, "c" := InRegister, "a" := InRegister], {"c", "a"})
  const S_CB := Shape(map["i" := Pointer, "s" := Pointer, "c" := InRegister, "b" := InRegister], {"c", "b"})
  const S_D := Shape(map["i" := Pointer, "s" := Pointer, "d" := InRegister], {"d"})
  const S_T := Shape(map["i" := Pointer, "s" := Pointer, "t" := Outcome], {})
  const S_R := Shape(map["i" := Pointer, "r" := InRegister], {"r"})
  const S_RZ := Shape(map["r" := InRegister, "z" := InRegister], {"r", "z"})
  const S_W := Shape(map["w" := InRegister], {"w"})
  const S_NONE := Shape(map[], {})

  /** An instruction is admissible in a shape, and leads to another. */
  ghost predicate Leads(b: nat, sh: Shape, inst: Inst, rest: seq<Inst>, stay: set<Name>, next: Shape)
    requires b < |FACTORIAL.blocks|
  {
    InstAdmissible(FACTORIAL, b, sh, inst, rest, stay) && After(sh, inst, stay) == next
  }

  lemma EntryLeads()
    ensures Leads(0, S_START, COUNTER, [TOTAL] + FROM_START, {"n"} + NEEDS, S_I)
    ensures Leads(0, S_I, TOTAL, FROM_START, {"n"} + NEEDS, S_IS)
  {
    hide Uses, UserName;
    EntryUses();
    UserNamesHere();
  }

  lemma StartLeads()
    ensures Leads(0, S_IS, START, [UNIT], NEEDS, S_LOOP)
  {
    hide Uses, UserName;
    EntryUses();
    UserNamesHere();
  }

  lemma UnitLeads()
    ensures Leads(0, S_LOOP, UNIT, [], NEEDS, S_LOOP)
  {
    hide Uses, UserName;
    EntryUses();
    UserNamesHere();
  }

  lemma FewHeld(x: Name, y: Name)
    ensures LowPressure({}) && LowPressure({x}) && LowPressure({x, y})
  {
  }

  lemma LoadCPressure()
    ensures LowPressure(S_LOOP.held - Gone(LOAD_C, NEEDS))
  {
    hide Uses, LowPressure;
    BodyUses();
    assert Gone(LOAD_C, NEEDS) == {} && S_LOOP.held - {} == {};
    FewHeld("c", "a");
  }

  lemma LoadCAfter()
    ensures After(S_LOOP, LOAD_C, NEEDS) == S_C
  {
    hide Uses;
    BodyUses();
  }

  lemma LoadCLeads()
    ensures Leads(1, S_LOOP, LOAD_C, FROM_LOAD_A, NEEDS, S_C)
  {
    hide Uses, UserName, LowPressure, Gone, After;
    BodyUses();
    UserNamesHere();
    LoadCPressure();
    LoadCAfter();
  }

  lemma LoadAPressure()
    ensures LowPressure(S_C.held - Gone(LOAD_A, NEEDS))
  {
    hide Uses, LowPressure;
    BodyUses();
    assert Gone(LOAD_A, NEEDS) == {} && S_C.held - {} == {"c"};
    FewHeld("c", "a");
  }

  lemma LoadAAfter()
    ensures After(S_C, LOAD_A, NEEDS) == S_CA
  {
    hide Uses;
    BodyUses();
  }

  lemma LoadALeads()
    ensures Leads(1, S_C, LOAD_A, FROM_TIMES, NEEDS, S_CA)
  {
    hide Uses, UserName, LowPressure, Gone, After;
    BodyUses();
    UserNamesHere();
    LoadAPressure();
    LoadAAfter();
  }

  lemma TimesLeads()
    ensures Leads(1, S_CA, TIMES, FROM_STORE_B, NEEDS - {"a"}, S_CB)
  {
    hide Uses, UserName;
    BodyUses();
    UserNamesHere();
  }

  lemma StoreBLeads()
    ensures Leads(1, S_CB, STORE_B, HALF_OF_BODY, DONE_NEEDS + {"c", "d", "t"}, S_C)
  {
    hide Uses, UserName;
    BodyUses();
    UserNamesHere();
  }

  lemma LessLeads()
    ensures Leads(1, S_C, LESS, FROM_STORE_D, DONE_NEEDS + {"d", "t"}, S_D)
  {
    hide Uses, UserName;
    HalfUses();
    UserNamesHere();
  }

  lemma StoreDLeads()
    ensures Leads(1, S_D, STORE_D, FROM_MORE, DONE_NEEDS + {"d", "t"}, S_D)
  {
    hide Uses, UserName;
    HalfUses();
    UserNamesHere();
  }

  lemma MoreLeads()
    ensures Leads(1, S_D, MORE, [AGAIN], DONE_NEEDS + {"t"}, S_T)
  {
    hide Uses, UserName;
    HalfUses();
    UserNamesHere();
  }

  lemma LoadRPressure()
    ensures LowPressure(S_LOOP.held - Gone(LOAD_R, {"i", "r", "z", "w"}))
  {
    hide Uses, LowPressure;
    DoneUses();
    assert Gone(LOAD_R, {"i", "r", "z", "w"}) == {"s"} && S_LOOP.held - {"s"} == {};
    FewHeld("r", "z");
  }

  lemma LoadRAfter()
    ensures After(S_LOOP, LOAD_R, {"i", "r", "z", "w"}) == S_R
  {
    hide Uses;
    DoneUses();
  }

  lemma LoadRLeads()
    ensures Leads(2, S_LOOP, LOAD_R, [LOAD_Z, SUM, RESULT], {"i", "r", "z", "w"}, S_R)
  {
    hide Uses, UserName, LowPressure, Gone, After;
    DoneUses();
    UserNamesHere();
    LoadRPressure();
    LoadRAfter();
  }

  lemma LoadZPressure()
    ensures LowPressure(S_R.held - Gone(LOAD_Z, {"r", "z", "w"}))
  {
    hide Uses, LowPressure;
    DoneUses();
    assert Gone(LOAD_Z, {"r", "z", "w"}) == {"i"} && S_R.held - {"i"} == {"r"};
    FewHeld("r", "z");
  }

  lemma LoadZAfter()
    ensures After(S_R, LOAD_Z, {"r", "z", "w"}) == S_RZ
  {
    hide Uses;
    DoneUses();
  }

  lemma LoadZLeads()
    ensures Leads(2, S_R, LOAD_Z, [SUM, RESULT], {"r", "z", "w"}, S_RZ)
  {
    hide Uses, UserName, LowPressure, Gone, After;
    DoneUses();
    UserNamesHere();
    LoadZPressure();
    LoadZAfter();
  }

  lemma SumLeads()
    ensures Leads(2, S_RZ, SUM, [RESULT], {"w"}, S_W)
  {
    hide Uses, UserName;
    DoneUses();
    UserNamesHere();
  }

  lemma ResultLeads()
    ensures Leads(2, S_W, RESULT, [], {}, S_NONE)
  {
    hide Uses, UserName;
    DoneUses();
    UserNamesHere();
  }

  // The loop

  /** Places of block 1 up to i, and places of block 2 up to j. */
  function Region(i: nat, j: nat): set<Place> {
    (set k: nat | k <= i :: (1, k)) + (set k: nat | k < j :: (2, k))
  }

  lemma EdgesOfLoop(q: Place)
    requires IsPoint(FACTORIAL.blocks, q) && 1 <= q.0 <= 2
    ensures q == (1, 7) ==> Next(FACTORIAL.blocks, q) == {(1, 0), (2, 0)}
    ensures q == (2, 3) ==> Next(FACTORIAL.blocks, q) == {}
    ensures (q.0 == 1 && q.1 < 7) || (q.0 == 2 && q.1 < 3) ==> Next(FACTORIAL.blocks, q) == {(q.0, q.1 + 1)}
  {
    hide FindBlock;
    FindsBlocks();
    if q == (1, 7) {
      assert "body" in Targets(AGAIN.op) && "done" in Targets(AGAIN.op);
      assert Next(FACTORIAL.blocks, q) == {(1, 0), (2, 0)};
    }
  }

  /** Names that are not read in a region which only their definitions leave. */
  lemma NotLiveInLoop(x: Name, i: nat, j: nat)
    requires (i < 7 && j == 0) || (i == 7 && 1 <= j <= 4)
    requires forall k | 0 <= k <= i :: x !in Uses(BODY.insts[k])
    requires forall k | 0 <= k < j :: x !in Uses(DONE.insts[k])
    requires i < 7 ==> Defines(BODY.insts[i], x)
    requires 0 < j < 4 ==> Defines(DONE.insts[j - 1], x)
    ensures !Live(FACTORIAL.blocks, (1, 0), x)
  {
    hide Uses, Next, Live, Defines, Points;
    var region := Region(i, j);
    forall q | q in region
      ensures IsPlace(FACTORIAL.blocks, q) && x !in Uses(At(FACTORIAL.blocks, q))
      ensures q in Points(FACTORIAL.blocks)
      ensures !Defines(At(FACTORIAL.blocks, q), x) ==> Next(FACTORIAL.blocks, q) <= region
    {
      EdgesOfLoop(q);
    }
    NotLive(FACTORIAL.blocks, (1, 0), x, region);
  }

  /** Names that the body gives a value before it reads them. */
  lemma LocalsNotLive(x: Name)
    requires x in {"a", "b", "c", "d", "t"}
    ensures !Live(FACTORIAL.blocks, (1, 0), x)
  {
    hide Live, Uses;
    BodyUses();
    HalfUses();
    if x == "c" {
      NotLiveInLoop(x, 0, 0);
    } else if x == "a" {
      NotLiveInLoop(x, 1, 0);
    } else if x == "b" {
      NotLiveInLoop(x, 2, 0);
    } else if x == "d" {
      NotLiveInLoop(x, 4, 0);
    } else {
      NotLiveInLoop(x, 6, 0);
    }
  }

  lemma OnlyPointersLive(x: Name)
    requires x in {"n"} + NEEDS && Live(FACTORIAL.blocks, (1, 0), x)
    ensures x == "i" || x == "s"
  {
    hide Live, Uses;
    BodyUses();
    HalfUses();
    DoneUses();
    if x == "n" {
      NotLiveInLoop(x, 7, 4);
    } else if x == "c" || x == "a" || x == "b" || x == "d" || x == "t" {
      LocalsNotLive(x);
    } else if x == "r" {
      NotLiveInLoop(x, 7, 1);
    } else if x == "z" {
      NotLiveInLoop(x, 7, 2);
    } else if x == "w" {
      NotLiveInLoop(x, 7, 3);
    }
  }

  lemma AllBlocksMention()
    ensures BlocksMention(FACTORIAL.blocks) == {"n"} + NEEDS
  {
    hide InstsMention, Mentions;
    NeedsAre();
    EntryNeeds();
    AllMentions();
    MentionedFirst(COUNTER, [TOTAL] + FROM_START, {"i"});
    assert [COUNTER] + ([TOTAL] + FROM_START) == ENTRY.insts;
    NeedStep(FACTORIAL, 0);
    assert FACTORIAL.blocks[0..] == FACTORIAL.blocks;
  }

  lemma ShapeOfLoop()
    requires ShapeAt(FACTORIAL, 1) == S_LOOP
    ensures LoopAdmissible(FACTORIAL, 1, DONE_NEEDS)
  {
    hide Live;
    AllBlocksMention();
    forall x | x in BlocksMention(FACTORIAL.blocks) && Live(FACTORIAL.blocks, (1, 0), x)
      ensures x in ShapeAt(FACTORIAL, 1).kinds && x in DONE_NEEDS
    {
      OnlyPointersLive(x);
    }
  }

  lemma AgainLeads()
    requires ShapeAt(FACTORIAL, 1) == S_LOOP
    ensures Leads(1, S_T, AGAIN, [], DONE_NEEDS, S_LOOP)
  {
    hide Uses, UserName, FindBlock, LoopAdmissible;
    HalfUses();
    UserNamesHere();
    FindsBlocks();
    ShapeOfLoop();
    assert AGAIN.op.onTrue != STACKSAVE && AGAIN.op.onFalse != STACKSAVE;
    assert JumpAdmissible(FACTORIAL, 1, [], "body", DONE_NEEDS) && JumpAdmissible(FACTORIAL, 1, [], "done", DONE_NEEDS);
  }

  lemma Step(b: nat, insts: seq<Inst>, inst: Inst, rest: seq<Inst>, sh: Shape, stay: set<Name>, next: Shape)
    requires b < |FACTORIAL.blocks| && insts == [inst] + rest && InstsMention(rest) + NeedFrom(FACTORIAL, b + 1) == stay
    requires Leads(b, sh, inst, rest, stay, next) && InstsAdmissible(FACTORIAL, b, next, rest)
    ensures InstsAdmissible(FACTORIAL, b, sh, insts)
    ensures AfterInsts(sh, insts, NeedFrom(FACTORIAL, b + 1)) == AfterInsts(next, rest, NeedFrom(FACTORIAL, b + 1))
  {
    hide InstAdmissible, After;
    StepAdmissible(FACTORIAL, b, insts, inst, rest, sh, stay);
  }

  lemma NothingLeft(b: nat, sh: Shape, after: set<Name>)
    requires b < |FACTORIAL.blocks|
    ensures InstsAdmissible(FACTORIAL, b, sh, []) && AfterInsts(sh, [], after) == sh
  {
  }

  lemma EntryAdmissible()
    ensures InstsAdmissible(FACTORIAL, 0, S_START, ENTRY.insts)
    ensures AfterInsts(S_START, ENTRY.insts, NeedFrom(FACTORIAL, 1)) == S_LOOP
  {
    hide Leads, InstsAdmissible, AfterInsts, InstsMention, NeedFrom;
    NeedsAre();
    EntryNeeds();
    MentionedNone();
    EntryLeads();
    StartLeads();
    UnitLeads();
    NothingLeft(0, S_LOOP, NeedFrom(FACTORIAL, 1));
    Step(0, [UNIT], UNIT, [], S_LOOP, NEEDS, S_LOOP);
    Step(0, FROM_START, START, [UNIT], S_IS, NEEDS, S_LOOP);
    Step(0, [TOTAL] + FROM_START, TOTAL, FROM_START, S_I, {"n"} + NEEDS, S_IS);
    Step(0, ENTRY.insts, COUNTER, [TOTAL] + FROM_START, S_START, {"n"} + NEEDS, S_I);
  }

  lemma HalfAdmissible()
    requires ShapeAt(FACTORIAL, 1) == S_LOOP
    ensures InstsAdmissible(FACTORIAL, 1, S_C, HALF_OF_BODY)
    ensures AfterInsts(S_C, HALF_OF_BODY, NeedFrom(FACTORIAL, 2)) == S_LOOP
  {
    hide Leads, InstsAdmissible, AfterInsts, InstsMention, NeedFrom, ShapeAt;
    NeedsAre();
    BodyNeeds();
    MentionedNone();
    AgainLeads();
    NothingLeft(1, S_LOOP, NeedFrom(FACTORIAL, 2));
    Step(1, [AGAIN], AGAIN, [], S_T, DONE_NEEDS, S_LOOP);
    MoreLeads();
    Step(1, FROM_MORE, MORE, [AGAIN], S_D, DONE_NEEDS + {"t"}, S_T);
    StoreDLeads();
    Step(1, FROM_STORE_D, STORE_D, FROM_MORE, S_D, DONE_NEEDS + {"d", "t"}, S_D);
    LessLeads();
    Step(1, HALF_OF_BODY, LESS, FROM_STORE_D, S_C, DONE_NEEDS + {"d", "t"}, S_D);
  }

  lemma BodyAdmissible()
    requires ShapeAt(FACTORIAL, 1) == S_LOOP
    ensures InstsAdmissible(FACTORIAL, 1, S_LOOP, BODY.insts)
    ensures AfterInsts(S_LOOP, BODY.insts, NeedFrom(FACTORIAL, 2)) == S_LOOP
  {
    hide Leads, InstsAdmissible, AfterInsts, InstsMention, NeedFrom, ShapeAt;
    NeedsAre();
    BodyNeeds();
    HalfAdmissible();
    StoreBLeads();
    Step(1, FROM_STORE_B, STORE_B, HALF_OF_BODY, S_CB, DONE_NEEDS + {"c", "d", "t"}, S_C);
    TimesLeads();
    Step(1, FROM_TIMES, TIMES, FROM_STORE_B, S_CA, NEEDS - {"a"}, S_CB);
    LoadALeads();
    Step(1, FROM_LOAD_A, LOAD_A, FROM_TIMES, S_C, NEEDS, S_CA);
    LoadCLeads();
    Step(1, BODY.insts, LOAD_C, FROM_LOAD_A, S_LOOP, NEEDS, S_C);
  }

  lemma DoneAdmissible()
    ensures InstsAdmissible(FACTORIAL, 2, S_LOOP, DONE.insts)
  {
    hide Leads, InstsAdmissible, AfterInsts, InstsMention, NeedFrom;
    NeedsAre();
    DoneNeeds();
    MentionedNone();
    NothingLeft(2, S_NONE, {});
    ResultLeads();
    Step(2, [RESULT], RESULT, [], S_W, {}, S_NONE);
    SumLeads();
    Step(2, [SUM, RESULT], SUM, [RESULT], S_RZ, {"w"}, S_W);
    LoadZLeads();
    Step(2, [LOAD_Z, SUM, RESULT], LOAD_Z, [SUM, RESULT], S_R, {"r", "z", "w"}, S_RZ);
    LoadRLeads();
    Step(2, DONE.insts, LOAD_R, [LOAD_Z, SUM, RESULT], S_LOOP, {"i", "r", "z", "w"}, S_R);
  }

  lemma NoCallsHere()
    ensures CalleesFrugal(PROGRAM, FACTORIAL)
  {
  }

  lemma FactorialAdmissible()
    ensures ProgramAdmissible(PROGRAM)
  {
    hide InstsAdmissible, AfterInsts, NeedFrom, UserName, CalleesFrugal;
    UserNamesHere();
    EntryAdmissible();
    assert ParamKinds(FACTORIAL.params) == S_START.kinds by { assert FACTORIAL.params[..0] == []; }
    assert ShapeAt(FACTORIAL, 0) == S_START && ShapeAt(FACTORIAL, 1) == S_LOOP;
    BodyAdmissible();
    assert ShapeAt(FACTORIAL, 2) == S_LOOP;
    DoneAdmissible();
    NoCallsHere();
  }

  /** The compiled loop returns the factorial of n modulo 2^64 in rax, from every machine state
      that passes n in rdi and has 56 bytes of stack. */
  lemma CompiledFactorial(n: Word)
    requires n > 0
    ensures CompileFunction({}, FACTORIAL).Ok?
    ensures var asm := map["factorial" := CompileFunction({}, FACTORIAL).value];
            CallsComeBack(asm, PROGRAM, "factorial", [n], 56, n + 1, Some(Product(n) % WORD))
  {
    hide ProgramAdmissible, IrSemantics.Invoke, CompileFunction, CallsComeBack, Product, StackFor, BytesOf;
    FactorialAdmissible();
    Computes(n, n + 1, 1);
    assert Prepared(PROGRAM, PROGRAM) by {
      assert SameProgram(PROGRAM, PROGRAM);
    }
    BackendIsCorrect({}, PROGRAM, PROGRAM, "factorial", [n], n + 1, 1, Some(Product(n) % WORD));
    assert "factorial" in PROGRAM;
    var asm := Compile({}, PROGRAM);
    assert asm == map["factorial" := CompileFunction({}, FACTORIAL).value];
    TwoCells();
    AdmissibleStack({}, PROGRAM, 16, 1);
    LessStack(asm, PROGRAM, "factorial", [n], StackFor(asm, 1), 56, n + 1, Some(Product(n) % WORD));
  }

  lemma TwoCells()
    ensures BytesOf(FACTORIAL.blocks) == 16
  {
    hide BytesOf;
    assert ENTRY.insts[1..] == [TOTAL, START, UNIT] && [TOTAL, START, UNIT][1..] == [START, UNIT];
    NoBytes([START, UNIT]);
    assert BytesOfInsts([TOTAL, START, UNIT]) == 8;
    NoBytes(BODY.insts);
    NoBytes(DONE.insts);
    BytesThen([], ENTRY);
    BytesThen([ENTRY], BODY);
    BytesThen([ENTRY, BODY], DONE);
    assert [] + [ENTRY] == [ENTRY] && [ENTRY] + [BODY] == [ENTRY, BODY] && [ENTRY, BODY] + [DONE] == FACTORIAL.blocks;
  }
}
