/** The functions of the repository's Fibonacci example (examples/fibonacci.ir), with i64 for
    i32: what they compute, and that they meet the static condition. */
module Fibonacci {
  import opened Wrappers
  import opened Ir
  import opened Machine
  import opened IrSemantics
  import opened Storage
  import opened Lowering
  import opened Tampering
  import opened Ownership
  import opened Settling
  import opened Lifetime
  import opened ArgumentSetup
  import opened Generation
  import opened Correctness
  import opened Admissible
  import opened Footprint
  import opened Pipeline
  import opened Evaluation

  function Fib(n: nat): nat {
    if n <= 1 then n else Fib(n - 2) + Fib(n - 1)
  }

  const ONE := Lit(I64, 1)

  const COMPARE := Inst(Icmp(Ule), [V("n"), ONE], Some("1"), [], [false, false])
  const CHOOSE := Inst(Branch("base_case", "recursive_case"), [Var(I1, "1")], None, ["base_case", "recursive_case"],
                       [true])
  const BASE := Inst(Ret, [V("n")], None, [], [false])
  const MINUS_ONE := Inst(Arith(Sub), [V("n"), ONE], Some("2"), [], [true, false])
  const FIRST_CALL := Inst(Call("fib", I64), [V("2")], Some("3"), ["fib"], [false])
  const MINUS_TWO := Inst(Arith(Sub), [V("2"), ONE], Some("4"), [], [true, false])
  const SECOND_CALL := Inst(Call("fib", I64), [V("4")], Some("5"), ["fib"], [true])
  const SUM := Inst(Arith(Add), [V("5"), V("3")], Some("6"), [], [true, true])
  const DONE := Inst(Ret, [V("6")], None, [], [true])

  const ENTRY := Block("entry", [COMPARE, CHOOSE])
  const BASE_CASE := Block("base_case", [BASE])
  const RECURSIVE_CASE := Block("recursive_case", [MINUS_ONE, FIRST_CALL, MINUS_TWO, SECOND_CALL, SUM, DONE])

  const FIB := Function("fib", [("n", I64)], [ENTRY, BASE_CASE, RECURSIVE_CASE], I64)

  const CALL_FIB := Inst(Call("fib", I64), [Lit(I64, 10)], Some("1"), ["fib"], [false])
  const RETURN_IT := Inst(Ret, [V("1")], None, [], [true])

  const MAIN := Function("main", [], [Block("entry", [CALL_FIB, RETURN_IT])], I64)

  const PROGRAM: Program := map["main" := MAIN, "fib" := FIB]

  // What the function computes

  lemma FibFindsBlocks()
    ensures FindBlock(FIB.blocks, "base_case") == Some(1)
    ensures FindBlock(FIB.blocks, "recursive_case") == Some(2)
  {
    assert FIB.blocks[1..] == [BASE_CASE, RECURSIVE_CASE] && FIB.blocks[1..][1..] == [RECURSIVE_CASE];
    assert "entry"[0] != 'b' && "entry"[0] != 'r' && "base_case"[0] != 'r';
    assert FindBlock([RECURSIVE_CASE], "recursive_case") == Some(0);
    assert FindBlock([BASE_CASE, RECURSIVE_CASE], "recursive_case") == Some(1);
  }

  lemma IntsOfOne(env: Env, v: Value)
    ensures IntsOf(env, [v]) == match IntOf(env, v) case Some(w) => Some([w]) case None => None
  {
    assert [v][1..] == [] && IntsOf(env, []) == Some([]);
    if IntOf(env, v).Some? {
      assert [IntOf(env, v).value] + [] == [IntOf(env, v).value];
    }
  }

  /** The entry block goes to the base case for 0 and 1, else to the recursive case. */
  lemma EntryRuns(n: Word, fuel: nat, calls: nat)
    requires fuel > 0
    ensures var env := Env(map["n" := IntV(n)], map[]);
            var env1 := Env(map["n" := IntV(n), "1" := BoolV(n <= 1)], map[]);
            IrSemantics.Run(PROGRAM, FIB, ENTRY.insts, 0, env, fuel, calls) ==
              if n <= 1 then IrSemantics.Run(PROGRAM, FIB, BASE_CASE.insts, 1, env1, fuel - 1, calls)
              else IrSemantics.Run(PROGRAM, FIB, RECURSIVE_CASE.insts, 2, env1, fuel - 1, calls)
  {
    hide FindBlock;
    FibFindsBlocks();
    var env := Env(map["n" := IntV(n)], map[]);
    var env1 := Env(map["n" := IntV(n), "1" := BoolV(n <= 1)], map[]);
    assert Perform(COMPARE, env) == Some(env1);
    assert ENTRY.insts[1..] == [CHOOSE];
    assert BoolOf(env1, Var(I1, "1")) == Some(n <= 1);
    assert IrSemantics.Run(PROGRAM, FIB, [CHOOSE], 0, env1, fuel, calls) ==
           IrSemantics.Goto(PROGRAM, FIB, if n <= 1 then "base_case" else "recursive_case", env1, fuel, calls);
  }

  lemma BaseRuns(n: Word, fuel: nat, calls: nat)
    ensures IrSemantics.Run(PROGRAM, FIB, BASE_CASE.insts, 1, Env(map["n" := IntV(n), "1" := BoolV(n <= 1)], map[]),
                            fuel, calls) == Some(Some(n))
  {
  }

  lemma CallStep(insts: seq<Inst>, x: Name, y: Name, env: Env, a: Word, w: Word, fuel: nat, calls: nat)
    requires insts != [] && insts[0].op == Call("fib", I64) && insts[0].operands == [V(x)] && insts[0].result == Some(y)
    requires x in env.vals && env.vals[x] == IntV(a)
    requires IrSemantics.Invoke(PROGRAM, "fib", [a], fuel, calls) == Some(Some(w))
    ensures IrSemantics.Run(PROGRAM, FIB, insts, 2, env, fuel, calls) ==
            IrSemantics.Run(PROGRAM, FIB, insts[1..], 2, env.(vals := env.vals[y := IntV(w)]), fuel, calls)
  {
    hide IrSemantics.Invoke, IntsOf;
    IntsOfOne(env, V(x));
  }

  lemma ArithStep(insts: seq<Inst>, t: ArithType, v: Value, y: Name, env: Env, a: Word, b: Word, c: Word, fuel: nat,
                  calls: nat)
    requires insts != [] && insts[0].op == Arith(t) && |insts[0].operands| == 2 && insts[0].result == Some(y)
    requires IntOf(env, insts[0].operands[0]) == Some(a) && IntOf(env, insts[0].operands[1]) == Some(b) &&
             Arithmetic(t, a, b) == Some(c)
    ensures IrSemantics.Run(PROGRAM, FIB, insts, 2, env, fuel, calls) ==
            IrSemantics.Run(PROGRAM, FIB, insts[1..], 2, env.(vals := env.vals[y := IntV(c)]), fuel, calls)
  {
    hide IntOf, Arithmetic;
  }

  predicate Has(env: Env, x: Name, w: Word) {
    x in env.vals && env.vals[x] == IntV(w)
  }

  lemma WithHas(env: Env, x: Name, w: Word)
    ensures Has(With(env, x, IntV(w)), x, w)
    ensures forall y, v | y != x && Has(env, y, v) :: Has(With(env, x, IntV(w)), y, v)
  {
  }

  const FROM_CALL := [FIRST_CALL, MINUS_TWO, SECOND_CALL, SUM, DONE]
  const FROM_MINUS_TWO := [MINUS_TWO, SECOND_CALL, SUM, DONE]
  const FROM_SECOND_CALL := [SECOND_CALL, SUM, DONE]

  /** From the second call on. */
  lemma LastHalfRuns(env: Env, a: Word, b: Word, c: Word, fuel: nat, calls: nat)
    requires Has(env, "3", a) && Has(env, "4", c)
    requires IrSemantics.Invoke(PROGRAM, "fib", [c], fuel, calls) == Some(Some(b))
    ensures IrSemantics.Run(PROGRAM, FIB, FROM_SECOND_CALL, 2, env, fuel, calls) == Some(Some((a + b) % WORD))
  {
    hide IrSemantics.Invoke, IrSemantics.Run;
    assert FROM_SECOND_CALL[1..] == [SUM, DONE] && [SUM, DONE][1..] == [DONE];
    CallStep(FROM_SECOND_CALL, "4", "5", env, c, b, fuel, calls);
    var e1 := With(env, "5", IntV(b));
    WithHas(env, "5", b);
    ArithStep([SUM, DONE], Add, V("3"), "6", e1, b, a, (b + a) % WORD, fuel, calls);
    WithHas(e1, "6", (b + a) % WORD);
    DoneRuns(With(e1, "6", IntV((b + a) % WORD)), (b + a) % WORD, fuel, calls);
  }

  /** The recursive case adds the results of the two calls. */
  lemma RecursiveRuns(n: Word, a: Word, b: Word, fuel: nat, calls: nat)
    requires n >= 2
    requires IrSemantics.Invoke(PROGRAM, "fib", [n - 1], fuel, calls) == Some(Some(a)) &&
             IrSemantics.Invoke(PROGRAM, "fib", [n - 2], fuel, calls) == Some(Some(b))
    ensures IrSemantics.Run(PROGRAM, FIB, RECURSIVE_CASE.insts, 2,
                            Env(map["n" := IntV(n), "1" := BoolV(n <= 1)], map[]), fuel, calls) ==
            Some(Some((a + b) % WORD))
  {
    hide IrSemantics.Invoke, IrSemantics.Run, Has, With;
    assert RECURSIVE_CASE.insts[1..] == FROM_CALL && FROM_CALL[1..] == FROM_MINUS_TWO &&
           FROM_MINUS_TWO[1..] == FROM_SECOND_CALL;
    var e0 := Env(map["n" := IntV(n), "1" := BoolV(n <= 1)], map[]);
    assert Has(e0, "n", n) by { StartHas(n); }
    Difference(RECURSIVE_CASE.insts, "n", "2", e0, n, fuel, calls);
    var e1 := With(e0, "2", IntV(n - 1));
    WithHas(e0, "2", n - 1);
    FirstCallRuns(e1, n - 1, a, fuel, calls);
    var e2 := With(e1, "3", IntV(a));
    WithHas(e1, "3", a);
    Difference(FROM_MINUS_TWO, "2", "4", e2, n - 1, fuel, calls);
    WithHas(e2, "4", n - 2);
    LastHalfRuns(With(e2, "4", IntV(n - 2)), a, b, n - 2, fuel, calls);
  }

  lemma StartHas(n: Word)
    ensures Has(Env(map["n" := IntV(n), "1" := BoolV(n <= 1)], map[]), "n", n)
  {
  }

  /** A subtraction of 1. */
  lemma Difference(insts: seq<Inst>, x: Name, y: Name, env: Env, n: Word, fuel: nat, calls: nat)
    requires insts != [] && insts[0].op == Arith(Sub) && insts[0].operands == [V(x), ONE] &&
             insts[0].result == Some(y) && Has(env, x, n) && n > 0
    ensures IrSemantics.Run(PROGRAM, FIB, insts, 2, env, fuel, calls) ==
            IrSemantics.Run(PROGRAM, FIB, insts[1..], 2, With(env, y, IntV(n - 1)), fuel, calls)
  {
    hide IrSemantics.Run;
    ArithStep(insts, Sub, ONE, y, env, n, 1, n - 1, fuel, calls);
  }

  lemma FirstCallRuns(env: Env, c: Word, a: Word, fuel: nat, calls: nat)
    requires Has(env, "2", c) && IrSemantics.Invoke(PROGRAM, "fib", [c], fuel, calls) == Some(Some(a))
    ensures IrSemantics.Run(PROGRAM, FIB, FROM_CALL, 2, env, fuel, calls) ==
            IrSemantics.Run(PROGRAM, FIB, FROM_CALL[1..], 2, With(env, "3", IntV(a)), fuel, calls)
  {
    hide IrSemantics.Run, IrSemantics.Invoke;
    CallStep(FROM_CALL, "2", "3", env, c, a, fuel, calls);
  }

  lemma DoneRuns(env: Env, w: Word, fuel: nat, calls: nat)
    requires "6" in env.vals && env.vals["6"] == IntV(w)
    ensures IrSemantics.Run(PROGRAM, FIB, [DONE], 2, env, fuel, calls) == Some(Some(w))
  {
  }

  lemma Entered(n: Word, fuel: nat, calls: nat)
    requires fuel > 0 && calls > 0
    ensures IrSemantics.Invoke(PROGRAM, "fib", [n], fuel, calls) ==
            IrSemantics.Run(PROGRAM, FIB, ENTRY.insts, 0, Env(map["n" := IntV(n)], map[]), fuel - 1, calls - 1)
  {
    hide IrSemantics.Run;
    assert BindParams([("n", I64)], [n]) == map["n" := IntV(n)] by {
      assert [("n", I64)][..0] == [] && [n][..0] == [];
    }
  }

  /** How deep calls nest in a call of fib. */
  function Deep(n: nat): nat {
    if n == 0 then 1 else n
  }

  /** The IR program computes Fibonacci numbers modulo 2^64. */
  lemma {:induction false} FibComputes(n: Word, fuel: nat, calls: nat)
    requires fuel >= 2 * n + 2 && calls >= Deep(n)
    ensures IrSemantics.Invoke(PROGRAM, "fib", [n], fuel, calls) == Some(Some(Fib(n) % WORD))
    decreases n
  {
    hide IrSemantics.Run, IrSemantics.Invoke;
    Entered(n, fuel, calls);
    EntryRuns(n, fuel - 1, calls - 1);
    if n <= 1 {
      BaseRuns(n, fuel - 2, calls - 1);
    } else {
      FibComputes(n - 1, fuel - 2, calls - 1);
      FibComputes(n - 2, fuel - 2, calls - 1);
      RecursiveRuns(n, Fib(n - 1) % WORD, Fib(n - 2) % WORD, fuel - 2, calls - 1);
      SumModulo(Fib(n - 1), Fib(n - 2));
    }
  }

  lemma SumModulo(a: nat, b: nat)
    ensures (a % WORD + b % WORD) % WORD == (a + b) % WORD
  {
  }

  // It meets the static condition

  const REST: set<Name> := {"n", "2", "3", "4", "5", "6"}

  lemma UsedNames()
    ensures Uses(COMPARE) == {"n"} && Uses(CHOOSE) == {"1"} && Uses(BASE) == {"n"} && Uses(MINUS_ONE) == {"n"} &&
            Uses(FIRST_CALL) == {"2"}
    ensures Uses(MINUS_TWO) == {"2"} && Uses(SECOND_CALL) == {"4"} && Uses(SUM) == {"5", "3"} && Uses(DONE) == {"6"}
  {
    NamesOfTwo(V("n"), ONE);
    NamesOfTwo(Var(I1, "1"), ONE);
    NamesOfTwo(V("2"), ONE);
    NamesOfTwo(V("4"), ONE);
    NamesOfTwo(V("5"), V("3"));
    NamesOfTwo(V("6"), ONE);
  }

  /** What is needed after each instruction of the recursive case. */
  lemma RecursiveNeeds()
    ensures InstsMention([DONE]) == {"6"} && InstsMention([SUM, DONE]) == {"3", "5", "6"}
    ensures InstsMention([SECOND_CALL, SUM, DONE]) == {"3", "4", "5", "6"}
    ensures InstsMention([MINUS_TWO, SECOND_CALL, SUM, DONE]) == {"2", "3", "4", "5", "6"}
    ensures InstsMention([FIRST_CALL, MINUS_TWO, SECOND_CALL, SUM, DONE]) == {"2", "3", "4", "5", "6"}
    ensures InstsMention(RECURSIVE_CASE.insts) == REST
  {
    hide Mentions, Uses;
    MentionsAll();
    var d := [DONE];
    MentionedFirst(DONE, [], Mentions(DONE));
    assert [DONE] + [] == d;
    var s := [SUM, DONE];
    MentionedFirst(SUM, d, Mentions(SUM));
    assert [SUM] + d == s;
    var c := [SECOND_CALL, SUM, DONE];
    MentionedFirst(SECOND_CALL, s, Mentions(SECOND_CALL));
    assert [SECOND_CALL] + s == c;
    var m := [MINUS_TWO, SECOND_CALL, SUM, DONE];
    MentionedFirst(MINUS_TWO, c, Mentions(MINUS_TWO));
    assert [MINUS_TWO] + c == m;
    var f := [FIRST_CALL, MINUS_TWO, SECOND_CALL, SUM, DONE];
    MentionedFirst(FIRST_CALL, m, Mentions(FIRST_CALL));
    assert [FIRST_CALL] + m == f;
    MentionedFirst(MINUS_ONE, f, Mentions(MINUS_ONE));
    assert [MINUS_ONE] + f == RECURSIVE_CASE.insts;
  }

  lemma MentionsAll()
    ensures Mentions(COMPARE) == {"n", "1"} && Mentions(CHOOSE) == {"1"} && Mentions(BASE) == {"n"} &&
            Mentions(MINUS_ONE) == {"n", "2"}
    ensures Mentions(FIRST_CALL) == {"2", "3"} && Mentions(MINUS_TWO) == {"2", "4"} &&
            Mentions(SECOND_CALL) == {"4", "5"}
    ensures Mentions(SUM) == {"5", "3", "6"} && Mentions(DONE) == {"6"} && InstsMention([]) == {}
  {
    hide Uses;
    UsedNames();
  }

  lemma NeedsAre()
    ensures NeedFrom(FIB, 3) == {} && NeedFrom(FIB, 2) == REST && NeedFrom(FIB, 1) == REST &&
            InstsMention([CHOOSE]) == {"1"}
  {
    hide InstsMention, Mentions;
    MentionsAll();
    RecursiveNeeds();
    NeedStep(FIB, 2);
    NeedStep(FIB, 1);
    assert FIB.blocks[3..] == [] && BlocksMention([]) == {};
    MentionedFirst(BASE, [], Mentions(BASE));
    assert [BASE] + [] == BASE_CASE.insts;
    MentionedFirst(CHOOSE, [], Mentions(CHOOSE));
    assert [CHOOSE] + [] == [CHOOSE];
  }

  lemma UserNamesHere()
    ensures UserName("n") && UserName("1") && UserName("2") && UserName("3") && UserName("4") && UserName("5") &&
            UserName("6")
  {
  }

  const S_ENTRY := Shape(map["n" := InRegister], {})
  const S_COMPARED := Shape(map["n" := InRegister, "1" := Outcome], {})
  const S_2 := Shape(map["2" := InRegister], {"2"})
  const S_23 := Shape(map["2" := InRegister, "3" := InRegister], {"2", "3"})
  const S_34 := Shape(map["3" := InRegister, "4" := InRegister], {"3", "4"})
  const S_35 := Shape(map["3" := InRegister, "5" := InRegister], {"3", "5"})
  const S_6 := Shape(map["6" := InRegister], {"6"})
  const S_NONE := Shape(map[], {})

  lemma CompareAdmissible()
    ensures InstAdmissible(FIB, 0, S_ENTRY, COMPARE, [CHOOSE], {"1"} + REST) &&
            After(S_ENTRY, COMPARE, {"1"} + REST) == S_COMPARED
  {
    hide Uses, UserName;
    UserNamesHere();
    UsedNames();
  }

  lemma ChooseAdmissible()
    ensures InstAdmissible(FIB, 0, S_COMPARED, CHOOSE, [], REST) && After(S_COMPARED, CHOOSE, REST) == S_ENTRY
  {
    hide Uses, UserName, FindBlock;
    UserNamesHere();
    UsedNames();
    FibFindsBlocks();
  }

  lemma EntryAdmissible()
    ensures InstsAdmissible(FIB, 0, S_ENTRY, ENTRY.insts) &&
            AfterInsts(S_ENTRY, ENTRY.insts, NeedFrom(FIB, 1)) == S_ENTRY
  {
    hide NeedFrom, InstsMention, InstAdmissible, After;
    NeedsAre();
    assert InstsMention([]) == {} by { MentionsAll(); }
    CompareAdmissible();
    ChooseAdmissible();
    NothingAdmissible(FIB, 0, S_ENTRY);
    StepAdmissible(FIB, 0, [CHOOSE], CHOOSE, [], S_COMPARED, REST);
    StepAdmissible(FIB, 0, ENTRY.insts, COMPARE, [CHOOSE], S_ENTRY, {"1"} + REST);
  }

  lemma BaseAdmissible()
    ensures InstsAdmissible(FIB, 1, S_ENTRY, BASE_CASE.insts) &&
            AfterInsts(S_ENTRY, BASE_CASE.insts, NeedFrom(FIB, 2)) == S_ENTRY
  {
    hide NeedFrom, InstsMention, Uses, UserName;
    UserNamesHere();
    NeedsAre();
    UsedNames();
    assert BASE_CASE.insts[1..] == [];
    assert InstsMention([]) == {} by { MentionsAll(); }
    assert InstAdmissible(FIB, 1, S_ENTRY, BASE, [], {} + REST);
    assert After(S_ENTRY, BASE, {} + REST) == S_ENTRY;
  }

  lemma DifferenceAdmissible()
    ensures InstAdmissible(FIB, 2, S_ENTRY, MINUS_ONE, [FIRST_CALL, MINUS_TWO, SECOND_CALL, SUM, DONE],
                           {"2", "3", "4", "5", "6"}) && After(S_ENTRY, MINUS_ONE, {"2", "3", "4", "5", "6"}) == S_2
  {
    hide Uses, UserName;
    UserNamesHere();
    UsedNames();
  }

  lemma FirstCallAdmissible()
    ensures InstAdmissible(FIB, 2, S_2, FIRST_CALL, [MINUS_TWO, SECOND_CALL, SUM, DONE], {"2", "3", "4", "5", "6"}) &&
            After(S_2, FIRST_CALL, {"2", "3", "4", "5", "6"}) == S_23
  {
    hide Uses, UserName;
    UserNamesHere();
    UsedNames();
  }

  lemma SecondDifferenceAdmissible()
    ensures InstAdmissible(FIB, 2, S_23, MINUS_TWO, [SECOND_CALL, SUM, DONE], {"3", "4", "5", "6"}) &&
            After(S_23, MINUS_TWO, {"3", "4", "5", "6"}) == S_34
  {
    hide Uses, UserName;
    UserNamesHere();
    UsedNames();
  }

  lemma SecondCallAdmissible()
    ensures InstAdmissible(FIB, 2, S_34, SECOND_CALL, [SUM, DONE], {"3", "5", "6"}) &&
            After(S_34, SECOND_CALL, {"3", "5", "6"}) == S_35
  {
    hide Uses, UserName;
    UserNamesHere();
    UsedNames();
  }

  lemma SumAdmissible()
    ensures InstAdmissible(FIB, 2, S_35, SUM, [DONE], {"6"}) && After(S_35, SUM, {"6"}) == S_6
  {
    hide Uses, UserName;
    UserNamesHere();
    UsedNames();
  }

  lemma ReturnAdmissible()
    ensures InstAdmissible(FIB, 2, S_6, DONE, [], {}) && After(S_6, DONE, {}) == S_NONE
  {
    hide Uses, UserName;
    UserNamesHere();
    UsedNames();
  }

  lemma NothingAdmissible(f: Function, b: nat, sh: Shape)
    requires b < |f.blocks|
    ensures InstsAdmissible(f, b, sh, [])
  {
  }

  lemma RecursiveAdmissible()
    ensures InstsAdmissible(FIB, 2, S_ENTRY, RECURSIVE_CASE.insts)
  {
    hide InstsMention, InstsAdmissible, InstAdmissible, After;
    RecursiveNeeds();
    assert InstsMention([]) == {} by { MentionsAll(); }
    NeedsAre();
    ReturnAdmissible();
    NothingAdmissible(FIB, 2, S_NONE);
    StepAdmissible(FIB, 2, [DONE], DONE, [], S_6, {});
    SumAdmissible();
    StepAdmissible(FIB, 2, [SUM, DONE], SUM, [DONE], S_35, {"6"});
    SecondCallAdmissible();
    StepAdmissible(FIB, 2, FROM_SECOND_CALL, SECOND_CALL, [SUM, DONE], S_34, {"3", "5", "6"});
    SecondDifferenceAdmissible();
    StepAdmissible(FIB, 2, FROM_MINUS_TWO, MINUS_TWO, FROM_SECOND_CALL, S_23, {"3", "4", "5", "6"});
    FirstCallAdmissible();
    StepAdmissible(FIB, 2, FROM_CALL, FIRST_CALL, FROM_MINUS_TWO, S_2, {"2", "3", "4", "5", "6"});
    DifferenceAdmissible();
    StepAdmissible(FIB, 2, RECURSIVE_CASE.insts, MINUS_ONE, FROM_CALL, S_ENTRY, {"2", "3", "4", "5", "6"});
  }

  lemma FibAdmissible()
    ensures FunctionAdmissible(FIB)
  {
    hide InstsAdmissible, AfterInsts, NeedFrom, UserName;
    UserNamesHere();
    EntryAdmissible();
    BaseAdmissible();
    RecursiveAdmissible();
    assert ParamKinds(FIB.params) == S_ENTRY.kinds by { assert FIB.params[..0] == []; }
    assert ShapeAt(FIB, 0) == S_ENTRY && ShapeAt(FIB, 1) == S_ENTRY && ShapeAt(FIB, 2) == S_ENTRY;
  }

  const S_1 := Shape(map["1" := InRegister], {"1"})

  lemma MainNeeds()
    ensures InstsMention([RETURN_IT]) == {"1"} && InstsMention([]) == {} && NeedFrom(MAIN, 1) == {}
  {
    hide InstsMention, Uses;
    MentionedNone();
    assert Mentions(RETURN_IT) == {"1"} by { MainUses(); }
    MentionedFirst(RETURN_IT, [], {"1"});
    assert [RETURN_IT] + [] == [RETURN_IT] && MAIN.blocks[1..] == [];
  }

  lemma MainCallAdmissible()
    ensures InstAdmissible(MAIN, 0, S_NONE, CALL_FIB, [RETURN_IT], {"1"}) && After(S_NONE, CALL_FIB, {"1"}) == S_1
  {
    hide UserName, Uses;
    UserNamesHere();
    MainUses();
  }

  lemma MainReturnAdmissible()
    ensures InstAdmissible(MAIN, 0, S_1, RETURN_IT, [], {}) && After(S_1, RETURN_IT, {}) == S_NONE
  {
    hide UserName, Uses;
    UserNamesHere();
    MainUses();
  }

  lemma MainAdmissible()
    ensures FunctionAdmissible(MAIN)
  {
    hide InstAdmissible, InstsAdmissible, After, InstsMention, NeedFrom;
    MainNeeds();
    MainCallAdmissible();
    MainReturnAdmissible();
    NothingAdmissible(MAIN, 0, S_NONE);
    StepAdmissible(MAIN, 0, [RETURN_IT], RETURN_IT, [], S_1, {});
    assert MAIN.blocks[0].insts == [CALL_FIB] + [RETURN_IT];
    StepAdmissible(MAIN, 0, MAIN.blocks[0].insts, CALL_FIB, [RETURN_IT], S_NONE, {"1"});
    assert ShapeAt(MAIN, 0) == S_NONE;
  }

  lemma MainUses()
    ensures Uses(CALL_FIB) == {} && Uses(RETURN_IT) == {"1"}
  {
    NamesOfTwo(V("1"), ONE);
    NamesOfTwo(Lit(I64, 10), ONE);
  }

  /** Both functions of the example meet the static condition. */
  lemma ExampleAdmissible()
    ensures ProgramAdmissible(PROGRAM)
  {
    hide FunctionAdmissible, Frugal;
    FibAdmissible();
    MainAdmissible();
    FibFrugal();
  }

  lemma MostArgs(inst: Inst, rest: seq<Inst>)
    ensures MaxArgsInsts([inst] + rest) == Max(if inst.op.Call? then |inst.operands| else 0, MaxArgsInsts(rest))
  {
    assert ([inst] + rest)[1..] == rest;
  }

  lemma FibFrugal()
    ensures Frugal(FIB)
  {
    hide MaxArgsInsts;
    assert MaxArgsInsts([]) == 0 by { NoArgs(); }
    MostArgs(CHOOSE, []);
    MostArgs(COMPARE, [CHOOSE]);
    MostArgs(BASE, []);
    MostArgs(DONE, []);
    MostArgs(SUM, [DONE]);
    MostArgs(SECOND_CALL, [SUM, DONE]);
    MostArgs(MINUS_TWO, [SECOND_CALL, SUM, DONE]);
    MostArgs(FIRST_CALL, [MINUS_TWO, SECOND_CALL, SUM, DONE]);
    MostArgs(MINUS_ONE, [FIRST_CALL, MINUS_TWO, SECOND_CALL, SUM, DONE]);
    assert [CHOOSE] + [] == [CHOOSE] && [COMPARE] + [CHOOSE] == ENTRY.insts && [BASE] + [] == BASE_CASE.insts &&
           [DONE] + [] == [DONE];
    assert [SUM] + [DONE] == [SUM, DONE] && [SECOND_CALL] + [SUM, DONE] == [SECOND_CALL, SUM, DONE];
    assert [MINUS_TWO] + [SECOND_CALL, SUM, DONE] == [MINUS_TWO, SECOND_CALL, SUM, DONE];
    assert [FIRST_CALL] + [MINUS_TWO, SECOND_CALL, SUM, DONE] == [FIRST_CALL, MINUS_TWO, SECOND_CALL, SUM, DONE];
    assert [MINUS_ONE] + [FIRST_CALL, MINUS_TWO, SECOND_CALL, SUM, DONE] == RECURSIVE_CASE.insts;
    assert FIB.blocks[1..] == [BASE_CASE, RECURSIVE_CASE] && [BASE_CASE, RECURSIVE_CASE][1..] == [RECURSIVE_CASE] &&
           [RECURSIVE_CASE][1..] == [];
    assert MaxArgsBlocks([RECURSIVE_CASE]) == 1;
    assert MaxArgsBlocks([BASE_CASE, RECURSIVE_CASE]) == 1;
  }

  lemma NoArgs()
    ensures MaxArgsInsts([]) == 0
  {
  }

  lemma FibTen()
    ensures Fib(10) == 55
  {
    assert Fib(2) == 1 && Fib(3) == 2;
    assert Fib(4) == 3 && Fib(5) == 5;
    assert Fib(6) == 8 && Fib(7) == 13;
    assert Fib(8) == 21 && Fib(9) == 34;
  }

  lemma MainComputes(fuel: nat, calls: nat)
    requires fuel >= 23 && calls >= 11
    ensures IrSemantics.Invoke(PROGRAM, "main", [], fuel, calls) == Some(Some(55))
  {
    hide Fib, FindBlock;
    FibComputes(10, fuel - 1, calls - 1);
    FibTen();
    var env := Env(map[], map[]);
    var insts := MAIN.blocks[0].insts;
    IntsOfOne(env, Lit(I64, 10));
    assert insts[1..] == [RETURN_IT];
    CallOfMain(fuel - 1, calls - 1);
  }

  lemma CallOfMain(fuel: nat, calls: nat)
    requires IrSemantics.Invoke(PROGRAM, "fib", [10], fuel, calls) == Some(Some(55))
    ensures IrSemantics.Run(PROGRAM, MAIN, MAIN.blocks[0].insts, 0, Env(map[], map[]), fuel, calls) == Some(Some(55))
  {
    hide IrSemantics.Invoke, IntsOf;
    IntsOfOne(Env(map[], map[]), Lit(I64, 10));
    assert MAIN.blocks[0].insts[1..] == [RETURN_IT];
  }
}
