/** The backend as a whole: dead blocks are eliminated, lifetimes analyzed and functions
    generated; the assembly program computes what the source program computes. */
module Pipeline {
  import opened Wrappers
  import opened Ir
  import opened Machine
  import opened IrSemantics
  import opened Storage
  import opened Lowering
  import opened Simulation
  import opened Lifetime
  import opened ArgumentSetup
  import opened Generation
  import opened Frames
  import opened Correctness
  import opened Admissible
  import opened Footprint
  import DeadBlocks
  import Generator
  import Lexer
  import Parser

  // Drop flags have no meaning of their own

  /** Two programs whose functions differ at most in their drop flags. */
  ghost predicate SameProgram(p: Program, q: Program) {
    p.Keys == q.Keys && forall g | g in p :: SameCode(p[g], q[g])
  }

  ghost predicate SameInsts(xs: seq<Inst>, ys: seq<Inst>) {
    |xs| == |ys| && forall i | 0 <= i < |xs| :: SameInst(xs[i], ys[i])
  }

  lemma {:induction false} SameFind(bs: seq<Block>, cs: seq<Block>, l: Name)
    requires |bs| == |cs| && forall b | 0 <= b < |bs| :: bs[b].name == cs[b].name
    ensures FindBlock(bs, l) == FindBlock(cs, l)
  {
    if bs != [] && bs[0].name != l {
      SameFind(bs[1..], cs[1..], l);
    }
  }

  lemma SameBlockInsts(f: Function, g: Function, b: nat)
    requires SameCode(f, g) && b < |f.blocks|
    ensures b < |g.blocks| && SameInsts(f.blocks[b].insts, g.blocks[b].insts)
  {
    assert SameBlock(f.blocks[b], g.blocks[b]);
  }

  lemma SameRest(xs: seq<Inst>, ys: seq<Inst>)
    requires SameInsts(xs, ys) && xs != []
    ensures SameInst(xs[0], ys[0]) && SameInsts(xs[1..], ys[1..])
  {
    assert forall i | 0 <= i < |xs| - 1 :: xs[1..][i] == xs[i + 1] && ys[1..][i] == ys[i + 1];
  }

  lemma {:induction false} SameGoto(p: Program, q: Program, f: Function, g: Function, l: Name, env: Env, fuel: nat,
                                    calls: nat)
    requires SameProgram(p, q) && SameCode(f, g)
    ensures IrSemantics.Goto(p, f, l, env, fuel, calls) == IrSemantics.Goto(q, g, l, env, fuel, calls)
    decreases fuel, 0
  {
    hide SameProgram, SameInsts, IrSemantics.Run;
    assert forall b | 0 <= b < |f.blocks| :: SameBlock(f.blocks[b], g.blocks[b]);
    SameFind(f.blocks, g.blocks, l);
    if fuel > 0 && FindBlock(f.blocks, l).Some? {
      var t := FindBlock(f.blocks, l).value;
      SameBlockInsts(f, g, t);
      SameRun(p, q, f, g, f.blocks[t].insts, g.blocks[t].insts, t, env, fuel - 1, calls);
    }
  }

  lemma {:induction false} SameInvoke(p: Program, q: Program, g: Name, args: seq<Word>, fuel: nat, calls: nat)
    requires SameProgram(p, q)
    ensures IrSemantics.Invoke(p, g, args, fuel, calls) == IrSemantics.Invoke(q, g, args, fuel, calls)
    decreases fuel, 0
  {
    hide SameInsts, IrSemantics.Run, BindParams;
    if fuel > 0 && calls > 0 && g in p {
      assert SameCode(p[g], q[g]);
      if p[g].blocks != [] && |p[g].params| == |args| {
        SameBlockInsts(p[g], q[g], 0);
        SameRun(p, q, p[g], q[g], p[g].blocks[0].insts, q[g].blocks[0].insts, 0,
                Env(BindParams(p[g].params, args), map[]), fuel - 1, calls - 1);
      }
    }
  }

  lemma {:induction false} SameRun(p: Program, q: Program, f: Function, g: Function, xs: seq<Inst>, ys: seq<Inst>,
                                   b: nat, env: Env, fuel: nat, calls: nat)
    requires SameProgram(p, q) && SameCode(f, g) && SameInsts(xs, ys) && b < |f.blocks|
    ensures b < |g.blocks|
    ensures IrSemantics.Run(p, f, xs, b, env, fuel, calls) == IrSemantics.Run(q, g, ys, b, env, fuel, calls)
    decreases fuel, |f.blocks| - b, |xs|
  {
    hide SameProgram, SameInsts, IrSemantics.Goto, IrSemantics.Invoke, IntsOf, IntOf, BoolOf, Perform, SameBlocks;
    SameBlockInsts(f, g, b);
    SameSize(f, g, xs, ys);
    if xs == [] {
      if b + 1 < |f.blocks| {
        SameBlockInsts(f, g, b + 1);
        SameRun(p, q, f, g, f.blocks[b + 1].insts, g.blocks[b + 1].insts, b + 1, env, fuel, calls);
      }
    } else {
      SameRest(xs, ys);
      var inst := xs[0];
      if inst.op.Jmp? {
        SameGoto(p, q, f, g, inst.op.target, env, fuel, calls);
      } else if inst.op.Branch? {
        SameGoto(p, q, f, g, inst.op.onTrue, env, fuel, calls);
        SameGoto(p, q, f, g, inst.op.onFalse, env, fuel, calls);
      } else if inst.op.Call? {
        if IntsOf(env, inst.operands).Some? {
          var args := IntsOf(env, inst.operands).value;
          SameInvoke(p, q, inst.op.callee, args, fuel, calls);
          var v := IrSemantics.Invoke(p, inst.op.callee, args, fuel, calls);
          if v.Some? && inst.result.None? {
            SameRun(p, q, f, g, xs[1..], ys[1..], b, env, fuel, calls);
          } else if v.Some? && v.value.Some? {
            SameRun(p, q, f, g, xs[1..], ys[1..], b, Bind(env, inst.result, IntV(v.value.value)), fuel, calls);
          }
        }
      } else if !inst.op.Ret? {
        SamePerform(inst, ys[0], env);
        if Perform(inst, env).Some? {
          SameRun(p, q, f, g, xs[1..], ys[1..], b, Perform(inst, env).value, fuel, calls);
        }
      }
    }
  }

  lemma SameSize(f: Function, g: Function, xs: seq<Inst>, ys: seq<Inst>)
    requires SameCode(f, g) && SameInsts(xs, ys)
    ensures |f.blocks| == |g.blocks| && |xs| == |ys|
  {
  }

  lemma SamePerform(a: Inst, b: Inst, env: Env)
    requires SameInst(a, b)
    ensures Perform(a, env) == Perform(b, env)
  {
  }

  // Programs

  /** The assembly of a program all of whose functions compile. */
  function Compile(globals: set<Name>, p: Program): AsmProgram
    requires forall g | g in p :: CompileFunction(globals, p[g]).Ok?
  {
    map g | g in p :: CompileFunction(globals, p[g]).value
  }

  /** Every function meets the static condition, and callees are frugal. */
  ghost predicate ProgramAdmissible(p: Program) {
    forall g | g in p :: FunctionAdmissible(p[g]) && CalleesFrugal(p, p[g])
  }

  lemma AdmissibleProgramsLink(globals: set<Name>, p: Program)
    requires ProgramAdmissible(p)
    ensures forall g | g in p :: CompileFunction(globals, p[g]).Ok?
    ensures Linked(globals, p, Compile(globals, p))
  {
    hide FunctionAdmissible, CompileFunction, FunctionSafe, CalleesFrugal;
    forall g | g in p ensures CompileFunction(globals, p[g]).Ok? && FunctionSafe(globals, p[g]) {
      AdmissibleFunctionsAreSafe(globals, p[g]);
    }
  }

  /** The most stack that a call of one of some functions takes. */
  ghost function LargestOf(asm: AsmProgram, names: set<Name>): (k: nat)
    requires names <= asm.Keys
    ensures forall g | g in names :: Activation(asm[g]) <= k
    ensures if names == {} then k == 0 else exists g | g in names :: Activation(asm[g]) == k
    decreases |names|
  {
    if names == {} then 0
    else
      var g :| g in names;
      var rest := LargestOf(asm, names - {g});
      assert forall h | h in names :: h == g || h in names - {g};
      if Activation(asm[g]) < rest then rest else Activation(asm[g])
  }

  ghost function LargestActivation(asm: AsmProgram): nat {
    LargestOf(asm, asm.Keys)
  }

  lemma LargestIsLargest(asm: AsmProgram)
    ensures FramesWithin(asm, LargestActivation(asm))
  {
  }

  function Stacked(calls: nat, k: nat): nat {
    calls * k
  }

  /** Stack below the caller that is enough for calls that nest so deep. */
  ghost function StackFor(asm: AsmProgram, calls: nat): nat {
    Stacked(calls, LargestActivation(asm)) + 8
  }

  /** What is to be compiled from p: dead blocks of every function eliminated, if at all,
      then drop flags attached. */
  ghost predicate Prepared(p: Program, q: Program) {
    exists r: Program :: (r == p || DeadBlocks.Reduced(p, r)) && SameProgram(r, q)
  }

  /** The backend is correct: if elimination and analysis make an admissible program q of
      p, and a function of p returns v on the arguments over calls that nest no deeper than
      calls says, then the call of the compiled function comes back with v in rax, and with
      everything but rax and argument registers as it was, from every machine state with
      stack for that many calls. */
  lemma BackendIsCorrect(globals: set<Name>, p: Program, q: Program, g: Name, args: seq<Word>, fuel: nat, calls: nat,
                         v: Option<Word>)
    requires Prepared(p, q) && ProgramAdmissible(q) && |args| <= MAX_ARGS &&
             IrSemantics.Invoke(p, g, args, fuel, calls) == Some(v)
    ensures forall h | h in q :: CompileFunction(globals, q[h]).Ok?
    ensures CallsComeBack(Compile(globals, q), q, g, args, StackFor(Compile(globals, q), calls), fuel, v)
  {
    hide ProgramAdmissible, DeadBlocks.Reduced, SameProgram, IrSemantics.Invoke, CompileFunction, Linked, Compile,
         ArgsInPlace, ComesBack, LargestActivation, FramesWithin;
    var r: Program :| (r == p || DeadBlocks.Reduced(p, r)) && SameProgram(r, q);
    if r != p {
      DeadBlocks.InvokeSame(p, r, g, args, fuel, calls);
    }
    SameInvoke(r, q, g, args, fuel, calls);
    AdmissibleProgramsLink(globals, q);
    var asm := Compile(globals, q);
    var k := LargestActivation(asm);
    LargestIsLargest(asm);
    forall site: Word, m: State |
      m.Valid() && ArgsInPlace(m, args, |args|) && StackFor(asm, calls) <= m.rsp && m.rsp + 8 < WORD
      ensures ComesBack(asm, q, g, site, m, fuel, v)
    {
      CallComesBack(globals, q, asm, k, g, args, site, m, fuel, calls, v);
    }
  }

  /** The stack is bounded by what the functions allocate. */
  lemma AdmissibleStack(globals: set<Name>, p: Program, bytes: nat, calls: nat)
    requires ProgramAdmissible(p) && forall g | g in p :: BytesOf(p[g].blocks) <= bytes
    ensures forall g | g in p :: CompileFunction(globals, p[g]).Ok?
    ensures StackFor(Compile(globals, p), calls) <= calls * (bytes + 32) + 8
  {
    hide FunctionAdmissible, CompileFunction, BytesOf, Activation, LargestActivation, CalleesFrugal;
    AdmissibleProgramsLink(globals, p);
    var asm := Compile(globals, p);
    forall g | g in p ensures Activation(asm[g]) <= bytes + 32 {
      AdmissibleFootprint(globals, p[g]);
    }
    LargestWithin(asm, bytes + 32);
    Multiplied(calls, LargestActivation(asm), bytes + 32);
  }

  lemma LargestWithin(asm: AsmProgram, k: nat)
    requires FramesWithin(asm, k)
    ensures LargestActivation(asm) <= k
  {
  }

  lemma Multiplied(n: nat, a: nat, b: nat)
    requires a <= b
    ensures n * a <= n * b
  {
  }

  /** Calls come back with v from every machine state that passes args and has the stack. */
  ghost predicate CallsComeBack(asm: AsmProgram, p: Program, g: Name, args: seq<Word>, stack: nat, fuel: nat,
                                v: Option<Word>)
    requires |args| <= MAX_ARGS
  {
    forall site: Word, m: State | m.Valid() && ArgsInPlace(m, args, |args|) && stack <= m.rsp && m.rsp + 8 < WORD ::
      ComesBack(asm, p, g, site, m, fuel, v)
  }

  lemma LessStack(asm: AsmProgram, p: Program, g: Name, args: seq<Word>, stack: nat, more: nat, fuel: nat,
                  v: Option<Word>)
    requires |args| <= MAX_ARGS && stack <= more && CallsComeBack(asm, p, g, args, stack, fuel, v)
    ensures CallsComeBack(asm, p, g, args, more, fuel, v)
  {
    hide ComesBack, ArgsInPlace;
  }

  /** The call of a compiled function returns v and keeps its caller's state. */
  ghost predicate ComesBack(asm: AsmProgram, p: Program, g: Name, site: Word, m: State, fuel: nat, v: Option<Word>)
    requires m.Valid()
  {
    g in p && Machine.Invoke(asm, g, site, m, fuel).Some? &&
    var m1 := Machine.Invoke(asm, g, site, m, fuel).value;
    (v.Some? ==> m1.regs[RAX] == v.value) && m1.rsp == m.rsp && m1.rbp == m.rbp &&
    SameFrom(m.mem, m1.mem, m.rsp) && RegsWithin(m, m1, Scratch(p[g]))
  }

  lemma CallComesBack(globals: set<Name>, p: Program, asm: AsmProgram, k: nat, g: Name, args: seq<Word>, site: Word,
                      m: State, fuel: nat, calls: nat, v: Option<Word>)
    requires Linked(globals, p, asm) && FramesWithin(asm, k) && IrSemantics.Invoke(p, g, args, fuel, calls) == Some(v)
    requires m.Valid() && |args| <= MAX_ARGS && ArgsInPlace(m, args, |args|) && calls * k + 8 <= m.rsp &&
             m.rsp + 8 < WORD
    ensures ComesBack(asm, p, g, site, m, fuel, v)
  {
    hide Linked, FramesWithin, IrSemantics.Invoke, Machine.Invoke, Scratch, SameFrom, RegsWithin;
    var m1 := CompiledCallsReturnResults(globals, p, asm, k, g, args, site, m, fuel, calls, v);
  }

  // The driver

  method CompileOne(globals: set<Name>, f: Function) returns (r: Result<AsmFunction>)
    ensures r.Ok? <==> CompileFunction(globals, Analyzed(f)).Ok?
    ensures r.Ok? ==> r == CompileFunction(globals, Analyzed(f))
  {
    hide CompileFunction, Analyzed;
    var g := AnalyzeVariableLifetimes(f);
    AnalysisFlagsBlocks(f, g);
    AnalysisIsUnique(f, g);
    r := Generator.GenFunction(globals, g);
  }

  function GlobalNames(root: Root): set<Name> {
    set g | g in root.globals :: g.name
  }

  /** The text parses, and every function of it compiles once it is analyzed. */
  ghost predicate Compiles(input: string) {
    var r := Parser.Parse(Lexer.Tokens(input));
    r.Ok? && forall i | 0 <= i < |r.value.functions| ::
      CompileFunction(GlobalNames(r.value), Analyzed(r.value.functions[i])).Ok?
  }

  /** What the text compiles to: the compilation of every function, in order. */
  ghost predicate CompilesTo(input: string, root: Root, asm: seq<AsmFunction>) {
    Parser.Parse(Lexer.Tokens(input)) == Ok(root) && |asm| == |root.functions| &&
    forall i | 0 <= i < |asm| :: CompileFunction(GlobalNames(root), Analyzed(root.functions[i])) == Ok(asm[i])
  }

  /** Lexes, parses, analyzes and generates. It fails exactly where the parser or the
      generator does. */
  method CompileSource(input: string) returns (r: Result<(Root, seq<AsmFunction>)>)
    ensures r.Ok? <==> Compiles(input)
    ensures r.Ok? ==> CompilesTo(input, r.value.0, r.value.1)
  {
    hide CompileFunction, Analyzed;
    var parsed := Parser.ParseText(input);
    if parsed.Err? {
      return Err(parsed.error);
    }
    var root := parsed.value;
    var asm: seq<AsmFunction> := [];
    for i := 0 to |root.functions|
      invariant |asm| == i
      invariant forall j | 0 <= j < i :: CompileFunction(GlobalNames(root), Analyzed(root.functions[j])) == Ok(asm[j])
    {
      var one := CompileOne(GlobalNames(root), root.functions[i]);
      if one.Err? {
        return Err(one.error);
      }
      asm := asm + [one.value];
    }
    return Ok((root, asm));
  }

  // From text to machine runs

  ghost predicate DistinctNames(fs: seq<Function>) {
    forall i, j | 0 <= i < j < |fs| :: fs[i].name != fs[j].name
  }

  /** The program that functions with distinct names form. */
  ghost function ProgramOf(fs: seq<Function>): Program
    requires DistinctNames(fs)
  {
    map i | 0 <= i < |fs| :: fs[i].name := fs[i]
  }

  ghost function AnalyzedOf(fs: seq<Function>): Program
    requires DistinctNames(fs)
  {
    map i | 0 <= i < |fs| :: fs[i].name := Analyzed(fs[i])
  }

  ghost function AssemblyOf(fs: seq<Function>, asm: seq<AsmFunction>): AsmProgram
    requires DistinctNames(fs) && |asm| == |fs|
  {
    map i | 0 <= i < |fs| :: fs[i].name := asm[i]
  }

  lemma AnalysisPrepares(fs: seq<Function>)
    requires DistinctNames(fs)
    ensures SameProgram(ProgramOf(fs), AnalyzedOf(fs)) && Prepared(ProgramOf(fs), AnalyzedOf(fs))
  {
    hide Analyzed, SameCode;
    forall i | 0 <= i < |fs| ensures SameCode(fs[i], Analyzed(fs[i])) {
      AnalysisSame(fs[i]);
    }
    assert SameProgram(ProgramOf(fs), AnalyzedOf(fs));
  }

  lemma AnalysisSame(f: Function)
    ensures SameCode(f, Analyzed(f))
  {
    AnalyzedSameBlocks(f.blocks);
  }

  lemma AnalyzedAt(fs: seq<Function>, i: nat)
    requires DistinctNames(fs) && i < |fs|
    ensures fs[i].name in AnalyzedOf(fs) && AnalyzedOf(fs)[fs[i].name] == Analyzed(fs[i])
  {
    hide Analyzed;
  }

  lemma AssembledAt(fs: seq<Function>, asm: seq<AsmFunction>, i: nat)
    requires DistinctNames(fs) && |asm| == |fs| && i < |fs|
    ensures fs[i].name in AssemblyOf(fs, asm) && AssemblyOf(fs, asm)[fs[i].name] == asm[i]
  {
  }

  lemma NamesOf(fs: seq<Function>, asm: seq<AsmFunction>, g: Name) returns (i: nat)
    requires DistinctNames(fs) && |asm| == |fs| && (g in AnalyzedOf(fs) || g in AssemblyOf(fs, asm))
    ensures i < |fs| && fs[i].name == g
  {
    hide Analyzed;
    i :| i < |fs| && fs[i].name == g;
  }

  lemma AssemblyIsCompiled(globals: set<Name>, fs: seq<Function>, asm: seq<AsmFunction>)
    requires DistinctNames(fs) && |asm| == |fs|
    requires forall i | 0 <= i < |asm| :: CompileFunction(globals, Analyzed(fs[i])) == Ok(asm[i])
    ensures forall g | g in AnalyzedOf(fs) :: CompileFunction(globals, AnalyzedOf(fs)[g]).Ok?
    ensures AssemblyOf(fs, asm) == Compile(globals, AnalyzedOf(fs))
  {
    hide CompileFunction, Analyzed, AnalyzedOf, AssemblyOf, DistinctNames;
    var q, a := AnalyzedOf(fs), AssemblyOf(fs, asm);
    forall g | g in q ensures CompileFunction(globals, q[g]).Ok? && g in a &&
      a[g] == CompileFunction(globals, q[g]).value {
      var i := NamesOf(fs, asm, g);
      AnalyzedAt(fs, i);
      AssembledAt(fs, asm, i);
    }
    forall g | g in a ensures g in q {
      var i := NamesOf(fs, asm, g);
      AnalyzedAt(fs, i);
      AssembledAt(fs, asm, i);
    }
  }

  /** A text whose functions have distinct names and are admissible once analyzed compiles. */
  lemma AdmissibleSourceCompiles(input: string, root: Root)
    requires Parser.Parse(Lexer.Tokens(input)) == Ok(root) && DistinctNames(root.functions)
    requires ProgramAdmissible(AnalyzedOf(root.functions))
    ensures Compiles(input)
  {
    hide CompileFunction, Analyzed, ProgramAdmissible, Linked, Lexer.Tokens, Parser.Parse;
    var q := AnalyzedOf(root.functions);
    AdmissibleProgramsLink(GlobalNames(root), q);
    forall i | 0 <= i < |root.functions| ensures CompileFunction(GlobalNames(root), Analyzed(root.functions[i])).Ok? {
      AnalyzedAt(root.functions, i);
    }
  }

  /** Calls of what a root was compiled to come back with v. */
  ghost predicate RootCallsComeBack(root: Root, asm: seq<AsmFunction>, p: Program, g: Name, args: seq<Word>, stack: nat,
                                    fuel: nat, v: Option<Word>) {
    DistinctNames(root.functions) && |asm| == |root.functions| && |args| <= MAX_ARGS &&
    CallsComeBack(AssemblyOf(root.functions, asm), p, g, args, stack, fuel, v)
  }

  /** From text to machine: if a text parses to functions with distinct names that are
      admissible once analyzed, and one of them returns v on the arguments as it was parsed,
      then calls of what the text compiles to come back with v. */
  lemma CompiledSourceIsCorrect(input: string, root: Root, asm: seq<AsmFunction>, g: Name, args: seq<Word>, fuel: nat,
                                calls: nat, v: Option<Word>)
    requires CompilesTo(input, root, asm) && DistinctNames(root.functions)
    requires ProgramAdmissible(AnalyzedOf(root.functions)) && |args| <= MAX_ARGS
    requires IrSemantics.Invoke(ProgramOf(root.functions), g, args, fuel, calls) == Some(v)
    ensures RootCallsComeBack(root, asm, AnalyzedOf(root.functions), g, args,
                              StackFor(AssemblyOf(root.functions, asm), calls), fuel, v)
  {
    hide CompileFunction, Analyzed, ProgramAdmissible, IrSemantics.Invoke, CallsComeBack, Lexer.Tokens, Parser.Parse,
         StackFor;
    var fs := root.functions;
    AnalysisPrepares(fs);
    AssemblyIsCompiled(GlobalNames(root), fs, asm);
    BackendIsCorrect(GlobalNames(root), ProgramOf(fs), AnalyzedOf(fs), g, args, fuel, calls, v);
  }

  /** The same for a compiled text. */
  lemma SourceStack(input: string, root: Root, asm: seq<AsmFunction>, bytes: nat, calls: nat)
    requires CompilesTo(input, root, asm) && DistinctNames(root.functions)
    requires ProgramAdmissible(AnalyzedOf(root.functions))
    requires forall g | g in AnalyzedOf(root.functions) :: BytesOf(AnalyzedOf(root.functions)[g].blocks) <= bytes
    ensures StackFor(AssemblyOf(root.functions, asm), calls) <= calls * (bytes + 32) + 8
  {
    hide CompileFunction, Analyzed, ProgramAdmissible, Lexer.Tokens, Parser.Parse, StackFor, BytesOf;
    AssemblyIsCompiled(GlobalNames(root), root.functions, asm);
    AdmissibleStack(GlobalNames(root), AnalyzedOf(root.functions), bytes, calls);
  }
}
