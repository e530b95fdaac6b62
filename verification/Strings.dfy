/** Global strings from the text to the call that passes them (src/ir/input/parser.cpp,
    src/backend/codegen/context/value_reference.cpp, examples/hello_world.ir). */
module Strings {
  import opened Wrappers
  import opened Ir
  import opened Machine
  import opened Storage
  import opened Lowering
  import opened Lifetime
  import opened ArgumentSetup
  import opened Departures
  import opened Pipeline
  import opened Emitter
  import opened RoundTrip
  import opened ReadBack
  import Lexer
  import Parser

  /** The names the driver passes are those of the global strings of the parsed text. */
  lemma GlobalNamesAre(root: Root, x: Name)
    ensures x in GlobalNames(root) <==> exists i | 0 <= i < |root.globals| :: root.globals[i].name == x
  {
  }

  lemma {:induction false} StringsAt(parts: seq<Part>, x: Name)
    ensures (exists i | 0 <= i < |StringsOf(parts)| :: StringsOf(parts)[i].name == x) <==>
            (exists i | 0 <= i < |parts| :: parts[i].item.StringItem? && parts[i].item.g.name == x)
  {
    if parts != [] {
      var first := if parts[0].item.StringItem? then [parts[0].item.g] else [];
      var rest := StringsOf(parts[1..]);
      assert StringsOf(parts) == first + rest;
      StringsAt(parts[1..], x);
      if i :| 0 <= i < |StringsOf(parts)| && StringsOf(parts)[i].name == x {
        if i >= |first| {
          assert rest[i - |first|].name == x;
          var j :| 0 <= j < |parts[1..]| && parts[1..][j].item.StringItem? && parts[1..][j].item.g.name == x;
          assert parts[j + 1] == parts[1..][j];
        }
      }
      if j :| 0 <= j < |parts| && parts[j].item.StringItem? && parts[j].item.g.name == x {
        if j == 0 {
          assert StringsOf(parts)[0].name == x;
        } else {
          assert parts[1..][j - 1] == parts[j];
          var i :| 0 <= i < |rest| && rest[i].name == x;
          assert StringsOf(parts)[|first| + i] == rest[i];
        }
      }
    }
  }

  /** For a text: a name is among them exactly if a global string of the text declares it. */
  lemma DeclaredNames(parts: seq<Part>, x: Name)
    requires WritableParts(parts)
    ensures var r := Parser.Parse(Lexer.Tokens(TextOf(SourcePieces(parts))));
            r.Ok? && (x in GlobalNames(r.value) <==>
                      exists i | 0 <= i < |parts| :: parts[i].item.StringItem? && parts[i].item.g.name == x)
  {
    hide Parser.Parse, Lexer.Tokens, TextOf, SourcePieces, WritableItem, GlobalNames;
    WrittenSourceParses(parts);
    StringsAt(parts, x);
    GlobalNamesAre(Root(StringsOf(parts), ExternsOf(parts), FunctionsOf(parts)), x);
  }

  // A function that passes strings to a call

  function Passing(f: Name, g: Name, size: Size, ops: seq<Value>): Function {
    Function(f, [], [Block("entry", [Inst(Call(g, size), ops, None, [g], []), Inst(Ret, [], None, [], [])])], NoSize)
  }

  ghost predicate AllStrings(globals: set<Name>, ops: seq<Value>) {
    forall k | 0 <= k < |ops| :: ops[k].Var? && ops[k].size == Ptr && ops[k].name in globals
  }

  /** Every argument register is loaded with the symbol of its operand. */
  function Loads(ops: seq<Value>, i: nat): seq<Node>
    requires i <= |ops| <= MAX_ARGS && forall k | 0 <= k < |ops| :: ops[k].Var?
    decreases |ops| - i
  {
    if i == |ops| then [] else [NMov(OReg(ParamRegister(i), Ptr), OGlobal(ops[i].name))] + Loads(ops, i + 1)
  }

  lemma {:induction false} StringsLower(cx: Context, ops: seq<Value>, dropped: seq<bool>, i: nat)
    requires i <= |ops| == |dropped| <= MAX_ARGS && AllStrings(cx.globals, ops)
    ensures LowerArgs(cx, FRESH, ops, dropped, i) == Ok(Emit(FRESH, Loads(ops, i)))
    decreases |ops| - i
  {
    hide LowerArg;
    if i < |ops| {
      StringsLower(cx, ops, dropped, i + 1);
      StringLowers(cx, ops[i], dropped[i], ParamRegister(i));
    }
  }

  lemma StringLowers(cx: Context, v: Value, dropped: bool, p: Register)
    requires v.Var? && v.size == Ptr && v.name in cx.globals
    ensures LowerArg(cx, FRESH, v, dropped, p) == Ok(Emit(FRESH, [NMov(OReg(p, Ptr), OGlobal(v.name))]))
  {
    var node := NMov(OReg(p, Ptr), OGlobal(v.name));
    assert [] + [node] == [node];
  }

  const CLEAR: Node := NMov(OReg(RAX, I64), OImm(0, I64))

  /** The storage after a call that nothing is needed after. */
  function Called(size: Size): Store {
    CleanTemps(GetRegister(FRESH, RAX, size))
  }

  lemma {:induction false} NothingErased(st: Store, xs: seq<Name>)
    requires st.vmap == map[]
    ensures DropAll(st, xs) == st && EraseAll(st, xs) == st
    decreases |xs|
  {
    if xs != [] {
      assert st.vmap - {xs[0]} == st.vmap;
      NothingErased(st, xs[1..]);
    }
  }

  lemma SetUpLowersTo(cx: Context, g: Name, size: Size, ops: seq<Value>, dropped: seq<bool>)
    requires |ops| == |dropped| <= MAX_ARGS && AllStrings(cx.globals, ops)
    ensures LowerCall(cx, FRESH, g, size, ops, dropped) ==
            Ok(Lowered(GetRegister(FRESH, RAX, size), Loads(ops, 0) + [CLEAR, NCall(g)], Some(InReg(RAX))))
  {
    hide LowerArgs, GetRegister, Loads;
    StringsLower(cx, ops, dropped, 0);
    assert EmptyRegister(cx.globals, FRESH, RAX) == Ok(Emit(FRESH, []));
    assert Loads(ops, 0) + [] + [CLEAR, NCall(g)] == Loads(ops, 0) + [CLEAR, NCall(g)];
  }

  lemma CallLowersTo(cx: Context, g: Name, size: Size, ops: seq<Value>, dropped: seq<bool>)
    requires |ops| == |dropped| <= MAX_ARGS && AllStrings(cx.globals, ops)
    ensures LowerInst(cx, FRESH, Inst(Call(g, size), ops, None, [g], dropped)) ==
            Ok(Emit(Called(size), Loads(ops, 0) + [CLEAR, NCall(g)]))
  {
    hide CleanTemps, LowerCall, Loads, EraseAll, DropAll, Pending;
    SetUpLowersTo(cx, g, size, ops, dropped);
    assert GetRegister(FRESH, RAX, size).vmap == map[];
    NothingErased(GetRegister(FRESH, RAX, size), Pending(ops, dropped));
  }

  lemma RetLowersTo(cx: Context, st: Store)
    requires cx.returnType == NoSize
    ensures LowerInst(cx, st, Inst(Ret, [], None, [], [])).Ok?
    ensures var e := LowerInst(cx, st, Inst(Ret, [], None, [], [])).value;
            e.nodes == [NRet] && e.st == CleanTemps(st)
  {
    hide CleanTemps;
  }

  lemma NothingSaved(size: Size, i: nat)
    requires 0 < i <= REGISTERS
    ensures SavedFrom(CleanTemps(Called(size)).cells, {}, i) == []
    decreases REGISTERS - i
  {
    if i < REGISTERS {
      NothingSaved(size, i + 1);
    }
  }

  lemma PassingLowers(cx: Context, g: Name, size: Size, ops: seq<Value>, insts: seq<Inst>)
    requires |ops| <= MAX_ARGS && AllStrings(cx.globals, ops) && cx.returnType == NoSize
    requires |insts| == 2 && insts[0] == Inst(Call(g, size), ops, None, [g], insts[0].dropped) &&
             |insts[0].dropped| == |ops| && insts[1] == Inst(Ret, [], None, [], [])
    ensures LowerInsts(cx, FRESH, insts) ==
            Ok(Emit(CleanTemps(Called(size)), Loads(ops, 0) + [CLEAR, NCall(g), NRet]))
  {
    hide LowerInst, Loads, CleanTemps, Called, LowerInsts;
    CallLowersTo(cx, g, size, ops, insts[0].dropped);
    RetLowersTo(cx, Called(size));
    LowerTwo(cx, FRESH, insts[0], insts[1]);
    assert insts == [insts[0], insts[1]];
    assert Loads(ops, 0) + [CLEAR, NCall(g)] + [NRet] == Loads(ops, 0) + [CLEAR, NCall(g), NRet];
  }

  /** What such a function is compiled to. */
  lemma PassingCompilesTo(globals: set<Name>, f: Name, g: Name, size: Size, ops: seq<Value>)
    requires |ops| <= MAX_ARGS && AllStrings(globals, ops)
    ensures CompileFunction(globals, Analyzed(Passing(f, g, size, ops))) ==
            Ok(AsmFunction([Label("__stacksave", [NStackSave]),
                            Label("entry", Loads(ops, 0) + [CLEAR, NCall(g), NRet])], 0, []))
  {
    hide LowerInsts, Loads, CleanTemps, SavedFrom, Called, LowerBlocks, Analyzed, CompileFunction;
    var cx := Context(NoSize, globals);
    var insts := AnalyzedPassing(f, g, size, ops);
    PassingLowers(cx, g, size, ops, insts);
    NothingSaved(size, 1);
    FrameOfCalled(size);
    var nodes := Loads(ops, 0) + [CLEAR, NCall(g), NRet];
    LowerOne(cx, Block("entry", insts), CleanTemps(Called(size)), nodes);
    CompiledOne(globals, f, Block("entry", insts), CleanTemps(Called(size)), nodes);
  }

  lemma CompiledOne(globals: set<Name>, f: Name, block: Block, st: Store, nodes: seq<Node>)
    requires LowerBlocks(Context(NoSize, globals), FRESH, [block]) == Ok((st, [Label(block.name, nodes)]))
    ensures CompileFunction(globals, Function(f, [], [block], NoSize)) ==
            Ok(AsmFunction([Label(STACKSAVE, [NStackSave]), Label(block.name, nodes)], st.frame,
                           SavedFrom(st.cells, {}, 1)))
  {
    hide LowerBlocks, SavedFrom;
    assert ArgRegisters(0) == {};
    assert [Label(STACKSAVE, [NStackSave])] + [Label(block.name, nodes)] ==
           [Label(STACKSAVE, [NStackSave]), Label(block.name, nodes)];
  }

  lemma FrameOfCalled(size: Size)
    ensures CleanTemps(Called(size)).frame == 0
  {
  }

  lemma AnalyzedPassing(f: Name, g: Name, size: Size, ops: seq<Value>) returns (insts: seq<Inst>)
    ensures Analyzed(Passing(f, g, size, ops)) == Function(f, [], [Block("entry", insts)], NoSize)
    ensures |insts| == 2 && insts[0] == Inst(Call(g, size), ops, None, [g], insts[0].dropped) &&
            |insts[0].dropped| == |ops| && insts[1] == Inst(Ret, [], None, [], [])
  {
    hide InstsMention;
    var call, ret := Inst(Call(g, size), ops, None, [g], []), Inst(Ret, [], None, [], []);
    var block := Block("entry", [call, ret]);
    assert [block][1..] == [] && BlocksMention([]) == {};
    insts := AnalyzedInsts(block.insts, BlocksMention([]));
    assert AnalyzedBlocks([block]) == [Block("entry", insts)] + AnalyzedBlocks([]);
    assert block.insts[1..] == [ret] && [ret][1..] == [];
    var flags := FlagsOf(ret, InstsMention([]) + BlocksMention([]));
    assert AnalyzedInsts([ret], BlocksMention([])) == [ret.(dropped := flags)] + AnalyzedInsts([], BlocksMention([]));
    assert flags == [];
  }

  lemma LowerTwo(cx: Context, st: Store, a: Inst, b: Inst)
    requires LowerInst(cx, st, a).Ok? && LowerInst(cx, LowerInst(cx, st, a).value.st, b).Ok?
    ensures var e := LowerInst(cx, st, a).value;
            var r := LowerInst(cx, e.st, b).value;
            LowerInsts(cx, st, [a, b]) == Ok(Emit(r.st, e.nodes + r.nodes))
  {
    hide LowerInst;
    assert [a, b][1..] == [b] && [b][1..] == [];
    var e := LowerInst(cx, st, a).value;
    var r := LowerInst(cx, e.st, b).value;
    assert LowerInsts(cx, r.st, []) == Ok(Emit(r.st, []));
    assert r.nodes + [] == r.nodes;
    assert LowerInsts(cx, e.st, [b]) == Ok(Emit(r.st, r.nodes));
  }

  lemma LowerOne(cx: Context, block: Block, st: Store, nodes: seq<Node>)
    requires LowerInsts(cx, FRESH, block.insts) == Ok(Emit(st, nodes))
    ensures LowerBlocks(cx, FRESH, [block]) == Ok((st, [Label(block.name, nodes)]))
  {
    hide LowerInsts;
    assert [block][1..] == [];
    assert LowerBlocks(cx, st, []) == Ok((st, []));
    assert [Label(block.name, nodes)] + [] == [Label(block.name, nodes)];
  }

  /** At the call, every argument register holds the address of the symbol of its operand, from
      every machine state; so different symbols are passed as different addresses. */
  lemma {:induction false} SymbolsAreLoaded(ops: seq<Value>, i: nat, m: State) returns (m1: State)
    requires i <= |ops| <= MAX_ARGS && m.Valid()
    requires forall k | 0 <= k < |ops| :: ops[k].Var? && ops[k].name in m.symbols
    ensures Steps(Loads(ops, i) + [CLEAR], m) == Some(m1) && m1.Valid()
    ensures forall k | i <= k < |ops| :: m1.regs[ParamRegister(k)] == m.symbols[ops[k].name]
    ensures forall k | 0 <= k < i :: m1.regs[ParamRegister(k)] == m.regs[ParamRegister(k)]
    decreases |ops| - i
  {
    hide Step;
    if i == |ops| {
      assert [] + [CLEAR] == [CLEAR];
      OneNode(CLEAR, m);
      m1 := Cleared(m);
    } else {
      var node := NMov(OReg(ParamRegister(i), Ptr), OGlobal(ops[i].name));
      var m2 := SymbolLoaded(ops[i].name, ParamRegister(i), m);
      m1 := SymbolsAreLoaded(ops, i + 1, m2);
      assert Loads(ops, i) + [CLEAR] == [node] + (Loads(ops, i + 1) + [CLEAR]);
      assert ([node] + (Loads(ops, i + 1) + [CLEAR]))[1..] == Loads(ops, i + 1) + [CLEAR];
      assert m1.regs[ParamRegister(i)] == m2.regs[ParamRegister(i)] == m.symbols[ops[i].name];
      forall k | 0 <= k < i ensures ParamRegister(k) != ParamRegister(i) {
        ArgRegistersDistinct(i, k);
      }
    }
  }

  lemma SymbolLoaded(x: Name, p: Register, m: State) returns (m1: State)
    requires m.Valid() && x in m.symbols
    ensures Step(NMov(OReg(p, Ptr), OGlobal(x)), m) == Some(m1)
    ensures m1.Valid() && m1 == m.(regs := m.regs[p := m.symbols[x]])
  {
    m1 := m.(regs := m.regs[p := m.symbols[x]]);
  }

  lemma Cleared(m: State) returns (m1: State)
    requires m.Valid()
    ensures Step(CLEAR, m) == Some(m1) && m1.Valid()
    ensures forall k | 0 <= k < MAX_ARGS :: m1.regs[ParamRegister(k)] == m.regs[ParamRegister(k)]
  {
    m1 := Step(CLEAR, m).value;
  }

  /** From the text: if its only function passes strings that the text declares to a call, then
      it compiles, to code that has loaded the address of each string's symbol into its argument
      register when it reaches the call. */
  lemma {:induction false} DeclaredStringsArePassed(parts: seq<Part>, f: Name, g: Name, size: Size, ops: seq<Value>)
    requires WritableParts(parts) && FunctionsOf(parts) == [Passing(f, g, size, ops)] && |ops| <= MAX_ARGS
    requires forall k | 0 <= k < |ops| :: ops[k].Var? && ops[k].size == Ptr &&
               exists i | 0 <= i < |parts| :: parts[i].item.StringItem? && parts[i].item.g.name == ops[k].name
    ensures Compiles(TextOf(SourcePieces(parts)))
    ensures forall root: Root, asm: seq<AsmFunction> | CompilesTo(TextOf(SourcePieces(parts)), root, asm) ::
              |asm| == 1 && |asm[0].blocks| == 2 &&
              exists setup :: asm[0].blocks[1].nodes == setup + [NCall(g), NRet] && PassesStrings(setup, ops)
  {
    hide Parser.Parse, Lexer.Tokens, TextOf, SourcePieces, WritableItem, GlobalNames, CompileFunction, Loads, Analyzed,
         PassesStrings;
    WrittenSourceParses(parts);
    var root := Root(StringsOf(parts), ExternsOf(parts), FunctionsOf(parts));
    forall k | 0 <= k < |ops| ensures ops[k].name in GlobalNames(root) {
      DeclaredNames(parts, ops[k].name);
    }
    PassingCompilesTo(GlobalNames(root), f, g, size, ops);
    LoadsPass(ops);
    assert Loads(ops, 0) + [CLEAR, NCall(g), NRet] == (Loads(ops, 0) + [CLEAR]) + [NCall(g), NRet];
  }

  /** Running the nodes leaves the address of each operand's symbol in its argument register. */
  ghost predicate PassesStrings(setup: seq<Node>, ops: seq<Value>)
    requires |ops| <= MAX_ARGS && forall k | 0 <= k < |ops| :: ops[k].Var?
  {
    forall m: State | m.Valid() && forall k | 0 <= k < |ops| :: ops[k].name in m.symbols ::
      Steps(setup, m).Some? &&
      forall k | 0 <= k < |ops| :: Steps(setup, m).value.regs[ParamRegister(k)] == m.symbols[ops[k].name]
  }

  lemma {:induction false} LoadsPass(ops: seq<Value>)
    requires |ops| <= MAX_ARGS && forall k | 0 <= k < |ops| :: ops[k].Var?
    ensures PassesStrings(Loads(ops, 0) + [CLEAR], ops)
  {
    hide Loads;
    forall m: State | m.Valid() && forall k | 0 <= k < |ops| :: ops[k].name in m.symbols
      ensures Steps(Loads(ops, 0) + [CLEAR], m).Some?
      ensures forall k | 0 <= k < |ops| ::
        Steps(Loads(ops, 0) + [CLEAR], m).value.regs[ParamRegister(k)] == m.symbols[ops[k].name]
    {
      var m1 := SymbolsAreLoaded(ops, 0, m);
    }
  }
}
