/** The repository's example of a global string, from its text to the call
    (examples/hello_world.ir). */
module HelloWorld {
  import opened Wrappers
  import opened Ir
  import opened Machine
  import opened Pipeline
  import opened Emitter
  import opened RoundTrip
  import opened ReadBack
  import opened CompiledExample
  import opened Strings
  import Text

  const MSG := GlobalString("msg", "Hello, World!")

  const PUTS := Prototype("puts", [("msg", Ptr)], I32)

  const OPERANDS := [Var(Ptr, "msg")]

  const HELLO_MAIN := Passing("main", "puts", I32, OPERANDS)

  const HELLO_PARTS := [
    Part(StringItem(MSG), 1), Part(ExternItem(PUTS), 1), Part(FunctionItem(HELLO_MAIN, false), 0)]

  const HELLO: string := Lines([
      "global_string %msg = \"Hello, World!\"",
      "",
      "extern fn i32 puts(ptr %msg)",
      "",
      "define fn void main()",
      "    call i32 puts ptr %msg",
      "    ret"]) + "end"

  lemma HelloNames()
    ensures PlainWord("msg") && PlainWord("puts") && PlainWord("main") && PlainWord("entry")
  {
  }

  lemma HelloIsWritable()
    ensures WritableParts(HELLO_PARTS)
  {
    hide PlainWord;
    HelloNames();
    assert !Text.IsDigit("msg"[0]) && !Text.IsDigit("puts"[0]) && !Text.IsDigit("main"[0]);
    assert WritableItem(StringItem(MSG));
    assert WritableItem(ExternItem(PUTS));
    var insts := HELLO_MAIN.blocks[0].insts;
    assert WritableInst(insts[0]) && WritableInst(insts[1]);
    assert WritableBlock(HELLO_MAIN.blocks[0]);
    assert WritableItem(FunctionItem(HELLO_MAIN, false));
  }

  lemma PointerText()
    ensures TextOf(VariablePieces(Ptr, "msg")) == "ptr" + " " + ['%'] + "msg"
    ensures TextOf(ParamPieces([("msg", Ptr)])) == "ptr" + " " + ['%'] + "msg"
    ensures TextOf(OperandPieces(OPERANDS)) == " " + ("ptr" + " " + ['%'] + "msg")
  {
    var pieces := [SizeWord(Ptr), Blank, Sym('%'), W("msg")];
    TextOfFive(SizeWord(Ptr), Blank, Sym('%'), W("msg"), Blank);
    assert VariablePieces(Ptr, "msg") == pieces;
    assert [("msg", Ptr)][1..] == [] && pieces + [] + [] == pieces;
    OneOperandText(Var(Ptr, "msg"));
  }

  lemma StringText()
    ensures TextOf(StringPieces(MSG)) == "global_string %msg = \"Hello, World!\""
  {
    hide PieceText;
    TextOfFive(W("global_string"), Blank, Sym('%'), W("msg"), Blank);
    TextOfThree(Sym('='), Blank, Str("Hello, World!"));
    var a, b := [W("global_string"), Blank, Sym('%'), W("msg"), Blank], [Sym('='), Blank, Str("Hello, World!")];
    TextAppend(a, b);
    assert a + b == StringPieces(MSG);
    StringLine();
  }

  lemma StringLine()
    ensures PieceText(W("global_string")) + PieceText(Blank) + PieceText(Sym('%')) + PieceText(W("msg")) +
            PieceText(Blank) + (PieceText(Sym('=')) + PieceText(Blank) + PieceText(Str("Hello, World!"))) ==
            "global_string %msg = \"Hello, World!\""
  {
    hide PieceText;
    LeftHalf();
    RightHalf();
    BothHalves();
  }

  lemma BothHalves()
    ensures "global_string %msg " + "= \"Hello, World!\"" == "global_string %msg = \"Hello, World!\""
  {
  }

  lemma LeftHalf()
    ensures PieceText(W("global_string")) + PieceText(Blank) + PieceText(Sym('%')) + PieceText(W("msg")) +
            PieceText(Blank) == "global_string %msg "
  {
  }

  lemma RightHalf()
    ensures PieceText(Sym('=')) + PieceText(Blank) + PieceText(Str("Hello, World!")) == "= \"Hello, World!\""
  {
  }

  /** A header with given parameters. */
  lemma PrototypeText(word: string, p: Prototype, size: string, params: string)
    requires SizeName(p.returnType) == Some(size) && TextOf(ParamPieces(p.params)) == params
    ensures TextOf(PrototypePieces(word, p)) ==
            word + " " + "fn" + " " + size + (" " + p.name) + (['('] + params + [')'])
  {
    hide ParamPieces, PrototypePieces;
    var start, pieces := [W(word), Blank, W("fn"), Blank, SizeWord(p.returnType)], ParamPieces(p.params);
    TextOfFive(W(word), Blank, W("fn"), Blank, SizeWord(p.returnType));
    TextOfThree(Blank, W(p.name), Blank);
    OnePiece(Sym('('));
    OnePiece(Sym(')'));
    TextAppend(start, [Blank, W(p.name)]);
    TextAppend([Sym('(')], pieces);
    TextAppend([Sym('(')] + pieces, [Sym(')')]);
    TextAppend(start + [Blank, W(p.name)], [Sym('(')] + pieces + [Sym(')')]);
    PrototypeIs(word, p);
  }

  lemma PrototypeIs(word: string, p: Prototype)
    ensures PrototypePieces(word, p) ==
            [W(word), Blank, W("fn"), Blank, SizeWord(p.returnType)] + [Blank, W(p.name)] +
            ([Sym('(')] + ParamPieces(p.params) + [Sym(')')])
  {
    hide ParamPieces, SizeWord;
  }

  lemma ExternText()
    ensures TextOf(PrototypePieces("extern", PUTS)) == "extern fn i32 puts(ptr %msg)"
  {
    hide PrototypePieces;
    PointerText();
    PrototypeText("extern", PUTS, "i32", "ptr" + " " + ['%'] + "msg");
    ExternLine();
  }

  lemma ExternLine()
    ensures "extern" + " " + "fn" + " " + "i32" + (" " + "puts") + (['('] + ("ptr" + " " + ['%'] + "msg") + [')']) ==
            "extern fn i32 puts(ptr %msg)"
  {
  }

  lemma MainHeaderText()
    ensures TextOf(Header(HELLO_MAIN)) == Lines(["define fn void main()"])
  {
    hide PrototypePieces;
    assert ParamPieces([]) == [] && TextOf([]) == "";
    PrototypeText("define", PrototypeOf(HELLO_MAIN), "void", "");
    OnePiece(Line);
    TextAppend(PrototypePieces("define", PrototypeOf(HELLO_MAIN)), [Line]);
    MainLine();
    OneLine("define fn void main()");
  }

  lemma MainLine()
    ensures "define" + " " + "fn" + " " + "void" + (" " + "main") + (['('] + "" + [')']) == "define fn void main()"
  {
  }

  lemma CallPutsText()
    ensures TextOf(WrittenInst(HELLO_MAIN.blocks[0].insts[0])) == "    call i32 puts ptr %msg"
  {
    hide WrittenInst, ResultPieces, WrittenOp, OperandPieces, ValuePieces, FOUR_BLANKS;
    LineText(HELLO_MAIN.blocks[0].insts[0]);
    ResultTexts("");
    CallPutsOp();
    PointerText();
    CallPutsLine();
  }

  lemma CallPutsOp()
    ensures TextOf(WrittenOp(Call("puts", I32))) == "call" + " " + "i32" + " " + "puts"
  {
    TextOfFive(W("call"), Blank, SizeWord(I32), Blank, W("puts"));
  }

  lemma CallPutsLine()
    ensures FOUR_BLANKS + "" + ("call" + " " + "i32" + " " + "puts") + (" " + ("ptr" + " " + ['%'] + "msg")) ==
            "    call i32 puts ptr %msg"
  {
  }

  lemma PlainRetText()
    ensures TextOf(WrittenInst(HELLO_MAIN.blocks[0].insts[1])) == "    ret"
  {
    hide WrittenInst, ResultPieces, WrittenOp, FOUR_BLANKS;
    LineText(HELLO_MAIN.blocks[0].insts[1]);
    ResultTexts("");
    PlainOpTexts();
    assert OperandPieces([]) == [] && TextOf([]) == "";
    PlainRetLine();
  }

  lemma PlainRetLine()
    ensures FOUR_BLANKS + "" + "ret" + "" == "    ret"
  {
  }

  const MAIN_TEXT := ["define fn void main()", "    call i32 puts ptr %msg", "    ret"]

  lemma HelloMainText()
    ensures TextOf(WrittenPieces(HELLO_MAIN, false)) == Lines(MAIN_TEXT) + "end"
  {
    hide Header, WrittenInsts, WrittenInst, WrittenBlocks, Lines;
    MainHeaderText();
    CallPutsText();
    PlainRetText();
    NoInstsText();
    NoMoreBlocks();
    var insts := HELLO_MAIN.blocks[0].insts;
    InstsText(insts[1], [], MAIN_TEXT[2], []);
    assert [insts[1]] + [] == insts[1..] && [MAIN_TEXT[2]] + [] == MAIN_TEXT[2..];
    InstsText(insts[0], insts[1..], MAIN_TEXT[1], MAIN_TEXT[2..]);
    assert [insts[0]] + insts[1..] == insts && [MAIN_TEXT[1]] + MAIN_TEXT[2..] == MAIN_TEXT[1..];
    FunctionText(HELLO_MAIN, [MAIN_TEXT[0]], MAIN_TEXT[1..], []);
    assert [MAIN_TEXT[0]] + MAIN_TEXT[1..] + [] == MAIN_TEXT;
  }

  lemma NoMoreBlocks()
    ensures TextOf(WrittenBlocks(HELLO_MAIN.blocks[1..])) == Lines([])
  {
    assert HELLO_MAIN.blocks[1..] == [];
  }

  /** Three items with an empty line between them. */
  lemma ThreeItems(a: seq<Piece>, b: seq<Piece>, c: seq<Piece>)
    ensures TextOf(a + [Line, EmptyLine] + (b + [Line, EmptyLine] + c)) ==
            TextOf(a) + ("\n" + "\n") + (TextOf(b) + ("\n" + "\n") + TextOf(c))
  {
    TextOfThree(Line, EmptyLine, Line);
    TextAppend(a, [Line, EmptyLine]);
    TextAppend(b, [Line, EmptyLine]);
    TextAppend(b + [Line, EmptyLine], c);
    TextAppend(a + [Line, EmptyLine], b + [Line, EmptyLine] + c);
  }

  lemma HelloPieces()
    requires WritableParts(HELLO_PARTS)
    ensures SourcePieces(HELLO_PARTS) ==
            StringPieces(MSG) + [Line, EmptyLine] +
            (PrototypePieces("extern", PUTS) + [Line, EmptyLine] + WrittenPieces(HELLO_MAIN, false))
  {
    hide StringPieces, PrototypePieces, WrittenPieces, WritableItem;
    OneEmptyLine();
    var two, one := HELLO_PARTS[1..], [HELLO_PARTS[2]];
    assert two[1..] == one && two[0] == HELLO_PARTS[1];
    assert WrittenPieces(HELLO_MAIN, false) + [] == WrittenPieces(HELLO_MAIN, false);
    assert SourcePieces(one) == WrittenPieces(HELLO_MAIN, false);
  }

  lemma HelloLines(a: string, b: string)
    ensures Lines([a, "", b, ""] + MAIN_TEXT) == a + ("\n" + "\n") + (b + ("\n" + "\n") + Lines(MAIN_TEXT))
  {
    hide Lines;
    LinesAppend([a, "", b, ""], MAIN_TEXT);
    FourLines(a, b);
  }

  lemma FourLines(a: string, b: string)
    ensures Lines([a, "", b, ""]) == a + ("\n" + "\n") + (b + ("\n" + "\n"))
  {
    assert [a, "", b, ""] == [a, ""] + [b, ""];
    LinesAppend([a, ""], [b, ""]);
    TwoLines(a);
    TwoLines(b);
  }

  lemma TwoLines(a: string)
    ensures Lines([a, ""]) == a + ("\n" + "\n")
  {
    assert [a, ""][1..] == [""] && [""][1..] == [];
    assert Lines([""]) == "\n";
  }

  lemma Rejoining(a: string, b: string, c: string, d: string, gap: string)
    ensures a + gap + (b + gap + (c + d)) == a + gap + (b + gap + c) + d
  {
  }

  /** The text is written as it is in the repository. */
  lemma HelloIsWritten()
    ensures WritableParts(HELLO_PARTS) && TextOf(SourcePieces(HELLO_PARTS)) == HELLO
  {
    hide Lines, WritableItem, StringPieces, PrototypePieces, WrittenPieces, SourcePieces;
    HelloIsWritable();
    HelloPieces();
    StringText();
    ExternText();
    HelloMainText();
    ThreeItems(StringPieces(MSG), PrototypePieces("extern", PUTS), WrittenPieces(HELLO_MAIN, false));
    var first, second := "global_string %msg = \"Hello, World!\"", "extern fn i32 puts(ptr %msg)";
    HelloLines(first, second);
    Rejoining(first, second, Lines(MAIN_TEXT), "end", "\n" + "\n");
    assert [first, "", second, ""] + MAIN_TEXT ==
           [first, "", second, "", MAIN_TEXT[0], MAIN_TEXT[1], MAIN_TEXT[2]];
  }

  /** Running the nodes leaves the address of the symbol msg in rdi. */
  ghost predicate LoadsMsg(setup: seq<Node>) {
    forall m: State | m.Valid() && "msg" in m.symbols ::
      Steps(setup, m).Some? && Steps(setup, m).value.regs[RDI] == m.symbols["msg"]
  }

  /** The example compiles, and rdi holds the address of the symbol msg when puts is called. */
  lemma HelloPassesItsString()
    ensures Compiles(HELLO)
    ensures forall root: Root, asm: seq<AsmFunction> | CompilesTo(HELLO, root, asm) ::
              |asm| == 1 && |asm[0].blocks| == 2 &&
              exists setup :: asm[0].blocks[1].nodes == setup + [NCall("puts"), NRet] && LoadsMsg(setup)
  {
    hide WritableParts, SourcePieces, TextOf, Compiles, CompilesTo, PassesStrings, LoadsMsg;
    HelloIsWritten();
    HelloFunctions();
    assert HELLO_PARTS[0].item.StringItem? && HELLO_PARTS[0].item.g.name == OPERANDS[0].name;
    DeclaredStringsArePassed(HELLO_PARTS, "main", "puts", I32, OPERANDS);
    forall setup: seq<Node> | PassesStrings(setup, OPERANDS) ensures LoadsMsg(setup) {
      FirstString(setup);
    }
  }

  lemma HelloFunctions()
    ensures FunctionsOf(HELLO_PARTS) == [HELLO_MAIN]
  {
    hide StringsOf, ExternsOf, FunctionsOf;
    var a, b, c := HELLO_PARTS[0], HELLO_PARTS[1], HELLO_PARTS[2];
    PartsAdd(c, []);
    PartsAdd(b, [c]);
    PartsAdd(a, [b] + [c]);
    assert HELLO_PARTS == [a] + ([b] + [c]);
  }

  lemma FirstString(setup: seq<Node>)
    requires PassesStrings(setup, OPERANDS)
    ensures LoadsMsg(setup)
  {
    assert ParamRegister(0) == RDI;
    assert OPERANDS[0].name == "msg";
  }
}
