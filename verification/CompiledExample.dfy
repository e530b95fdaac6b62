/** The repository's example from its text to machine runs: parsed, compiled and called
    (examples/fibonacci.ir, with i64 for i32). */
module CompiledExample {
  import opened Wrappers
  import opened Ir
  import opened Machine
  import opened IrSemantics
  import opened Lifetime
  import opened ArgumentSetup
  import opened Admissible
  import opened Footprint
  import opened Pipeline
  import opened Evaluation
  import opened Emitter
  import opened RoundTrip
  import opened ReadBack
  import opened Fibonacci
  import Lexer
  import Parser
  import Text

  function Unflagged(inst: Inst): Inst {
    inst.(dropped := [])
  }

  const FIB_PARSED := Function("fib", [("n", I64)], [
      Block("entry", [Unflagged(COMPARE), Unflagged(CHOOSE)]), Block("base_case", [Unflagged(BASE)]),
      Block("recursive_case", [Unflagged(MINUS_ONE), Unflagged(FIRST_CALL), Unflagged(MINUS_TWO),
                               Unflagged(SECOND_CALL), Unflagged(SUM), Unflagged(DONE)])], I64)

  const MAIN_PARSED := Function("main", [], [Block("entry", [Unflagged(CALL_FIB), Unflagged(RETURN_IT)])], I64)

  const EXAMPLE := Root([], [], [MAIN_PARSED, FIB_PARSED])

  lemma PlainNames()
    ensures PlainWord("1") && PlainWord("2") && PlainWord("3") && PlainWord("4") && PlainWord("5") && PlainWord("6") &&
            PlainWord("n")
    ensures PlainWord("fib") && PlainWord("main") && PlainWord("entry")
  {
  }

  lemma PlainLabels()
    ensures PlainWord("base_case") && PlainWord("recursive_case")
  {
    Lowered("base_case");
    Lowered("recursive_case");
  }

  lemma Lowered(w: string)
    requires LowerCase(w)
    ensures PlainWord(w)
  {
    KeywordForm(w, AfterSpace);
  }

  lemma MainIsWritten()
    ensures WritableItem(FunctionItem(MAIN_PARSED, false))
  {
    hide PlainWord;
    PlainNames();
    assert !Text.IsDigit("main"[0]);
  }

  lemma RecursiveIsWritten()
    ensures WritableInsts(FIB_PARSED.blocks[2].insts)
  {
    hide PlainWord;
    PlainNames();
    assert WritableInst(Unflagged(MINUS_ONE)) && WritableInst(Unflagged(FIRST_CALL));
    assert WritableInst(Unflagged(MINUS_TWO));
    assert WritableInst(Unflagged(SECOND_CALL)) && WritableInst(Unflagged(SUM)) && WritableInst(Unflagged(DONE));
  }

  lemma FibIsWritten()
    ensures WritableItem(FunctionItem(FIB_PARSED, false))
  {
    hide PlainWord, WritableInsts;
    PlainNames();
    PlainLabels();
    RecursiveIsWritten();
    assert WritableInsts(FIB_PARSED.blocks[0].insts) && WritableInsts(FIB_PARSED.blocks[1].insts) by {
      ShortBlocksWritten();
    }
    assert WritableBlock(FIB_PARSED.blocks[0]) && WritableBlock(FIB_PARSED.blocks[1]);
    assert WritableBlock(FIB_PARSED.blocks[2]);
    assert !Text.IsDigit("fib"[0]);
  }

  lemma ShortBlocksWritten()
    ensures WritableInsts(FIB_PARSED.blocks[0].insts) && WritableInsts(FIB_PARSED.blocks[1].insts)
  {
    hide PlainWord;
    PlainNames();
    PlainLabels();
    assert WritableInst(Unflagged(COMPARE)) && WritableInst(Unflagged(CHOOSE)) && WritableInst(Unflagged(BASE));
  }

  const PARTS := [Part(FunctionItem(MAIN_PARSED, false), 1), Part(FunctionItem(FIB_PARSED, false), 0)]

  lemma ExampleIsWritten()
    ensures WritableParts(PARTS)
  {
    hide WritableItem;
    MainIsWritten();
    FibIsWritten();
  }

  // The text of the example, with i64 for i32

  function Lines(lines: seq<string>): string {
    if lines == [] then "" else lines[0] + "\n" + Lines(lines[1..])
  }

  const MAIN_LINES: seq<string> := [
    "define fn i64 main()",
    "    %1 = call i64 fib i64 10",
    "    ret i64 %1"]

  const FIB_LINES: seq<string> := [
    "define fn i64 fib(i64 %n)",
    "    %1 = icmp ule i64 %n, i64 1",
    "    branch base_case recursive_case i1 %1",
    ".base_case:",
    "    ret i64 %n",
    ".recursive_case:",
    "    %2 = sub i64 %n, i64 1",
    "    %3 = call i64 fib i64 %2",
    "    %4 = sub i64 %2, i64 1",
    "    %5 = call i64 fib i64 %4",
    "    %6 = add i64 %5, i64 %3",
    "    ret i64 %6"]

  const SOURCE: string := Lines(MAIN_LINES + ["end", ""] + FIB_LINES) + "end"

  lemma {:induction false} LinesAppend(a: seq<string>, b: seq<string>)
    ensures Lines(a + b) == Lines(a) + Lines(b)
  {
    if a == [] {
      assert a + b == b;
    } else {
      assert (a + b)[0] == a[0] && (a + b)[1..] == a[1..] + b;
      LinesAppend(a[1..], b);
      assert a[0] + "\n" + (Lines(a[1..]) + Lines(b)) == (a[0] + "\n" + Lines(a[1..])) + Lines(b);
    }
  }

  lemma OneLine(line: string)
    ensures Lines([line]) == line + "\n"
  {
    assert [line][1..] == [] && Lines([]) == "";
    assert line + "\n" + "" == line + "\n";
  }

  lemma TextOfThree(p: Piece, q: Piece, r: Piece)
    ensures TextOf([p]) == PieceText(p) && TextOf([p, q]) == PieceText(p) + PieceText(q)
    ensures TextOf([p, q, r]) == PieceText(p) + PieceText(q) + PieceText(r)
  {
    OnePiece(p);
    OnePiece(q);
    OnePiece(r);
    TextAppend([p], [q]);
    TextAppend([p, q], [r]);
    assert [p] + [q] == [p, q] && [p, q] + [r] == [p, q, r];
  }

  lemma TextOfFive(p: Piece, q: Piece, r: Piece, s: Piece, t: Piece)
    ensures TextOf([p, q, r, s]) == PieceText(p) + PieceText(q) + PieceText(r) + PieceText(s)
    ensures TextOf([p, q, r, s, t]) == PieceText(p) + PieceText(q) + PieceText(r) + PieceText(s) + PieceText(t)
  {
    TextOfThree(p, q, r);
    OnePiece(s);
    OnePiece(t);
    TextAppend([p, q, r], [s]);
    TextAppend([p, q, r, s], [t]);
    assert [p, q, r] + [s] == [p, q, r, s] && [p, q, r, s] + [t] == [p, q, r, s, t];
  }

  lemma VarText(x: Name)
    ensures TextOf(ValuePieces(V(x))) == "i64" + " " + ['%'] + x
    ensures TextOf(ValuePieces(Var(I1, x))) == "i1" + " " + ['%'] + x
  {
    TextOfFive(SizeWord(I64), Blank, Sym('%'), W(x), Blank);
    TextOfFive(SizeWord(I1), Blank, Sym('%'), W(x), Blank);
    assert ValuePieces(V(x)) == [SizeWord(I64), Blank, Sym('%'), W(x)];
    assert ValuePieces(Var(I1, x)) == [SizeWord(I1), Blank, Sym('%'), W(x)];
  }

  lemma LitText()
    ensures TextOf(ValuePieces(ONE)) == "i64" + " " + "1" && TextOf(ValuePieces(Lit(I64, 10))) == "i64" + " " + "10"
  {
    assert Text.Decimal(1) == "1" && Text.Decimal(10) == "10";
    TextOfThree(SizeWord(I64), Blank, W(Text.Decimal(1)));
    TextOfThree(SizeWord(I64), Blank, W(Text.Decimal(10)));
  }

  lemma OneOperandText(v: Value)
    ensures TextOf(OperandPieces([v])) == " " + TextOf(ValuePieces(v))
  {
    OnePiece(Blank);
    TextAppend([Blank], ValuePieces(v));
    assert OperandPieces([v]) == [Blank] + ValuePieces(v);
  }

  lemma TwoOperandsText(v: Value, w: Value)
    ensures TextOf(OperandPieces([v, w])) == " " + TextOf(ValuePieces(v)) + [','] + (" " + TextOf(ValuePieces(w)))
  {
    hide ValuePieces;
    OnePiece(Blank);
    OnePiece(Sym(','));
    TextAppend([Blank], ValuePieces(v));
    TextAppend([Blank] + ValuePieces(v), [Sym(',')]);
    OneOperandText(w);
    TextAppend([Blank] + ValuePieces(v) + [Sym(',')], OperandPieces([w]));
    assert [v, w][1..] == [w];
    assert OperandPieces([v, w]) == [Blank] + ValuePieces(v) + [Sym(',')] + OperandPieces([w]);
  }

  lemma CallOpText()
    ensures TextOf(WrittenOp(Call("fib", I64))) == "call" + " " + "i64" + " " + "fib"
  {
    TextOfFive(W("call"), Blank, SizeWord(I64), Blank, W("fib"));
  }

  lemma BranchOpText()
    ensures TextOf(WrittenOp(Branch("base_case", "recursive_case"))) ==
            "branch" + " " + "base_case" + " " + "recursive_case"
  {
    TextOfFive(W("branch"), Blank, W("base_case"), Blank, W("recursive_case"));
  }

  lemma PlainOpTexts()
    ensures TextOf(WrittenOp(Icmp(Ule))) == "icmp" + " " + "ule"
    ensures TextOf(WrittenOp(Arith(Sub))) == "sub" && TextOf(WrittenOp(Arith(Add))) == "add" &&
            TextOf(WrittenOp(Ret)) == "ret"
  {
    TextOfThree(W("icmp"), Blank, W("ule"));
    OnePiece(W("sub"));
    OnePiece(W("add"));
    OnePiece(W("ret"));
  }

  lemma ResultTexts(x: Name)
    ensures TextOf(ResultPieces(Some(x))) == ['%'] + x + " " + ['='] + " " && TextOf(ResultPieces(None)) == ""
  {
    TextOfFive(Sym('%'), W(x), Blank, Sym('='), Blank);
  }

  const FOUR_BLANKS: string := " " + " " + " " + " "

  /** The line of an instruction. */
  lemma LineText(inst: Inst)
    ensures TextOf(WrittenInst(inst)) ==
            FOUR_BLANKS + TextOf(ResultPieces(inst.result)) + TextOf(WrittenOp(inst.op)) +
              TextOf(OperandPieces(inst.operands))
  {
    hide ResultPieces, WrittenOp, OperandPieces;
    TextOfFive(Blank, Blank, Blank, Blank, Blank);
    TextAppend(INDENT, ResultPieces(inst.result));
    TextAppend(INDENT + ResultPieces(inst.result), WrittenOp(inst.op));
    TextAppend(INDENT + ResultPieces(inst.result) + WrittenOp(inst.op), OperandPieces(inst.operands));
  }

  lemma ReturnItText()
    ensures TextOf(WrittenInst(Unflagged(RETURN_IT))) == "    ret i64 %1"
  {
    hide WrittenInst, ResultPieces, WrittenOp, OperandPieces, ValuePieces, FOUR_BLANKS;
    LineText(Unflagged(RETURN_IT));
    ResultTexts("");
    PlainOpTexts();
    VarText("1");
    OneOperandText(V("1"));
    ReturnItLine();
  }

  lemma ReturnItLine()
    ensures FOUR_BLANKS + "" + "ret" +
            (" " + ("i64" + " " + ['%'] + "1")) ==
            "    ret i64 %1"
  {
  }

  lemma CallFibText()
    ensures TextOf(WrittenInst(Unflagged(CALL_FIB))) == "    %1 = call i64 fib i64 10"
  {
    hide WrittenInst, ResultPieces, WrittenOp, OperandPieces, ValuePieces, FOUR_BLANKS;
    LineText(Unflagged(CALL_FIB));
    ResultTexts("1");
    CallOpText();
    LitText();
    OneOperandText(Lit(I64, 10));
    CallFibLine();
  }

  lemma CallFibLine()
    ensures FOUR_BLANKS + (['%'] + "1" + " " + ['='] + " ") + ("call" + " " + "i64" + " " + "fib") +
            (" " + ("i64" + " " + "10")) ==
            "    %1 = call i64 fib i64 10"
  {
  }

  lemma CompareText()
    ensures TextOf(WrittenInst(Unflagged(COMPARE))) == "    %1 = icmp ule i64 %n, i64 1"
  {
    hide WrittenInst, ResultPieces, WrittenOp, OperandPieces, ValuePieces, FOUR_BLANKS;
    LineText(Unflagged(COMPARE));
    ResultTexts("1");
    PlainOpTexts();
    VarText("n");
    LitText();
    TwoOperandsText(V("n"), ONE);
    CompareLine();
  }

  lemma CompareLine()
    ensures FOUR_BLANKS + (['%'] + "1" + " " + ['='] + " ") + ("icmp" + " " + "ule") +
            (" " + ("i64" + " " + ['%'] + "n") + [','] + (" " + ("i64" + " " + "1"))) ==
            "    %1 = icmp ule i64 %n, i64 1"
  {
  }

  lemma ChooseText()
    ensures TextOf(WrittenInst(Unflagged(CHOOSE))) == "    branch base_case recursive_case i1 %1"
  {
    hide WrittenInst, ResultPieces, WrittenOp, OperandPieces, ValuePieces, FOUR_BLANKS;
    LineText(Unflagged(CHOOSE));
    ResultTexts("");
    BranchOpText();
    VarText("1");
    OneOperandText(Var(I1, "1"));
    ChooseLine();
  }

  lemma ChooseLine()
    ensures FOUR_BLANKS + "" + ("branch" + " " + "base_case" + " " + "recursive_case") +
            (" " + ("i1" + " " + ['%'] + "1")) ==
            "    branch base_case recursive_case i1 %1"
  {
  }

  lemma BaseText()
    ensures TextOf(WrittenInst(Unflagged(BASE))) == "    ret i64 %n"
  {
    hide WrittenInst, ResultPieces, WrittenOp, OperandPieces, ValuePieces, FOUR_BLANKS;
    LineText(Unflagged(BASE));
    ResultTexts("");
    PlainOpTexts();
    VarText("n");
    OneOperandText(V("n"));
    BaseLine();
  }

  lemma BaseLine()
    ensures FOUR_BLANKS + "" + "ret" +
            (" " + ("i64" + " " + ['%'] + "n")) ==
            "    ret i64 %n"
  {
  }

  lemma MinusOneText()
    ensures TextOf(WrittenInst(Unflagged(MINUS_ONE))) == "    %2 = sub i64 %n, i64 1"
  {
    hide WrittenInst, ResultPieces, WrittenOp, OperandPieces, ValuePieces, FOUR_BLANKS;
    LineText(Unflagged(MINUS_ONE));
    ResultTexts("2");
    PlainOpTexts();
    VarText("n");
    LitText();
    TwoOperandsText(V("n"), ONE);
    MinusOneLine();
  }

  lemma MinusOneLine()
    ensures FOUR_BLANKS + (['%'] + "2" + " " + ['='] + " ") + "sub" +
            (" " + ("i64" + " " + ['%'] + "n") + [','] + (" " + ("i64" + " " + "1"))) ==
            "    %2 = sub i64 %n, i64 1"
  {
  }

  lemma FirstCallText()
    ensures TextOf(WrittenInst(Unflagged(FIRST_CALL))) == "    %3 = call i64 fib i64 %2"
  {
    hide WrittenInst, ResultPieces, WrittenOp, OperandPieces, ValuePieces, FOUR_BLANKS;
    LineText(Unflagged(FIRST_CALL));
    ResultTexts("3");
    CallOpText();
    VarText("2");
    OneOperandText(V("2"));
    FirstCallLine();
  }

  lemma FirstCallLine()
    ensures FOUR_BLANKS + (['%'] + "3" + " " + ['='] + " ") + ("call" + " " + "i64" + " " + "fib") +
            (" " + ("i64" + " " + ['%'] + "2")) ==
            "    %3 = call i64 fib i64 %2"
  {
  }

  lemma MinusTwoText()
    ensures TextOf(WrittenInst(Unflagged(MINUS_TWO))) == "    %4 = sub i64 %2, i64 1"
  {
    hide WrittenInst, ResultPieces, WrittenOp, OperandPieces, ValuePieces, FOUR_BLANKS;
    LineText(Unflagged(MINUS_TWO));
    ResultTexts("4");
    PlainOpTexts();
    VarText("2");
    LitText();
    TwoOperandsText(V("2"), ONE);
    MinusTwoLine();
  }

  lemma MinusTwoLine()
    ensures FOUR_BLANKS + (['%'] + "4" + " " + ['='] + " ") + "sub" +
            (" " + ("i64" + " " + ['%'] + "2") + [','] + (" " + ("i64" + " " + "1"))) ==
            "    %4 = sub i64 %2, i64 1"
  {
  }

  lemma SecondCallText()
    ensures TextOf(WrittenInst(Unflagged(SECOND_CALL))) == "    %5 = call i64 fib i64 %4"
  {
    hide WrittenInst, ResultPieces, WrittenOp, OperandPieces, ValuePieces, FOUR_BLANKS;
    LineText(Unflagged(SECOND_CALL));
    ResultTexts("5");
    CallOpText();
    VarText("4");
    OneOperandText(V("4"));
    SecondCallLine();
  }

  lemma SecondCallLine()
    ensures FOUR_BLANKS + (['%'] + "5" + " " + ['='] + " ") + ("call" + " " + "i64" + " " + "fib") +
            (" " + ("i64" + " " + ['%'] + "4")) ==
            "    %5 = call i64 fib i64 %4"
  {
  }

  lemma SumText()
    ensures TextOf(WrittenInst(Unflagged(SUM))) == "    %6 = add i64 %5, i64 %3"
  {
    hide WrittenInst, ResultPieces, WrittenOp, OperandPieces, ValuePieces, FOUR_BLANKS;
    LineText(Unflagged(SUM));
    ResultTexts("6");
    PlainOpTexts();
    VarText("5");
    VarText("3");
    TwoOperandsText(V("5"), V("3"));
    SumLine();
  }

  lemma SumLine()
    ensures FOUR_BLANKS + (['%'] + "6" + " " + ['='] + " ") + "add" +
            (" " + ("i64" + " " + ['%'] + "5") + [','] + (" " + ("i64" + " " + ['%'] + "3"))) ==
            "    %6 = add i64 %5, i64 %3"
  {
  }

  lemma DoneText()
    ensures TextOf(WrittenInst(Unflagged(DONE))) == "    ret i64 %6"
  {
    hide WrittenInst, ResultPieces, WrittenOp, OperandPieces, ValuePieces, FOUR_BLANKS;
    LineText(Unflagged(DONE));
    ResultTexts("");
    PlainOpTexts();
    VarText("6");
    OneOperandText(V("6"));
    DoneLine();
  }

  lemma DoneLine()
    ensures FOUR_BLANKS + "" + "ret" +
            (" " + ("i64" + " " + ['%'] + "6")) ==
            "    ret i64 %6"
  {
  }

  // Headers, blocks and functions

  function Header(f: Function): seq<Piece> {
    PrototypePieces("define", PrototypeOf(f)) + [Line]
  }

  lemma HeaderText(f: Function)
    requires f.returnType == I64
    ensures TextOf(Header(f)) ==
            "define" + " " + "fn" + " " + "i64" + (" " + f.name) +
              (['('] + TextOf(ParamPieces(f.params)) + [')']) + "\n"
  {
    hide ParamPieces, Header;
    var start, params := [W("define"), Blank, W("fn"), Blank, SizeWord(I64)], ParamPieces(f.params);
    TextOfFive(W("define"), Blank, W("fn"), Blank, SizeWord(I64));
    TextOfThree(Blank, W(f.name), Blank);
    OnePiece(Sym('('));
    OnePiece(Sym(')'));
    OnePiece(Line);
    TextAppend(start, [Blank, W(f.name)]);
    TextAppend([Sym('(')], params);
    TextAppend([Sym('(')] + params, [Sym(')')]);
    TextAppend(start + [Blank, W(f.name)], [Sym('(')] + params + [Sym(')')]);
    TextAppend(start + [Blank, W(f.name)] + ([Sym('(')] + params + [Sym(')')]), [Line]);
    HeaderIs(f);
  }

  lemma HeaderIs(f: Function)
    requires f.returnType == I64
    ensures Header(f) ==
            [W("define"), Blank, W("fn"), Blank, SizeWord(I64)] + [Blank, W(f.name)] +
              ([Sym('(')] + ParamPieces(f.params) + [Sym(')')]) + [Line]
  {
    hide ParamPieces;
  }

  lemma MainHeader()
    ensures TextOf(Header(MAIN_PARSED)) == Lines(["define fn i64 main()"])
  {
    hide Header;
    HeaderText(MAIN_PARSED);
    assert ParamPieces([]) == [] && TextOf([]) == "";
    MainHeaderLine();
    OneLine("define fn i64 main()");
  }

  lemma MainHeaderLine()
    ensures "define" + " " + "fn" + " " + "i64" + (" " + "main") + (['('] + "" + [')']) == "define fn i64 main()"
  {
  }

  lemma FibHeader()
    ensures TextOf(Header(FIB_PARSED)) == Lines(["define fn i64 fib(i64 %n)"])
  {
    hide Header, ValuePieces;
    HeaderText(FIB_PARSED);
    assert FIB_PARSED.params[1..] == [] && ParamPieces([]) == [];
    assert ParamPieces(FIB_PARSED.params) == VariablePieces(I64, "n");
    VariableText();
    FibHeaderLine();
    OneLine("define fn i64 fib(i64 %n)");
  }

  lemma VariableText()
    ensures TextOf(VariablePieces(I64, "n")) == "i64" + " " + ['%'] + "n"
  {
    VarText("n");
  }

  lemma FibHeaderLine()
    ensures "define" + " " + "fn" + " " + "i64" + (" " + "fib") + (['('] + ("i64" + " " + ['%'] + "n") + [')']) ==
            "define fn i64 fib(i64 %n)"
  {
  }

  /** Instructions, a line each. */
  lemma InstsText(inst: Inst, rest: seq<Inst>, line: string, lines: seq<string>)
    requires TextOf(WrittenInst(inst)) == line && TextOf(WrittenInsts(rest)) == Lines(lines)
    ensures TextOf(WrittenInsts([inst] + rest)) == Lines([line] + lines)
  {
    hide WrittenInst;
    OnePiece(Line);
    TextAppend(WrittenInst(inst), [Line]);
    TextAppend(WrittenInst(inst) + [Line], WrittenInsts(rest));
    assert ([inst] + rest)[1..] == rest && ([line] + lines)[1..] == lines;
  }

  lemma NoInstsText()
    ensures TextOf(WrittenInsts([])) == Lines([])
  {
  }

  lemma BlockText(block: Block, line: string, lines: seq<string>)
    requires ['.'] + block.name + [':'] == line && TextOf(WrittenInsts(block.insts)) == Lines(lines)
    ensures TextOf(WrittenBlock(block)) == Lines([line] + lines)
  {
    hide WrittenInsts;
    TextOfThree(Sym('.'), W(block.name), Sym(':'));
    OnePiece(Line);
    TextAppend([Sym('.'), W(block.name), Sym(':')], [Line]);
    var start := [Sym('.'), W(block.name), Sym(':'), Line];
    assert [Sym('.'), W(block.name), Sym(':')] + [Line] == start;
    TextAppend(start, WrittenInsts(block.insts));
    assert ([line] + lines)[1..] == lines;
  }

  lemma EntryText()
    ensures TextOf(WrittenInsts(FIB_PARSED.blocks[0].insts)) == Lines(FIB_LINES[1..3])
  {
    hide WrittenInst, WrittenInsts, Lines;
    CompareText();
    ChooseText();
    NoInstsText();
    InstsText(Unflagged(CHOOSE), [], FIB_LINES[2], []);
    assert [Unflagged(CHOOSE)] + [] == [Unflagged(CHOOSE)] && [FIB_LINES[2]] + [] == [FIB_LINES[2]];
    InstsText(Unflagged(COMPARE), [Unflagged(CHOOSE)], FIB_LINES[1], [FIB_LINES[2]]);
    assert [Unflagged(COMPARE)] + [Unflagged(CHOOSE)] == FIB_PARSED.blocks[0].insts;
    assert [FIB_LINES[1]] + [FIB_LINES[2]] == FIB_LINES[1..3];
  }

  lemma BaseLabel()
    ensures ['.'] + "base_case" + [':'] == FIB_LINES[3]
  {
  }

  lemma BaseCaseText()
    ensures TextOf(WrittenBlock(FIB_PARSED.blocks[1])) == Lines(FIB_LINES[3..5])
  {
    hide WrittenInst, WrittenInsts, WrittenBlock, Lines;
    BaseText();
    NoInstsText();
    InstsText(Unflagged(BASE), [], FIB_LINES[4], []);
    assert [Unflagged(BASE)] + [] == FIB_PARSED.blocks[1].insts && [FIB_LINES[4]] + [] == [FIB_LINES[4]];
    BaseLabel();
    BlockText(FIB_PARSED.blocks[1], FIB_LINES[3], [FIB_LINES[4]]);
    assert [FIB_LINES[3]] + [FIB_LINES[4]] == FIB_LINES[3..5];
  }

  lemma LastLines()
    ensures TextOf(WrittenInsts(FIB_PARSED.blocks[2].insts[3..])) == Lines(FIB_LINES[9..])
  {
    hide WrittenInst, WrittenInsts, Lines;
    SecondCallText();
    SumText();
    DoneText();
    NoInstsText();
    var insts := FIB_PARSED.blocks[2].insts;
    InstsText(Unflagged(DONE), [], FIB_LINES[11], []);
    assert [Unflagged(DONE)] + [] == insts[5..] && [FIB_LINES[11]] + [] == FIB_LINES[11..];
    InstsText(Unflagged(SUM), insts[5..], FIB_LINES[10], FIB_LINES[11..]);
    assert [Unflagged(SUM)] + insts[5..] == insts[4..] && [FIB_LINES[10]] + FIB_LINES[11..] == FIB_LINES[10..];
    InstsText(Unflagged(SECOND_CALL), insts[4..], FIB_LINES[9], FIB_LINES[10..]);
    assert [Unflagged(SECOND_CALL)] + insts[4..] == insts[3..] && [FIB_LINES[9]] + FIB_LINES[10..] == FIB_LINES[9..];
  }

  lemma MoreLines()
    ensures TextOf(WrittenInsts(FIB_PARSED.blocks[2].insts[1..])) == Lines(FIB_LINES[7..])
  {
    hide WrittenInst, WrittenInsts, Lines;
    FirstCallText();
    MinusTwoText();
    LastLines();
    var insts := FIB_PARSED.blocks[2].insts;
    InstsText(Unflagged(MINUS_TWO), insts[3..], FIB_LINES[8], FIB_LINES[9..]);
    assert [Unflagged(MINUS_TWO)] + insts[3..] == insts[2..] && [FIB_LINES[8]] + FIB_LINES[9..] == FIB_LINES[8..];
    InstsText(Unflagged(FIRST_CALL), insts[2..], FIB_LINES[7], FIB_LINES[8..]);
    assert [Unflagged(FIRST_CALL)] + insts[2..] == insts[1..] && [FIB_LINES[7]] + FIB_LINES[8..] == FIB_LINES[7..];
  }

  lemma RecursiveLabel()
    ensures ['.'] + "recursive_case" + [':'] == FIB_LINES[5]
  {
  }

  lemma RecursiveCaseText()
    ensures TextOf(WrittenBlock(FIB_PARSED.blocks[2])) == Lines(FIB_LINES[5..])
  {
    hide WrittenInst, WrittenInsts, WrittenBlock, Lines;
    MinusOneText();
    MoreLines();
    var insts := FIB_PARSED.blocks[2].insts;
    InstsText(Unflagged(MINUS_ONE), insts[1..], FIB_LINES[6], FIB_LINES[7..]);
    assert [Unflagged(MINUS_ONE)] + insts[1..] == insts && [FIB_LINES[6]] + FIB_LINES[7..] == FIB_LINES[6..];
    RecursiveLabel();
    BlockText(FIB_PARSED.blocks[2], FIB_LINES[5], FIB_LINES[6..]);
    assert [FIB_LINES[5]] + FIB_LINES[6..] == FIB_LINES[5..];
  }

  lemma BlocksText()
    ensures TextOf(WrittenBlocks(FIB_PARSED.blocks[1..])) == Lines(FIB_LINES[3..])
  {
    hide WrittenBlock, Lines;
    BaseCaseText();
    RecursiveCaseText();
    var base, recursive := FIB_PARSED.blocks[1], FIB_PARSED.blocks[2];
    assert FIB_PARSED.blocks[1..] == [base, recursive] && [base, recursive][1..] == [recursive];
    assert [recursive][1..] == [];
    assert WrittenBlocks([recursive]) == WrittenBlock(recursive) + [];
    assert WrittenBlocks([base, recursive]) == WrittenBlock(base) + WrittenBlock(recursive);
    TextAppend(WrittenBlock(base), WrittenBlock(recursive));
    LinesAppend(FIB_LINES[3..5], FIB_LINES[5..]);
    assert FIB_LINES[3..5] + FIB_LINES[5..] == FIB_LINES[3..];
  }

  lemma FunctionText(f: Function, header: seq<string>, entry: seq<string>, blocks: seq<string>)
    requires f.blocks != [] && TextOf(Header(f)) == Lines(header)
    requires TextOf(WrittenInsts(f.blocks[0].insts)) == Lines(entry)
    requires TextOf(WrittenBlocks(f.blocks[1..])) == Lines(blocks)
    ensures TextOf(WrittenPieces(f, false)) == Lines(header + entry + blocks) + "end"
  {
    hide Header, WrittenInsts, WrittenBlocks, Lines, PrototypePieces;
    var insts, rest := WrittenInsts(f.blocks[0].insts), WrittenBlocks(f.blocks[1..]);
    HeaderBodyEnd(f);
    OnePiece(W("end"));
    TextAppend(insts, rest);
    TextAppend(Header(f), insts + rest);
    TextAppend(Header(f) + (insts + rest), [W("end")]);
    LinesAppend(header, entry);
    LinesAppend(header + entry, blocks);
    JoinedLines(Lines(header), Lines(entry), Lines(blocks));
  }

  lemma HeaderBodyEnd(f: Function)
    requires f.blocks != []
    ensures WrittenPieces(f, false) ==
            Header(f) + (WrittenInsts(f.blocks[0].insts) + WrittenBlocks(f.blocks[1..])) + [W("end")]
  {
    hide WrittenInsts, WrittenBlocks, PrototypePieces;
  }

  lemma JoinedLines(a: string, b: string, c: string)
    ensures a + (b + c) + "end" == a + b + c + "end"
  {
  }

  lemma FibText()
    ensures TextOf(WrittenPieces(FIB_PARSED, false)) == Lines(FIB_LINES) + "end"
  {
    hide Header, WrittenInsts, WrittenBlocks, Lines;
    FibHeader();
    EntryText();
    BlocksText();
    FunctionText(FIB_PARSED, [FIB_LINES[0]], FIB_LINES[1..3], FIB_LINES[3..]);
    assert [FIB_LINES[0]] + FIB_LINES[1..3] + FIB_LINES[3..] == FIB_LINES;
  }

  lemma MainText()
    ensures TextOf(WrittenPieces(MAIN_PARSED, false)) == Lines(MAIN_LINES) + "end"
  {
    hide Header, WrittenInsts, WrittenInst, Lines;
    MainHeader();
    CallFibText();
    ReturnItText();
    NoInstsText();
    var insts := MAIN_PARSED.blocks[0].insts;
    InstsText(Unflagged(RETURN_IT), [], MAIN_LINES[2], []);
    assert [Unflagged(RETURN_IT)] + [] == insts[1..] && [MAIN_LINES[2]] + [] == MAIN_LINES[2..];
    InstsText(Unflagged(CALL_FIB), insts[1..], MAIN_LINES[1], MAIN_LINES[2..]);
    assert [Unflagged(CALL_FIB)] + insts[1..] == insts && [MAIN_LINES[1]] + MAIN_LINES[2..] == MAIN_LINES[1..];
    NoBlocksText();
    FunctionText(MAIN_PARSED, [MAIN_LINES[0]], MAIN_LINES[1..], []);
    assert [MAIN_LINES[0]] + MAIN_LINES[1..] + [] == MAIN_LINES;
  }

  lemma NoBlocksText()
    ensures TextOf(WrittenBlocks(MAIN_PARSED.blocks[1..])) == Lines([])
  {
    assert MAIN_PARSED.blocks[1..] == [];
  }

  /** The text is the example as its functions are written by hand. */
  lemma SourceIsWritten()
    ensures WritableParts(PARTS) && TextOf(SourcePieces(PARTS)) == SOURCE
  {
    hide WritableItem, WrittenPieces, Lines, SourcePieces;
    ExampleIsWritten();
    MainText();
    FibText();
    var main, fib := WrittenPieces(MAIN_PARSED, false), WrittenPieces(FIB_PARSED, false);
    TwoItems();
    TextOfThree(Line, EmptyLine, Line);
    TextAppend(main, [Line, EmptyLine]);
    TextAppend(main + [Line, EmptyLine], fib);
    LinesAppend(MAIN_LINES, ["end", ""]);
    LinesAppend(MAIN_LINES + ["end", ""], FIB_LINES);
    EndLines();
    Rejoined(Lines(MAIN_LINES), Lines(FIB_LINES));
  }

  lemma TwoItems()
    requires WritableParts(PARTS)
    ensures SourcePieces(PARTS) ==
            WrittenPieces(MAIN_PARSED, false) + [Line, EmptyLine] + WrittenPieces(FIB_PARSED, false)
  {
    hide WritableItem, WrittenPieces;
    var fib := WrittenPieces(FIB_PARSED, false);
    assert PARTS[1..] == [PARTS[1]];
    OneEmptyLine();
    assert fib + [] == fib;
    assert SourcePieces([PARTS[1]]) == fib;
  }

  lemma OneEmptyLine()
    ensures [Line] + EmptyLines(1) == [Line, EmptyLine]
  {
    assert EmptyLines(0) == [];
  }

  lemma EndLines()
    ensures Lines(["end", ""]) == "end" + ("\n" + "\n")
  {
    assert ["end", ""][1..] == [""] && [""][1..] == [];
    assert Lines([""]) == "\n";
  }

  lemma Rejoined(a: string, b: string)
    ensures (a + "end") + ("\n" + "\n") + (b + "end") == a + ("end" + ("\n" + "\n")) + b + "end"
  {
  }

  /** The text parses to main and fib. */
  lemma ExampleParses()
    ensures Parser.Parse(Lexer.Tokens(SOURCE)) == Ok(EXAMPLE)
  {
    hide WritableItem, SourcePieces, Parser.Parse, Lexer.Tokens;
    SourceIsWritten();
    WrittenSourceParses(PARTS);
    PartsAre();
  }

  lemma PartsAre()
    ensures StringsOf(PARTS) == [] && ExternsOf(PARTS) == [] && FunctionsOf(PARTS) == EXAMPLE.functions
  {
    hide StringsOf, ExternsOf, FunctionsOf;
    var first, last := Part(FunctionItem(MAIN_PARSED, false), 1), Part(FunctionItem(FIB_PARSED, false), 0);
    PartsAdd(last, []);
    PartsAdd(first, [last]);
    assert PARTS == [first] + [last] && EXAMPLE.functions == [MAIN_PARSED] + [FIB_PARSED];
  }

  lemma ExampleAnalyzed()
    ensures DistinctNames(EXAMPLE.functions) && AnalyzedOf(EXAMPLE.functions) == PROGRAM
  {
    hide FunctionAdmissible, Analyzed;
    FibAdmissible();
    MainAdmissible();
    AdmissibleIsAnalyzed(FIB_PARSED, FIB);
    AdmissibleIsAnalyzed(MAIN_PARSED, MAIN);
    ParsedThenAnalyzed(EXAMPLE.functions);
  }

  lemma ParsedThenAnalyzed(fs: seq<Function>)
    requires |fs| == 2 && fs[0].name == "main" && fs[1].name == "fib" && Analyzed(fs[0]) == MAIN &&
             Analyzed(fs[1]) == FIB
    ensures DistinctNames(fs) && AnalyzedOf(fs) == PROGRAM
  {
    hide Analyzed;
    assert "main"[0] != "fib"[0];
    AnalyzedAt(fs, 0);
    AnalyzedAt(fs, 1);
    forall g | g in AnalyzedOf(fs) ensures g in PROGRAM {
      var i :| 0 <= i < |fs| && fs[i].name == g;
    }
  }

  /** What a function of the example returns, the function compiled from the text returns,
      with 32 bytes of stack for every call. */
  lemma ExampleReturns(asm: seq<AsmFunction>, g: Name, args: seq<Word>, fuel: nat, calls: nat, v: Option<Word>)
    requires CompilesTo(SOURCE, EXAMPLE, asm) && |args| <= MAX_ARGS &&
             IrSemantics.Invoke(PROGRAM, g, args, fuel, calls) == Some(v)
    ensures RootCallsComeBack(EXAMPLE, asm, PROGRAM, g, args, 32 * calls + 8, fuel, v)
  {
    hide ProgramAdmissible, IrSemantics.Invoke, CallsComeBack, Parser.Parse, Lexer.Tokens, SameProgram,
         Prepared, StackFor, BytesOf;
    ExampleAdmissible();
    ExampleAnalyzed();
    AnalysisPrepares(EXAMPLE.functions);
    SameInvoke(ProgramOf(EXAMPLE.functions), PROGRAM, g, args, fuel, calls);
    CompiledSourceIsCorrect(SOURCE, EXAMPLE, asm, g, args, fuel, calls, v);
    ExampleStack(asm, calls);
    var all := AssemblyOf(EXAMPLE.functions, asm);
    LessStack(all, PROGRAM, g, args, StackFor(all, calls), 32 * calls + 8, fuel, v);
  }

  lemma ExampleStack(asm: seq<AsmFunction>, calls: nat)
    requires CompilesTo(SOURCE, EXAMPLE, asm)
    ensures DistinctNames(EXAMPLE.functions) && |asm| == |EXAMPLE.functions|
    ensures StackFor(AssemblyOf(EXAMPLE.functions, asm), calls) <= 32 * calls + 8
  {
    hide ProgramAdmissible, Parser.Parse, Lexer.Tokens, StackFor, BytesOf;
    ExampleAdmissible();
    ExampleAnalyzed();
    NothingAllocated();
    SourceStack(SOURCE, EXAMPLE, asm, 0, calls);
  }

  lemma NothingAllocated()
    ensures forall g | g in PROGRAM :: BytesOf(PROGRAM[g].blocks) == 0
  {
    hide BytesOf, BytesOfInsts;
    NoBytes(ENTRY.insts);
    NoBytes(BASE_CASE.insts);
    NoBytes(RECURSIVE_CASE.insts);
    NoBytes(MAIN.blocks[0].insts);
    BytesThen([], MAIN.blocks[0]);
    BytesThen([], ENTRY);
    BytesThen([ENTRY], BASE_CASE);
    BytesThen([ENTRY, BASE_CASE], RECURSIVE_CASE);
    assert [] + [MAIN.blocks[0]] == MAIN.blocks && [] + [ENTRY] == [ENTRY];
    assert [ENTRY] + [BASE_CASE] == [ENTRY, BASE_CASE] && [ENTRY, BASE_CASE] + [RECURSIVE_CASE] == FIB.blocks;
  }

  /** The text of the example compiles. */
  lemma ExampleCompiles()
    ensures Compiles(SOURCE)
  {
    hide ProgramAdmissible, Parser.Parse, Lexer.Tokens, Compiles;
    ExampleParses();
    ExampleAdmissible();
    ExampleAnalyzed();
    AdmissibleSourceCompiles(SOURCE, EXAMPLE);
  }

  /** Calls of fib as it is compiled from the text come back with the n-th Fibonacci number
      modulo 2^64, given 32 bytes of stack for every nested call. */
  lemma CompiledFibonacci(asm: seq<AsmFunction>, n: Word)
    requires CompilesTo(SOURCE, EXAMPLE, asm)
    ensures RootCallsComeBack(EXAMPLE, asm, PROGRAM, "fib", [n], 32 * Deep(n) + 8, 2 * n + 2, Some(Fib(n) % WORD))
  {
    hide IrSemantics.Invoke, RootCallsComeBack, Fib, CompilesTo, Deep;
    FibComputes(n, 2 * n + 2, Deep(n));
    ExampleReturns(asm, "fib", [n], 2 * n + 2, Deep(n), Some(Fib(n) % WORD));
  }

  /** Calls of main come back with the tenth, given 360 bytes of stack. */
  lemma CompiledMain(asm: seq<AsmFunction>)
    requires CompilesTo(SOURCE, EXAMPLE, asm)
    ensures RootCallsComeBack(EXAMPLE, asm, PROGRAM, "main", [], 360, 23, Some(55))
  {
    hide IrSemantics.Invoke, RootCallsComeBack, Fib, CompilesTo;
    MainComputes(23, 11);
    ExampleReturns(asm, "main", [], 23, 11, Some(55));
  }
}
