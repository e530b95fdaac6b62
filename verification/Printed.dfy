/** What printing loses, and what it does not: exactly which printed forms are read back
    (src/ir/output/ir_emitter.cpp, src/ir/node_print.cpp, src/ir/input/instruction_parsing.cpp). */
module Printed {
  import opened Wrappers
  import opened Ir
  import opened Text
  import opened Lexer
  import opened Emitter
  import opened Parser
  import opened RoundTrip
  import opened ReadBack

  // Printed operations

  /** What the printed line of an operation without operands reads as. */
  function ReadPrinted(op: Op): Result<Inst> {
    match ParseInstruction(TokensOf(OpPieces(op)) + [BREAK])
    case Ok(p) => Ok(p.0)
    case Err(e) => Err(e)
  }

  lemma WordsRead(word: string, rest: seq<Token>)
    requires SizeNamed(word) == None && word != "%" && ParseHead(word, rest).Err?
    ensures ParseInstruction([Token(Identifier, word)] + rest).Err?
  {
    hide ParseHead;
    assert ([Token(Identifier, word)] + rest)[1..] == rest;
  }

  lemma NeqIsNotRead()
    ensures ReadPrinted(Icmp(Neq)).Err?
  {
    var pieces := OpPieces(Icmp(Neq));
    assert pieces[1..] == [Blank, W("neq")] && pieces[1..][1..] == [W("neq")] && pieces[1..][1..][1..] == [];
    var rest := [Token(Identifier, "neq")] + [BREAK];
    assert TokensOf(pieces) + [BREAK] == [Token(Identifier, "icmp")] + rest;
    WordsRead("icmp", rest);
  }

  lemma ArrayPointersAreNotRead(s: Size)
    requires s != ParamDependent
    ensures ReadPrinted(GetArrayPtr(s)).Err?
  {
    hide SizeName;
    var pieces := OpPieces(GetArrayPtr(s));
    assert pieces[1..] == [Blank, SizeWord(s)];
    var rest := TokensOf(pieces[1..]) + [BREAK];
    assert TokensOf(pieces) + [BREAK] == [Token(Identifier, "get_array_ptr")] + rest by {
      assert PieceTokens(W("get_array_ptr")) == [Token(Identifier, "get_array_ptr")];
    }
    WordsRead("get_array_ptr", rest);
  }

  lemma LiteralsAreNotRead(s: Size, n: nat)
    ensures ReadPrinted(Literal(s, n)).Err?
  {
    hide Decimal;
    var pieces := OpPieces(Literal(s, n));
    assert pieces[1..] == [];
    assert Decimal(n)[0] in Decimal(n);
    DecimalIsNoPercent(n);
    DecimalIsNoSize(n);
    assert TokensOf(pieces) + [BREAK] == [Token(Number, Decimal(n)), BREAK];
  }

  /** A printed phi is read with its labels in the opposite order. */
  lemma PhiIsReadBackwards(incoming: seq<Name>)
    requires |incoming| == 2 && PlainWord(incoming[0]) && PlainWord(incoming[1])
    ensures ReadPrinted(Phi(incoming)) ==
            Ok(Inst(Phi([incoming[1], incoming[0]]), [], None, [incoming[0], incoming[1]], []))
  {
    hide PlainWord;
    var back := [incoming[1], incoming[0]];
    assert incoming[..1] == [incoming[0]] && incoming[..1][..0] == [];
    assert LabelPieces(incoming[..1]) == [Blank, W(incoming[0])];
    assert OpPieces(Phi(incoming)) == WrittenOp(Phi(back));
    OpForm(Phi(back), incoming);
    var inst := Inst(Phi(back), [], None, incoming, []);
    ParseInstructionBack(inst, [BREAK]);
    assert InstTokens(inst) == OpTokens(Phi(back), incoming);
    assert incoming == [incoming[0], incoming[1]];
  }

  /** What is printed of an operation reads back as the operation exactly where the printer agrees
      with the parser. */
  lemma PrintedReadsBackExactly(op: Op, labels: seq<Name>)
    requires WritableOp(op, labels)
    ensures ReadPrinted(op) == Ok(Inst(op, [], None, labels, [])) <==> PrintsAsWritten(op)
  {
    hide ReadPrinted, OpTokens, ParseInstruction, PlainWord, OpPieces, WrittenOp;
    if PrintsAsWritten(op) {
      OpPrintsAsWritten(op);
      OpForm(op, labels);
      var inst := Inst(op, [], None, labels, []);
      ParseInstructionBack(inst, [BREAK]);
      assert [] + OpTokens(op, labels) + [] == OpTokens(op, labels);
      PrintedIs(op, OpTokens(op, labels), inst);
    } else {
      match op {
        case Icmp(_) => NeqIsNotRead();
        case GetArrayPtr(s) => ArrayPointersAreNotRead(s);
        case Literal(s, n) => LiteralsAreNotRead(s, n);
        case Phi(incoming) => PhiIsReadBackwards(incoming);
      }
    }
  }

  lemma PrintedIs(op: Op, tokens: seq<Token>, inst: Inst)
    requires TokensOf(OpPieces(op)) == tokens && ParseInstruction(tokens + [BREAK]) == Ok((inst, [BREAK]))
    ensures ReadPrinted(op) == Ok(inst)
  {
  }

  // Names

  /** Printed names tell comparisons, operations and sizes apart. */
  lemma PrintedNamesDiffer(a: IcmpType, b: IcmpType, c: ArithType, d: ArithType, s: Size, t: Size)
    ensures IcmpName(a) == IcmpName(b) ==> a == b
    ensures ArithName(c) == ArithName(d) ==> c == d
    ensures SizeName(s) == SizeName(t) ==> s == t
  {
    if a != Neq && b != Neq {
      assert IcmpWord(a) == IcmpName(a) && IcmpWord(b) == IcmpName(b);
      IcmpBack(a);
      IcmpBack(b);
    }
    SizesDiffer(s, t);
  }

  lemma SizesDiffer(s: Size, t: Size)
    ensures SizeName(s) == SizeName(t) ==> s == t
  {
    if s != ParamDependent && t != ParamDependent {
      SizeBack(s);
      SizeBack(t);
    }
  }

  lemma DivisionsAreNotRead(t: ArithType)
    requires t == Div || t == Mod
    ensures ReadPrinted(Arith(t)).Err?
  {
    var pieces := OpPieces(Arith(t));
    assert pieces[1..] == [];
    assert TokensOf(pieces) + [BREAK] == [Token(Identifier, ArithName(t))] + [BREAK];
    WordsRead(ArithName(t), [BREAK]);
  }

  /** The size that an operation is written with. */
  function SizeArgument(op: Op): Option<Size> {
    match op
    case Store(s) => Some(s)
    case Load(s) => Some(s)
    case Call(_, s) => Some(s)
    case Zext(s) => Some(s)
    case Sext(s) => Some(s)
    case GetArrayPtr(s) => Some(s)
    case _ => None
  }

  /** An instruction is printed exactly if the size it is written with, and those of its literals,
      have names; variables whose size has none are printed without it. */
  lemma PrintsExactly(inst: Inst)
    ensures InstPrints(inst) <==>
            SizeArgument(inst.op) != Some(ParamDependent) &&
            forall v | v in inst.operands && v.Lit? :: v.size != ParamDependent
  {
    forall s: Size ensures SizeName(s).Some? <==> s != ParamDependent {
    }
    assert forall v | v in inst.operands && v.Lit? :: exists i | 0 <= i < |inst.operands| :: inst.operands[i] == v;
  }

  // Values

  /** A printed literal is read modulo 2^32, if that fits 31 bits. */
  lemma LiteralsReadModulo(s: Size, n: nat, rest: seq<Token>)
    requires RealSize(s)
    ensures ParseValue(TokensOf(ValuePieces(Lit(s, n))) + rest) ==
            if n % 0x1_0000_0000 < 0x8000_0000 then Ok((Lit(s, n % 0x1_0000_0000), rest)) else Err(Rejected)
  {
    hide Decimal, SizeNamed, Stoi, ParseValueSize;
    var m := n % 0x1_0000_0000;
    SizeForm(s, AfterSpace);
    DecimalForm(m, AfterSpace);
    FormThree(SizeWord(s), Blank, W(Decimal(m)), AfterSpace);
    var pieces := [SizeWord(s), Blank, W(Decimal(m))];
    var number := [Token(Number, Decimal(m))] + rest;
    assert TokensOf(pieces) + rest == [SizeToken(s)] + number;
    ParseSizeBack(s, number);
    DecimalIsNoPercent(m);
    NumbersRead(m, "", []);
    assert Decimal(m) + "" == Decimal(m) && number[1..] == rest;
  }

  /** A variable of no size is printed without one, and read as i32. */
  lemma SizelessVariablesReadAsI32(s: Size, x: Name, rest: seq<Token>)
    requires !RealSize(s) && PlainWord(x)
    ensures ParseValue(TokensOf(ValuePieces(Var(s, x))) + rest) == Ok((Var(I32, x), rest))
  {
    hide PlainWord;
    var pieces := ValuePieces(Var(s, x));
    assert pieces == [Sym('%'), W(x)];
    WordForm(x, AfterOther);
    FormTwo(Sym('%'), W(x), AfterSpace);
    var ts := TokensOf(pieces) + rest;
    assert ts == [SymbolToken('%'), WordToken(x)] + rest;
    assert ts[1..] == [WordToken(x)] + rest && ts[1..][1..] == rest;
  }

  // Blocks, functions and prototypes

  function NonEmpty(blocks: seq<Block>): seq<Block> {
    if blocks == [] then []
    else (if blocks[0].insts == [] then [] else [blocks[0]]) + NonEmpty(blocks[1..])
  }

  lemma {:induction false} EmptyBlocksVanish(blocks: seq<Block>)
    ensures BlocksPieces(NonEmpty(blocks)) == BlocksPieces(blocks)
    ensures forall b | b in NonEmpty(blocks) :: b in blocks && b.insts != []
  {
    hide InstsPieces;
    if blocks != [] {
      EmptyBlocksVanish(blocks[1..]);
      var rest := NonEmpty(blocks[1..]);
      if blocks[0].insts != [] {
        assert NonEmpty(blocks) == [blocks[0]] + rest;
        assert ([blocks[0]] + rest)[0] == blocks[0] && ([blocks[0]] + rest)[1..] == rest;
        assert BlocksPieces([blocks[0]] + rest) == BlockPieces(blocks[0]) + BlocksPieces(rest);
      } else {
        assert NonEmpty(blocks) == rest && BlockPieces(blocks[0]) == [];
        assert BlocksPieces(blocks) == [] + BlocksPieces(blocks[1..]);
      }
    }
  }

  /** Blocks without instructions are lost: the printed text reads back as the function without
      them. */
  lemma PrintedFunctionsLoseEmptyBlocks(f: Function, globals: seq<GlobalString>)
    requires AgreeRoot(Root(globals, [], [f.(blocks := NonEmpty(f.blocks))]))
    ensures Parse(Tokens(TextOf(RootPieces(Root(globals, [], [f]))))) ==
            Ok(Root(globals, [], [f.(blocks := NonEmpty(f.blocks))]))
  {
    hide Parse, Tokens, TextOf, AgreeRoot, BlocksPieces, GlobalsPieces, HeaderPieces, RootPieces;
    var g := f.(blocks := NonEmpty(f.blocks));
    EmptyBlocksVanish(f.blocks);
    SameHeader(f, g);
    PrintedRootIs(Root(globals, [], [f]));
    PrintedRootIs(Root(globals, [], [g]));
    ParsingUndoesEmitting(Root(globals, [], [g]));
  }

  lemma SameHeader(f: Function, g: Function)
    requires PrototypeOf(f) == PrototypeOf(g)
    ensures HeaderPieces(f) == HeaderPieces(g)
  {
  }

  /** An extern function is printed as one that returns nothing, and without the end of its line;
      with one it reads back as such. */
  lemma ExternsLoseReturnTypes(e: Prototype)
    requires WritablePrototype(e)
    ensures var void := e.(returnType := NoSize);
            ParseRoot(TokensOf(ExternPieces(e)) + [BREAK], Root([], [], [])) == Ok(Root([], [void], []))
    ensures ParseRoot(TokensOf(ExternPieces(e)), Root([], [], [])).Err?
  {
    hide PrototypePieces, PrototypeTokens, ParsePrototype, IdentifierWord, AgreeParams;
    var void := e.(returnType := NoSize);
    PrintedExternIs(e);
    Keywords();
    PrototypeForm("extern", void, AfterOther) by { hide LowerCase; }
    ParseExternBack(void, [], Root([], [], []));
    assert [BREAK] + [] == [BREAK] && [] + [void] == [void];
    NoLineEnd(void);
  }

  lemma PrintedExternIs(e: Prototype)
    ensures ExternPieces(e) == PrototypePieces("extern", e.(returnType := NoSize))
  {
    hide ParamPieces;
  }

  lemma NoLineEnd(p: Prototype)
    requires WritablePrototype(p)
    ensures ParseRoot(PrototypeTokens("extern", p), Root([], [], [])).Err?
  {
    hide ParseParameters, ParseValueSize, SizeToken, ParamTokens, AgreeParams;
    var params := [SymbolToken('(')] + ParamTokens(p.params) + [SymbolToken(')')];
    var ts := PrototypeTokens("extern", p);
    var named := [WordToken(p.name)] + params;
    assert ts[1..][1..] == [SizeToken(p.returnType)] + named;
    ParseSizeBack(p.returnType, named);
    assert named[1..] == params && params + [] == params;
    ParseParametersBack(p.params, []);
    assert SkipBreaks(ts) == ts;
  }
}
