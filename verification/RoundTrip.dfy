/** Parsing undoes emitting: printed text lexes to the tokens of its pieces, and those
    parse to what was printed. */
module RoundTrip {
  import opened Wrappers
  import opened Ir
  import opened Text
  import opened Lexer
  import opened Emitter
  import opened Parser

  // Lexing printed text

  predicate PlainChar(c: char) {
    !IsSpace(c) && c !in SYMBOLS && c != '"' && c != ';'
  }

  predicate PlainWord(w: string) {
    w != [] && forall i | 0 <= i < |w| :: PlainChar(w[i])
  }

  function PieceTokens(p: Piece): seq<Token> {
    match p
    case W(word) => Word(word)
    case Sym(c) => [Token(Symbol, [c])]
    case Str(text) => [Token(StringToken, text)]
    case Blank => []
    case Line => [BREAK]
    case EmptyLine => []
  }

  function TokensOf(pieces: seq<Piece>): seq<Token> {
    if pieces == [] then [] else PieceTokens(pieces[0]) + TokensOf(pieces[1..])
  }

  /** What stands before a piece. */
  datatype Prev = AfterWord | AfterSpace | AfterOther

  function PrevOf(p: Piece): Prev {
    match p
    case W(_) => AfterWord
    case Sym(_) => AfterOther
    case Str(_) => AfterOther
    case Blank => AfterSpace
    case Line => AfterSpace
    case EmptyLine => AfterSpace
  }

  /** The piece can be told from what stands before it: words do not touch, a line does not
      end in a space, and an empty line stands behind white space. */
  predicate Fits(p: Piece, prev: Prev) {
    match p
    case W(word) => PlainWord(word) && prev != AfterWord
    case Sym(c) => c in SYMBOLS
    case Str(text) => forall i | 0 <= i < |text| :: text[i] != '"'
    case Blank => true
    case Line => prev != AfterSpace
    case EmptyLine => prev == AfterSpace
  }

  predicate Spaced(pieces: seq<Piece>, prev: Prev) {
    pieces == [] || (Fits(pieces[0], prev) && Spaced(pieces[1..], PrevOf(pieces[0])))
  }

  function Last(pieces: seq<Piece>, prev: Prev): Prev {
    if pieces == [] then prev else PrevOf(pieces[|pieces| - 1])
  }

  lemma {:induction false} SpacedAppend(a: seq<Piece>, b: seq<Piece>, prev: Prev)
    requires Spaced(a, prev) && Spaced(b, Last(a, prev))
    ensures Spaced(a + b, prev) && Last(a + b, prev) == Last(b, Last(a, prev))
  {
    if a == [] {
      assert a + b == b;
    } else {
      assert (a + b)[1..] == a[1..] + b && (a + b)[0] == a[0];
      SpacedAppend(a[1..], b, PrevOf(a[0]));
    }
  }

  lemma {:induction false} TokensAppend(a: seq<Piece>, b: seq<Piece>)
    ensures TokensOf(a + b) == TokensOf(a) + TokensOf(b)
  {
    if a == [] {
      assert a + b == b;
    } else {
      assert (a + b)[1..] == a[1..] + b && (a + b)[0] == a[0];
      TokensAppend(a[1..], b);
      Associates(PieceTokens(a[0]), TokensOf(a[1..]), TokensOf(b));
    }
  }

  /** Plain characters are collected. */
  lemma {:induction false} PlainRun(word: string, x: string, rest: string)
    requires forall i | 0 <= i < |x| :: PlainChar(x[i])
    ensures LexFrom(word, x + rest) == LexFrom(word + x, rest)
    decreases |x|
  {
    if x == [] {
      assert x + rest == rest && word + x == word;
    } else {
      assert (x + rest)[1..] == x[1..] + rest && (x + rest)[0] == x[0];
      assert word + [x[0]] + x[1..] == word + x;
      PlainRun(word + [x[0]], x[1..], rest);
    }
  }

  lemma SkipSame(s: string)
    requires s == [] || !IsBreak(s[0])
    ensures LexFrom([], SkipSpaces(s)) == LexFrom([], s)
  {
  }

  lemma QuotedText(text: string, rest: string)
    requires forall i | 0 <= i < |text| :: text[i] != '"'
    ensures var s := "\"" + text + "\"" + rest; StartsString(s) && Quoted(s) == text && AfterString(s) == rest
  {
    var s := "\"" + text + "\"" + rest;
    var stop := FindFrom(s, '"', 1);
    assert s[|text| + 1] == '"';
    assert forall i | 1 <= i < |text| + 1 :: s[i] == text[i - 1];
    assert stop == |text| + 1;
  }

  lemma FirstChar(pieces: seq<Piece>)
    requires Spaced(pieces, AfterSpace) && TextOf(pieces) != [] && pieces[0] != EmptyLine
    ensures !IsBreak(TextOf(pieces)[0])
  {
    match pieces[0] {
      case W(word) => assert TextOf(pieces)[0] == word[0];
      case Sym(c) =>
      case Str(text) => assert TextOf(pieces)[0] == '"';
      case Blank =>
      case Line =>
      case EmptyLine =>
    }
  }

  /** Printed pieces lex to their tokens. */
  lemma {:induction false} PiecesLex(word: string, pieces: seq<Piece>, prev: Prev)
    requires Spaced(pieces, prev) && (word != [] ==> prev == AfterWord) && (pieces != [] ==> pieces[0] != EmptyLine)
    ensures LexFrom(word, TextOf(pieces)) == Word(word) + TokensOf(pieces)
    decreases |pieces|, 0
  {
    hide LexFrom, TextOf, StartsString, SkipSpaces, Word;
    if pieces == [] {
      LexNothing(word);
    } else {
      var p, rest := pieces[0], TextOf(pieces[1..]);
      TextStep(pieces);
      if PrevOf(p) == AfterSpace {
        SkippedLex(pieces[1..]);
      } else {
        PiecesLex(if p.W? then p.word else [], pieces[1..], PrevOf(p));
      }
      EmptyWord();
      match p {
        case W(x) =>
          PlainRun([], x, rest);
          assert [] + x == x;
        case Sym(c) =>
          LexSymbol(word, c, rest);
          Associates(Word(word), [Token(Symbol, [c])], TokensOf(pieces[1..]));
        case Str(text) =>
          LexString(word, text, rest);
          Associates(Word(word), [Token(StringToken, text)], TokensOf(pieces[1..]));
        case Blank =>
          LexBlank(word, pieces);
        case Line =>
          LexLine(word, pieces);
          Associates(Word(word), [BREAK], TokensOf(pieces[1..]));
      }
    }
  }

  /** A comment is not left out: its text, and the end of its line, start the word that follows it. */
  lemma CommentsJoinWords(comment: string, word: string, rest: seq<Piece>)
    requires comment != [] && (forall i | 0 <= i < |comment| :: comment[i] != '\n')
    requires PlainWord(word) && Spaced(rest, AfterWord) && (rest != [] ==> rest[0] != EmptyLine)
    ensures Tokens(";" + comment + "\n" + word + TextOf(rest)) == Word(comment + "\n" + word) + TokensOf(rest)
  {
    hide TextOf, TokensOf, Spaced, LexFrom, Word;
    var s := ";" + comment + "\n" + word + TextOf(rest);
    var stop := |comment| + 1;
    assert s[stop] == '\n' && forall i | 1 <= i < stop :: s[i] == comment[i - 1];
    assert FindFrom(s, '\n', 1) == stop;
    assert s[1..stop + 1] == comment + "\n" && s[stop + 1..] == word + TextOf(rest);
    CommentStep(s, stop);
    PlainRun(comment + "\n", word, TextOf(rest));
    PiecesLex(comment + "\n" + word, rest, AfterWord);
  }

  lemma CommentStep(s: string, stop: nat)
    requires s != [] && s[0] == ';' && stop < |s| && FindFrom(s, '\n', 1) == stop
    ensures Tokens(s) == LexFrom(s[1..stop + 1], s[stop + 1..])
  {
    EmptyWord();
  }

  // Line ends

  /** A carriage return ends a line as a newline does, alone or before one. */
  lemma LineEnds(word: string, rest: string)
    ensures LexFrom(word, "\r\n" + rest) == LexFrom(word, "\n" + rest) == LexFrom(word, "\r" + rest)
  {
    assert ("\r\n" + rest)[1..] == "\n" + rest && ("\n" + rest)[1..] == rest && ("\r" + rest)[1..] == rest;
    assert SkipSpaces("\n" + rest) == SkipSpaces(rest);
  }

  /** The text with a carriage return before every newline. */
  function WithReturns(s: string): string {
    if s == [] then [] else (if s[0] == '\n' then "\r\n" else [s[0]]) + WithReturns(s[1..])
  }

  lemma {:induction false} SkipReturns(s: string)
    ensures SkipSpaces(WithReturns(s)) == WithReturns(SkipSpaces(s))
  {
    if s != [] {
      var rest := WithReturns(s[1..]);
      SkipReturns(s[1..]);
      if s[0] == '\n' {
        assert WithReturns(s)[1..] == "\n" + rest && ("\n" + rest)[1..] == rest;
      } else {
        assert WithReturns(s)[1..] == rest;
      }
    }
  }

  lemma {:induction false} SkippedIn(s: string)
    ensures forall c | c in SkipSpaces(s) :: c in s
  {
    if s != [] && IsSpace(s[0]) {
      SkippedIn(s[1..]);
    }
  }

  /** So a text lexes to the same tokens with both kinds of line ends, strings and comments apart. */
  lemma {:induction false} ReturnsLexAlike(word: string, s: string)
    requires '"' !in s && ';' !in s
    ensures LexFrom(word, WithReturns(s)) == LexFrom(word, s)
    decreases |s|
  {
    hide SkipSpaces, Word;
    if s != [] {
      var rest := WithReturns(s[1..]);
      SkipReturns(s[1..]);
      SkippedIn(s[1..]);
      if s[0] == '\n' {
        assert WithReturns(s) == "\r\n" + rest && ("\n" + rest)[1..] == rest;
        LineEnds(word, rest);
        ReturnsLexAlike([], SkipSpaces(s[1..]));
      } else {
        assert WithReturns(s)[0] == s[0] && WithReturns(s)[1..] == rest;
        if IsSpace(s[0]) {
          ReturnsLexAlike([], SkipSpaces(s[1..]));
        } else if s[0] in SYMBOLS {
          ReturnsLexAlike([], s[1..]);
        } else {
          ReturnsLexAlike(word + [s[0]], s[1..]);
        }
      }
    }
  }

  lemma TextStep(pieces: seq<Piece>)
    requires pieces != []
    ensures TextOf(pieces) == PieceText(pieces[0]) + TextOf(pieces[1..])
  {
  }

  lemma EmptyWord()
    ensures Word([]) == [] && forall ts: seq<Token> :: [] + ts == ts
  {
  }

  lemma LexNothing(word: string)
    ensures LexFrom(word, TextOf([])) == Word(word) + TokensOf([]) && TextOf([]) == []
  {
  }

  lemma LexSymbol(word: string, c: char, rest: string)
    requires c in SYMBOLS
    ensures LexFrom(word, [c] + rest) == Word(word) + [Token(Symbol, [c])] + LexFrom([], rest)
  {
    assert ([c] + rest)[1..] == rest;
  }

  lemma LexString(word: string, text: string, rest: string)
    requires forall i | 0 <= i < |text| :: text[i] != '"'
    ensures LexFrom(word, ("\"" + text + "\"") + rest) == Word(word) + [Token(StringToken, text)] + LexFrom([], rest)
  {
    QuotedText(text, rest);
  }

  lemma LexBlank(word: string, pieces: seq<Piece>)
    requires pieces != [] && pieces[0] == Blank
    ensures LexFrom(word, TextOf(pieces)) == Word(word) + LexFrom([], SkipSpaces(TextOf(pieces[1..])))
  {
    assert TextOf(pieces)[1..] == TextOf(pieces[1..]);
  }

  lemma LexLine(word: string, pieces: seq<Piece>)
    requires pieces != [] && pieces[0] == Line
    ensures LexFrom(word, TextOf(pieces)) == Word(word) + [BREAK] + LexFrom([], SkipSpaces(TextOf(pieces[1..])))
  {
    assert TextOf(pieces)[1..] == TextOf(pieces[1..]);
  }

  /** Behind white space, more white space is skipped, empty lines included. */
  lemma {:induction false} SkippedLex(pieces: seq<Piece>)
    requires Spaced(pieces, AfterSpace)
    ensures LexFrom([], SkipSpaces(TextOf(pieces))) == TokensOf(pieces)
    decreases |pieces|, 1
  {
    hide LexFrom, TextOf;
    EmptyWord();
    if pieces == [] {
      LexNothing([]);
      SkipSame(TextOf(pieces));
    } else if pieces[0] == EmptyLine {
      TextStep(pieces);
      assert ("\n" + TextOf(pieces[1..]))[1..] == TextOf(pieces[1..]);
      SkippedLex(pieces[1..]);
    } else {
      if TextOf(pieces) != [] {
        FirstChar(pieces);
      }
      SkipSame(TextOf(pieces));
      PiecesLex([], pieces, AfterSpace);
    }
  }

  // The forms that can be written, and read back

  predicate RealSize(size: Size) {
    size != NoSize && size != ParamDependent
  }

  predicate AgreeValue(v: Value) {
    RealSize(v.size) && if v.Lit? then v.value < STOI_LIMIT else PlainWord(v.name)
  }

  /** Operations, with the labels that they list when they are read. */
  predicate WritableOp(op: Op, labels: seq<Name>) {
    match op
    case Allocate(n) => n < 256 && labels == []
    case Store(s) => s != ParamDependent && labels == []
    case Load(s) => s != ParamDependent && labels == []
    case Icmp(t) => labels == []
    case Branch(t, f) => PlainWord(t) && PlainWord(f) && labels == [t, f]
    case Jmp(l) => PlainWord(l) && labels == [l]
    case Arith(t) => t != Div && t != Mod && labels == []
    case Ret => labels == []
    case Call(g, s) => PlainWord(g) && s != ParamDependent && labels == [g]
    case Select => labels == []
    case Zext(s) => s != ParamDependent && labels == []
    case Sext(s) => s != ParamDependent && labels == []
    case GetArrayPtr(s) => s != ParamDependent && labels == []
    case Phi(incoming) =>
      |incoming| == 2 && PlainWord(incoming[0]) && PlainWord(incoming[1]) && labels == [incoming[1], incoming[0]]
    case Literal(s, n) => s != ParamDependent && n < STOI_LIMIT && labels == []
  }

  predicate AgreeValues(ops: seq<Value>) {
    forall i | 0 <= i < |ops| :: AgreeValue(ops[i])
  }

  predicate WritableInst(inst: Inst) {
    WritableOp(inst.op, inst.labels) && AgreeValues(inst.operands) && inst.dropped == [] &&
    (inst.result.Some? ==> PlainWord(inst.result.value)) && (inst.op.Literal? ==> inst.operands == [])
  }

  predicate WritableInsts(insts: seq<Inst>) {
    forall i | 0 <= i < |insts| :: WritableInst(insts[i])
  }

  predicate WritableBlock(block: Block) {
    PlainWord(block.name) && WritableInsts(block.insts)
  }

  predicate WritableBlocks(blocks: seq<Block>) {
    forall b | 0 <= b < |blocks| :: WritableBlock(blocks[b])
  }

  predicate IdentifierWord(x: Name) {
    PlainWord(x) && !IsDigit(x[0])
  }

  predicate AgreeParams(params: seq<(Name, Size)>) {
    forall i | 0 <= i < |params| :: PlainWord(params[i].0) && RealSize(params[i].1)
  }

  predicate WritablePrototype(p: Prototype) {
    IdentifierWord(p.name) && AgreeParams(p.params) && p.returnType != ParamDependent
  }

  function PrototypeOf(f: Function): Prototype {
    Prototype(f.name, f.params, f.returnType)
  }

  predicate WritableFunction(f: Function) {
    WritablePrototype(PrototypeOf(f)) && f.blocks != [] && WritableBlocks(f.blocks)
  }

  /** Where the printer agrees with what is written: the parser knows neither how it prints neq,
      pointers into arrays and literals, nor the order in which it prints the labels of phi. */
  predicate PrintsAsWritten(op: Op) {
    op != Icmp(Neq) && !op.GetArrayPtr? && !op.Literal? &&
    (op.Phi? ==> |op.incoming| == 2 && op.incoming[0] == op.incoming[1])
  }

  predicate AgreeInsts(insts: seq<Inst>) {
    WritableInsts(insts) && forall i | 0 <= i < |insts| :: PrintsAsWritten(insts[i].op)
  }

  predicate AgreeBlocks(blocks: seq<Block>) {
    WritableBlocks(blocks) && forall b | 0 <= b < |blocks| :: blocks[b].insts != [] && AgreeInsts(blocks[b].insts)
  }

  predicate AgreeFunction(f: Function) {
    WritableFunction(f) && AgreeBlocks(f.blocks)
  }

  predicate AgreeGlobal(g: GlobalString) {
    IdentifierWord(g.name) && forall i | 0 <= i < |g.value| :: g.value[i] != '"'
  }

  /** Global strings and one function. */
  predicate AgreeRoot(root: Root) {
    (forall i | 0 <= i < |root.globals| :: AgreeGlobal(root.globals[i])) &&
    root.externs == [] && |root.functions| == 1 && AgreeFunction(root.functions[0])
  }

  // Their pieces, as they are written

  /** The name by which a comparison is written. */
  function IcmpWord(t: IcmpType): string {
    if t == Neq then "ne" else IcmpName(t)
  }

  /** A phi is written with the label of its last operand first. */
  function WrittenOp(op: Op): seq<Piece> {
    match op
    case Icmp(t) => [W("icmp"), Blank, W(IcmpWord(t))]
    case GetArrayPtr(s) => [W("getarrayptr"), Blank, SizeWord(s)]
    case Literal(s, n) => [SizeWord(s), Blank, W(Decimal(n))]
    case Phi(incoming) =>
      if |incoming| == 2 then [W("phi"), Blank, W(incoming[1]), Blank, W(incoming[0])] else OpPieces(op)
    case _ => OpPieces(op)
  }

  function WrittenInst(inst: Inst): seq<Piece> {
    INDENT + ResultPieces(inst.result) + WrittenOp(inst.op) + OperandPieces(inst.operands)
  }

  function WrittenInsts(insts: seq<Inst>): seq<Piece> {
    if insts == [] then [] else WrittenInst(insts[0]) + [Line] + WrittenInsts(insts[1..])
  }

  function WrittenBlock(block: Block): seq<Piece> {
    [Sym('.'), W(block.name), Sym(':'), Line] + WrittenInsts(block.insts)
  }

  function WrittenBlocks(blocks: seq<Block>): seq<Piece> {
    if blocks == [] then [] else WrittenBlock(blocks[0]) + WrittenBlocks(blocks[1..])
  }

  /** A function header, or an extern function. */
  function PrototypePieces(word: string, p: Prototype): seq<Piece> {
    [W(word), Blank, W("fn"), Blank, SizeWord(p.returnType), Blank, W(p.name)] +
      ([Sym('(')] + ParamPieces(p.params) + [Sym(')')])
  }

  /** The label of the first block may be left out. */
  function BodyPieces(f: Function, labelled: bool): seq<Piece>
    requires f.blocks != []
  {
    if labelled then WrittenBlocks(f.blocks) else WrittenInsts(f.blocks[0].insts) + WrittenBlocks(f.blocks[1..])
  }

  function WrittenPieces(f: Function, labelled: bool): seq<Piece>
    requires f.blocks != []
  {
    PrototypePieces("define", PrototypeOf(f)) + [Line] + BodyPieces(f, labelled) + [W("end")]
  }

  lemma OpPrintsAsWritten(op: Op)
    requires PrintsAsWritten(op)
    ensures OpPieces(op) == WrittenOp(op)
  {
    if op.Phi? {
      var a, b := op.incoming[0], op.incoming[1];
      assert op.incoming[..1] == [a] && op.incoming[..1][..0] == [];
      assert LabelPieces(op.incoming[..1]) == [Blank, W(a)];
    }
  }

  lemma {:induction false} InstsPrintAsWritten(insts: seq<Inst>)
    requires AgreeInsts(insts)
    ensures InstsPieces(insts) == WrittenInsts(insts)
  {
    hide OpPieces, WrittenOp;
    if insts != [] {
      OpPrintsAsWritten(insts[0].op);
      InstsPrintAsWritten(insts[1..]);
    }
  }

  lemma {:induction false} BlocksPrintAsWritten(blocks: seq<Block>)
    requires AgreeBlocks(blocks)
    ensures BlocksPieces(blocks) == WrittenBlocks(blocks)
  {
    if blocks != [] {
      InstsPrintAsWritten(blocks[0].insts);
      BlocksPrintAsWritten(blocks[1..]);
    }
  }

  // Their tokens

  /** The token of a word. */
  function WordToken(x: string): Token {
    Token(if x != [] && IsDigit(x[0]) then Number else Identifier, x)
  }

  function SymbolToken(c: char): Token {
    Token(Symbol, [c])
  }

  function SizeToken(size: Size): Token {
    Token(Identifier, if SizeName(size).Some? then SizeName(size).value else "")
  }

  function ValueTokens(v: Value): seq<Token>
    requires AgreeValue(v)
  {
    match v
    case Lit(s, n) => [SizeToken(s), Token(Number, Decimal(n))]
    case Var(s, x) => [SizeToken(s), SymbolToken('%'), WordToken(x)]
  }

  function OpTokens(op: Op, labels: seq<Name>): seq<Token>
    requires WritableOp(op, labels)
  {
    match op
    case Allocate(n) => [Token(Identifier, "allocate"), Token(Number, Decimal(n))]
    case Store(s) => [Token(Identifier, "store"), SizeToken(s)]
    case Load(s) => [Token(Identifier, "load"), SizeToken(s)]
    case Icmp(t) => [Token(Identifier, "icmp"), Token(Identifier, IcmpWord(t))]
    case Branch(t, f) => [Token(Identifier, "branch"), WordToken(t), WordToken(f)]
    case Jmp(l) => [Token(Identifier, "jmp"), WordToken(l)]
    case Arith(t) => [Token(Identifier, ArithName(t))]
    case Ret => [Token(Identifier, "ret")]
    case Call(g, s) => [Token(Identifier, "call"), SizeToken(s), WordToken(g)]
    case Select => [Token(Identifier, "select")]
    case Zext(s) => [Token(Identifier, "zext"), SizeToken(s)]
    case Sext(s) => [Token(Identifier, "sext"), SizeToken(s)]
    case GetArrayPtr(s) => [Token(Identifier, "getarrayptr"), SizeToken(s)]
    case Phi(incoming) => [Token(Identifier, "phi"), WordToken(incoming[1]), WordToken(incoming[0])]
    case Literal(s, n) => [SizeToken(s), Token(Number, Decimal(n))]
  }

  function OperandTokens(ops: seq<Value>): seq<Token>
    requires AgreeValues(ops)
  {
    if ops == [] then []
    else ValueTokens(ops[0]) + (if |ops| > 1 then [SymbolToken(',')] else []) + OperandTokens(ops[1..])
  }

  function ResultTokens(result: Option<Name>): seq<Token>
    requires result.Some? ==> PlainWord(result.value)
  {
    if result.Some? then [SymbolToken('%'), WordToken(result.value), SymbolToken('=')] else []
  }

  function InstTokens(inst: Inst): seq<Token>
    requires WritableInst(inst)
  {
    ResultTokens(inst.result) + OpTokens(inst.op, inst.labels) + OperandTokens(inst.operands)
  }

  function InstsTokens(insts: seq<Inst>): seq<Token>
    requires WritableInsts(insts)
  {
    if insts == [] then [] else InstTokens(insts[0]) + [BREAK] + InstsTokens(insts[1..])
  }

  function BlockTokens(block: Block): seq<Token>
    requires WritableBlock(block)
  {
    [SymbolToken('.'), WordToken(block.name), SymbolToken(':'), BREAK] + InstsTokens(block.insts)
  }

  function BlocksTokens(blocks: seq<Block>): seq<Token>
    requires WritableBlocks(blocks)
  {
    if blocks == [] then [] else BlockTokens(blocks[0]) + BlocksTokens(blocks[1..])
  }

  function ParamTokens(params: seq<(Name, Size)>): seq<Token>
    requires AgreeParams(params)
  {
    if params == [] then []
    else
      [SizeToken(params[0].1), SymbolToken('%'), WordToken(params[0].0)] +
      (if |params| > 1 then [SymbolToken(',')] else []) + ParamTokens(params[1..])
  }

  const END := Token(Identifier, "end")

  function PrototypeTokens(word: string, p: Prototype): seq<Token>
    requires WritablePrototype(p)
  {
    [Token(Identifier, word), Token(Identifier, "fn"), SizeToken(p.returnType), WordToken(p.name)] +
    ([SymbolToken('(')] + ParamTokens(p.params) + [SymbolToken(')')])
  }

  function BodyTokens(f: Function, labelled: bool): seq<Token>
    requires WritableFunction(f)
  {
    if labelled then BlocksTokens(f.blocks) else EntryTokens(f.blocks[0]) + BlocksTokens(f.blocks[1..])
  }

  function EntryTokens(block: Block): seq<Token>
    requires WritableBlock(block)
  {
    InstsTokens(block.insts)
  }

  function FunctionTokens(f: Function, labelled: bool): seq<Token>
    requires WritableFunction(f)
  {
    PrototypeTokens("define", PrototypeOf(f)) + [BREAK] + BodyTokens(f, labelled) + [END]
  }

  function GlobalTokens(g: GlobalString): seq<Token>
    requires AgreeGlobal(g)
  {
    [Token(Identifier, "global_string"), SymbolToken('%'), WordToken(g.name), SymbolToken('='),
     Token(StringToken, g.value)]
  }

  // Pieces have these tokens

  /** Pieces that are well spaced after prev, end in next, and have given tokens. */
  ghost predicate Form(pieces: seq<Piece>, prev: Prev, next: Prev, tokens: seq<Token>) {
    Spaced(pieces, prev) && Last(pieces, prev) == next && TokensOf(pieces) == tokens
  }

  lemma FormAppend(a: seq<Piece>, b: seq<Piece>, prev: Prev, mid: Prev, next: Prev, ta: seq<Token>, tb: seq<Token>)
    requires Form(a, prev, mid, ta) && Form(b, mid, next, tb)
    ensures Form(a + b, prev, next, ta + tb)
  {
    SpacedAppend(a, b, prev);
    TokensAppend(a, b);
  }

  lemma FormOne(p: Piece, prev: Prev)
    requires Fits(p, prev)
    ensures Form([p], prev, PrevOf(p), PieceTokens(p))
  {
    assert [p][1..] == [];
  }

  lemma FormTwo(p: Piece, q: Piece, prev: Prev)
    requires Fits(p, prev) && Fits(q, PrevOf(p))
    ensures Form([p, q], prev, PrevOf(q), PieceTokens(p) + PieceTokens(q))
  {
    hide Form, Fits;
    FormOne(p, prev);
    FormOne(q, PrevOf(p));
    FormAppend([p], [q], prev, PrevOf(p), PrevOf(q), PieceTokens(p), PieceTokens(q));
    assert [p] + [q] == [p, q];
  }

  lemma FormThree(p: Piece, q: Piece, r: Piece, prev: Prev)
    requires Fits(p, prev) && Fits(q, PrevOf(p)) && Fits(r, PrevOf(q))
    ensures Form([p, q, r], prev, PrevOf(r), PieceTokens(p) + PieceTokens(q) + PieceTokens(r))
  {
    hide Form, Fits;
    FormTwo(p, q, prev);
    FormOne(r, PrevOf(q));
    FormAppend([p, q], [r], prev, PrevOf(q), PrevOf(r), PieceTokens(p) + PieceTokens(q), PieceTokens(r));
    assert [p, q] + [r] == [p, q, r];
  }

  lemma FormFive(p: Piece, q: Piece, r: Piece, s: Piece, t: Piece, prev: Prev)
    requires Fits(p, prev) && Fits(q, PrevOf(p)) && Fits(r, PrevOf(q)) && Fits(s, PrevOf(r)) && Fits(t, PrevOf(s))
    ensures Form([p, q, r, s, t], prev, PrevOf(t),
                 (PieceTokens(p) + PieceTokens(q) + PieceTokens(r)) + (PieceTokens(s) + PieceTokens(t)))
  {
    hide Form, Fits;
    FormThree(p, q, r, prev);
    FormTwo(s, t, PrevOf(r));
    FormAppend([p, q, r], [s, t], prev, PrevOf(r), PrevOf(t), PieceTokens(p) + PieceTokens(q) + PieceTokens(r),
               PieceTokens(s) + PieceTokens(t));
    assert [p, q, r] + [s, t] == [p, q, r, s, t];
  }

  lemma SizeNamesPlain()
    ensures PlainWord("void") && PlainWord("ptr") && PlainWord("i1") && PlainWord("i8")
    ensures PlainWord("i16") && PlainWord("i32") && PlainWord("i64")
  {
  }

  lemma SizeForm(size: Size, prev: Prev)
    requires size != ParamDependent && prev != AfterWord
    ensures Fits(SizeWord(size), prev) && PieceTokens(SizeWord(size)) == [SizeToken(size)]
  {
    hide PlainChar;
    SizeNamesPlain();
  }

  lemma DecimalForm(n: nat, prev: Prev)
    requires prev != AfterWord
    ensures Fits(W(Decimal(n)), prev) && PieceTokens(W(Decimal(n))) == [Token(Number, Decimal(n))]
  {
    assert Decimal(n)[0] in Decimal(n);
    forall i | 0 <= i < |Decimal(n)| ensures PlainChar(Decimal(n)[i]) {
      assert Decimal(n)[i] in Decimal(n);
    }
  }

  lemma ValueForm(v: Value, prev: Prev)
    requires AgreeValue(v) && prev != AfterWord
    ensures Form(ValuePieces(v), prev, AfterWord, ValueTokens(v))
  {
    hide Form, Decimal;
    SizeForm(v.size, prev);
    if v.Lit? {
      DecimalForm(v.value, AfterSpace);
      FormThree(SizeWord(v.size), Blank, W(Decimal(v.value)), prev);
      assert [SizeToken(v.size)] + [] + [Token(Number, Decimal(v.value))] == ValueTokens(v);
    } else {
      FormTwo(SizeWord(v.size), Blank, prev);
      FormTwo(Sym('%'), W(v.name), AfterSpace);
      FormAppend([SizeWord(v.size), Blank], [Sym('%'), W(v.name)], prev, AfterSpace, AfterWord,
                 [SizeToken(v.size)] + [], [SymbolToken('%')] + [WordToken(v.name)]);
      assert ([SizeToken(v.size)] + []) + ([SymbolToken('%')] + [WordToken(v.name)]) == ValueTokens(v);
    }
  }

  predicate LowerCase(w: string) {
    w != [] && forall i | 0 <= i < |w| :: 'a' <= w[i] <= 'z' || w[i] == '_'
  }

  lemma KeywordForm(w: string, prev: Prev)
    requires LowerCase(w) && prev != AfterWord
    ensures Fits(W(w), prev) && PieceTokens(W(w)) == [Token(Identifier, w)]
  {
    forall i | 0 <= i < |w| ensures PlainChar(w[i]) {
    }
  }

  lemma WordForm(w: string, prev: Prev)
    requires PlainWord(w) && prev != AfterWord
    ensures Fits(W(w), prev) && PieceTokens(W(w)) == [WordToken(w)]
  {
  }

  /** An operation that prints as one word. */
  lemma OneWordForm(w: string)
    requires LowerCase(w)
    ensures Form([W(w)], AfterSpace, AfterWord, [Token(Identifier, w)])
  {
    hide Form;
    KeywordForm(w, AfterSpace);
    FormOne(W(w), AfterSpace);
  }

  /** An operation that prints as its name and one more word. */
  lemma TwoWordsForm(w: string, x: Piece, token: Token)
    requires LowerCase(w) && x.W? && Fits(x, AfterSpace) && PieceTokens(x) == [token]
    ensures Form([W(w), Blank, x], AfterSpace, AfterWord, [Token(Identifier, w), token])
  {
    hide Form;
    KeywordForm(w, AfterSpace);
    FormThree(W(w), Blank, x, AfterSpace);
    assert [Token(Identifier, w)] + [] + [token] == [Token(Identifier, w), token];
  }

  lemma ThreeWordsForm(w: string, x: Piece, y: Piece, token: Token, other: Token)
    requires LowerCase(w) && x.W? && Fits(x, AfterSpace) && PieceTokens(x) == [token]
    requires y.W? && Fits(y, AfterSpace) && PieceTokens(y) == [other]
    ensures Form([W(w), Blank, x, Blank, y], AfterSpace, AfterWord, [Token(Identifier, w), token, other])
  {
    hide Form;
    KeywordForm(w, AfterSpace);
    FormFive(W(w), Blank, x, Blank, y, AfterSpace);
    assert ([Token(Identifier, w)] + [] + [token]) + ([] + [other]) == [Token(Identifier, w), token, other];
  }

  lemma SizedForm(w: string, size: Size)
    requires LowerCase(w) && size != ParamDependent
    ensures Form([W(w), Blank, SizeWord(size)], AfterSpace, AfterWord, [Token(Identifier, w), SizeToken(size)])
  {
    hide Form, LowerCase;
    SizeForm(size, AfterSpace);
    TwoWordsForm(w, SizeWord(size), SizeToken(size));
  }

  lemma Keywords()
    ensures LowerCase("allocate") && LowerCase("store") && LowerCase("load") && LowerCase("icmp") && LowerCase("branch")
    ensures LowerCase("jmp") && LowerCase("ret") && LowerCase("call") && LowerCase("select") && LowerCase("zext") &&
            LowerCase("sext") && LowerCase("getarrayptr") && LowerCase("phi") && LowerCase("extern")
    ensures LowerCase("define") && LowerCase("fn") && LowerCase("end") && LowerCase("global_string")
    ensures forall t: IcmpType :: LowerCase(IcmpWord(t))
    ensures forall t: ArithType :: LowerCase(ArithName(t))
  {
    var g := "global_string";
    assert g == "global" + "_" + "string";
  }

  lemma OpForm(op: Op, labels: seq<Name>)
    requires WritableOp(op, labels)
    ensures Form(WrittenOp(op), AfterSpace, AfterWord, OpTokens(op, labels))
  {
    hide Form, Decimal, LowerCase, Fits, PieceTokens;
    Keywords();
    match op {
      case Allocate(n) =>
        DecimalForm(n, AfterSpace);
        TwoWordsForm("allocate", W(Decimal(n)), Token(Number, Decimal(n)));
      case Store(s) => SizedForm("store", s);
      case Load(s) => SizedForm("load", s);
      case Zext(s) => SizedForm("zext", s);
      case Sext(s) => SizedForm("sext", s);
      case Icmp(t) =>
        KeywordForm(IcmpWord(t), AfterSpace);
        TwoWordsForm("icmp", W(IcmpWord(t)), Token(Identifier, IcmpWord(t)));
      case GetArrayPtr(s) => SizedForm("getarrayptr", s);
      case Phi(incoming) =>
        WordForm(incoming[1], AfterSpace);
        WordForm(incoming[0], AfterSpace);
        ThreeWordsForm("phi", W(incoming[1]), W(incoming[0]), WordToken(incoming[1]), WordToken(incoming[0]));
      case Literal(s, n) =>
        SizeForm(s, AfterSpace);
        DecimalForm(n, AfterSpace);
        LiteralForm(s, n);
      case Branch(t, f) =>
        WordForm(t, AfterSpace);
        WordForm(f, AfterSpace);
        ThreeWordsForm("branch", W(t), W(f), WordToken(t), WordToken(f));
      case Jmp(l) =>
        WordForm(l, AfterSpace);
        TwoWordsForm("jmp", W(l), WordToken(l));
      case Call(g, s) =>
        SizeForm(s, AfterSpace);
        WordForm(g, AfterSpace);
        ThreeWordsForm("call", SizeWord(s), W(g), SizeToken(s), WordToken(g));
      case Arith(t) => OneWordForm(ArithName(t));
      case Ret => OneWordForm("ret");
      case Select => OneWordForm("select");
    }
  }

  lemma LiteralForm(s: Size, n: nat)
    requires Fits(SizeWord(s), AfterSpace) && PieceTokens(SizeWord(s)) == [SizeToken(s)]
    requires Fits(W(Decimal(n)), AfterSpace) && PieceTokens(W(Decimal(n))) == [Token(Number, Decimal(n))]
    ensures Form([SizeWord(s), Blank, W(Decimal(n))], AfterSpace, AfterWord,
                 [SizeToken(s), Token(Number, Decimal(n))])
  {
    hide Form, Decimal;
    FormThree(SizeWord(s), Blank, W(Decimal(n)), AfterSpace);
    assert [SizeToken(s)] + [] + [Token(Number, Decimal(n))] == [SizeToken(s), Token(Number, Decimal(n))];
  }

  lemma FormNothing(prev: Prev)
    ensures Form([], prev, prev, [])
  {
  }

  lemma {:induction false} OperandsForm(ops: seq<Value>)
    requires AgreeValues(ops)
    ensures Form(OperandPieces(ops), AfterWord, AfterWord, OperandTokens(ops))
  {
    hide Form, ValuePieces, ValueTokens, AgreeValue;
    if ops == [] {
      FormNothing(AfterWord);
    } else {
      FormOne(Blank, AfterWord);
      ValueForm(ops[0], AfterSpace);
      FormAppend([Blank], ValuePieces(ops[0]), AfterWord, AfterSpace, AfterWord, [], ValueTokens(ops[0]));
      assert [] + ValueTokens(ops[0]) == ValueTokens(ops[0]);
      var first := [Blank] + ValuePieces(ops[0]);
      if |ops| > 1 {
        FormOne(Sym(','), AfterWord);
        FormAppend(first, [Sym(',')], AfterWord, AfterWord, AfterOther, ValueTokens(ops[0]), [SymbolToken(',')]);
        OperandsForm(ops[1..]);
        MoreOperands(ops[1..]);
        FormAppend(first + [Sym(',')], OperandPieces(ops[1..]), AfterWord, AfterOther, AfterWord,
                   ValueTokens(ops[0]) + [SymbolToken(',')], OperandTokens(ops[1..]));
      } else {
        assert ops[1..] == [];
        FormNothing(AfterWord);
        FormAppend(first, [], AfterWord, AfterWord, AfterWord, ValueTokens(ops[0]), []);
        assert first + [] + [] == first + [];
        assert ValueTokens(ops[0]) + [] + [] == ValueTokens(ops[0]) + [];
      }
    }
  }

  /** Operands start with a space, so they fit after a comma as well as after a word. */
  lemma MoreOperands(ops: seq<Value>)
    requires AgreeValues(ops) && ops != [] && Form(OperandPieces(ops), AfterWord, AfterWord, OperandTokens(ops))
    ensures Form(OperandPieces(ops), AfterOther, AfterWord, OperandTokens(ops))
  {
    hide ValuePieces, ValueTokens, AgreeValue;
    assert OperandPieces(ops)[0] == Blank;
  }

  lemma IndentForm(prev: Prev)
    ensures Form(INDENT, prev, AfterSpace, [])
  {
    hide Form;
    FormTwo(Blank, Blank, prev);
    FormTwo(Blank, Blank, AfterSpace);
    FormAppend([Blank, Blank], [Blank, Blank], prev, AfterSpace, AfterSpace, [] + [], [] + []);
    assert INDENT == [Blank, Blank] + [Blank, Blank];
  }

  lemma ResultForm(result: Option<Name>)
    requires result.Some? ==> PlainWord(result.value)
    ensures Form(ResultPieces(result), AfterSpace, AfterSpace, ResultTokens(result))
  {
    hide Form;
    if result.None? {
      FormNothing(AfterSpace);
    } else {
      FormFive(Sym('%'), W(result.value), Blank, Sym('='), Blank, AfterSpace);
      assert ([SymbolToken('%')] + [WordToken(result.value)] + []) + ([SymbolToken('=')] + []) == ResultTokens(result);
    }
  }

  lemma InstForm(inst: Inst, prev: Prev)
    requires WritableInst(inst)
    ensures Form(WrittenInst(inst), prev, AfterWord, InstTokens(inst))
  {
    hide Form, ResultPieces, ResultTokens, WrittenOp, OpTokens, OperandPieces, OperandTokens, WritableOp, AgreeValues;
    IndentForm(prev);
    ResultForm(inst.result);
    OpForm(inst.op, inst.labels);
    OperandsForm(inst.operands);
    FormAppend(INDENT, ResultPieces(inst.result), prev, AfterSpace, AfterSpace, [], ResultTokens(inst.result));
    assert [] + ResultTokens(inst.result) == ResultTokens(inst.result);
    FormAppend(INDENT + ResultPieces(inst.result), WrittenOp(inst.op), prev, AfterSpace, AfterWord,
               ResultTokens(inst.result), OpTokens(inst.op, inst.labels));
    FormAppend(INDENT + ResultPieces(inst.result) + WrittenOp(inst.op), OperandPieces(inst.operands), prev, AfterWord,
               AfterWord,
               ResultTokens(inst.result) + OpTokens(inst.op, inst.labels), OperandTokens(inst.operands));
  }

  lemma {:induction false} InstsForm(insts: seq<Inst>)
    requires WritableInsts(insts)
    ensures Form(WrittenInsts(insts), AfterSpace, AfterSpace, InstsTokens(insts))
  {
    hide Form, WrittenInst, InstTokens, WritableInst;
    if insts == [] {
      FormNothing(AfterSpace);
    } else {
      InstForm(insts[0], AfterSpace);
      FormOne(Line, AfterWord);
      FormAppend(WrittenInst(insts[0]), [Line], AfterSpace, AfterWord, AfterSpace, InstTokens(insts[0]), [BREAK]);
      InstsForm(insts[1..]);
      FormAppend(WrittenInst(insts[0]) + [Line], WrittenInsts(insts[1..]), AfterSpace, AfterSpace, AfterSpace,
                 InstTokens(insts[0]) + [BREAK], InstsTokens(insts[1..]));
    }
  }

  lemma LabelForm(x: Name)
    requires PlainWord(x)
    ensures Form([Sym('.'), W(x), Sym(':'), Line], AfterSpace, AfterSpace,
                 [SymbolToken('.'), WordToken(x), SymbolToken(':'), BREAK])
  {
    hide Form;
    FormTwo(Sym('.'), W(x), AfterSpace);
    FormTwo(Sym(':'), Line, AfterWord);
    FormAppend([Sym('.'), W(x)], [Sym(':'), Line], AfterSpace, AfterWord, AfterSpace,
               [SymbolToken('.')] + [WordToken(x)], [SymbolToken(':')] + [BREAK]);
    assert [Sym('.'), W(x)] + [Sym(':'), Line] == [Sym('.'), W(x), Sym(':'), Line];
    assert ([SymbolToken('.')] + [WordToken(x)]) + ([SymbolToken(':')] + [BREAK]) ==
           [SymbolToken('.'), WordToken(x), SymbolToken(':'), BREAK];
  }

  lemma {:induction false} BlocksForm(blocks: seq<Block>)
    requires WritableBlocks(blocks)
    ensures Form(WrittenBlocks(blocks), AfterSpace, AfterSpace, BlocksTokens(blocks))
  {
    hide Form, WrittenInsts, InstsTokens, WritableInsts, PlainWord;
    if blocks == [] {
      FormNothing(AfterSpace);
    } else {
      var x, insts := blocks[0].name, blocks[0].insts;
      var named := [Sym('.'), W(x), Sym(':'), Line];
      var tokens := [SymbolToken('.'), WordToken(x), SymbolToken(':'), BREAK];
      LabelForm(x);
      InstsForm(insts);
      FormAppend(named, WrittenInsts(insts), AfterSpace, AfterSpace, AfterSpace, tokens, InstsTokens(insts));
      BlocksForm(blocks[1..]);
      FormAppend(named + WrittenInsts(insts), WrittenBlocks(blocks[1..]), AfterSpace, AfterSpace, AfterSpace,
                 tokens + InstsTokens(insts), BlocksTokens(blocks[1..]));
    }
  }

  lemma ParamForm(x: Name, size: Size, prev: Prev)
    requires PlainWord(x) && RealSize(size) && prev != AfterWord
    ensures Form(VariablePieces(size, x), prev, AfterWord, [SizeToken(size), SymbolToken('%'), WordToken(x)])
  {
    hide Form;
    assert AgreeValue(Var(size, x));
    ValueForm(Var(size, x), prev);
  }

  lemma {:induction false} ParamsForm(params: seq<(Name, Size)>, prev: Prev)
    requires AgreeParams(params) && prev != AfterWord
    ensures exists next :: Form(ParamPieces(params), prev, next, ParamTokens(params))
    decreases |params|
  {
    hide Form, VariablePieces, SizeToken, PlainWord;
    if params == [] {
      FormNothing(prev);
      assert Form(ParamPieces(params), prev, prev, ParamTokens(params));
    } else {
      var (x, size) := params[0];
      ParamForm(x, size, prev);
      var tokens := [SizeToken(size), SymbolToken('%'), WordToken(x)];
      if |params| > 1 {
        FormTwo(Sym(','), Blank, AfterWord);
        assert [SymbolToken(',')] + [] == [SymbolToken(',')];
        FormAppend(VariablePieces(size, x), [Sym(','), Blank], prev, AfterWord, AfterSpace, tokens, [SymbolToken(',')]);
        ParamsForm(params[1..], AfterSpace);
        var next :| Form(ParamPieces(params[1..]), AfterSpace, next, ParamTokens(params[1..]));
        FormAppend(VariablePieces(size, x) + [Sym(','), Blank], ParamPieces(params[1..]), prev, AfterSpace, next,
                   tokens + [SymbolToken(',')], ParamTokens(params[1..]));
        assert Form(ParamPieces(params), prev, next, ParamTokens(params));
      } else {
        assert params[1..] == [];
        assert VariablePieces(size, x) + [] + [] == VariablePieces(size, x);
        assert tokens + [] + [] == tokens;
        assert Form(ParamPieces(params), prev, AfterWord, ParamTokens(params));
      }
    }
  }

  lemma ParensForm(params: seq<(Name, Size)>)
    requires AgreeParams(params)
    ensures Form([Sym('(')] + ParamPieces(params) + [Sym(')')], AfterWord, AfterOther,
                 [SymbolToken('(')] + ParamTokens(params) + [SymbolToken(')')])
  {
    hide Form, ParamPieces, ParamTokens;
    FormOne(Sym('('), AfterWord);
    ParamsForm(params, AfterOther);
    var next :| Form(ParamPieces(params), AfterOther, next, ParamTokens(params));
    FormAppend([Sym('(')], ParamPieces(params), AfterWord, AfterOther, next, [SymbolToken('(')], ParamTokens(params));
    FormOne(Sym(')'), next);
    FormAppend([Sym('(')] + ParamPieces(params), [Sym(')')], AfterWord, next, AfterOther,
               [SymbolToken('(')] + ParamTokens(params), [SymbolToken(')')]);
  }

  lemma NameForm(word: string, p: Prototype, prev: Prev)
    requires WritablePrototype(p) && LowerCase(word) && prev != AfterWord
    ensures Form([W(word), Blank, W("fn"), Blank, SizeWord(p.returnType), Blank, W(p.name)], prev, AfterWord,
                 [Token(Identifier, word), Token(Identifier, "fn"), SizeToken(p.returnType), WordToken(p.name)])
  {
    hide Form, LowerCase, Fits, PieceTokens;
    Keywords();
    KeywordForm(word, prev);
    KeywordForm("fn", AfterSpace);
    SizeForm(p.returnType, AfterSpace);
    WordForm(p.name, AfterSpace);
    BlankFits();
    FormFive(W(word), Blank, W("fn"), Blank, SizeWord(p.returnType), prev);
    FormTwo(Blank, W(p.name), AfterWord);
    var a, b := [W(word), Blank, W("fn"), Blank, SizeWord(p.returnType)], [Blank, W(p.name)];
    var ta := ([Token(Identifier, word)] + [] + [Token(Identifier, "fn")]) + ([] + [SizeToken(p.returnType)]);
    FormAppend(a, b, prev, AfterWord, AfterWord, ta, [] + [WordToken(p.name)]);
    assert a + b == [W(word), Blank, W("fn"), Blank, SizeWord(p.returnType), Blank, W(p.name)];
    assert ta + ([] + [WordToken(p.name)]) ==
           [Token(Identifier, word), Token(Identifier, "fn"), SizeToken(p.returnType), WordToken(p.name)];
  }

  lemma BlankFits()
    ensures forall prev: Prev :: Fits(Blank, prev)
    ensures PieceTokens(Blank) == []
  {
  }

  lemma PrototypeForm(word: string, p: Prototype, prev: Prev)
    requires WritablePrototype(p) && LowerCase(word) && prev != AfterWord
    ensures Form(PrototypePieces(word, p), prev, AfterOther, PrototypeTokens(word, p))
  {
    hide Form, ParamPieces, ParamTokens, SizeWord, SizeToken, IdentifierWord, AgreeParams, LowerCase;
    var header := [W(word), Blank, W("fn"), Blank, SizeWord(p.returnType), Blank, W(p.name)];
    var named := [Token(Identifier, word), Token(Identifier, "fn"), SizeToken(p.returnType), WordToken(p.name)];
    var params, tokens := [Sym('(')] + ParamPieces(p.params) + [Sym(')')],
      [SymbolToken('(')] + ParamTokens(p.params) + [SymbolToken(')')];
    NameForm(word, p, prev);
    ParensForm(p.params);
    FormAppend(header, params, prev, AfterWord, AfterOther, named, tokens);
  }

  lemma BodyForm(f: Function, labelled: bool)
    requires WritableFunction(f)
    ensures Form(BodyPieces(f, labelled), AfterSpace, AfterSpace, BodyTokens(f, labelled))
  {
    hide Form, WrittenInsts, InstsTokens, WrittenBlocks, BlocksTokens, WritablePrototype;
    if labelled {
      BlocksForm(f.blocks);
    } else {
      var insts, rest := f.blocks[0].insts, f.blocks[1..];
      assert WritableBlock(f.blocks[0]) && forall b | 0 <= b < |rest| :: rest[b] == f.blocks[b + 1];
      InstsForm(insts);
      BlocksForm(rest);
      FormAppend(WrittenInsts(insts), WrittenBlocks(rest), AfterSpace, AfterSpace, AfterSpace, InstsTokens(insts),
                 BlocksTokens(rest));
    }
  }

  lemma FunctionForm(f: Function, labelled: bool, prev: Prev)
    requires WritableFunction(f) && prev != AfterWord
    ensures Form(WrittenPieces(f, labelled), prev, AfterWord, FunctionTokens(f, labelled))
  {
    hide Form, PrototypePieces, PrototypeTokens, BodyPieces, BodyTokens, LowerCase, WritableBlocks, WritablePrototype;
    Keywords();
    PrototypeForm("define", PrototypeOf(f), prev);
    BodyForm(f, labelled);
    var header, tokens := PrototypePieces("define", PrototypeOf(f)), PrototypeTokens("define", PrototypeOf(f));
    FormOne(Line, AfterOther);
    FormAppend(header, [Line], prev, AfterOther, AfterSpace, tokens, [BREAK]);
    FormAppend(header + [Line], BodyPieces(f, labelled), prev, AfterSpace, AfterSpace, tokens + [BREAK],
               BodyTokens(f, labelled));
    OneWordForm("end");
    FormAppend(header + [Line] + BodyPieces(f, labelled), [W("end")], prev, AfterSpace, AfterWord,
               tokens + [BREAK] + BodyTokens(f, labelled), [END]);
  }

  /** A global string, without the end of its line. */
  function StringPieces(g: GlobalString): seq<Piece> {
    [W("global_string"), Blank, Sym('%'), W(g.name), Blank, Sym('='), Blank, Str(g.value)]
  }

  lemma StringForm(g: GlobalString, prev: Prev)
    requires AgreeGlobal(g) && prev != AfterWord
    ensures Form(StringPieces(g), prev, AfterOther, GlobalTokens(g))
  {
    hide Form, LowerCase;
    Keywords();
    KeywordForm("global_string", prev);
    FormFive(W("global_string"), Blank, Sym('%'), W(g.name), Blank, prev);
    FormThree(Sym('='), Blank, Str(g.value), AfterSpace);
    var a, b := [W("global_string"), Blank, Sym('%'), W(g.name), Blank], [Sym('='), Blank, Str(g.value)];
    var ta := ([Token(Identifier, "global_string")] + [] + [SymbolToken('%')]) + ([WordToken(g.name)] + []);
    var tb := [SymbolToken('=')] + [] + [Token(StringToken, g.value)];
    FormAppend(a, b, prev, AfterSpace, AfterOther, ta, tb);
    assert a + b == StringPieces(g);
    assert ta + tb == GlobalTokens(g);
  }

  // Whole texts

  /** What a text consists of: global strings, extern functions, and functions, the label of
      whose first block may be left out. */
  datatype TopLevel = StringItem(g: GlobalString) | ExternItem(p: Prototype) | FunctionItem(f: Function, labelled: bool)

  /** An item, and the number of empty lines behind it. */
  datatype Part = Part(item: TopLevel, gap: nat)

  /** The label of the first block is left out where the parser supplies it. */
  predicate WritableItem(item: TopLevel) {
    match item
    case StringItem(g) => AgreeGlobal(g)
    case ExternItem(p) => WritablePrototype(p)
    case FunctionItem(f, labelled) =>
      WritableFunction(f) &&
      (!labelled ==> f.blocks[0].name == "entry" && (f.blocks[0].insts != [] || |f.blocks| == 1))
  }

  predicate WritableParts(parts: seq<Part>) {
    forall i | 0 <= i < |parts| :: WritableItem(parts[i].item)
  }

  function ItemPieces(item: TopLevel): seq<Piece>
    requires WritableItem(item)
  {
    match item
    case StringItem(g) => StringPieces(g)
    case ExternItem(p) => PrototypePieces("extern", p)
    case FunctionItem(f, labelled) => WrittenPieces(f, labelled)
  }

  function ItemTokens(item: TopLevel): seq<Token>
    requires WritableItem(item)
  {
    match item
    case StringItem(g) => GlobalTokens(g)
    case ExternItem(p) => PrototypeTokens("extern", p)
    case FunctionItem(f, labelled) => FunctionTokens(f, labelled)
  }

  function EmptyLines(n: nat): seq<Piece> {
    if n == 0 then [] else [EmptyLine] + EmptyLines(n - 1)
  }

  /** Items are on lines of their own; the text ends where the last one does, but an extern
      function needs the end of its line. */
  function SourcePieces(parts: seq<Part>): seq<Piece>
    requires WritableParts(parts)
  {
    if parts == [] then []
    else if |parts| == 1 then ItemPieces(parts[0].item) + (if parts[0].item.ExternItem? then [Line] else [])
    else ItemPieces(parts[0].item) + ([Line] + EmptyLines(parts[0].gap)) + SourcePieces(parts[1..])
  }

  function SourceTokens(parts: seq<Part>): seq<Token>
    requires WritableParts(parts)
  {
    if parts == [] then []
    else if |parts| == 1 then ItemTokens(parts[0].item) + (if parts[0].item.ExternItem? then [BREAK] else [])
    else ItemTokens(parts[0].item) + [BREAK] + SourceTokens(parts[1..])
  }

  lemma ItemForm(item: TopLevel, prev: Prev) returns (next: Prev)
    requires WritableItem(item) && prev != AfterWord
    ensures next != AfterSpace && Form(ItemPieces(item), prev, next, ItemTokens(item))
  {
    hide Form, PrototypePieces, PrototypeTokens, WrittenPieces, FunctionTokens, StringPieces, GlobalTokens, LowerCase,
         WritableFunction, WritablePrototype, AgreeGlobal;
    match item {
      case StringItem(g) =>
        StringForm(g, prev);
        next := AfterOther;
      case ExternItem(p) =>
        Keywords();
        PrototypeForm("extern", p, prev);
        next := AfterOther;
      case FunctionItem(f, labelled) =>
        FunctionForm(f, labelled, prev);
        next := AfterWord;
    }
  }

  lemma {:induction false} GapForm(n: nat)
    ensures Form(EmptyLines(n), AfterSpace, AfterSpace, [])
  {
    hide Form;
    if n == 0 {
      FormNothing(AfterSpace);
    } else {
      FormOne(EmptyLine, AfterSpace);
      GapForm(n - 1);
      FormAppend([EmptyLine], EmptyLines(n - 1), AfterSpace, AfterSpace, AfterSpace, [], []);
    }
  }

  lemma BetweenForm(prev: Prev, n: nat)
    requires prev != AfterSpace
    ensures Form([Line] + EmptyLines(n), prev, AfterSpace, [BREAK])
  {
    hide Form;
    FormOne(Line, prev);
    GapForm(n);
    FormAppend([Line], EmptyLines(n), prev, AfterSpace, AfterSpace, [BREAK], []);
    assert [BREAK] + [] == [BREAK];
  }

  lemma {:induction false} SourceForm(parts: seq<Part>, prev: Prev)
    requires WritableParts(parts) && prev != AfterWord
    ensures exists next :: Form(SourcePieces(parts), prev, next, SourceTokens(parts))
    decreases |parts|
  {
    hide Form, ItemPieces, ItemTokens, WritableItem;
    if parts == [] {
      FormNothing(prev);
      assert Form(SourcePieces(parts), prev, prev, SourceTokens(parts));
    } else {
      var item, pieces, tokens := parts[0].item, ItemPieces(parts[0].item), ItemTokens(parts[0].item);
      var next := ItemForm(item, prev);
      if |parts| > 1 {
        BetweenForm(next, parts[0].gap);
        FormAppend(pieces, [Line] + EmptyLines(parts[0].gap), prev, next, AfterSpace, tokens, [BREAK]);
        SourceForm(parts[1..], AfterSpace);
        var last :| Form(SourcePieces(parts[1..]), AfterSpace, last, SourceTokens(parts[1..]));
        FormAppend(pieces + ([Line] + EmptyLines(parts[0].gap)), SourcePieces(parts[1..]), prev, AfterSpace, last,
                   tokens + [BREAK], SourceTokens(parts[1..]));
        assert Form(SourcePieces(parts), prev, last, SourceTokens(parts));
      } else if item.ExternItem? {
        FormOne(Line, next);
        FormAppend(pieces, [Line], prev, next, AfterSpace, tokens, [BREAK]);
        assert Form(SourcePieces(parts), prev, AfterSpace, SourceTokens(parts));
      } else {
        assert pieces + [] == pieces && tokens + [] == tokens;
        assert Form(SourcePieces(parts), prev, next, SourceTokens(parts));
      }
    }
  }

  lemma SpacedStart(pieces: seq<Piece>)
    requires Spaced(pieces, AfterOther)
    ensures pieces != [] ==> pieces[0] != EmptyLine
  {
  }

  /** A written text lexes to its tokens. */
  lemma WrittenTextLexes(parts: seq<Part>)
    requires WritableParts(parts)
    ensures Tokens(TextOf(SourcePieces(parts))) == SourceTokens(parts)
  {
    hide Spaced, TokensOf, LexFrom, TextOf, SourcePieces, SourceTokens, WritableItem;
    SourceForm(parts, AfterOther);
    SpacedStart(SourcePieces(parts));
    PiecesLex([], SourcePieces(parts), AfterOther);
    EmptyWord();
  }
}
