/** The printed form of the intermediate representation (src/ir/output/ir_emitter.cpp,
    src/ir/node_print.cpp and the print members of src/ir/nodes.hpp). */
module Emitter {
  import opened Wrappers
  import opened Ir
  import opened Text

  // Printed text, piece by piece

  /** A word, a symbol, a quoted string, a space, the end of a line or an empty line. */
  datatype Piece = W(word: string) | Sym(c: char) | Str(text: string) | Blank | Line | EmptyLine

  function PieceText(p: Piece): string {
    match p
    case W(word) => word
    case Sym(c) => [c]
    case Str(text) => "\"" + text + "\""
    case Blank => " "
    case Line => "\n"
    case EmptyLine => "\n"
  }

  function TextOf(pieces: seq<Piece>): string {
    if pieces == [] then "" else PieceText(pieces[0]) + TextOf(pieces[1..])
  }

  lemma {:induction false} TextAppend(a: seq<Piece>, b: seq<Piece>)
    ensures TextOf(a + b) == TextOf(a) + TextOf(b)
  {
    if a == [] {
      assert a + b == b;
    } else {
      assert (a + b)[1..] == a[1..] + b && (a + b)[0] == a[0];
      TextAppend(a[1..], b);
      assert PieceText(a[0]) + (TextOf(a[1..]) + TextOf(b)) == (PieceText(a[0]) + TextOf(a[1..])) + TextOf(b);
    }
  }

  // The printed form

  const UNSIGNED: nat := 0x1_0000_0000

  /** The name of a size; the source throws where there is none. */
  function SizeName(size: Size): Option<string> {
    match size
    case NoSize => Some("void")
    case I1 => Some("i1")
    case I8 => Some("i8")
    case I16 => Some("i16")
    case I32 => Some("i32")
    case I64 => Some("i64")
    case Ptr => Some("ptr")
    case ParamDependent => None
  }

  function SizeWord(size: Size): Piece {
    W(if SizeName(size).Some? then SizeName(size).value else "")
  }

  function IcmpName(t: IcmpType): string {
    match t
    case Eq => "eq"
    case Neq => "neq"
    case Slt => "slt"
    case Sgt => "sgt"
    case Sle => "sle"
    case Sge => "sge"
    case Ult => "ult"
    case Ugt => "ugt"
    case Ule => "ule"
    case Uge => "uge"
  }

  function ArithName(t: ArithType): string {
    match t
    case Add => "add"
    case Sub => "sub"
    case Mul => "mul"
    case Div => "div"
    case Mod => "mod"
  }

  function VariablePieces(size: Size, name: Name): seq<Piece> {
    (if size != ParamDependent && size != NoSize then [SizeWord(size), Blank] else []) + [Sym('%'), W(name)]
  }

  /** A literal prints as an unsigned 32-bit number. */
  function ValuePieces(v: Value): seq<Piece> {
    match v
    case Lit(s, n) => [SizeWord(s), Blank, W(Decimal(n % UNSIGNED))]
    case Var(s, x) => VariablePieces(s, x)
  }

  /** No size that has no name is printed. */
  predicate ValuePrints(v: Value) {
    v.Lit? ==> SizeName(v.size).Some?
  }

  function LabelPieces(labels: seq<Name>): seq<Piece> {
    if labels == [] then [] else LabelPieces(labels[..|labels| - 1]) + [Blank, W(labels[|labels| - 1])]
  }

  function OpPieces(op: Op): seq<Piece> {
    match op
    case Literal(_, n) => [W(Decimal(n))]
    case Allocate(n) => [W("allocate"), Blank, W(Decimal(n))]
    case Store(s) => [W("store"), Blank, SizeWord(s)]
    case Load(s) => [W("load"), Blank, SizeWord(s)]
    case Icmp(t) => [W("icmp"), Blank, W(IcmpName(t))]
    case Branch(t, f) => [W("branch"), Blank, W(t), Blank, W(f)]
    case Jmp(l) => [W("jmp"), Blank, W(l)]
    case Arith(t) => [W(ArithName(t))]
    case Ret => [W("ret")]
    case Call(g, s) => [W("call"), Blank, SizeWord(s), Blank, W(g)]
    case Phi(labels) => [W("phi")] + LabelPieces(labels)
    case Select => [W("select")]
    case Zext(s) => [W("zext"), Blank, SizeWord(s)]
    case Sext(s) => [W("sext"), Blank, SizeWord(s)]
    case GetArrayPtr(s) => [W("get_array_ptr"), Blank, SizeWord(s)]
  }

  predicate OpPrints(op: Op) {
    match op
    case Store(s) => SizeName(s).Some?
    case Load(s) => SizeName(s).Some?
    case Call(_, s) => SizeName(s).Some?
    case Zext(s) => SizeName(s).Some?
    case Sext(s) => SizeName(s).Some?
    case GetArrayPtr(s) => SizeName(s).Some?
    case _ => true
  }

  /** Operands, each after a space, with commas between them. */
  function OperandPieces(ops: seq<Value>): seq<Piece> {
    if ops == [] then []
    else [Blank] + ValuePieces(ops[0]) + (if |ops| > 1 then [Sym(',')] else []) + OperandPieces(ops[1..])
  }

  function ResultPieces(result: Option<Name>): seq<Piece> {
    match result
    case Some(x) => [Sym('%'), W(x), Blank, Sym('='), Blank]
    case None => []
  }

  const INDENT: seq<Piece> := [Blank, Blank, Blank, Blank]

  function InstPieces(inst: Inst): seq<Piece> {
    INDENT + ResultPieces(inst.result) + OpPieces(inst.op) + OperandPieces(inst.operands)
  }

  predicate InstPrints(inst: Inst) {
    OpPrints(inst.op) && forall i | 0 <= i < |inst.operands| :: ValuePrints(inst.operands[i])
  }

  function InstsPieces(insts: seq<Inst>): seq<Piece> {
    if insts == [] then [] else InstPieces(insts[0]) + [Line] + InstsPieces(insts[1..])
  }

  /** A block without instructions is not printed. */
  function BlockPieces(block: Block): seq<Piece> {
    if block.insts == [] then [] else [Sym('.'), W(block.name), Sym(':'), Line] + InstsPieces(block.insts)
  }

  function BlocksPieces(blocks: seq<Block>): seq<Piece> {
    if blocks == [] then [] else BlockPieces(blocks[0]) + BlocksPieces(blocks[1..])
  }

  function ParamPieces(params: seq<(Name, Size)>): seq<Piece> {
    if params == [] then []
    else
      VariablePieces(params[0].1, params[0].0) + (if |params| > 1 then [Sym(','), Blank] else []) +
      ParamPieces(params[1..])
  }

  function HeaderPieces(f: Function): seq<Piece> {
    [W("define"), Blank, W("fn"), Blank, SizeWord(f.returnType), Blank, W(f.name)] +
      ([Sym('(')] + ParamPieces(f.params) + [Sym(')')]) + [Line]
  }

  function FunctionPieces(f: Function): seq<Piece> {
    HeaderPieces(f) + BlocksPieces(f.blocks) + [W("end")]
  }

  predicate BlockPrints(block: Block) {
    forall i | 0 <= i < |block.insts| :: InstPrints(block.insts[i])
  }

  predicate FunctionPrints(f: Function) {
    SizeName(f.returnType).Some? && forall b | 0 <= b < |f.blocks| :: BlockPrints(f.blocks[b])
  }

  function GlobalPieces(g: GlobalString): seq<Piece> {
    [W("global_string"), Blank, Sym('%'), W(g.name), Blank, Sym('='), Blank, Str(g.value), Line]
  }

  function GlobalsPieces(gs: seq<GlobalString>): seq<Piece> {
    if gs == [] then [] else GlobalPieces(gs[0]) + GlobalsPieces(gs[1..])
  }

  /** An extern function: its parameters, but not its return type. */
  function ExternPieces(e: Prototype): seq<Piece> {
    [W("extern"), Blank, W("fn"), Blank, W("void"), Blank, W(e.name)] +
      ([Sym('(')] + ParamPieces(e.params) + [Sym(')')])
  }

  function ExternsPieces(es: seq<Prototype>): seq<Piece> {
    if es == [] then [] else ExternPieces(es[0]) + ExternsPieces(es[1..])
  }

  function FunctionsPieces(fs: seq<Function>): seq<Piece> {
    if fs == [] then [] else FunctionPieces(fs[0]) + FunctionsPieces(fs[1..])
  }

  function RootPieces(root: Root): seq<Piece> {
    GlobalsPieces(root.globals) + ExternsPieces(root.externs) + FunctionsPieces(root.functions)
  }

  predicate RootPrints(root: Root) {
    forall i | 0 <= i < |root.functions| :: FunctionPrints(root.functions[i])
  }

  // The loops that print it

  lemma OnePiece(p: Piece)
    ensures TextOf([p]) == PieceText(p)
  {
    assert [p][1..] == [];
  }

  lemma WroteThen(text: string, a: seq<Piece>, b: seq<Piece>)
    ensures text + TextOf(a) + TextOf(b) == text + TextOf(a + b)
  {
    TextAppend(a, b);
    assert text + TextOf(a) + TextOf(b) == text + (TextOf(a) + TextOf(b));
  }

  class OutputStream {
    var text: string

    constructor ()
      ensures text == ""
    {
      text := "";
    }

    /** The stream holds what it held before, and the pieces. */
    twostate predicate Wrote(pieces: seq<Piece>)
      reads this
    {
      text == old(text) + TextOf(pieces)
    }

    method Write(piece: Piece)
      modifies this
      ensures Wrote([piece])
    {
      OnePiece(piece);
      text := text + PieceText(piece);
    }

    /** Writes literal pieces one after the other. */
    method WriteAll(pieces: seq<Piece>)
      modifies this
      ensures Wrote(pieces)
    {
      hide PieceText;
      assert TextOf(pieces[..0]) == "";
      for i := 0 to |pieces|
        invariant text == old(text) + TextOf(pieces[..i])
      {
        assert pieces[..i + 1] == pieces[..i] + [pieces[i]];
        WroteThen(old(text), pieces[..i], [pieces[i]]);
        Write(pieces[i]);
      }
      assert pieces[..|pieces|] == pieces;
    }

    /** One instruction: false where a size has no name. */
    method PrintInstruction(inst: Inst) returns (ok: bool)
      modifies this
      ensures ok <==> InstPrints(inst)
      ensures ok ==> Wrote(InstPieces(inst))
    {
      hide OpPrints, OpPieces, ResultPieces, ValuePieces, PieceText, ValuePrints;
      ghost var start := INDENT + ResultPieces(inst.result) + OpPieces(inst.op);
      if !OpPrints(inst.op) {
        return false;
      }
      WriteAll(INDENT + ResultPieces(inst.result) + OpPieces(inst.op));
      ghost var done: seq<Piece> := [];
      assert start + [] == start;
      for i := 0 to |inst.operands|
        invariant text == old(text) + TextOf(start + done)
        invariant done + OperandPieces(inst.operands[i..]) == OperandPieces(inst.operands)
        invariant forall j | 0 <= j < i :: ValuePrints(inst.operands[j])
      {
        var ops := inst.operands;
        assert ops[i..][0] == ops[i] && ops[i..][1..] == ops[i + 1..];
        if !ValuePrints(ops[i]) {
          return false;
        }
        var pieces := [Blank] + ValuePieces(ops[i]) + if i != |ops| - 1 then [Sym(',')] else [];
        WriteAll(pieces);
        WroteThen(old(text), start + done, pieces);
        assert (start + done) + pieces == start + (done + pieces);
        assert (done + pieces) + OperandPieces(ops[i + 1..]) == done + (pieces + OperandPieces(ops[i + 1..]));
        done := done + pieces;
      }
      assert done + [] == done;
      return true;
    }

    method EmitGlobalString(g: GlobalString)
      modifies this
      ensures Wrote(GlobalPieces(g))
    {
      WriteAll(GlobalPieces(g));
    }

    method EmitParameters(params: seq<(Name, Size)>)
      modifies this
      ensures Wrote([Sym('(')] + ParamPieces(params) + [Sym(')')])
    {
      hide VariablePieces, PieceText, TextOf;
      Write(Sym('('));
      ghost var done := [Sym('(')];
      for i := 0 to |params|
        invariant text == old(text) + TextOf(done)
        invariant done + ParamPieces(params[i..]) == [Sym('(')] + ParamPieces(params)
      {
        assert params[i..][0] == params[i] && params[i..][1..] == params[i + 1..];
        var pieces := VariablePieces(params[i].1, params[i].0) + if i + 1 < |params| then [Sym(','), Blank] else [];
        WriteAll(pieces);
        WroteThen(old(text), done, pieces);
        assert (done + pieces) + ParamPieces(params[i + 1..]) == done + (pieces + ParamPieces(params[i + 1..]));
        done := done + pieces;
      }
      assert done + [] == done;
      Write(Sym(')'));
      WroteThen(old(text), done, [Sym(')')]);
    }

    method EmitBlock(block: Block) returns (ok: bool)
      modifies this
      ensures ok <==> BlockPrints(block)
      ensures ok ==> Wrote(BlockPieces(block))
    {
      hide InstPrints, InstPieces, PieceText, TextOf;
      if block.insts == [] {
        NothingWritten(text);
        return true;
      }
      var header := [Sym('.'), W(block.name), Sym(':'), Line];
      WriteAll(header);
      ghost var done := header;
      for i := 0 to |block.insts|
        invariant text == old(text) + TextOf(done)
        invariant done + InstsPieces(block.insts[i..]) == header + InstsPieces(block.insts)
        invariant forall j | 0 <= j < i :: InstPrints(block.insts[j])
      {
        var insts := block.insts;
        assert insts[i..][0] == insts[i] && insts[i..][1..] == insts[i + 1..];
        ok := PrintInstruction(insts[i]);
        if !ok {
          return;
        }
        Write(Line);
        WroteThen(old(text), done, InstPieces(insts[i]));
        WroteThen(old(text), done + InstPieces(insts[i]), [Line]);
        assert (done + InstPieces(insts[i]) + [Line]) + InstsPieces(insts[i + 1..]) == done +
               (InstPieces(insts[i]) + [Line] + InstsPieces(insts[i + 1..]));
        done := done + InstPieces(insts[i]) + [Line];
      }
      assert done + [] == done;
      return true;
    }

    method EmitHeader(f: Function)
      modifies this
      ensures Wrote(HeaderPieces(f))
    {
      hide PieceText, TextOf, ParamPieces;
      var header := [W("define"), Blank, W("fn"), Blank, SizeWord(f.returnType), Blank, W(f.name)];
      WriteAll(header);
      EmitParameters(f.params);
      ghost var params := [Sym('(')] + ParamPieces(f.params) + [Sym(')')];
      WroteThen(old(text), header, params);
      Write(Line);
      WroteThen(old(text), header + params, [Line]);
    }

    method EmitExternalFunction(e: Prototype)
      modifies this
      ensures Wrote(ExternPieces(e))
    {
      hide PieceText, TextOf, ParamPieces;
      var header := [W("extern"), Blank, W("fn"), Blank, W("void"), Blank, W(e.name)];
      WriteAll(header);
      EmitParameters(e.params);
      WroteThen(old(text), header, [Sym('(')] + ParamPieces(e.params) + [Sym(')')]);
    }

    method EmitGlobals(gs: seq<GlobalString>)
      modifies this
      ensures Wrote(GlobalsPieces(gs))
    {
      hide GlobalPieces, PieceText, TextOf;
      ghost var done: seq<Piece> := [];
      NothingWritten(text);
      for i := 0 to |gs|
        invariant text == old(text) + TextOf(done)
        invariant done + GlobalsPieces(gs[i..]) == GlobalsPieces(gs)
      {
        assert gs[i..][0] == gs[i] && gs[i..][1..] == gs[i + 1..];
        EmitGlobalString(gs[i]);
        WroteThen(old(text), done, GlobalPieces(gs[i]));
        assert (done + GlobalPieces(gs[i])) + GlobalsPieces(gs[i + 1..]) == done +
               (GlobalPieces(gs[i]) + GlobalsPieces(gs[i + 1..]));
        done := done + GlobalPieces(gs[i]);
      }
      assert done + [] == done;
    }

    method EmitExterns(es: seq<Prototype>)
      modifies this
      ensures Wrote(ExternsPieces(es))
    {
      hide ExternPieces, PieceText, TextOf;
      ghost var done: seq<Piece> := [];
      NothingWritten(text);
      for i := 0 to |es|
        invariant text == old(text) + TextOf(done)
        invariant done + ExternsPieces(es[i..]) == ExternsPieces(es)
      {
        assert es[i..][0] == es[i] && es[i..][1..] == es[i + 1..];
        EmitExternalFunction(es[i]);
        WroteThen(old(text), done, ExternPieces(es[i]));
        assert (done + ExternPieces(es[i])) + ExternsPieces(es[i + 1..]) == done +
               (ExternPieces(es[i]) + ExternsPieces(es[i + 1..]));
        done := done + ExternPieces(es[i]);
      }
      assert done + [] == done;
    }

    method EmitFunction(f: Function) returns (ok: bool)
      modifies this
      ensures ok <==> FunctionPrints(f)
      ensures ok ==> Wrote(FunctionPieces(f))
    {
      hide BlockPrints, BlockPieces, PieceText, TextOf, HeaderPieces;
      if SizeName(f.returnType).None? {
        return false;
      }
      EmitHeader(f);
      ghost var start := HeaderPieces(f);
      ghost var done: seq<Piece> := [];
      assert start + [] == start;
      for b := 0 to |f.blocks|
        invariant text == old(text) + TextOf(start + done)
        invariant done + BlocksPieces(f.blocks[b..]) == BlocksPieces(f.blocks)
        invariant forall j | 0 <= j < b :: BlockPrints(f.blocks[j])
      {
        var blocks := f.blocks;
        assert blocks[b..][0] == blocks[b] && blocks[b..][1..] == blocks[b + 1..];
        ok := EmitBlock(blocks[b]);
        if !ok {
          return;
        }
        WroteThen(old(text), start + done, BlockPieces(blocks[b]));
        assert (start + done) + BlockPieces(blocks[b]) == start + (done + BlockPieces(blocks[b]));
        assert (done + BlockPieces(blocks[b])) + BlocksPieces(blocks[b + 1..]) == done +
               (BlockPieces(blocks[b]) + BlocksPieces(blocks[b + 1..]));
        done := done + BlockPieces(blocks[b]);
      }
      assert done + [] == done;
      Write(W("end"));
      WroteThen(old(text), start + done, [W("end")]);
      return true;
    }

    method EmitFunctions(fs: seq<Function>) returns (ok: bool)
      modifies this
      ensures ok <==> forall i | 0 <= i < |fs| :: FunctionPrints(fs[i])
      ensures ok ==> Wrote(FunctionsPieces(fs))
    {
      hide FunctionPrints, FunctionPieces, PieceText, TextOf;
      ghost var done: seq<Piece> := [];
      NothingWritten(text);
      for i := 0 to |fs|
        invariant text == old(text) + TextOf(done)
        invariant done + FunctionsPieces(fs[i..]) == FunctionsPieces(fs)
        invariant forall j | 0 <= j < i :: FunctionPrints(fs[j])
      {
        assert fs[i..][0] == fs[i] && fs[i..][1..] == fs[i + 1..];
        ok := EmitFunction(fs[i]);
        if !ok {
          return;
        }
        WroteThen(old(text), done, FunctionPieces(fs[i]));
        assert (done + FunctionPieces(fs[i])) + FunctionsPieces(fs[i + 1..]) == done +
               (FunctionPieces(fs[i]) + FunctionsPieces(fs[i + 1..]));
        done := done + FunctionPieces(fs[i]);
      }
      assert done + [] == done;
      return true;
    }

    /** emit: the strings, then the extern functions, then the functions. */
    method Emit(root: Root) returns (ok: bool)
      modifies this
      ensures ok <==> RootPrints(root)
      ensures ok ==> Wrote(RootPieces(root))
    {
      hide FunctionPrints, GlobalsPieces, ExternsPieces, FunctionsPieces, TextOf;
      EmitGlobals(root.globals);
      EmitExterns(root.externs);
      ghost var start := GlobalsPieces(root.globals);
      WroteThen(old(text), start, ExternsPieces(root.externs));
      ok := EmitFunctions(root.functions);
      WroteThen(old(text), start + ExternsPieces(root.externs), FunctionsPieces(root.functions));
    }
  }

  lemma NothingWritten(text: string)
    ensures text + TextOf([]) == text
  {
  }
}
