/** The parser (src/ir/input/parser.cpp, instruction_parsing.cpp, element_parsers.hpp): a
    cursor over the tokens, and the functions on the tokens left that it refines. Template
    and constructor arguments are evaluated from right to left. Where the source would
    read beyond the last token, parsing fails. */
module Parser {
  import opened Wrappers
  import opened Ir
  import opened Text
  import opened Lexer
  import DeadBlocks

  /** What was parsed, and the tokens left. */
  type Parsed<+T> = Result<(T, seq<Token>)>

  const STOI_LIMIT: nat := 0x8000_0000

  function DigitPrefix(s: string): (d: string)
    ensures forall c | c in d :: IsDigit(c)
  {
    if s != [] && IsDigit(s[0]) then [s[0]] + DigitPrefix(s[1..]) else []
  }

  /** std::stoi of a token that starts with a digit: the digits it starts with, if they
      fit an int. */
  function Stoi(s: string): Result<nat> {
    var n := Numeral(DigitPrefix(s));
    if n < STOI_LIMIT then Ok(n) else Err(Rejected)
  }

  function SizeNamed(s: string): Option<Size> {
    if s == "void" then Some(NoSize)
    else if s == "i8" then Some(I8)
    else if s == "i1" then Some(I1)
    else if s == "i16" then Some(I16)
    else if s == "i32" then Some(I32)
    else if s == "i64" then Some(I64)
    else if s == "ptr" then Some(Ptr)
    else None
  }

  function IcmpNamed(s: string): Option<IcmpType> {
    if s == "eq" then Some(Eq)
    else if s == "ne" then Some(Neq)
    else if s == "slt" then Some(Slt)
    else if s == "sle" then Some(Sle)
    else if s == "sgt" then Some(Sgt)
    else if s == "sge" then Some(Sge)
    else if s == "ult" then Some(Ult)
    else if s == "ule" then Some(Ule)
    else if s == "ugt" then Some(Ugt)
    else if s == "uge" then Some(Uge)
    else None
  }

  // Elements

  /** Any token; its value. */
  function ParseAny(ts: seq<Token>): (r: Parsed<string>)
    ensures r.Ok? ==> |r.value.1| < |ts|
  {
    if ts == [] then Err(Rejected) else Ok((ts[0].value, ts[1..]))
  }

  /** A token with a given value. */
  function Expect(ts: seq<Token>, value: string): (r: Result<seq<Token>>)
    ensures r.Ok? ==> |r.value| < |ts|
  {
    if ts != [] && ts[0].value == value then Ok(ts[1..]) else Err(Rejected)
  }

  function ExpectKind(ts: seq<Token>, kind: TokenType): (r: Parsed<string>)
    ensures r.Ok? ==> |r.value.1| < |ts|
  {
    if ts != [] && ts[0].kind == kind then Ok((ts[0].value, ts[1..])) else Err(Rejected)
  }

  function ParseUint8(ts: seq<Token>): (r: Parsed<nat>)
    ensures r.Ok? ==> |r.value.1| < |ts|
  {
    var word :- ExpectKind(ts, Number);
    var n :- Stoi(word.0);
    Ok((n % 256, word.1))
  }

  /** A size, or i32 where none is named. */
  function ParseValueSize(ts: seq<Token>): (r: Parsed<Size>)
    ensures r.Ok? ==> |r.value.1| <= |ts|
  {
    if ts == [] then Err(Rejected)
    else
      match SizeNamed(ts[0].value)
      case Some(size) => Ok((size, ts[1..]))
      case None => Ok((I32, ts))
  }

  function ParseIcmpType(ts: seq<Token>): (r: Parsed<IcmpType>)
    ensures r.Ok? ==> |r.value.1| < |ts|
  {
    if ts == [] then Err(Rejected)
    else
      match IcmpNamed(ts[0].value)
      case Some(t) => Ok((t, ts[1..]))
      case None => Err(Rejected)
  }

  function ParseValue(ts: seq<Token>): (r: Parsed<Value>)
    ensures r.Ok? ==> |r.value.1| < |ts|
  {
    var size :- ParseValueSize(ts);
    if size.1 == [] then Err(Rejected)
    else if size.1[0].value == "%" then
      var name :- ParseAny(size.1[1..]);
      Ok((Var(size.0, name.0), name.1))
    else if size.1[0].kind == Number then
      var n :- Stoi(size.1[0].value);
      Ok((Lit(size.0, n), size.1[1..]))
    else Err(Rejected)
  }

  /** Values with commas between them. */
  function ParseValues(ts: seq<Token>): (r: Parsed<seq<Value>>)
    ensures r.Ok? ==> |r.value.1| < |ts|
    decreases |ts|
  {
    var first :- ParseValue(ts);
    if first.1 == [] then Err(Rejected)
    else if first.1[0].value == "," then
      var more :- ParseValues(first.1[1..]);
      Ok(([first.0] + more.0, more.1))
    else Ok(([first.0], first.1))
  }

  function ParseOperands(ts: seq<Token>): (r: Parsed<seq<Value>>)
    ensures r.Ok? ==> |r.value.1| <= |ts|
  {
    if ts == [] then Err(Rejected)
    else if ts[0].kind == BreakLine then Ok(([], ts))
    else ParseValues(ts)
  }

  // Instructions

  /** An operation and the labels its arguments list, in the order they are read. */
  datatype Head = Head(op: Op, labels: seq<Name>)

  /** The size argument of an instruction. */
  function ParseSized(ts: seq<Token>, op: Size -> Op): (r: Parsed<Head>)
    ensures r.Ok? ==> |r.value.1| <= |ts|
    ensures r.Ok? ==> r.value.0.labels == [] && exists s :: r.value.0.op == op(s)
  {
    var size :- ParseValueSize(ts);
    Ok((Head(op(size.0), []), size.1))
  }

  /** The arguments of an instruction, by its name. The later constructor argument is
      parsed first: a branch reads its true label first, a phi its last label. */
  function ParseHead(name: string, ts: seq<Token>): (r: Parsed<Head>)
    ensures r.Ok? ==> |r.value.1| <= |ts|
  {
    if name == "allocate" then
      var n :- ParseUint8(ts);
      Ok((Head(Allocate(n.0), []), n.1))
    else if name == "store" then ParseSized(ts, s => Op.Store(s))
    else if name == "load" then ParseSized(ts, s => Load(s))
    else if name == "icmp" then
      var t :- ParseIcmpType(ts);
      Ok((Head(Icmp(t.0), []), t.1))
    else if name == "branch" then
      var a :- ParseAny(ts);
      var b :- ParseAny(a.1);
      Ok((Head(Branch(a.0, b.0), [a.0, b.0]), b.1))
    else if name == "jmp" then
      var l :- ParseAny(ts);
      Ok((Head(Jmp(l.0), [l.0]), l.1))
    else if name == "add" then Ok((Head(Arith(Add), []), ts))
    else if name == "sub" then Ok((Head(Arith(Sub), []), ts))
    else if name == "mul" then Ok((Head(Arith(Mul), []), ts))
    else if name == "ret" then Ok((Head(Ret, []), ts))
    else if name == "call" then
      var size :- ParseValueSize(ts);
      var g :- ParseAny(size.1);
      Ok((Head(Call(g.0, size.0), [g.0]), g.1))
    else if name == "phi" then
      var a :- ParseAny(ts);
      var b :- ParseAny(a.1);
      Ok((Head(Phi([b.0, a.0]), [a.0, b.0]), b.1))
    else if name == "select" then Ok((Head(Select, []), ts))
    else if name == "zext" then ParseSized(ts, s => Zext(s))
    else if name == "sext" then ParseSized(ts, s => Sext(s))
    else if name == "getarrayptr" then ParseSized(ts, s => GetArrayPtr(s))
    else Err(Rejected)
  }

  /** A literal alias, or a named instruction and its operands. */
  function ParseUnassigned(ts: seq<Token>): (r: Parsed<Inst>)
    ensures r.Ok? ==> |r.value.1| < |ts|
  {
    if ts == [] then Err(Rejected)
    else
      match SizeNamed(ts[0].value)
      case Some(size) =>
        var word :- ExpectKind(ts[1..], Number);
        var n :- Stoi(word.0);
        Ok((Inst(Literal(size, n), [], None, [], []), word.1))
      case None =>
        var name :- ExpectKind(ts, Identifier);
        var head :- ParseHead(name.0, name.1);
        var operands :- ParseOperands(head.1);
        Ok((Inst(head.0.op, operands.0, None, head.0.labels, []), operands.1))
  }

  function ParseInstruction(ts: seq<Token>): (r: Parsed<Inst>)
    ensures r.Ok? ==> |r.value.1| < |ts|
  {
    if ts != [] && ts[0].value == "%" then
      var name :- ParseAny(ts[1..]);
      var rest :- Expect(name.1, "=");
      var inst :- ParseUnassigned(rest);
      Ok((inst.0.(result := Some(name.0)), inst.1))
    else ParseUnassigned(ts)
  }

  // Functions and roots

  function SkipBreaks(ts: seq<Token>): (r: seq<Token>)
    ensures |r| <= |ts|
  {
    if ts != [] && ts[0].kind == BreakLine then SkipBreaks(ts[1..]) else ts
  }

  /** A label line. */
  function ParseLabel(ts: seq<Token>): (r: Parsed<Name>)
    ensures r.Ok? ==> |r.value.1| < |ts|
  {
    var dot :- Expect(ts, ".");
    var name :- ParseAny(dot);
    var colon :- Expect(name.1, ":");
    var line :- ExpectKind(colon, BreakLine);
    Ok((name.0, line.1))
  }

  /** The blocks with an instruction at the end of the last one. */
  function WithInst(blocks: seq<Block>, inst: Inst): seq<Block>
    requires blocks != []
  {
    var last := |blocks| - 1;
    blocks[..last] + [Block(blocks[last].name, blocks[last].insts + [inst])]
  }

  /** Labels and instructions up to end, after blocks already read. */
  function ParseBody(ts: seq<Token>, blocks: seq<Block>): (r: Parsed<seq<Block>>)
    ensures r.Ok? ==> |r.value.1| < |ts|
    decreases |ts|
  {
    if ts == [] then Err(Rejected)
    else if ts[0].value == "end" then Ok((blocks, ts[1..]))
    else if ts[0].value == "." then
      var named :- ParseLabel(ts);
      ParseBody(named.1, blocks + [Block(named.0, [])])
    else if blocks == [] then Err(Rejected)
    else
      var inst :- ParseInstruction(ts);
      ParseBody(SkipBreaks(inst.1), WithInst(blocks, inst.0))
  }

  function ParseParams(ts: seq<Token>): (r: Parsed<seq<(Name, Size)>>)
    ensures r.Ok? ==> |r.value.1| < |ts|
    decreases |ts|
  {
    var v :- ParseValue(ts);
    if v.0.Lit? || v.1 == [] then Err(Rejected)
    else if v.1[0].value == "," then
      var more :- ParseParams(v.1[1..]);
      Ok(([(v.0.name, v.0.size)] + more.0, more.1))
    else Ok(([(v.0.name, v.0.size)], v.1))
  }

  function ParseParameters(ts: seq<Token>): (r: Parsed<seq<(Name, Size)>>)
    ensures r.Ok? ==> |r.value.1| < |ts|
  {
    var open :- Expect(ts, "(");
    if open != [] && open[0].value == ")" then Ok(([], open[1..]))
    else
      var params :- ParseParams(open);
      var close :- Expect(params.1, ")");
      Ok((params.0, close))
  }

  function ParsePrototype(ts: seq<Token>): (r: Parsed<Prototype>)
    ensures r.Ok? ==> |r.value.1| < |ts|
  {
    var fn :- Expect(ts, "fn");
    var size :- ParseValueSize(fn);
    var name :- ExpectKind(size.1, Identifier);
    var params :- ParseParameters(name.1);
    var line :- ExpectKind(params.1, BreakLine);
    Ok((Prototype(name.0, params.0, size.0), line.1))
  }

  function ParseFunction(ts: seq<Token>): (r: Parsed<Function>)
    ensures r.Ok? ==> |r.value.1| < |ts|
  {
    var proto :- ParsePrototype(ts);
    var rest := proto.1;
    var blocks := if rest != [] && rest[0].value == "." then [] else [Block("entry", [])];
    var body :- ParseBody(SkipBreaks(rest), blocks);
    Ok((Function(proto.0.name, proto.0.params, body.0, proto.0.returnType), body.1))
  }

  function ParseGlobalString(ts: seq<Token>): (r: Parsed<GlobalString>)
    ensures r.Ok? ==> |r.value.1| < |ts|
  {
    var percent :- Expect(ts, "%");
    var name :- ExpectKind(percent, Identifier);
    var equals :- Expect(name.1, "=");
    var text :- ExpectKind(equals, StringToken);
    Ok((GlobalString(name.0, text.0), text.1))
  }

  /** Global strings, extern functions and functions in any order, after those already read. */
  function ParseRoot(ts: seq<Token>, root: Root): Result<Root>
    decreases |ts|
  {
    if ts == [] then Ok(root)
    else
      var name :- ExpectKind(SkipBreaks(ts), Identifier);
      if name.0 == "global_string" then
        var g :- ParseGlobalString(name.1);
        ParseRoot(g.1, root.(globals := root.globals + [g.0]))
      else if name.0 == "define" then
        var f :- ParseFunction(name.1);
        ParseRoot(f.1, root.(functions := root.functions + [f.0]))
      else if name.0 == "extern" then
        var proto :- ParsePrototype(name.1);
        ParseRoot(proto.1, root.(externs := root.externs + [proto.0]))
      else Err(Rejected)
  }

  function Parse(ts: seq<Token>): Result<Root> {
    ParseRoot(ts, Root([], [], []))
  }

  // The cursor

  lemma ValuesStep(ts: seq<Token>, done: seq<Value>)
    requires ParseValue(ts).Ok?
    ensures var v := ParseValue(ts).value;
            Before(done, ParseValues(ts)) ==
            if v.1 == [] then Err(Rejected)
            else if v.1[0].value == "," then Before(done + [v.0], ParseValues(v.1[1..]))
            else Ok((done + [v.0], v.1))
  {
    hide ParseValue;
    var v := ParseValue(ts).value;
    if v.1 != [] && v.1[0].value == "," && ParseValues(v.1[1..]).Ok? {
      var more := ParseValues(v.1[1..]).value.0;
      assert done + ([v.0] + more) == (done + [v.0]) + more;
    }
  }

  lemma ParamsStep(ts: seq<Token>, done: seq<(Name, Size)>)
    requires ParseValue(ts).Ok? && ParseValue(ts).value.0.Var?
    ensures var v := ParseValue(ts).value;
            var param := (v.0.name, v.0.size);
            Before(done, ParseParams(ts)) ==
            if v.1 == [] then Err(Rejected)
            else if v.1[0].value == "," then Before(done + [param], ParseParams(v.1[1..]))
            else Ok((done + [param], v.1))
  {
    hide ParseValue;
    var v := ParseValue(ts).value;
    var param := (v.0.name, v.0.size);
    if v.1 != [] && v.1[0].value == "," && ParseParams(v.1[1..]).Ok? {
      var more := ParseParams(v.1[1..]).value.0;
      assert done + ([param] + more) == (done + [param]) + more;
    }
  }

  /** A list that continues one already read. */
  function Before<T>(done: seq<T>, r: Parsed<seq<T>>): Parsed<seq<T>> {
    match r
    case Ok(p) => Ok((done + p.0, p.1))
    case Err(e) => Err(e)
  }

  class TokenCursor {
    const tokens: seq<Token>
    var start: nat

    constructor (tokens: seq<Token>)
      ensures this.tokens == tokens && start == 0
    {
      this.tokens := tokens;
      start := 0;
    }

    predicate AtEnd()
      reads this
    {
      start >= |tokens|
    }

    ghost function Left(): seq<Token>
      reads this
    {
      if start <= |tokens| then tokens[start..] else []
    }

    /** The outcome is what the function on the tokens left gives, and the cursor is at
        the tokens that it leaves. */
    ghost predicate Follows<T>(r: Result<T>, spec: Parsed<T>)
      reads this
    {
      r.Ok? == spec.Ok? && (r.Ok? ==> r.value == spec.value.0 && Left() == spec.value.1)
    }

    method Next() returns (r: Result<string>)
      modifies this
      ensures Follows(r, ParseAny(old(Left())))
    {
      if AtEnd() {
        return Err(Rejected);
      }
      start := start + 1;
      return Ok(tokens[start - 1].value);
    }

    method Take(value: string) returns (r: Result<()>)
      modifies this
      ensures r.Ok? == Expect(old(Left()), value).Ok? && (r.Ok? ==> Expect(old(Left()), value) == Ok(Left()))
    {
      if AtEnd() || tokens[start].value != value {
        return Err(Rejected);
      }
      start := start + 1;
      return Ok(());
    }

    method TakeKind(kind: TokenType) returns (r: Result<string>)
      modifies this
      ensures Follows(r, ExpectKind(old(Left()), kind))
    {
      if AtEnd() || tokens[start].kind != kind {
        return Err(Rejected);
      }
      start := start + 1;
      return Ok(tokens[start - 1].value);
    }

    method Uint8() returns (r: Result<nat>)
      modifies this
      ensures Follows(r, ParseUint8(old(Left())))
    {
      var word :- TakeKind(Number);
      var n :- Stoi(word);
      return Ok(n % 256);
    }

    method MaybeValueSize() returns (r: Result<Option<Size>>)
      modifies this
      ensures if old(Left()) == [] then r.Err?
              else r == Ok(SizeNamed(old(Left())[0].value)) && Left() == if r.value.Some? then old(Left())[1..]
                else old(Left())
    {
      if AtEnd() {
        return Err(Rejected);
      }
      var size := SizeNamed(tokens[start].value);
      start := start + 1;
      if size.None? {
        start := start - 1;
      }
      return Ok(size);
    }

    method ValueSize() returns (r: Result<Size>)
      modifies this
      ensures Follows(r, ParseValueSize(old(Left())))
    {
      hide SizeNamed;
      var size :- MaybeValueSize();
      return Ok(if size.Some? then size.value else I32);
    }

    method OneValue() returns (r: Result<Value>)
      modifies this
      ensures Follows(r, ParseValue(old(Left())))
    {
      hide SizeNamed, ParseValueSize;
      var size :- ValueSize();
      if AtEnd() {
        return Err(Rejected);
      }
      if tokens[start].value == "%" {
        start := start + 1;
        var name :- Next();
        return Ok(Var(size, name));
      } else if tokens[start].kind == Number {
        var word := tokens[start].value;
        start := start + 1;
        var n :- Stoi(word);
        return Ok(Lit(size, n));
      }
      return Err(Rejected);
    }

    method Operands() returns (r: Result<seq<Value>>)
      modifies this
      ensures Follows(r, ParseOperands(old(Left())))
    {
      hide ParseValue, ParseValues;
      if AtEnd() {
        return Err(Rejected);
      }
      if tokens[start].kind == BreakLine {
        return Ok([]);
      }
      var operands: seq<Value> := [];
      ghost var spec := ParseValues(old(Left()));
      assert Before([], spec) == spec by { BeforeNothing(spec); }
      var more := true;
      while more
        invariant more ==> Before(operands, ParseValues(Left())) == spec
        invariant !more ==> spec == Ok((operands, Left()))
        decreases more, |Left()|
      {
        ghost var ts := Left();
        if ParseValue(ts).Err? {
          ValueNeeded(ts);
        }
        var v :- OneValue();
        ValuesStep(ts, operands);
        operands := operands + [v];
        if AtEnd() {
          return Err(Rejected);
        }
        more := tokens[start].value == ",";
        if more {
          start := start + 1;
        }
      }
      return Ok(operands);
    }

    method Parameters() returns (r: Result<seq<(Name, Size)>>)
      modifies this
      ensures Follows(r, ParseParameters(old(Left())))
    {
      hide ParseValue, ParseParams;
      var _ :- Take("(");
      if !AtEnd() && tokens[start].value == ")" {
        start := start + 1;
        return Ok([]);
      }
      var params: seq<(Name, Size)> := [];
      ghost var spec := ParseParams(Left());
      assert Before([], spec) == spec by { BeforeNothing(spec); }
      var more := true;
      while more
        invariant more ==> Before(params, ParseParams(Left())) == spec
        invariant !more ==> spec == Ok((params, Left()))
        decreases more, |Left()|
      {
        ghost var ts := Left();
        if ParseValue(ts).Err? {
          ValueNeeded(ts);
        }
        var v :- OneValue();
        if v.Lit? {
          NoLiteralParams(ts);
          return Err(Rejected);
        }
        ParamsStep(ts, params);
        params := params + [(v.name, v.size)];
        if AtEnd() {
          return Err(Rejected);
        }
        more := tokens[start].value == ",";
        if more {
          start := start + 1;
        }
      }
      var _ :- Take(")");
      return Ok(params);
    }

    method Sized(op: Size -> Op) returns (r: Result<Head>)
      modifies this
      ensures Follows(r, ParseSized(old(Left()), op))
    {
      hide ParseValueSize;
      var size :- ValueSize();
      return Ok(Head(op(size), []));
    }

    /** Two names, in the order they stand. */
    method TwoNames() returns (r: Result<(string, string)>)
      modifies this
      ensures var ts := old(Left());
              if |ts| < 2 then r.Err? else r == Ok((ts[0].value, ts[1].value)) && Left() == ts[2..]
    {
      var a :- Next();
      var b :- Next();
      return Ok((a, b));
    }

    method InstructionHead(name: string) returns (r: Result<Head>)
      modifies this
      ensures Follows(r, ParseHead(name, old(Left())))
    {
      hide ParseValueSize, ParseIcmpType, ParseUint8;
      if name == "allocate" {
        var n :- Uint8();
        return Ok(Head(Allocate(n), []));
      } else if name == "store" {
        r := Sized(s => Op.Store(s));
      } else if name == "load" {
        r := Sized(s => Load(s));
      } else if name == "icmp" {
        var t :- OneIcmpType();
        return Ok(Head(Icmp(t), []));
      } else if name == "branch" {
        var names :- TwoNames();
        return Ok(Head(Branch(names.0, names.1), [names.0, names.1]));
      } else if name == "jmp" {
        var l :- Next();
        return Ok(Head(Jmp(l), [l]));
      } else if name == "add" {
        return Ok(Head(Arith(Add), []));
      } else if name == "sub" {
        return Ok(Head(Arith(Sub), []));
      } else if name == "mul" {
        return Ok(Head(Arith(Mul), []));
      } else if name == "ret" {
        return Ok(Head(Ret, []));
      } else if name == "call" {
        var size :- ValueSize();
        var g :- Next();
        return Ok(Head(Call(g, size), [g]));
      } else if name == "phi" {
        var names :- TwoNames();
        return Ok(Head(Phi([names.1, names.0]), [names.0, names.1]));
      } else if name == "select" {
        return Ok(Head(Select, []));
      } else if name == "zext" {
        r := Sized(s => Zext(s));
      } else if name == "sext" {
        r := Sized(s => Sext(s));
      } else if name == "getarrayptr" {
        r := Sized(s => GetArrayPtr(s));
      } else {
        return Err(Rejected);
      }
    }

    method OneIcmpType() returns (r: Result<IcmpType>)
      modifies this
      ensures Follows(r, ParseIcmpType(old(Left())))
    {
      var op :- Next();
      var t := IcmpNamed(op);
      return if t.Some? then Ok(t.value) else Err(Rejected);
    }

    method UnassignedInstruction() returns (r: Result<Inst>)
      modifies this
      ensures Follows(r, ParseUnassigned(old(Left())))
    {
      hide ParseHead, ParseOperands, SizeNamed, Stoi;
      var size :- MaybeValueSize();
      if size.Some? {
        var word :- TakeKind(Number);
        var n :- Stoi(word);
        return Ok(Inst(Literal(size.value, n), [], None, [], []));
      }
      var name :- TakeKind(Identifier);
      var head :- InstructionHead(name);
      var operands :- Operands();
      return Ok(Inst(head.op, operands, None, head.labels, []));
    }

    method Instruction() returns (r: Result<Inst>)
      modifies this
      ensures Follows(r, ParseInstruction(old(Left())))
    {
      hide ParseUnassigned;
      if !AtEnd() && tokens[start].value == "%" {
        start := start + 1;
        var name :- Next();
        var _ :- Take("=");
        var inst :- UnassignedInstruction();
        return Ok(inst.(result := Some(name)));
      }
      r := UnassignedInstruction();
    }

    method SkipBreakLines()
      modifies this
      ensures Left() == SkipBreaks(old(Left()))
    {
      while !AtEnd() && tokens[start].kind == BreakLine
        invariant SkipBreaks(Left()) == SkipBreaks(old(Left()))
        decreases |tokens| - start
      {
        start := start + 1;
      }
    }

    method LabelLine() returns (r: Result<Name>)
      modifies this
      ensures Follows(r, ParseLabel(old(Left())))
    {
      var _ :- Take(".");
      var name :- Next();
      var _ :- Take(":");
      var _ :- TakeKind(BreakLine);
      return Ok(name);
    }

    /** The loop over the lines of a function. */
    method Body(entry: seq<Block>) returns (r: Result<seq<Block>>)
      modifies this
      ensures Follows(r, ParseBody(old(Left()), entry))
    {
      hide ParseLabel, ParseInstruction;
      var blocks := entry;
      while !AtEnd() && tokens[start].value != "end"
        invariant ParseBody(Left(), blocks) == ParseBody(old(Left()), entry)
        decreases |Left()|
      {
        if tokens[start].value == "." {
          var name :- LabelLine();
          blocks := blocks + [Block(name, [])];
          continue;
        }
        if blocks == [] {
          return Err(Rejected);
        }
        var inst :- Instruction();
        blocks := WithInst(blocks, inst);
        SkipBreakLines();
      }
      if AtEnd() {
        return Err(Rejected);
      }
      start := start + 1;
      return Ok(blocks);
    }

    method ExternFunction() returns (r: Result<Prototype>)
      modifies this
      ensures Follows(r, ParsePrototype(old(Left())))
    {
      hide ParseParameters, ParseValueSize;
      var _ :- Take("fn");
      var size :- ValueSize();
      var name :- TakeKind(Identifier);
      var params :- Parameters();
      var _ :- TakeKind(BreakLine);
      return Ok(Prototype(name, params, size));
    }

    method OneFunction() returns (r: Result<Function>)
      modifies this
      ensures Follows(r, ParseFunction(old(Left())))
    {
      hide ParsePrototype, ParseBody;
      var proto :- ExternFunction();
      var blocks := if !AtEnd() && tokens[start].value == "." then [] else [Block("entry", [])];
      SkipBreakLines();
      var body :- Body(blocks);
      return Ok(Function(proto.name, proto.params, body, proto.returnType));
    }

    method OneGlobalString() returns (r: Result<GlobalString>)
      modifies this
      ensures Follows(r, ParseGlobalString(old(Left())))
    {
      var _ :- Take("%");
      var name :- TakeKind(Identifier);
      var _ :- Take("=");
      var text :- TakeKind(StringToken);
      return Ok(GlobalString(name, text));
    }

    method WholeRoot() returns (r: Result<Root>)
      modifies this
      ensures r.Ok? == Parse(old(Left())).Ok? && (r.Ok? ==> r == Parse(old(Left())))
    {
      hide ParseGlobalString, ParseFunction, ParsePrototype;
      var root := Root([], [], []);
      while !AtEnd()
        invariant ParseRoot(Left(), root) == Parse(old(Left()))
        decreases |Left()|
      {
        SkipBreakLines();
        var name :- TakeKind(Identifier);
        if name == "global_string" {
          var g :- OneGlobalString();
          root := root.(globals := root.globals + [g]);
        } else if name == "define" {
          var f :- OneFunction();
          root := root.(functions := root.functions + [f]);
        } else if name == "extern" {
          var proto :- ExternFunction();
          root := root.(externs := root.externs + [proto]);
        } else {
          return Err(Rejected);
        }
      }
      return Ok(root);
    }
  }

  /** The whole input, from its characters. */
  method ParseText(input: string) returns (r: Result<Root>)
    ensures r.Ok? == Parse(Tokens(input)).Ok? && (r.Ok? ==> r == Parse(Tokens(input)))
  {
    var tokens := Lex(input);
    var cursor := new TokenCursor(tokens);
    r := cursor.WholeRoot();
  }

  lemma BeforeNothing<T>(r: Parsed<seq<T>>)
    ensures Before([], r) == r
  {
    if r.Ok? {
      assert [] + r.value.0 == r.value.0;
    }
  }

  lemma ValueNeeded(ts: seq<Token>)
    requires ParseValue(ts).Err?
    ensures ParseValues(ts).Err? && ParseParams(ts).Err?
  {
  }

  lemma NoLiteralParams(ts: seq<Token>)
    requires ParseValue(ts).Ok? && ParseValue(ts).value.0.Lit?
    ensures ParseParams(ts).Err?
  {
  }

  // What elimination of dead blocks needs of parsed functions

  /** Jump targets and phi labels are among the labels the instruction lists. */
  ghost predicate Lists(inst: Inst) {
    (forall l | l in Targets(inst.op) :: l in inst.labels) &&
    (inst.op.Phi? ==> forall l | l in inst.op.incoming :: l in inst.labels)
  }

  ghost predicate AllList(blocks: seq<Block>) {
    forall b, i | 0 <= b < |blocks| && 0 <= i < |blocks[b].insts| :: Lists(blocks[b].insts[i])
  }

  lemma HeadLists(name: string, ts: seq<Token>)
    requires ParseHead(name, ts).Ok?
    ensures var head := ParseHead(name, ts).value.0; Lists(Inst(head.op, [], None, head.labels, []))
  {
    hide ParseValueSize, ParseIcmpType, ParseUint8;
  }

  lemma InstructionLists(ts: seq<Token>)
    requires ParseInstruction(ts).Ok?
    ensures Lists(ParseInstruction(ts).value.0)
  {
    hide ParseHead, ParseOperands, Stoi, SizeNamed;
    var at := if ts[0].value == "%" then ts[3..] else ts;
    if SizeNamed(at[0].value).None? {
      HeadLists(at[0].value, at[1..]);
    }
  }

  lemma {:induction false} BodyLists(ts: seq<Token>, blocks: seq<Block>)
    requires ParseBody(ts, blocks).Ok? && AllList(blocks)
    ensures AllList(ParseBody(ts, blocks).value.0)
    decreases |ts|
  {
    hide ParseInstruction, ParseLabel, Lists;
    if ts[0].value == "end" {
    } else if ts[0].value == "." {
      var named := ParseLabel(ts).value;
      BodyLists(named.1, blocks + [Block(named.0, [])]);
    } else {
      var inst := ParseInstruction(ts).value;
      InstructionLists(ts);
      BodyLists(SkipBreaks(inst.1), WithInst(blocks, inst.0));
    }
  }

  lemma {:induction false} RootLists(ts: seq<Token>, root: Root)
    requires ParseRoot(ts, root).Ok? && forall i | 0 <= i < |root.functions| :: AllList(root.functions[i].blocks)
    ensures var r := ParseRoot(ts, root).value; forall i | 0 <= i < |r.functions| :: AllList(r.functions[i].blocks)
    decreases |ts|
  {
    hide ParseGlobalString, ParseFunction, ParsePrototype, AllList;
    if ts != [] {
      var name := ExpectKind(SkipBreaks(ts), Identifier).value;
      if name.0 == "global_string" {
        var g := ParseGlobalString(name.1).value;
        RootLists(g.1, root.(globals := root.globals + [g.0]));
      } else if name.0 == "extern" {
        var proto := ParsePrototype(name.1).value;
        RootLists(proto.1, root.(externs := root.externs + [proto.0]));
      } else {
        var f := ParseFunction(name.1).value;
        FunctionLists(name.1);
        RootLists(f.1, root.(functions := root.functions + [f.0]));
      }
    }
  }

  lemma FunctionLists(ts: seq<Token>)
    requires ParseFunction(ts).Ok?
    ensures AllList(ParseFunction(ts).value.0.blocks)
  {
    hide ParsePrototype, ParseBody;
    var rest := ParsePrototype(ts).value.1;
    BodyLists(SkipBreaks(rest), if rest != [] && rest[0].value == "." then [] else [Block("entry", [])]);
  }

  /** The parser establishes what elimination needs: in every parsed function, each
      branch target, jump target and phi label is listed; so eliminating dead blocks
      preserves its runs exactly when no surviving block falls through into a dead one. */
  lemma ParsedFunctionsCanBeReduced(ts: seq<Token>, i: nat)
    requires Parse(ts).Ok? && i < |Parse(ts).value.functions|
    ensures var blocks := Parse(ts).value.functions[i].blocks;
            AllList(blocks) && DeadBlocks.LabelsListed(blocks) &&
            (DeadBlocks.RunsPreserved(blocks) <==> DeadBlocks.FallsIntoSurvivors(blocks))
  {
    hide ParseRoot, DeadBlocks.RunsPreserved, DeadBlocks.FallsIntoSurvivors;
    RootLists(ts, Root([], [], []));
    var blocks := Parse(ts).value.functions[i].blocks;
    assert DeadBlocks.LabelsListed(blocks) by {
      assert forall b, j | 0 <= b < |blocks| && 0 <= j < |blocks[b].insts| :: Lists(blocks[b].insts[j]);
    }
    DeadBlocks.PreservesRunsExactly(blocks);
  }
}
