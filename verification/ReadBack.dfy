/** The tokens of printed text parse to what was printed. */
module ReadBack {
  import opened Wrappers
  import opened Ir
  import opened Text
  import opened Lexer
  import opened Emitter
  import opened Parser
  import opened RoundTrip
  import Conditions

  lemma {:induction false} DigitsAll(s: string)
    requires forall c | c in s :: IsDigit(c)
    ensures DigitPrefix(s) == s
  {
    if s != [] {
      assert forall c | c in s[1..] :: c in s;
      DigitsAll(s[1..]);
    }
  }

  lemma StoiOfDecimal(n: nat)
    requires n < STOI_LIMIT
    ensures Stoi(Decimal(n)) == Ok(n)
  {
    DigitsAll(Decimal(n));
    NumeralOfDecimal(n);
  }

  lemma SizeBack(size: Size)
    requires size != ParamDependent
    ensures SizeNamed(SizeToken(size).value) == Some(size)
    ensures SizeToken(size).value != "%"
  {
  }

  lemma ParseSizeBack(size: Size, rest: seq<Token>)
    requires size != ParamDependent
    ensures ParseValueSize([SizeToken(size)] + rest) == Ok((size, rest))
  {
    hide SizeToken, SizeNamed;
    SizeBack(size);
    assert ([SizeToken(size)] + rest)[1..] == rest;
  }

  lemma ParseValueBack(v: Value, rest: seq<Token>)
    requires AgreeValue(v)
    ensures ParseValue(ValueTokens(v) + rest) == Ok((v, rest))
  {
    hide SizeToken, SizeNamed, Stoi, ParseValueSize, PlainWord;
    if v.Lit? {
      var left := [Token(Number, Decimal(v.value))] + rest;
      assert ValueTokens(v) + rest == [SizeToken(v.size)] + left;
      ParseSizeBack(v.size, left);
      StoiOfDecimal(v.value);
      DecimalIsNoPercent(v.value);
      assert left[1..] == rest;
    } else {
      var left := [SymbolToken('%'), WordToken(v.name)] + rest;
      assert ValueTokens(v) + rest == [SizeToken(v.size)] + left;
      ParseSizeBack(v.size, left);
      assert left[1..] == [WordToken(v.name)] + rest && ([WordToken(v.name)] + rest)[1..] == rest;
    }
  }

  lemma DecimalIsNoPercent(n: nat)
    ensures Decimal(n) != "%"
  {
    assert Decimal(n)[0] in Decimal(n);
  }

  lemma {:induction false} ParseValuesBack(ops: seq<Value>, rest: seq<Token>)
    requires AgreeValues(ops) && ops != [] && rest != [] && rest[0].value != ","
    ensures ParseValues(OperandTokens(ops) + rest) == Ok((ops, rest))
    decreases |ops|
  {
    hide ParseValue, ValueTokens, AgreeValue;
    var more := OperandTokens(ops[1..]) + rest;
    if |ops| > 1 {
      assert OperandTokens(ops) + rest == ValueTokens(ops[0]) + ([SymbolToken(',')] + more);
      ParseValueBack(ops[0], [SymbolToken(',')] + more);
      assert ([SymbolToken(',')] + more)[1..] == more;
      ParseValuesBack(ops[1..], rest);
      assert [ops[0]] + ops[1..] == ops;
    } else {
      assert ops[1..] == [] && OperandTokens(ops) + rest == ValueTokens(ops[0]) + rest;
      ParseValueBack(ops[0], rest);
      assert ops == [ops[0]];
    }
  }

  lemma ParseOperandsBack(ops: seq<Value>, rest: seq<Token>)
    requires AgreeValues(ops) && rest != [] && rest[0] == BREAK
    ensures ParseOperands(OperandTokens(ops) + rest) == Ok((ops, rest))
  {
    hide ParseValues;
    if ops == [] {
      assert OperandTokens(ops) + rest == rest;
    } else {
      assert (OperandTokens(ops) + rest)[0] == ValueTokens(ops[0])[0];
      ParseValuesBack(ops, rest);
    }
  }

  lemma ParseSizedBack(size: Size, rest: seq<Token>, op: Size -> Op)
    requires size != ParamDependent
    ensures ParseSized([SizeToken(size)] + rest, op) == Ok((Head(op(size), []), rest))
  {
    hide SizeToken, ParseValueSize;
    ParseSizeBack(size, rest);
  }

  lemma IcmpBack(t: IcmpType)
    ensures IcmpNamed(IcmpWord(t)) == Some(t)
  {
  }

  // Names

  /** The names of comparisons are told apart, and every comparison has one. */
  lemma ComparisonNamesDiffer(s: string, t: string, c: IcmpType)
    ensures IcmpNamed(s).Some? && IcmpNamed(s) == IcmpNamed(t) ==> s == t
    ensures exists name :: IcmpNamed(name) == Some(c)
  {
    IcmpBack(c);
  }

  /** So are those of sizes; parameter dependence has none. */
  lemma SizeNamesDiffer(s: string, t: string, size: Size)
    ensures SizeNamed(s).Some? && SizeNamed(s) == SizeNamed(t) ==> s == t
    ensures size != ParamDependent <==> exists name :: SizeNamed(name) == Some(size)
  {
    if size != ParamDependent {
      SizeBack(size);
    }
  }

  /** A relation by the name that is written for it. */
  ghost predicate Named(name: string, half: nat, a: nat, b: nat) {
    IcmpNamed(name).Some? && Conditions.Relation(IcmpNamed(name).value, half, a, b)
  }

  /** What the names mean: on two patterns of w bits, and the integers n and k for which they
      stand in two's complement. */
  lemma NamesMean(w: nat, a: nat, b: nat, n: int, k: int)
    requires w > 0 && a < Conditions.Pow2(w) && b < Conditions.Pow2(w)
    requires Conditions.StandsFor(w, a, n) && Conditions.StandsFor(w, b, k)
    ensures var half := Conditions.Pow2(w - 1);
            (Named("eq", half, a, b) <==> n == k) && (Named("ne", half, a, b) <==> n != k) &&
            (Named("slt", half, a, b) <==> n < k) && (Named("sle", half, a, b) <==> n <= k) &&
            (Named("sgt", half, a, b) <==> n > k) && (Named("sge", half, a, b) <==> n >= k) &&
            (Named("ult", half, a, b) <==> a < b) && (Named("ule", half, a, b) <==> a <= b) &&
            (Named("ugt", half, a, b) <==> a > b) && (Named("uge", half, a, b) <==> a >= b)
  {
    hide Conditions.Relation, Conditions.StandsFor;
    Conditions.RelationsMean(w, a, b, n, k);
  }

  // Numbers

  lemma {:induction false} DigitsThen(s: string, t: string)
    requires (forall c | c in s :: IsDigit(c)) && (t != [] ==> !IsDigit(t[0]))
    ensures DigitPrefix(s + t) == s
  {
    if s == [] {
      assert s + t == t;
    } else {
      assert (s + t)[1..] == s[1..] + t && forall c | c in s[1..] :: c in s;
      DigitsThen(s[1..], t);
    }
  }

  /** A number is read up to what is no digit, if it fits 31 bits; where a byte is read, modulo 256. */
  lemma NumbersRead(n: nat, t: string, rest: seq<Token>)
    requires t != [] ==> !IsDigit(t[0])
    ensures Stoi(Decimal(n) + t) == if n < 0x8000_0000 then Ok(n) else Err(Rejected)
    ensures ParseUint8([Token(Number, Decimal(n) + t)] + rest) ==
            if n < 0x8000_0000 then Ok((n % 256, rest)) else Err(Rejected)
  {
    DigitsThen(Decimal(n), t);
    NumeralOfDecimal(n);
    assert ([Token(Number, Decimal(n) + t)] + rest)[1..] == rest;
  }

  /** A size that is left out is i32. */
  lemma OmittedSize(v: Value, rest: seq<Token>)
    requires AgreeValue(v) && v.size == I32
    ensures ParseValue(ValueTokens(v)[1..] + rest) == ParseValue(ValueTokens(v) + rest) == Ok((v, rest))
  {
    hide Stoi, Decimal, PlainWord;
    ParseValueBack(v, rest);
    var ts := ValueTokens(v)[1..] + rest;
    if v.Lit? {
      assert ts == [Token(Number, Decimal(v.value))] + rest && ts[1..] == rest;
      DecimalIsNoSize(v.value);
      DecimalIsNoPercent(v.value);
      StoiOfDecimal(v.value);
    } else {
      assert ts == [SymbolToken('%'), WordToken(v.name)] + rest;
      assert ts[1..] == [WordToken(v.name)] + rest && ts[1..][1..] == rest;
    }
  }

  lemma DecimalIsNoSize(n: nat)
    ensures SizeNamed(Decimal(n)) == None
  {
    assert Decimal(n)[0] in Decimal(n);
  }

  // Operations

  lemma SizedHeadBack(op: Op, rest: seq<Token>)
    requires WritableOp(op, []) && (op.Store? || op.Load? || op.Zext? || op.Sext? || op.GetArrayPtr?)
    ensures ParseHead(OpTokens(op, [])[0].value, OpTokens(op, [])[1..] + rest) == Ok((Head(op, []), rest))
  {
    hide SizeToken, ParseValueSize, IcmpNamed, Stoi, WordToken, PlainWord, Decimal, IcmpWord;
    var args := OpTokens(op, [])[1..] + rest;
    match op {
      case Store(s) =>
        assert args == [SizeToken(s)] + rest;
        ParseSizedBack(s, rest, s => Op.Store(s));
      case Load(s) =>
        assert args == [SizeToken(s)] + rest;
        ParseSizedBack(s, rest, s => Load(s));
      case Zext(s) =>
        assert args == [SizeToken(s)] + rest;
        ParseSizedBack(s, rest, s => Zext(s));
      case Sext(s) =>
        assert args == [SizeToken(s)] + rest;
        ParseSizedBack(s, rest, s => Sext(s));
      case GetArrayPtr(s) =>
        assert args == [SizeToken(s)] + rest;
        ParseSizedBack(s, rest, s => GetArrayPtr(s));
    }
  }

  lemma LabelHeadBack(op: Op, labels: seq<Name>, rest: seq<Token>)
    requires WritableOp(op, labels) && (op.Branch? || op.Jmp? || op.Call? || op.Phi?)
    ensures ParseHead(OpTokens(op, labels)[0].value, OpTokens(op, labels)[1..] + rest) == Ok((Head(op, labels), rest))
  {
    hide SizeToken, ParseValueSize, IcmpNamed, Stoi, PlainWord, Decimal, IcmpWord;
    var args := OpTokens(op, labels)[1..] + rest;
    match op {
      case Branch(t, f) => assert args[1..] == [WordToken(f)] + rest && args[1..][1..] == rest;
      case Jmp(l) => assert args == [WordToken(l)] + rest && args[1..] == rest;
      case Phi(incoming) =>
        assert args[1..] == [WordToken(incoming[0])] + rest && args[1..][1..] == rest;
        assert incoming == [incoming[0], incoming[1]];
      case Call(g, s) =>
        assert args == [SizeToken(s)] + ([WordToken(g)] + rest) && ([WordToken(g)] + rest)[1..] == rest;
        ParseSizeBack(s, [WordToken(g)] + rest);
    }
  }

  /** Arguments of an operation, after its name. */
  lemma ParseHeadBack(op: Op, labels: seq<Name>, rest: seq<Token>)
    requires WritableOp(op, labels) && !op.Literal?
    ensures ParseHead(OpTokens(op, labels)[0].value, OpTokens(op, labels)[1..] + rest) == Ok((Head(op, labels), rest))
  {
    hide SizeToken, ParseValueSize, IcmpNamed, Stoi, WordToken, PlainWord, Decimal, IcmpWord;
    if op.Store? || op.Load? || op.Zext? || op.Sext? || op.GetArrayPtr? {
      SizedHeadBack(op, rest);
    } else if op.Branch? || op.Jmp? || op.Call? || op.Phi? {
      LabelHeadBack(op, labels, rest);
    } else {
      var args := OpTokens(op, labels)[1..] + rest;
      match op {
        case Allocate(n) =>
          assert args == [Token(Number, Decimal(n))] + rest && args[1..] == rest;
          StoiOfDecimal(n);
        case Icmp(t) =>
          assert args == [Token(Identifier, IcmpWord(t))] + rest && args[1..] == rest;
          IcmpBack(t);
        case Arith(_) => assert args == rest;
        case Ret => assert args == rest;
        case Select => assert args == rest;
      }
    }
  }

  /** An operation is not a size, and neither ends a function nor starts a label or an
      assignment. */
  lemma OpName(op: Op, labels: seq<Name>)
    requires WritableOp(op, labels) && !op.Literal?
    ensures OpTokens(op, labels) != []
    ensures var t := OpTokens(op, labels)[0];
            t.kind == Identifier && SizeNamed(t.value) == None && t.value != "%" && t.value != "end" && t.value != "."
  {
    hide SizeToken, WordToken, PlainWord, Decimal, IcmpWord;
  }

  /** A literal alias is its size and its number. */
  lemma ParseLiteralBack(inst: Inst, rest: seq<Token>)
    requires WritableInst(inst) && inst.result == None && inst.op.Literal?
    ensures ParseUnassigned(OpTokens(inst.op, inst.labels) + OperandTokens(inst.operands) + rest) == Ok((inst, rest))
    ensures OpTokens(inst.op, inst.labels) != []
    ensures var t := OpTokens(inst.op, inst.labels)[0];
            t.kind == Identifier && t.value != "%" && t.value != "end" && t.value != "."
  {
    hide SizeNamed, Stoi, Decimal;
    var size, number := SizeToken(inst.op.lsize), Token(Number, Decimal(inst.op.value));
    var ts := OpTokens(inst.op, inst.labels) + OperandTokens(inst.operands) + rest;
    assert ts == [size, number] + rest && ts[1..] == [number] + rest && ts[1..][1..] == rest;
    SizeBack(inst.op.lsize);
    StoiOfDecimal(inst.op.value);
  }

  lemma ParseUnassignedBack(inst: Inst, rest: seq<Token>)
    requires WritableInst(inst) && inst.result == None && rest != [] && rest[0] == BREAK
    ensures ParseUnassigned(OpTokens(inst.op, inst.labels) + OperandTokens(inst.operands) + rest) == Ok((inst, rest))
  {
    hide ParseHead, ParseOperands, OpTokens, WritableOp, AgreeValues, SizeNamed, Stoi;
    if inst.op.Literal? {
      ParseLiteralBack(inst, rest);
    } else {
      var name := OpTokens(inst.op, inst.labels);
      var left := OperandTokens(inst.operands) + rest;
      var ts := name + OperandTokens(inst.operands) + rest;
      OpName(inst.op, inst.labels);
      assert ts == name + left && ts[0] == name[0] && ts[1..] == name[1..] + left;
      ParseHeadBack(inst.op, inst.labels, left);
      ParseOperandsBack(inst.operands, rest);
    }
  }

  /** The first token of an operation tells its line from an assignment, a label and an end. */
  lemma OpStarts(inst: Inst, rest: seq<Token>)
    requires WritableInst(inst)
    ensures OpTokens(inst.op, inst.labels) != []
    ensures var t := OpTokens(inst.op, inst.labels)[0];
            t.kind == Identifier && t.value != "%" && t.value != "end" && t.value != "."
  {
    hide OpTokens, AgreeValues, PlainWord;
    if inst.op.Literal? {
      ParseLiteralBack(inst.(result := None), rest);
    } else {
      OpName(inst.op, inst.labels);
    }
  }

  lemma AssignedBack(x: Name, body: seq<Token>, inst: Inst, rest: seq<Token>)
    requires ParseUnassigned(body + rest) == Ok((inst, rest))
    ensures ParseInstruction([SymbolToken('%'), WordToken(x), SymbolToken('=')] + (body + rest)) ==
            Ok((inst.(result := Some(x)), rest))
  {
    hide ParseUnassigned;
    var ts := [SymbolToken('%'), WordToken(x), SymbolToken('=')] + (body + rest);
    assert ts[1..] == [WordToken(x), SymbolToken('=')] + (body + rest);
    assert ts[1..][1..] == [SymbolToken('=')] + (body + rest) && ts[1..][1..][1..] == body + rest;
  }

  lemma ParseInstructionBack(inst: Inst, rest: seq<Token>)
    requires WritableInst(inst) && rest != [] && rest[0] == BREAK
    ensures ParseInstruction(InstTokens(inst) + rest) == Ok((inst, rest))
    ensures var t := (InstTokens(inst) + rest)[0]; t.kind != BreakLine && t.value != "end" && t.value != "."
  {
    hide ParseUnassigned, OpTokens, OperandTokens, WritableOp, AgreeValues, PlainWord;
    var bare := inst.(result := None);
    var body := OpTokens(inst.op, inst.labels) + OperandTokens(inst.operands);
    ParseUnassignedBack(bare, rest);
    if inst.result.Some? {
      AssignedBack(inst.result.value, body, bare, rest);
      assert InstTokens(inst) + rest == ResultTokens(inst.result) + (body + rest);
    } else {
      OpStarts(inst, rest);
      assert [] + OpTokens(inst.op, inst.labels) == OpTokens(inst.op, inst.labels);
      assert InstTokens(inst) + rest == body + rest;
    }
  }

  lemma SkipOneBreak(rest: seq<Token>)
    requires rest != [] && rest[0].kind != BreakLine
    ensures SkipBreaks([BREAK] + rest) == rest
  {
    assert ([BREAK] + rest)[1..] == rest;
  }

  /** Instructions go to the end of the last block. */
  function WithInsts(blocks: seq<Block>, insts: seq<Inst>): seq<Block>
    requires blocks != []
  {
    var last := |blocks| - 1;
    blocks[..last] + [Block(blocks[last].name, blocks[last].insts + insts)]
  }

  lemma WithInstsStep(blocks: seq<Block>, insts: seq<Inst>)
    requires blocks != [] && insts != []
    ensures WithInsts(WithInst(blocks, insts[0]), insts[1..]) == WithInsts(blocks, insts)
  {
    var was := blocks[|blocks| - 1].insts;
    assert (was + [insts[0]]) + insts[1..] == was + insts;
  }

  lemma {:induction false} ParseInstsBack(insts: seq<Inst>, rest: seq<Token>, blocks: seq<Block>)
    requires WritableInsts(insts) && blocks != [] && rest != [] && rest[0].kind != BreakLine
    ensures ParseBody(InstsTokens(insts) + rest, blocks) == ParseBody(rest, WithInsts(blocks, insts))
    decreases |insts|
  {
    hide ParseInstruction, InstTokens, WritableInst, ParseLabel;
    if insts == [] {
      assert InstsTokens(insts) + rest == rest;
      assert blocks[|blocks| - 1].insts + [] == blocks[|blocks| - 1].insts;
      assert WithInsts(blocks, insts) == blocks;
    } else {
      var more := InstsTokens(insts[1..]) + rest;
      var ts := InstsTokens(insts) + rest;
      assert ts == InstTokens(insts[0]) + ([BREAK] + more);
      ParseInstructionBack(insts[0], [BREAK] + more);
      InstsStart(insts[1..], rest);
      SkipOneBreak(more);
      ParseInstsBack(insts[1..], rest, WithInst(blocks, insts[0]));
      WithInstsStep(blocks, insts);
    }
  }

  lemma InstsStart(insts: seq<Inst>, rest: seq<Token>)
    requires WritableInsts(insts) && rest != [] && rest[0].kind != BreakLine
    ensures var ts := InstsTokens(insts) + rest; ts != [] && ts[0].kind != BreakLine
  {
    hide InstTokens, WritableInst;
    if insts == [] {
      assert InstsTokens(insts) + rest == rest;
    } else {
      var more := [BREAK] + InstsTokens(insts[1..]) + rest;
      assert InstsTokens(insts) + rest == InstTokens(insts[0]) + more;
      ParseInstructionBack(insts[0], more);
    }
  }

  lemma ParseLabelBack(x: Name, rest: seq<Token>)
    ensures ParseLabel([SymbolToken('.'), WordToken(x), SymbolToken(':'), BREAK] + rest) == Ok((x, rest))
  {
    var ts := [SymbolToken('.'), WordToken(x), SymbolToken(':'), BREAK] + rest;
    assert ts[1..] == [WordToken(x), SymbolToken(':'), BREAK] + rest;
    assert ts[1..][1..] == [SymbolToken(':'), BREAK] + rest;
    assert ts[1..][1..][1..] == [BREAK] + rest;
    assert ts[1..][1..][1..][1..] == rest;
  }

  lemma LabelStep(x: Name, rest: seq<Token>, before: seq<Block>)
    ensures ParseBody([SymbolToken('.'), WordToken(x), SymbolToken(':'), BREAK] + rest, before) ==
            ParseBody(rest, before + [Block(x, [])])
  {
    hide ParseLabel;
    ParseLabelBack(x, rest);
  }

  lemma ParseBlockBack(block: Block, rest: seq<Token>, before: seq<Block>)
    requires WritableBlock(block) && rest != [] && rest[0].kind != BreakLine
    ensures ParseBody(BlockTokens(block) + rest, before) == ParseBody(rest, before + [block])
  {
    hide ParseBody, InstsTokens, WritableInsts, PlainWord, WithInsts, WordToken, SymbolToken;
    var named := [SymbolToken('.'), WordToken(block.name), SymbolToken(':'), BREAK];
    Associates(named, InstsTokens(block.insts), rest);
    LabelStep(block.name, InstsTokens(block.insts) + rest, before);
    ParseInstsBack(block.insts, rest, before + [Block(block.name, [])]);
    WithAllInsts(before, block);
  }

  lemma {:induction false} ParseBlocksBack(blocks: seq<Block>, rest: seq<Token>, before: seq<Block>)
    requires WritableBlocks(blocks) && rest != [] && rest[0].kind != BreakLine
    ensures ParseBody(BlocksTokens(blocks) + rest, before) == ParseBody(rest, before + blocks)
    decreases |blocks|
  {
    hide ParseBody, WritableBlock, BlockTokens;
    if blocks == [] {
      assert BlocksTokens(blocks) + rest == rest && before + blocks == before;
    } else {
      Associates(BlockTokens(blocks[0]), BlocksTokens(blocks[1..]), rest);
      BlocksStart(blocks[1..], rest);
      ParseBlockBack(blocks[0], BlocksTokens(blocks[1..]) + rest, before);
      ParseBlocksBack(blocks[1..], rest, before + [blocks[0]]);
      assert (before + [blocks[0]]) + blocks[1..] == before + blocks;
    }
  }

  lemma BlocksStart(blocks: seq<Block>, rest: seq<Token>)
    requires WritableBlocks(blocks) && rest != [] && rest[0].kind != BreakLine
    ensures var ts := BlocksTokens(blocks) + rest; ts != [] && ts[0].kind != BreakLine
  {
    hide InstsTokens, WritableInsts;
    if blocks == [] {
      assert BlocksTokens(blocks) + rest == rest;
    }
  }

  lemma WithAllInsts(before: seq<Block>, block: Block)
    ensures WithInsts(before + [Block(block.name, [])], block.insts) == before + [block]
  {
    assert (before + [Block(block.name, [])])[..|before|] == before;
    assert [] + block.insts == block.insts;
  }

  lemma {:induction false} ParamTokensSplit(params: seq<(Name, Size)>, rest: seq<Token>)
    requires AgreeParams(params) && params != []
    ensures var v := Var(params[0].1, params[0].0);
            AgreeValue(v) &&
            ParamTokens(params) + rest ==
              ValueTokens(v) + (if |params| > 1 then [SymbolToken(',')] + (ParamTokens(params[1..]) + rest) else rest)
  {
    hide PlainWord, SizeToken, WordToken, SymbolToken;
  }

  lemma {:induction false} ParseParamsBack(params: seq<(Name, Size)>, rest: seq<Token>)
    requires AgreeParams(params) && params != [] && rest != [] && rest[0].value != ","
    ensures ParseParams(ParamTokens(params) + rest) == Ok((params, rest))
    decreases |params|
  {
    hide ParseValue, PlainWord, ValueTokens, AgreeValue, ParamTokens, RealSize;
    var v := Var(params[0].1, params[0].0);
    ParamTokensSplit(params, rest);
    if |params| > 1 {
      var more := ParamTokens(params[1..]) + rest;
      ParseValueBack(v, [SymbolToken(',')] + more);
      assert ([SymbolToken(',')] + more)[1..] == more;
      ParseParamsBack(params[1..], rest);
      assert [params[0]] + params[1..] == params;
    } else {
      ParseValueBack(v, rest);
      assert params == [params[0]];
    }
  }

  lemma ParseParametersBack(params: seq<(Name, Size)>, rest: seq<Token>)
    requires AgreeParams(params)
    ensures ParseParameters([SymbolToken('(')] + ParamTokens(params) + [SymbolToken(')')] + rest) == Ok((params, rest))
  {
    hide ParseParams, PlainWord, SizeNamed;
    var close := [SymbolToken(')')] + rest;
    var ts := [SymbolToken('(')] + ParamTokens(params) + [SymbolToken(')')] + rest;
    assert ts[1..] == ParamTokens(params) + close && close[1..] == rest;
    if params != [] {
      assert ts[1..][0] == SizeToken(params[0].1);
      SizeNotParen(params[0].1);
      ParseParamsBack(params, close);
    } else {
      assert ts[1..] == close;
    }
  }

  lemma SizeNotParen(size: Size)
    requires size != ParamDependent
    ensures SizeToken(size).value != ")"
  {
  }

  lemma ParsePrototypeBack(word: string, p: Prototype, rest: seq<Token>)
    requires WritablePrototype(p)
    ensures PrototypeTokens(word, p) != [] && PrototypeTokens(word, p)[0] == Token(Identifier, word)
    ensures ParsePrototype(PrototypeTokens(word, p)[1..] + [BREAK] + rest) == Ok((p, rest))
  {
    hide ParseParameters, ParseValueSize, SizeToken, ParamTokens, AgreeParams;
    var params := [SymbolToken('(')] + ParamTokens(p.params) + [SymbolToken(')')];
    var ts := PrototypeTokens(word, p)[1..] + [BREAK] + rest;
    assert ts == [Token(Identifier, "fn"), SizeToken(p.returnType), WordToken(p.name)] + params + [BREAK] + rest;
    var named := [WordToken(p.name)] + (params + ([BREAK] + rest));
    assert ts[1..] == [SizeToken(p.returnType)] + named;
    ParseSizeBack(p.returnType, named);
    assert named[1..] == params + ([BREAK] + rest);
    ParseParametersBack(p.params, [BREAK] + rest);
    assert ([BREAK] + rest)[1..] == rest;
  }

  lemma EndOfBody(rest: seq<Token>, blocks: seq<Block>)
    ensures ParseBody([END] + rest, blocks) == Ok((blocks, rest))
  {
    assert ([END] + rest)[1..] == rest;
  }

  lemma EntryWithInsts(block: Block)
    ensures WithInsts([Block(block.name, [])], block.insts) == [block]
  {
    WithAllInsts([], block);
    assert [] + [Block(block.name, [])] == [Block(block.name, [])] && [] + [block] == [block];
  }

  lemma InstsFirst(insts: seq<Inst>, rest: seq<Token>)
    requires WritableInsts(insts) && insts != []
    ensures var ts := InstsTokens(insts) + rest; ts != [] && ts[0].kind != BreakLine && ts[0].value != "."
  {
    hide InstTokens, WritableInst;
    var more := [BREAK] + InstsTokens(insts[1..]) + rest;
    assert InstsTokens(insts) + rest == InstTokens(insts[0]) + more;
    ParseInstructionBack(insts[0], more);
  }

  /** What reading the lines of a function gives, and that they do not start with an empty one. */
  ghost predicate BodyReads(ts: seq<Token>, f: Function, labelled: bool, rest: seq<Token>) {
    ts != [] && ts[0].kind != BreakLine && (ts[0].value == "." <==> labelled) &&
    ParseBody(ts, if labelled then [] else [Block("entry", [])]) == Ok((f.blocks, rest))
  }

  lemma LabelledBodyBack(f: Function, rest: seq<Token>)
    requires WritableFunction(f)
    ensures BodyReads(BlocksTokens(f.blocks) + ([END] + rest), f, true, rest)
  {
    hide ParseBody, BlocksTokens, WritableBlocks, WritablePrototype;
    var end := [END] + rest;
    FirstLabel(f.blocks, end);
    ParseBlocksBack(f.blocks, end, []);
    EndOfBody(rest, [] + f.blocks);
    assert [] + f.blocks == f.blocks;
  }

  lemma EntryBodyBack(f: Function, rest: seq<Token>)
    requires WritableItem(FunctionItem(f, false)) && WritableBlock(f.blocks[0]) && WritableBlocks(f.blocks[1..])
    ensures BodyReads(InstsTokens(f.blocks[0].insts) + (BlocksTokens(f.blocks[1..]) + ([END] + rest)), f, false, rest)
  {
    hide ParseBody, InstsTokens, BlocksTokens, WritableInsts, WithInsts, WritablePrototype, WritableBlocks, PlainWord;
    var end, insts, blocks := [END] + rest, f.blocks[0].insts, f.blocks[1..];
    var more := BlocksTokens(blocks) + end;
    BlocksStart(blocks, end);
    NoBlocks(blocks, end);
    FirstInstruction(f, more);
    ParseInstsBack(insts, more, [Block("entry", [])]);
    EntryWithInsts(f.blocks[0]);
    ParseBlocksBack(blocks, end, [f.blocks[0]]);
    EndOfBody(rest, [f.blocks[0]] + blocks);
    assert [f.blocks[0]] + blocks == f.blocks;
  }

  /** The lines of a function, with the label of the first block or without it. */
  lemma ParseBodyBack(f: Function, labelled: bool, rest: seq<Token>)
    requires WritableItem(FunctionItem(f, labelled))
    ensures BodyReads(BodyTokens(f, labelled) + ([END] + rest), f, labelled, rest)
  {
    hide BodyReads, InstsTokens, BlocksTokens, WritablePrototype;
    if labelled {
      LabelledBodyBack(f, rest);
    } else {
      assert WritableBlock(f.blocks[0]) && forall b | 0 <= b < |f.blocks| - 1 :: f.blocks[1..][b] == f.blocks[b + 1];
      EntryBodyBack(f, rest);
      Associates(InstsTokens(f.blocks[0].insts), BlocksTokens(f.blocks[1..]), [END] + rest);
    }
  }

  lemma NoBlocks(blocks: seq<Block>, rest: seq<Token>)
    requires WritableBlocks(blocks)
    ensures blocks == [] ==> BlocksTokens(blocks) + rest == rest
  {
  }

  lemma FirstLabel(blocks: seq<Block>, rest: seq<Token>)
    requires WritableBlocks(blocks) && blocks != []
    ensures var ts := BlocksTokens(blocks) + rest; ts != [] && ts[0] == SymbolToken('.')
  {
    hide InstsTokens, WritableInsts;
  }

  lemma FirstInstruction(f: Function, more: seq<Token>)
    requires WritableItem(FunctionItem(f, false)) && WritableBlock(f.blocks[0]) && more != []
    requires |f.blocks| == 1 ==> more[0] == END
    requires more[0].kind != BreakLine
    ensures var ts := InstsTokens(f.blocks[0].insts) + more; ts != [] && ts[0].kind != BreakLine && ts[0].value != "."
  {
    hide InstTokens, WritableInst;
    if f.blocks[0].insts == [] {
      assert InstsTokens(f.blocks[0].insts) + more == more;
    } else {
      InstsFirst(f.blocks[0].insts, more);
    }
  }

  lemma ParseFunctionBack(f: Function, labelled: bool, rest: seq<Token>)
    requires WritableItem(FunctionItem(f, labelled))
    ensures FunctionTokens(f, labelled) != [] && FunctionTokens(f, labelled)[0] == Token(Identifier, "define")
    ensures ParseFunction(FunctionTokens(f, labelled)[1..] + rest) == Ok((f, rest))
  {
    hide ParsePrototype, ParseBody, PrototypeTokens, BodyTokens, WritablePrototype, WritableBlocks;
    var p, body := PrototypeOf(f), BodyTokens(f, labelled) + ([END] + rest);
    ParsePrototypeBack("define", p, body);
    assert FunctionTokens(f, labelled)[1..] + rest == PrototypeTokens("define", p)[1..] + [BREAK] + body;
    ParseBodyBack(f, labelled, rest);
    assert SkipBreaks(body) == body;
  }

  lemma ParseGlobalBack(g: GlobalString, rest: seq<Token>)
    requires AgreeGlobal(g)
    ensures ParseGlobalString(GlobalTokens(g)[1..] + rest) == Ok((g, rest))
  {
    var ts := GlobalTokens(g)[1..] + rest;
    assert ts[1..] == [WordToken(g.name), SymbolToken('='), Token(StringToken, g.value)] + rest;
    assert ts[1..][1..] == [SymbolToken('='), Token(StringToken, g.value)] + rest;
    assert ts[1..][1..][1..] == [Token(StringToken, g.value)] + rest;
    assert ts[1..][1..][1..][1..] == rest;
  }

  // Whole texts

  /** The root with one more item. */
  function With(root: Root, item: TopLevel): Root {
    match item
    case StringItem(g) => root.(globals := root.globals + [g])
    case ExternItem(p) => root.(externs := root.externs + [p])
    case FunctionItem(f, _) => root.(functions := root.functions + [f])
  }

  function StringsOf(parts: seq<Part>): seq<GlobalString> {
    if parts == [] then []
    else (if parts[0].item.StringItem? then [parts[0].item.g] else []) + StringsOf(parts[1..])
  }

  function ExternsOf(parts: seq<Part>): seq<Prototype> {
    if parts == [] then []
    else (if parts[0].item.ExternItem? then [parts[0].item.p] else []) + ExternsOf(parts[1..])
  }

  function FunctionsOf(parts: seq<Part>): seq<Function> {
    if parts == [] then []
    else (if parts[0].item.FunctionItem? then [parts[0].item.f] else []) + FunctionsOf(parts[1..])
  }

  lemma ParseStringBack(g: GlobalString, rest: seq<Token>, root: Root)
    requires AgreeGlobal(g)
    ensures GlobalTokens(g) != [] && GlobalTokens(g)[0].kind == Identifier
    ensures ParseRoot(GlobalTokens(g) + rest, root) == ParseRoot(rest, With(root, StringItem(g)))
  {
    hide ParseFunction, ParseGlobalString, ParsePrototype, AgreeGlobal;
    var ts := GlobalTokens(g) + rest;
    ParseGlobalBack(g, rest);
    assert ts[0] == Token(Identifier, "global_string") && ts[1..] == GlobalTokens(g)[1..] + rest;
    assert SkipBreaks(ts) == ts;
  }

  lemma ParseExternBack(p: Prototype, rest: seq<Token>, root: Root)
    requires WritablePrototype(p)
    ensures PrototypeTokens("extern", p) != [] && PrototypeTokens("extern", p)[0].kind == Identifier
    ensures ParseRoot(PrototypeTokens("extern", p) + ([BREAK] + rest), root) ==
            ParseRoot(rest, With(root, ExternItem(p)))
  {
    hide ParseFunction, ParseGlobalString, ParsePrototype, PrototypeTokens, WritablePrototype;
    ParsePrototypeBack("extern", p, rest);
    var ts := PrototypeTokens("extern", p) + ([BREAK] + rest);
    assert ts[1..] == PrototypeTokens("extern", p)[1..] + [BREAK] + rest;
    assert SkipBreaks(ts) == ts;
  }

  lemma ParseDefinitionBack(f: Function, labelled: bool, rest: seq<Token>, root: Root)
    requires WritableItem(FunctionItem(f, labelled))
    ensures FunctionTokens(f, labelled) != [] && FunctionTokens(f, labelled)[0].kind == Identifier
    ensures ParseRoot(FunctionTokens(f, labelled) + rest, root) ==
            ParseRoot(rest, With(root, FunctionItem(f, labelled)))
  {
    hide ParseFunction, ParseGlobalString, ParsePrototype, FunctionTokens, WritableFunction;
    ParseFunctionBack(f, labelled, rest);
    var ts := FunctionTokens(f, labelled) + rest;
    assert ts[1..] == FunctionTokens(f, labelled)[1..] + rest;
    assert SkipBreaks(ts) == ts;
  }

  /** An item is read, and so is the end of its line, if there is one. */
  lemma ParseItemBack(item: TopLevel, rest: seq<Token>, root: Root)
    requires WritableItem(item) && (item.ExternItem? ==> rest != [] && rest[0] == BREAK)
    ensures ItemTokens(item) != [] && ItemTokens(item)[0].kind == Identifier
    ensures ParseRoot(ItemTokens(item) + rest, root) ==
            ParseRoot(if item.ExternItem? then rest[1..] else rest, With(root, item))
  {
    hide ParseRoot, FunctionTokens, PrototypeTokens, GlobalTokens, AgreeGlobal, WritableFunction, WritablePrototype;
    match item {
      case StringItem(g) => ParseStringBack(g, rest, root);
      case ExternItem(p) =>
        assert rest == [BREAK] + rest[1..];
        ParseExternBack(p, rest[1..], root);
      case FunctionItem(f, labelled) => ParseDefinitionBack(f, labelled, rest, root);
    }
  }

  lemma SkippedRoot(rest: seq<Token>, root: Root)
    requires rest != [] && rest[0].kind != BreakLine
    ensures ParseRoot([BREAK] + rest, root) == ParseRoot(rest, root)
  {
    hide ParseGlobalString, ParseFunction, ParsePrototype;
    SkipOneBreak(rest);
    assert SkipBreaks(rest) == rest;
  }

  lemma WithFirst(root: Root, parts: seq<Part>)
    requires parts != []
    ensures With(root, parts[0].item).globals + StringsOf(parts[1..]) == root.globals + StringsOf(parts)
    ensures With(root, parts[0].item).externs + ExternsOf(parts[1..]) == root.externs + ExternsOf(parts)
    ensures With(root, parts[0].item).functions + FunctionsOf(parts[1..]) == root.functions + FunctionsOf(parts)
  {
    var item := parts[0].item;
    Associates(root.globals, if item.StringItem? then [item.g] else [], StringsOf(parts[1..]));
    Associates(root.externs, if item.ExternItem? then [item.p] else [], ExternsOf(parts[1..]));
    Associates(root.functions, if item.FunctionItem? then [item.f] else [], FunctionsOf(parts[1..]));
    assert root.globals + [] == root.globals && root.externs + [] == root.externs &&
           root.functions + [] == root.functions;
  }

  lemma SourceStart(parts: seq<Part>)
    requires WritableParts(parts) && parts != []
    ensures SourceTokens(parts) != [] && SourceTokens(parts)[0].kind == Identifier
  {
    hide ItemTokens, ParseRoot, WritableItem;
    ParseItemBack(parts[0].item, [BREAK], Root([], [], []));
  }

  /** The root with all items of some parts. */
  function WithAll(root: Root, parts: seq<Part>): Root {
    Root(root.globals + StringsOf(parts), root.externs + ExternsOf(parts), root.functions + FunctionsOf(parts))
  }

  /** An item is read, up to the next. */
  lemma ParsePartBack(parts: seq<Part>, root: Root)
    requires WritableParts(parts) && parts != []
    ensures WritableParts(parts[1..])
    ensures ParseRoot(SourceTokens(parts), root) == ParseRoot(SourceTokens(parts[1..]), With(root, parts[0].item))
  {
    hide ItemTokens, ParseRoot, WritableItem, With;
    var item := parts[0].item;
    if |parts| == 1 {
      var rest := if item.ExternItem? then [BREAK] else [];
      ParseItemBack(item, rest, root);
      assert parts[1..] == [];
      assert (if item.ExternItem? then rest[1..] else rest) == SourceTokens(parts[1..]);
    } else {
      var more := SourceTokens(parts[1..]);
      ParseItemBack(item, [BREAK] + more, root);
      assert SourceTokens(parts) == ItemTokens(item) + ([BREAK] + more) && ([BREAK] + more)[1..] == more;
      SourceStart(parts[1..]);
      SkippedRoot(more, With(root, item));
    }
  }

  lemma {:induction false} ParseSourceBack(parts: seq<Part>, root: Root)
    requires WritableParts(parts)
    ensures ParseRoot(SourceTokens(parts), root) == Ok(WithAll(root, parts))
    decreases |parts|
  {
    hide SourceTokens, ParseRoot, WritableItem, With;
    if parts == [] {
      NothingLeft(root);
    } else {
      ParsePartBack(parts, root);
      ParseSourceBack(parts[1..], With(root, parts[0].item));
      WithFirst(root, parts);
    }
  }

  lemma NothingLeft(root: Root)
    ensures ParseRoot(SourceTokens([]), root) == Ok(root) == Ok(WithAll(root, []))
  {
    assert root.globals + [] == root.globals && root.externs + [] == root.externs &&
           root.functions + [] == root.functions;
  }

  /** A text of global strings, extern functions and functions, in any order and with any number
      of empty lines between them, parses to what is written: every form that the parser knows,
      with its operands, labels and sizes, and everything in the order in which it stands. */
  lemma WrittenSourceParses(parts: seq<Part>)
    requires WritableParts(parts)
    ensures Parse(Tokens(TextOf(SourcePieces(parts)))) ==
            Ok(Root(StringsOf(parts), ExternsOf(parts), FunctionsOf(parts)))
  {
    hide ParseRoot, LexFrom, TextOf, SourceTokens, SourcePieces, WritableItem;
    WrittenTextLexes(parts);
    ParseSourceBack(parts, Root([], [], []));
    assert [] + StringsOf(parts) == StringsOf(parts) && [] + ExternsOf(parts) == ExternsOf(parts) &&
           [] + FunctionsOf(parts) == FunctionsOf(parts);
  }

  /** What the last part, and a part before others, adds. */
  lemma PartsAdd(part: Part, rest: seq<Part>)
    ensures StringsOf([part]) == (if part.item.StringItem? then [part.item.g] else [])
    ensures FunctionsOf([part]) == (if part.item.FunctionItem? then [part.item.f] else [])
    ensures ExternsOf([part]) == (if part.item.ExternItem? then [part.item.p] else [])
    ensures StringsOf([part] + rest) == StringsOf([part]) + StringsOf(rest)
    ensures FunctionsOf([part] + rest) == FunctionsOf([part]) + FunctionsOf(rest)
    ensures ExternsOf([part] + rest) == ExternsOf([part]) + ExternsOf(rest)
  {
    assert [part][1..] == [] && ([part] + rest)[1..] == rest && ([part] + rest)[0] == part;
  }

  // Printed roots are such texts

  /** The parts of a root of global strings and one function. */
  function PartsOf(root: Root): seq<Part>
    requires AgreeRoot(root)
  {
    StringParts(root.globals) + [Part(FunctionItem(root.functions[0], true), 0)]
  }

  function StringParts(gs: seq<GlobalString>): seq<Part> {
    if gs == [] then [] else [Part(StringItem(gs[0]), 0)] + StringParts(gs[1..])
  }

  lemma {:induction false} StringPartsAre(gs: seq<GlobalString>, last: Part)
    requires (forall i | 0 <= i < |gs| :: AgreeGlobal(gs[i])) && WritableItem(last.item) && last.item.FunctionItem?
    ensures WritableParts(StringParts(gs) + [last])
    ensures SourcePieces(StringParts(gs) + [last]) == GlobalsPieces(gs) + ItemPieces(last.item)
    decreases |gs|
  {
    hide AgreeGlobal, WritableFunction, ItemPieces;
    var parts := StringParts(gs) + [last];
    if gs == [] {
      assert parts == [last];
      assert ItemPieces(last.item) + [] == ItemPieces(last.item);
      assert GlobalsPieces(gs) + ItemPieces(last.item) == ItemPieces(last.item);
    } else {
      StringPartsAre(gs[1..], last);
      assert parts[0] == Part(StringItem(gs[0]), 0) && parts[1..] == StringParts(gs[1..]) + [last];
      StringLineIs(gs[0]);
      Associates(GlobalPieces(gs[0]), GlobalsPieces(gs[1..]), ItemPieces(last.item));
    }
  }

  lemma StringLineIs(g: GlobalString)
    requires AgreeGlobal(g)
    ensures ItemPieces(StringItem(g)) + ([Line] + EmptyLines(0)) == GlobalPieces(g)
  {
    assert [Line] + EmptyLines(0) == [Line];
  }

  lemma {:induction false} StringPartsHold(gs: seq<GlobalString>, last: Part)
    requires last.item.FunctionItem?
    ensures StringsOf(StringParts(gs) + [last]) == gs && ExternsOf(StringParts(gs) + [last]) == [] &&
            FunctionsOf(StringParts(gs) + [last]) == [last.item.f]
    decreases |gs|
  {
    var parts := StringParts(gs) + [last];
    if gs == [] {
      assert parts == [last] && parts[1..] == [];
    } else {
      StringPartsHold(gs[1..], last);
      assert parts[0] == Part(StringItem(gs[0]), 0) && parts[1..] == StringParts(gs[1..]) + [last];
      assert [gs[0]] + gs[1..] == gs;
    }
  }

  /** Parsing undoes emitting: for global strings followed by one function with no empty
      block, over the forms on which printer and parser agree, the printed text lexes
      and parses to the same root. */
  lemma ParsingUndoesEmitting(root: Root)
    requires AgreeRoot(root)
    ensures Parse(Tokens(TextOf(RootPieces(root)))) == Ok(root)
  {
    hide Parse, WritableFunction, AgreeGlobal, TextOf, Tokens, SourcePieces, RootPieces, StringParts, StringsOf,
         ExternsOf, FunctionsOf, FunctionPieces, GlobalsPieces, AgreeBlocks;
    var f := root.functions[0];
    StringPartsAre(root.globals, Part(FunctionItem(f, true), 0));
    StringPartsHold(root.globals, Part(FunctionItem(f, true), 0));
    PrintedFunctionIs(f);
    PrintedRootIs(root);
    WrittenSourceParses(PartsOf(root));
    assert root.functions == [f];
  }

  lemma PrintedRootIs(root: Root)
    requires root.externs == [] && |root.functions| == 1
    ensures RootPieces(root) == GlobalsPieces(root.globals) + FunctionPieces(root.functions[0])
  {
    hide GlobalsPieces, FunctionPieces;
    var f := root.functions[0];
    assert root.functions[1..] == [];
    assert FunctionsPieces(root.functions) == FunctionPieces(f) + [];
    assert FunctionPieces(f) + [] == FunctionPieces(f);
    assert GlobalsPieces(root.globals) + [] == GlobalsPieces(root.globals);
  }

  lemma PrintedFunctionIs(f: Function)
    requires AgreeFunction(f)
    ensures FunctionPieces(f) == WrittenPieces(f, true)
  {
    hide WrittenBlocks, BlocksPieces;
    BlocksPrintAsWritten(f.blocks);
  }
}
