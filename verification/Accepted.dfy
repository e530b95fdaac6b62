/** What any text that the parser accepts looks like
    (src/ir/input/parser.cpp, src/ir/input/instruction_parsing.cpp). */
module Accepted {
  import opened Wrappers
  import opened Ir
  import opened Lexer
  import opened Parser

  /** Some tokens were read, and the others are left. */
  ghost predicate Read(ts: seq<Token>, left: seq<Token>, n: nat) {
    n <= |ts| && left == ts[n..]
  }

  lemma {:induction false} BreaksRead(ts: seq<Token>) returns (n: nat)
    ensures Read(ts, SkipBreaks(ts), n) && forall i | 0 <= i < n :: ts[i].kind == BreakLine
  {
    if ts != [] && ts[0].kind == BreakLine {
      var k := BreaksRead(ts[1..]);
      n := k + 1;
    } else {
      n := 0;
    }
  }

  lemma ReadThen(ts: seq<Token>, mid: seq<Token>, left: seq<Token>, m: nat, n: nat)
    requires Read(ts, mid, m) && Read(mid, left, n)
    ensures Read(ts, left, m + n)
  {
  }

  lemma ValueReads(ts: seq<Token>) returns (n: nat)
    requires ParseValue(ts).Ok?
    ensures n > 0 && Read(ts, ParseValue(ts).value.1, n)
  {
    var m := if SizeNamed(ts[0].value).Some? then 1 else 0;
    n := m + if ts[m].value == "%" then 2 else 1;
  }

  lemma {:induction false} ValuesRead(ts: seq<Token>) returns (n: nat)
    requires ParseValues(ts).Ok?
    ensures n > 0 && Read(ts, ParseValues(ts).value.1, n)
    decreases |ts|
  {
    hide ParseValue;
    n := ValueReads(ts);
    var first := ParseValue(ts).value;
    if first.1[0].value == "," {
      var k := ValuesRead(first.1[1..]);
      ReadThen(ts, first.1[1..], ParseValues(ts).value.1, n + 1, k);
      n := n + 1 + k;
    }
  }

  lemma HeadReads(name: string, ts: seq<Token>) returns (n: nat)
    requires ParseHead(name, ts).Ok?
    ensures Read(ts, ParseHead(name, ts).value.1, n)
  {
    hide SizeNamed, Stoi, IcmpNamed;
    n := |ts| - |ParseHead(name, ts).value.1|;
  }

  lemma UnassignedReads(ts: seq<Token>) returns (n: nat)
    requires ParseUnassigned(ts).Ok?
    ensures n > 0 && Read(ts, ParseUnassigned(ts).value.1, n)
  {
    hide ParseHead, ParseValues, SizeNamed, Stoi;
    if SizeNamed(ts[0].value).Some? {
      n := 2;
    } else {
      var head := ParseHead(ts[0].value, ts[1..]).value;
      var h := HeadReads(ts[0].value, ts[1..]);
      ReadThen(ts, ts[1..], head.1, 1, h);
      n := 1 + h;
      if head.1[0].kind != BreakLine {
        var k := ValuesRead(head.1);
        ReadThen(ts, head.1, ParseUnassigned(ts).value.1, n, k);
        n := n + k;
      }
    }
  }

  lemma InstructionReads(ts: seq<Token>) returns (n: nat)
    requires ParseInstruction(ts).Ok?
    ensures n > 0 && Read(ts, ParseInstruction(ts).value.1, n)
  {
    hide ParseUnassigned;
    if ts[0].value == "%" {
      var k := UnassignedReads(ts[3..]);
      ReadThen(ts, ts[3..], ParseInstruction(ts).value.1, 3, k);
      n := 3 + k;
    } else {
      n := UnassignedReads(ts);
    }
  }

  /** The last token read is end. */
  ghost predicate EndsAt(ts: seq<Token>, left: seq<Token>, n: nat) {
    n > 0 && Read(ts, left, n) && ts[n - 1].value == "end"
  }

  lemma EndsThen(ts: seq<Token>, mid: seq<Token>, left: seq<Token>, m: nat, n: nat)
    requires Read(ts, mid, m) && EndsAt(mid, left, n)
    ensures EndsAt(ts, left, m + n)
  {
  }

  lemma LabelReads(ts: seq<Token>)
    requires ParseLabel(ts).Ok?
    ensures Read(ts, ParseLabel(ts).value.1, 4)
  {
  }

  /** The lines of a function end with end, and the first of them is a label where the function
      does not start with a block. */
  lemma {:induction false} BodyEnds(ts: seq<Token>, blocks: seq<Block>) returns (n: nat)
    requires ParseBody(ts, blocks).Ok?
    ensures EndsAt(ts, ParseBody(ts, blocks).value.1, n)
    ensures blocks == [] ==> ts[0].value == "end" || ts[0].value == "."
    decreases |ts|
  {
    hide ParseInstruction, ParseLabel, Read, EndsAt, WithInst;
    var left := ParseBody(ts, blocks).value.1;
    if ts[0].value == "end" {
      n := 1;
      EndItself(ts);
    } else if ts[0].value == "." {
      var named := ParseLabel(ts).value;
      LabelReads(ts);
      var k := BodyEnds(named.1, blocks + [Block(named.0, [])]);
      EndsThen(ts, named.1, left, 4, k);
      n := 4 + k;
    } else {
      var inst := ParseInstruction(ts).value;
      var m := InstructionReads(ts);
      var b := BreaksRead(inst.1);
      var rest := SkipBreaks(inst.1);
      ReadThen(ts, inst.1, rest, m, b);
      var k := BodyEnds(rest, WithInst(blocks, inst.0));
      EndsThen(ts, rest, left, m + b, k);
      n := m + b + k;
    }
  }

  lemma EndItself(ts: seq<Token>)
    requires ts != [] && ts[0].value == "end"
    ensures EndsAt(ts, ts[1..], 1)
  {
  }

  /** A prototype is fn, a size or none, a name, and parameters in parentheses up to the end of the
      line. */
  lemma PrototypeReads(ts: seq<Token>)
    requires ParsePrototype(ts).Ok?
    ensures |ts| > 1 && ts[0].value == "fn"
    ensures var p := ParsePrototype(ts).value.0;
            var n := if SizeNamed(ts[1].value).Some? then 2 else 1;
            p.returnType == (if n == 2 then SizeNamed(ts[1].value).value else I32) &&
            n + 1 < |ts| && ts[n].kind == Identifier && p.name == ts[n].value && ts[n + 1].value == "("
  {
    hide ParseParams, SizeNamed;
  }

  /** Every item of a text starts with one of three words, behind any number of line ends. */
  lemma RootStarts(ts: seq<Token>, root: Root)
    requires ParseRoot(ts, root).Ok? && ts != []
    ensures SkipBreaks(ts) != [] && SkipBreaks(ts)[0].kind == Identifier
    ensures SkipBreaks(ts)[0].value == "global_string" || SkipBreaks(ts)[0].value == "define" ||
            SkipBreaks(ts)[0].value == "extern"
  {
    hide ParseGlobalString, ParseFunction, ParsePrototype;
  }
}
