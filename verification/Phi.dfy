/** Phi lowering: edges into the phi block are split so that each predecessor leaves its
    operand in the phi's storage (src/backend/codegen/instructions.cpp). */
module Phi {
  import opened Wrappers
  import opened Ir
  import opened Machine
  import opened Storage
  import opened Text
  import Departures

  // The pass over the blocks laid out so far

  /** Name of the temporary block for the conditional edges of a predecessor. */
  function TempLabel(branch: nat, operand: Name): Name {
    "__" + Decimal(branch) + "_phi" + operand
  }

  /** A predecessor's nodes with the move put before jumps to the phi block, and with
      conditional jumps to it redirected. */
  function SplitEdges(nodes: seq<Node>, phi: Name, temp: Name, move: Node): seq<Node> {
    if nodes == [] then [] else SplitFirst(nodes[0], phi, temp, move) + SplitEdges(nodes[1..], phi, temp, move)
  }

  function SplitFirst(node: Node, phi: Name, temp: Name, move: Node): seq<Node> {
    if node == NJmp(phi) then [move, NJmp(phi)]
    else if node.NCondJmp? && node.target == phi then [NCondJmp(node.cond, temp)]
    else [node]
  }

  function CondEdges(nodes: seq<Node>, phi: Name): nat {
    if nodes == [] then 0
    else (if nodes[0].NCondJmp? && nodes[0].target == phi then 1 else 0) + CondEdges(nodes[1..], phi)
  }

  function TempBlock(phi: Name, temp: Name, move: Node): Label {
    Label(temp, [move, NJmp(phi)])
  }

  function TempBlocks(phi: Name, temp: Name, move: Node, n: nat): seq<Label> {
    if n == 0 then [] else TempBlocks(phi, temp, move, n - 1) + [TempBlock(phi, temp, move)]
  }

  /** One operand: its predecessor block is rewritten. */
  function LowerEdge(blocks: seq<Label>, phi: Name, pred: Name, operand: Name, move: Node): Result<seq<Label>> {
    match FindLabel(blocks, pred)
    case None => Err(Rejected)
    case Some(b) =>
      var nodes := blocks[b].nodes;
      if nodes == [] then Ok(blocks[b := Label(blocks[b].name, [move])])
      else
        var temp := TempLabel(b, operand);
        Ok(blocks[b := Label(blocks[b].name, SplitEdges(nodes, phi, temp, move))] +
           TempBlocks(phi, temp, move, CondEdges(nodes, phi)))
  }

  /** The first n operands in order. */
  function LowerEdges(blocks: seq<Label>, phi: Name, preds: seq<Name>, operand: Name, moves: seq<Node>,
                      n: nat): Result<seq<Label>>
    requires n <= |preds| == |moves|
  {
    if n == 0 then Ok(blocks)
    else
      var before :- LowerEdges(blocks, phi, preds, operand, moves, n - 1);
      LowerEdge(before, phi, preds[n - 1], operand, moves[n - 1])
  }

  lemma {:induction false} SplitAppend(xs: seq<Node>, ys: seq<Node>, phi: Name, temp: Name, move: Node)
    ensures SplitEdges(xs + ys, phi, temp, move) == SplitEdges(xs, phi, temp, move) + SplitEdges(ys, phi, temp, move)
    ensures CondEdges(xs + ys, phi) == CondEdges(xs, phi) + CondEdges(ys, phi)
  {
    if xs == [] {
      assert xs + ys == ys;
    } else {
      assert (xs + ys)[1..] == xs[1..] + ys && (xs + ys)[0] == xs[0];
      SplitAppend(xs[1..], ys, phi, temp, move);
      var first := SplitFirst(xs[0], phi, temp, move);
      assert first + (SplitEdges(xs[1..], phi, temp, move) + SplitEdges(ys, phi, temp, move)) ==
             (first + SplitEdges(xs[1..], phi, temp, move)) + SplitEdges(ys, phi, temp, move);
    }
  }

  lemma SplitOne(node: Node, phi: Name, temp: Name, move: Node)
    ensures SplitEdges([node], phi, temp, move) ==
            if node == NJmp(phi) then [move, NJmp(phi)]
            else if node.NCondJmp? && node.target == phi then [NCondJmp(node.cond, temp)]
            else [node]
    ensures CondEdges([node], phi) == if node.NCondJmp? && node.target == phi then 1 else 0
  {
    assert [node][1..] == [];
  }

  lemma SplitNothing(phi: Name, temp: Name, move: Node)
    ensures SplitEdges([], phi, temp, move) == [] && TempBlocks(phi, temp, move, CondEdges([], phi)) == []
  {
  }

  lemma SplitStep(nodes: seq<Node>, d: nat, phi: Name, temp: Name, move: Node)
    requires d < |nodes|
    ensures SplitEdges(nodes[..d + 1], phi, temp, move) ==
            SplitEdges(nodes[..d], phi, temp, move) +
            (if nodes[d] == NJmp(phi) then [move, NJmp(phi)]
             else if nodes[d].NCondJmp? && nodes[d].target == phi then [NCondJmp(nodes[d].cond, temp)]
             else [nodes[d]])
    ensures TempBlocks(phi, temp, move, CondEdges(nodes[..d + 1], phi)) ==
            TempBlocks(phi, temp, move, CondEdges(nodes[..d], phi)) +
            (if nodes[d].NCondJmp? && nodes[d].target == phi then [TempBlock(phi, temp, move)] else [])
  {
    hide SplitEdges, CondEdges;
    assert nodes[..d + 1] == nodes[..d] + [nodes[d]];
    SplitAppend(nodes[..d], [nodes[d]], phi, temp, move);
    SplitOne(nodes[d], phi, temp, move);
  }

  /** The blocks a function context has laid out, and the phi's pass over them. */
  class AsmBlocks {
    var blocks: seq<Label>

    constructor (blocks: seq<Label>)
      ensures this.blocks == blocks
    {
      this.blocks := blocks;
    }

    /** The inner loop: node by node, inserting and redirecting in place. */
    method SplitBlock(b: nat, phi: Name, operand: Name, move: Node)
      requires b < |blocks| && blocks[b].nodes != []
      modifies this
      ensures var was := old(blocks[b].nodes);
              var temp := TempLabel(b, operand);
              blocks == old(blocks)[b := Label(old(blocks)[b].name, SplitEdges(was, phi, temp, move))] +
                        TempBlocks(phi, temp, move, CondEdges(was, phi))
    {
      hide SplitEdges, CondEdges, TempBlocks, TempLabel;
      SplitNothing(phi, TempLabel(b, operand), move);
      ghost var start := blocks;
      ghost var was := blocks[b].nodes;
      ghost var done := 0;
      var temp := TempLabel(b, operand);
      var nodes := blocks[b].nodes;
      var i := 0;
      ghost var temps: seq<Label> := [];
      while i < |nodes|
        invariant done <= |was| && i <= |nodes| && |nodes| - i == |was| - done
        invariant was[..0] == [] && nodes[i..] == was[done..] && nodes[..i] == SplitEdges(was[..done], phi, temp, move)
        invariant temps == TempBlocks(phi, temp, move, CondEdges(was[..done], phi))
        invariant |start| > b && blocks == start + temps
        decreases |nodes| - i
      {
        var node := nodes[i];
        assert was[done] == nodes[i..][0] && nodes[i..][1..] == nodes[i + 1..] && was[done..][1..] == was[done + 1..];
        SplitStep(was, done, phi, temp, move);
        ghost var next := nodes[i + 1..];
        ghost var front := nodes[..i];
        if node == NJmp(phi) {
          nodes := nodes[..i] + [move] + nodes[i..];
          assert nodes == front + [move, NJmp(phi)] + next;
          i := i + 1;
        } else if node.NCondJmp? && node.target == phi {
          nodes := nodes[i := NCondJmp(node.cond, temp)];
          blocks := blocks + [TempBlock(phi, temp, move)];
          temps := temps + [TempBlock(phi, temp, move)];
        }
        i := i + 1;
        assert nodes[i..] == next;
        done := done + 1;
      }
      assert was[..done] == was && nodes[..i] == nodes;
      blocks := blocks[b := Label(blocks[b].name, nodes)];
    }

    /** The outer loop. It stops at a predecessor that no block is named after. */
    method LowerPhi(phi: Name, preds: seq<Name>, operand: Name, moves: seq<Node>) returns (ok: bool)
      requires |preds| == |moves|
      modifies this
      ensures ok <==> LowerEdges(old(blocks), phi, preds, operand, moves, |preds|).Ok?
      ensures ok ==> LowerEdges(old(blocks), phi, preds, operand, moves, |preds|) == Ok(blocks)
    {
      hide SplitEdges, TempLabel, TempBlocks, CondEdges, FindLabel;
      ghost var start := blocks;
      for k := 0 to |preds|
        invariant LowerEdges(start, phi, preds, operand, moves, k) == Ok(blocks)
      {
        var found := FindLabel(blocks, preds[k]);
        if found.None? {
          FailureStays(start, phi, preds, operand, moves, k + 1, |preds|);
          return false;
        }
        var b := found.value;
        if blocks[b].nodes == [] {
          blocks := blocks[b := Label(blocks[b].name, [moves[k]])];
        } else {
          SplitBlock(b, phi, operand, moves[k]);
        }
      }
      return true;
    }
  }

  lemma {:induction false} FailureStays(blocks: seq<Label>, phi: Name, preds: seq<Name>, operand: Name,
                                        moves: seq<Node>, k: nat, n: nat)
    requires k <= n <= |preds| == |moves| && LowerEdges(blocks, phi, preds, operand, moves, k).Err?
    ensures LowerEdges(blocks, phi, preds, operand, moves, n).Err?
    decreases n
  {
    hide LowerEdge;
    if k < n {
      FailureStays(blocks, phi, preds, operand, moves, k, n - 1);
    }
  }

  predicate JumpsTo(node: Node, l: Name) {
    node == NJmp(l) || (node.NCondJmp? && node.target == l)
  }

  /** Only explicit jumps are edges: a predecessor is left as it is exactly when none of
      its nodes jumps to the phi block, even if it falls through into it. */
  lemma {:induction false} OnlyJumpsAreEdges(nodes: seq<Node>, phi: Name, temp: Name, move: Node)
    requires temp != phi && move.NMov?
    ensures SplitEdges(nodes, phi, temp, move) == nodes <==> forall i | 0 <= i < |nodes| :: !JumpsTo(nodes[i], phi)
    ensures |SplitEdges(nodes, phi, temp, move)| >= |nodes|
  {
    if nodes != [] {
      OnlyJumpsAreEdges(nodes[1..], phi, temp, move);
      var split := SplitEdges(nodes, phi, temp, move);
      if JumpsTo(nodes[0], phi) {
        assert split[0] != nodes[0];
      } else {
        assert split[1..] == SplitEdges(nodes[1..], phi, temp, move);
        assert nodes == [nodes[0]] + nodes[1..];
        assert forall i | 0 < i < |nodes| :: nodes[i] == nodes[1..][i - 1];
      }
    }
  }

  // Finding labels

  lemma {:induction false} FindAppend(xs: seq<Label>, ys: seq<Label>, l: Name)
    ensures FindLabel(xs + ys, l) ==
            match FindLabel(xs, l)
            case Some(i) => Some(i)
            case None =>
              match FindLabel(ys, l)
              case Some(i) => Some(|xs| + i)
              case None => None
  {
    if xs == [] {
      assert xs + ys == ys;
    } else {
      assert (xs + ys)[1..] == xs[1..] + ys && (xs + ys)[0] == xs[0];
      FindAppend(xs[1..], ys, l);
    }
  }

  lemma {:induction false} FindByName(xs: seq<Label>, ys: seq<Label>, l: Name)
    requires |xs| == |ys| && forall i | 0 <= i < |xs| :: xs[i].name == ys[i].name
    ensures FindLabel(xs, l) == FindLabel(ys, l)
  {
    if xs != [] && xs[0].name != l {
      FindByName(xs[1..], ys[1..], l);
    }
  }

  lemma {:induction false} FindNone(xs: seq<Label>, l: Name)
    requires forall i | 0 <= i < |xs| :: xs[i].name != l
    ensures FindLabel(xs, l) == None
  {
    if xs != [] {
      assert forall i | 0 <= i < |xs| - 1 :: xs[1..][i] == xs[i + 1];
      FindNone(xs[1..], l);
    }
  }

  lemma DigitsEnd(a: string, b: string, x: string, y: string)
    requires (forall c | c in a :: IsDigit(c)) && (forall c | c in b :: IsDigit(c))
    requires a + "_" + x == b + "_" + y
    ensures a == b && x == y
  {
    var s := a + "_" + x;
    assert s[|a|] == '_' && s[|b|] == '_';
    forall i | 0 <= i < |a| ensures s[i] != '_' {
      assert s[i] == a[i] && a[i] in a;
    }
    forall i | 0 <= i < |b| ensures s[i] != '_' {
      assert s[i] == b[i] && b[i] in b;
    }
    assert a == s[..|a|] && b == s[..|b|];
    assert x == s[|a| + 1..] && y == s[|b| + 1..];
  }

  /** Temporary names tell both predecessors and operands apart. */
  lemma TempLabelsDiffer(a: nat, b: nat, operand: Name, other: Name)
    ensures TempLabel(a, operand) == TempLabel(b, other) <==> a == b && operand == other
  {
    hide TempLabel, Decimal;
    if TempLabel(a, operand) == TempLabel(b, other) {
      LabelIs(a, operand);
      LabelIs(b, other);
      DigitsEnd(Decimal(a), Decimal(b), "phi" + operand, "phi" + other);
      NumeralOfDecimal(a);
      NumeralOfDecimal(b);
      assert operand == ("phi" + operand)[3..] && other == ("phi" + other)[3..];
    }
  }

  lemma LabelIs(a: nat, operand: Name)
    ensures |TempLabel(a, operand)| >= 2
    ensures TempLabel(a, operand)[2..] == Decimal(a) + "_" + ("phi" + operand)
  {
    hide Decimal;
    assert TempLabel(a, operand) == "__" + (Decimal(a) + "_" + ("phi" + operand));
  }

  // What the pass makes of the blocks

  /** The phi and its predecessors: operand k comes from block at[k]. */
  datatype Edges = Edges(phi: Name, preds: seq<Name>, operand: Name, moves: seq<Node>, at: seq<nat>)

  /** The phi block is the last one so far. Its predecessors are distinct blocks before it, and
      temporary names are unused. */
  ghost predicate Splittable(blocks: seq<Label>, e: Edges) {
    blocks != [] && FindLabel(blocks, e.phi) == Some(|blocks| - 1) && |e.preds| == |e.moves| == |e.at| &&
    (forall k | 0 <= k < |e.at| ::
       e.at[k] < |blocks| - 1 && FindLabel(blocks, e.preds[k]) == Some(e.at[k]) && e.moves[k].NMov?) &&
    (forall j, k | 0 <= j < k < |e.at| :: e.at[j] != e.at[k]) &&
    (forall b, l | 0 <= b < |blocks| && 0 <= l < |blocks| :: blocks[l].name != TempLabel(b, e.operand))
  }

  /** The operand paired with block b among the first n. */
  function EdgeOf(at: seq<nat>, b: nat, n: nat): (k: Option<nat>)
    requires n <= |at|
    ensures k.Some? ==> k.value < n && at[k.value] == b
    ensures k.None? ==> forall j | 0 <= j < n :: at[j] != b
  {
    if n == 0 then None else if at[n - 1] == b then Some(n - 1) else EdgeOf(at, b, n - 1)
  }

  /** A predecessor's nodes after the pass. */
  function EdgeNodes(nodes: seq<Node>, phi: Name, temp: Name, move: Node): seq<Node> {
    if nodes == [] then [move] else SplitEdges(nodes, phi, temp, move)
  }

  function BlockAfter(block: Label, b: nat, e: Edges, n: nat): Label
    requires n <= |e.at| == |e.moves|
  {
    match EdgeOf(e.at, b, n)
    case None => block
    case Some(k) => Label(block.name, EdgeNodes(block.nodes, e.phi, TempLabel(b, e.operand), e.moves[k]))
  }

  function TempsAfter(blocks: seq<Label>, e: Edges, n: nat): seq<Label>
    requires n <= |e.at| == |e.moves| && forall k | 0 <= k < n :: e.at[k] < |blocks|
  {
    if n == 0 then []
    else
      TempsAfter(blocks, e, n - 1) +
      TempBlocks(e.phi, TempLabel(e.at[n - 1], e.operand), e.moves[n - 1], CondEdges(blocks[e.at[n - 1]].nodes, e.phi))
  }

  ghost predicate Shape(blocks: seq<Label>, e: Edges, n: nat, after: seq<Label>)
    requires Splittable(blocks, e) && n <= |e.at|
  {
    |blocks| <= |after| && (forall b | 0 <= b < |blocks| :: after[b] == BlockAfter(blocks[b], b, e, n)) &&
    after[|blocks|..] == TempsAfter(blocks, e, n)
  }

  lemma {:induction false} EdgesShape(blocks: seq<Label>, e: Edges, n: nat)
    requires Splittable(blocks, e) && n <= |e.at|
    ensures LowerEdges(blocks, e.phi, e.preds, e.operand, e.moves, n).Ok?
    ensures Shape(blocks, e, n, LowerEdges(blocks, e.phi, e.preds, e.operand, e.moves, n).value)
    decreases n
  {
    hide SplitEdges, TempBlocks, TempLabel, CondEdges, Shape, LowerEdge, FindLabel;
    if n > 0 {
      EdgesShape(blocks, e, n - 1);
      ShapeStep(blocks, e, n, LowerEdges(blocks, e.phi, e.preds, e.operand, e.moves, n - 1).value);
    } else {
      assert blocks[|blocks|..] == [];
      assert Shape(blocks, e, 0, blocks) by { ShapeStart(blocks, e); }
    }
  }

  lemma ShapeStart(blocks: seq<Label>, e: Edges)
    requires Splittable(blocks, e)
    ensures Shape(blocks, e, 0, blocks)
  {
    hide SplitEdges, TempLabel, CondEdges;
  }

  lemma ShapeFinds(blocks: seq<Label>, e: Edges, n: nat, after: seq<Label>, l: Name)
    requires Splittable(blocks, e) && n <= |e.at| && Shape(blocks, e, n, after) && FindLabel(blocks, l).Some?
    ensures FindLabel(after, l) == FindLabel(blocks, l)
  {
    hide SplitEdges, TempBlocks, TempLabel, CondEdges;
    var body := after[..|blocks|];
    assert after == body + after[|blocks|..];
    FindByName(body, blocks, l);
    FindAppend(body, after[|blocks|..], l);
  }

  lemma EdgeLowers(blocks: seq<Label>, phi: Name, pred: Name, operand: Name, move: Node, b: nat)
    requires FindLabel(blocks, pred) == Some(b)
    ensures LowerEdge(blocks, phi, pred, operand, move) ==
              Ok(blocks[b := Label(blocks[b].name, EdgeNodes(blocks[b].nodes, phi, TempLabel(b, operand), move))] +
                 TempBlocks(phi, TempLabel(b, operand), move, CondEdges(blocks[b].nodes, phi)))
  {
    hide TempLabel, FindLabel;
    var plain := blocks[b := Label(blocks[b].name, [move])];
    assert plain + [] == plain;
  }

  lemma ShapeStep(blocks: seq<Label>, e: Edges, n: nat, before: seq<Label>)
    requires Splittable(blocks, e) && 0 < n <= |e.at| && Shape(blocks, e, n - 1, before)
    ensures LowerEdge(before, e.phi, e.preds[n - 1], e.operand, e.moves[n - 1]).Ok?
    ensures Shape(blocks, e, n, LowerEdge(before, e.phi, e.preds[n - 1], e.operand, e.moves[n - 1]).value)
  {
    hide EdgeNodes, TempBlocks, TempLabel, CondEdges, FindLabel, LowerEdge;
    ShapeFinds(blocks, e, n - 1, before, e.preds[n - 1]);
    var b := e.at[n - 1];
    assert before[b] == blocks[b];
    EdgeLowers(before, e.phi, e.preds[n - 1], e.operand, e.moves[n - 1], b);
    var temps := TempBlocks(e.phi, TempLabel(b, e.operand), e.moves[n - 1], CondEdges(blocks[b].nodes, e.phi));
    var after := LowerEdge(before, e.phi, e.preds[n - 1], e.operand, e.moves[n - 1]).value;
    assert after[|blocks|..] == before[|blocks|..] + temps;
    forall c | 0 <= c < |blocks| ensures after[c] == BlockAfter(blocks[c], c, e, n) {
      assert c != b ==> after[c] == before[c];
    }
  }

  lemma {:induction false} TempBlocksAre(phi: Name, temp: Name, move: Node, n: nat, l: Name)
    ensures |TempBlocks(phi, temp, move, n)| == n
    ensures l == temp && n > 0 ==>
              FindLabel(TempBlocks(phi, temp, move, n), l) == Some(0) &&
              TempBlocks(phi, temp, move, n)[0] == TempBlock(phi, temp, move)
    ensures l != temp ==> FindLabel(TempBlocks(phi, temp, move, n), l) == None
  {
    if n > 0 {
      TempBlocksAre(phi, temp, move, n - 1, l);
      FindAppend(TempBlocks(phi, temp, move, n - 1), [TempBlock(phi, temp, move)], l);
      assert [TempBlock(phi, temp, move)][1..] == [];
    }
  }

  /** Among the temporary blocks, the one of predecessor k holds its move. */
  lemma {:induction false} TempFound(blocks: seq<Label>, e: Edges, n: nat, b: nat)
    requires Splittable(blocks, e) && n <= |e.at|
    ensures var temps, l := TempsAfter(blocks, e, n), TempLabel(b, e.operand);
            match EdgeOf(e.at, b, n)
            case None => FindLabel(temps, l) == None
            case Some(k) =>
              if CondEdges(blocks[b].nodes, e.phi) == 0 then FindLabel(temps, l) == None
              else FindLabel(temps, l).Some? && temps[FindLabel(temps, l).value] == TempBlock(e.phi, l, e.moves[k])
    decreases n
  {
    hide TempLabel, CondEdges, TempBlocks, FindLabel;
    if n > 0 {
      TempFound(blocks, e, n - 1, b);
      var a := e.at[n - 1];
      var more := TempBlocks(e.phi, TempLabel(a, e.operand), e.moves[n - 1], CondEdges(blocks[a].nodes, e.phi));
      FindAppend(TempsAfter(blocks, e, n - 1), more, TempLabel(b, e.operand));
      if a != b {
        TempLabelsDiffer(a, b, e.operand, e.operand);
      }
      TempBlocksAre(e.phi, TempLabel(a, e.operand), e.moves[n - 1], CondEdges(blocks[a].nodes, e.phi),
                    TempLabel(b, e.operand));
    }
  }

  /** Labels that are no temporary's are found as before among the temporary blocks. */
  lemma {:induction false} OthersNotTemps(blocks: seq<Label>, e: Edges, n: nat, l: Name)
    requires Splittable(blocks, e) && n <= |e.at| && forall b | 0 <= b < |blocks| :: l != TempLabel(b, e.operand)
    ensures FindLabel(TempsAfter(blocks, e, n), l) == None
    decreases n
  {
    hide TempLabel, CondEdges, TempBlocks, FindLabel;
    if n > 0 {
      OthersNotTemps(blocks, e, n - 1, l);
      var a := e.at[n - 1];
      var count := CondEdges(blocks[a].nodes, e.phi);
      FindAppend(TempsAfter(blocks, e, n - 1), TempBlocks(e.phi, TempLabel(a, e.operand), e.moves[n - 1], count), l);
      TempBlocksAre(e.phi, TempLabel(a, e.operand), e.moves[n - 1], count, l);
    }
  }

  /** Each predecessor gains as many temporary blocks as it has conditional jumps to the
      phi block; a lowered branch has at most one. */
  lemma {:induction false} TempsCounted(blocks: seq<Label>, e: Edges, n: nat)
    requires Splittable(blocks, e) && n <= |e.at|
    requires forall k | 0 <= k < n :: CondEdges(blocks[e.at[k]].nodes, e.phi) <= 1
    ensures |TempsAfter(blocks, e, n)| <= n
    decreases n
  {
    hide TempLabel, CondEdges, TempBlocks, FindLabel;
    if n > 0 {
      TempsCounted(blocks, e, n - 1);
      TempBlocksAre(e.phi, TempLabel(e.at[n - 1], e.operand), e.moves[n - 1],
                    CondEdges(blocks[e.at[n - 1]].nodes, e.phi), "");
    }
  }

  // Runs, whatever nodes do to the data

  /** What a node that does not transfer control does, and when a condition holds. */
  type Exec<!S> = (Node, S) -> Option<S>
  type Cond<!S> = (IcmpType, S) -> bool

  /** How control leaves a block. */
  datatype Exit<S> = Jumps(target: Name, s: S) | Falls(s: S) | Returns(s: S) | Stuck

  function Leave<S>(exec: Exec<S>, cond: Cond<S>, nodes: seq<Node>, s: S): Exit<S> {
    if nodes == [] then Falls(s)
    else
      match nodes[0]
      case NRet => Returns(s)
      case NJmp(l) => Jumps(l, s)
      case NCondJmp(c, l) => if cond(c, s) then Jumps(l, s) else Leave(exec, cond, nodes[1..], s)
      case _ =>
        (match exec(nodes[0], s)
         case Some(s1) => Leave(exec, cond, nodes[1..], s1)
         case None => Stuck)
  }

  /** The block entered after block b, by a jump or by falling into it. */
  function Enter<S>(exec: Exec<S>, cond: Cond<S>, blocks: seq<Label>, b: nat, s: S): (r: Option<(nat, S)>)
    requires b < |blocks|
    ensures r.Some? ==> r.value.0 < |blocks|
  {
    match Leave(exec, cond, blocks[b].nodes, s)
    case Jumps(l, s1) =>
      (match FindLabel(blocks, l)
       case Some(t) => Some((t, s1))
       case None => None)
    case Falls(s1) => if b + 1 < |blocks| then Some((b + 1, s1)) else None
    case _ => None
  }

  /** The meaning of phi: control that enters the phi block from predecessor k executes move k. */
  function EnterPhi<S>(exec: Exec<S>, cond: Cond<S>, blocks: seq<Label>, e: Edges, phi: nat, b: nat,
                       s: S): (r: Option<(nat, S)>)
    requires b < |blocks| && |e.at| == |e.moves|
    ensures r.Some? ==> r.value.0 < |blocks|
  {
    match Enter(exec, cond, blocks, b, s)
    case Some((t, s1)) =>
      if t == phi && EdgeOf(e.at, b, |e.at|).Some? then
        match exec(e.moves[EdgeOf(e.at, b, |e.at|).value], s1)
        case Some(s2) => Some((t, s2))
        case None => None
      else Some((t, s1))
    case None => None
  }

  function PhiBlocks(blocks: seq<Label>, e: Edges): seq<Label>
    requires Splittable(blocks, e)
    ensures LowerEdges(blocks, e.phi, e.preds, e.operand, e.moves, |e.at|) == Ok(PhiBlocks(blocks, e))
    ensures Shape(blocks, e, |e.at|, PhiBlocks(blocks, e))
  {
    EdgesShape(blocks, e, |e.at|);
    LowerEdges(blocks, e.phi, e.preds, e.operand, e.moves, |e.at|).value
  }

  /** Where block b of the blocks and the rest is once temporaries are in between. */
  function Shift(blocks: seq<Label>, e: Edges, b: nat): nat
    requires Splittable(blocks, e)
  {
    if b < |blocks| then b else b - |blocks| + |PhiBlocks(blocks, e)|
  }

  /** The next block entered that is not a temporary one. */
  function Arrive<S>(exec: Exec<S>, cond: Cond<S>, blocks: seq<Label>, e: Edges, rest: seq<Label>, b: nat,
                     s: S): (r: Option<(nat, S)>)
    requires Splittable(blocks, e) && b < |PhiBlocks(blocks, e) + rest|
    ensures r.Some? ==> r.value.0 < |PhiBlocks(blocks, e) + rest|
  {
    assert |blocks| <= |PhiBlocks(blocks, e)|;
    var after := PhiBlocks(blocks, e) + rest;
    match Enter(exec, cond, after, b, s)
    case Some((t, s1)) =>
      if |blocks| <= t < |PhiBlocks(blocks, e)| then Enter(exec, cond, after, t, s1) else Some((t, s1))
    case None => None
  }

  /** Labels of later blocks are no temporaries'. */
  ghost predicate RestApart(blocks: seq<Label>, e: Edges, rest: seq<Label>) {
    forall b, l | 0 <= b < |blocks| && 0 <= l < |rest| :: rest[l].name != TempLabel(b, e.operand)
  }

  predicate Leaves(nodes: seq<Node>) {
    exists i | 0 <= i < |nodes| :: nodes[i].NJmp? || nodes[i].NRet?
  }

  /** No predecessor with nodes falls into the phi block, predecessors without nodes do, and the
      phi block does not fall into temporary ones. */
  ghost predicate EntersExplicitly(blocks: seq<Label>, e: Edges, rest: seq<Label>)
    requires Splittable(blocks, e)
  {
    (forall k | 0 <= k < |e.at| :: EdgeExplicit(blocks, e.at[k])) &&
    (rest != [] && |PhiBlocks(blocks, e)| > |blocks| ==> Leaves(blocks[|blocks| - 1].nodes))
  }

  predicate EdgeExplicit(blocks: seq<Label>, b: nat)
    requires b < |blocks|
  {
    if blocks[b].nodes == [] then b + 2 == |blocks| else b + 2 == |blocks| ==> Leaves(blocks[b].nodes)
  }

  /** A step from block b to the next, and its counterpart after the pass. */
  ghost predicate StepFaithful<S>(exec: Exec<S>, cond: Cond<S>, blocks: seq<Label>, e: Edges, rest: seq<Label>, b: nat,
                                  s: S)
    requires Splittable(blocks, e) && b < |blocks + rest|
  {
    var before, after := blocks + rest, PhiBlocks(blocks, e) + rest;
    var step := EnterPhi(exec, cond, before, e, |blocks| - 1, b, s);
    (step.Some? ==>
       Arrive(exec, cond, blocks, e, rest, Shift(blocks, e, b), s) ==
         Some((Shift(blocks, e, step.value.0), step.value.1))) &&
    (Leave(exec, cond, before[b].nodes, s).Returns? ==>
       Leave(exec, cond, after[Shift(blocks, e, b)].nodes, s) == Leave(exec, cond, before[b].nodes, s))
  }

  /** Phi lowering is faithful: whatever nodes do and whichever conditions hold, control goes
      from block to block as before, returns as before, and every entry to the phi block
      from predecessor k has executed move k. */
  ghost predicate Faithful<S(!new)>(blocks: seq<Label>, e: Edges, rest: seq<Label>)
    requires Splittable(blocks, e)
  {
    forall exec: Exec<S>, cond: Cond<S>, b: nat, s: S | b < |blocks + rest| ::
      StepFaithful(exec, cond, blocks, e, rest, b, s)
  }

  // It is

  function NodesAfter(e: Edges, nodes: seq<Node>, b: nat): seq<Node>
    requires |e.at| == |e.moves|
  {
    match EdgeOf(e.at, b, |e.at|)
    case None => nodes
    case Some(k) => EdgeNodes(nodes, e.phi, TempLabel(b, e.operand), e.moves[k])
  }

  /** The block at a place after the pass. */
  lemma ShiftedBlock(blocks: seq<Label>, e: Edges, rest: seq<Label>, b: nat)
    requires Splittable(blocks, e) && b < |blocks + rest|
    ensures var after := PhiBlocks(blocks, e) + rest;
            Shift(blocks, e, b) < |after| &&
            after[Shift(blocks, e, b)] == Label((blocks + rest)[b].name, NodesAfter(e, (blocks + rest)[b].nodes, b))
  {
    hide EdgeOf, LowerEdges, TempLabel, EdgeNodes;
    if b >= |blocks| {
      assert forall k | 0 <= k < |e.at| :: e.at[k] < |blocks|;
      assert EdgeOf(e.at, b, |e.at|) == None;
    }
  }

  /** A label keeps its block. */
  lemma LabelKept(blocks: seq<Label>, e: Edges, rest: seq<Label>, l: Name)
    requires Splittable(blocks, e) && RestApart(blocks, e, rest) && FindLabel(blocks + rest, l).Some?
    ensures FindLabel(PhiBlocks(blocks, e) + rest, l) == Some(Shift(blocks, e, FindLabel(blocks + rest, l).value))
  {
    hide LowerEdges, TempLabel, EdgeNodes, CondEdges, TempBlocks, TempsAfter, EdgeOf, FindLabel;
    var after, n := PhiBlocks(blocks, e), |blocks|;
    assert after == after[..n] + after[n..];
    FindByName(after[..n], blocks, l);
    FindAppend(after[..n], after[n..], l);
    FindAppend(after, rest, l);
    FindAppend(blocks, rest, l);
    if FindLabel(blocks, l).None? {
      var t := FindLabel(rest, l).value;
      assert rest[t].name == l;
      OthersNotTemps(blocks, e, |e.at|, l);
    }
  }

  /** The temporary label of a predecessor with a conditional edge leads to its move. */
  lemma TempKept(blocks: seq<Label>, e: Edges, rest: seq<Label>, k: nat)
    requires Splittable(blocks, e) && k < |e.at| && CondEdges(blocks[e.at[k]].nodes, e.phi) > 0
    ensures var after, l := PhiBlocks(blocks, e) + rest, TempLabel(e.at[k], e.operand);
            match FindLabel(after, l)
            case Some(t) => |blocks| <= t < |PhiBlocks(blocks, e)| && after[t] == TempBlock(e.phi, l, e.moves[k])
            case None => false
  {
    hide TempLabel, LowerEdges, CondEdges, FindLabel, EdgeNodes, TempBlocks;
    var after, n, l := PhiBlocks(blocks, e), |blocks|, TempLabel(e.at[k], e.operand);
    assert after == after[..n] + after[n..];
    FindNone(after[..n], l);
    TempFound(blocks, e, |e.at|, e.at[k]);
    FindAppend(after[..n], after[n..], l);
    FindAppend(after, rest, l);
  }

  lemma {:induction false} FallsMeans<S>(exec: Exec<S>, cond: Cond<S>, nodes: seq<Node>, s: S)
    requires Leave(exec, cond, nodes, s).Falls?
    ensures !Leaves(nodes)
  {
    if nodes != [] {
      var s1 := if nodes[0].NCondJmp? then s else exec(nodes[0], s).value;
      FallsMeans(exec, cond, nodes[1..], s1);
      assert forall i | 1 <= i < |nodes| :: nodes[i] == nodes[1..][i - 1];
    }
  }

  /** How control leaves a block whose edges are split. */
  lemma {:induction false} LeaveSplit<S>(exec: Exec<S>, cond: Cond<S>, nodes: seq<Node>, s: S, phi: Name, temp: Name,
                                         move: Node)
    requires move.NMov?
    ensures var was, now := Leave(exec, cond, nodes, s), Leave(exec, cond, SplitEdges(nodes, phi, temp, move), s);
            if was.Jumps? && was.target == phi then
              (CondEdges(nodes, phi) > 0 && now == Jumps(temp, was.s)) ||
              now == match exec(move, was.s) case Some(s1) => Jumps(phi, s1) case None => Stuck
            else now == was
  {
    if nodes != [] {
      var node, more := nodes[0], SplitEdges(nodes[1..], phi, temp, move);
      var first := SplitFirst(node, phi, temp, move);
      assert SplitEdges(nodes, phi, temp, move) == first + more;
      if node == NJmp(phi) {
        assert (first + more)[0] == move && (first + more)[1..][0] == node;
      } else {
        assert (first + more)[0] == first[0] && (first + more)[1..] == more;
        if !node.NRet? && !node.NJmp? {
          if node.NCondJmp? {
            LeaveSplit(exec, cond, nodes[1..], s, phi, temp, move);
          } else if exec(node, s).Some? {
            LeaveSplit(exec, cond, nodes[1..], exec(node, s).value, phi, temp, move);
          }
        }
      }
    }
  }

  lemma TempLeaves<S>(exec: Exec<S>, cond: Cond<S>, phi: Name, temp: Name, move: Node, s: S)
    requires move.NMov?
    ensures Leave(exec, cond, TempBlock(phi, temp, move).nodes, s) ==
            match exec(move, s) case Some(s1) => Jumps(phi, s1) case None => Stuck
  {
    assert [move, NJmp(phi)][1..] == [NJmp(phi)];
  }

  lemma MoveFalls<S>(exec: Exec<S>, cond: Cond<S>, move: Node, s: S)
    requires move.NMov?
    ensures Leave(exec, cond, [move], s) == match exec(move, s) case Some(s1) => Falls(s1) case None => Stuck
  {
    assert [move][1..] == [];
  }

  /** Falling goes to the same block as before, if temporaries are not in between. */
  lemma FallShifts(blocks: seq<Label>, e: Edges, b: nat)
    requires Splittable(blocks, e) && (b == |blocks| - 1 ==> |PhiBlocks(blocks, e)| == |blocks|)
    ensures Shift(blocks, e, b + 1) == Shift(blocks, e, b) + 1
  {
    hide LowerEdges, Shape;
  }

  /** Only the phi block is found by the phi's label. */
  lemma PhiFound(blocks: seq<Label>, e: Edges, rest: seq<Label>, l: Name)
    requires Splittable(blocks, e) && FindLabel(blocks + rest, l).Some?
    ensures FindLabel(blocks + rest, l).value == |blocks| - 1 <==> l == e.phi
  {
    hide TempLabel, FindLabel;
    FindAppend(blocks, rest, l);
    FindAppend(blocks, rest, e.phi);
  }

  lemma NotTemp(blocks: seq<Label>, e: Edges, t: nat)
    requires Splittable(blocks, e)
    ensures !(|blocks| <= Shift(blocks, e, t) < |PhiBlocks(blocks, e)|)
    ensures t < |blocks| ==> Shift(blocks, e, t) == t
  {
    hide LowerEdges, Shape;
  }

  /** A block that is no predecessor. */
  lemma OtherFaithful<S>(exec: Exec<S>, cond: Cond<S>, blocks: seq<Label>, e: Edges, rest: seq<Label>, b: nat, s: S)
    requires Splittable(blocks, e) && RestApart(blocks, e, rest) && EntersExplicitly(blocks, e, rest) &&
             b < |blocks + rest|
    requires EdgeOf(e.at, b, |e.at|) == None
    ensures StepFaithful(exec, cond, blocks, e, rest, b, s)
  {
    hide LowerEdges, TempLabel, EdgeNodes, Shape, EdgeOf, FindLabel, Leave, PhiBlocks, Shift, Leaves, EdgeExplicit;
    var before := blocks + rest;
    ShiftedBlock(blocks, e, rest, b);
    var exit := Leave(exec, cond, before[b].nodes, s);
    if exit.Jumps? && FindLabel(before, exit.target).Some? {
      LabelKept(blocks, e, rest, exit.target);
      NotTemp(blocks, e, FindLabel(before, exit.target).value);
    } else if exit.Falls? && b + 1 < |before| {
      FallsMeans(exec, cond, before[b].nodes, s);
      PhiGrows(blocks, e);
      FallShifts(blocks, e, b);
      NotTemp(blocks, e, b + 1);
      ShiftedBlock(blocks, e, rest, b + 1);
    }
  }

  lemma PhiGrows(blocks: seq<Label>, e: Edges)
    requires Splittable(blocks, e)
    ensures |PhiBlocks(blocks, e)| >= |blocks|
  {
    hide LowerEdges, TempLabel, FindLabel;
  }

  /** A predecessor without nodes. */
  lemma EmptyFaithful<S>(exec: Exec<S>, cond: Cond<S>, blocks: seq<Label>, e: Edges, rest: seq<Label>, k: nat, s: S)
    requires Splittable(blocks, e) && EntersExplicitly(blocks, e, rest) && k < |e.at| && blocks[e.at[k]].nodes == []
    requires EdgeOf(e.at, e.at[k], |e.at|) == Some(k)
    ensures StepFaithful(exec, cond, blocks, e, rest, e.at[k], s)
  {
    hide LowerEdges, TempLabel, Shape, EdgeOf, FindLabel, PhiBlocks, Shift, SplitEdges;
    var b := e.at[k];
    ShiftedBlock(blocks, e, rest, b);
    assert EdgeExplicit(blocks, b);
    MoveFalls(exec, cond, e.moves[k], s);
    FallShifts(blocks, e, b);
    NotTemp(blocks, e, b + 1);
    ShiftedBlock(blocks, e, rest, b + 1);
  }

  /** A predecessor's jump to the phi block. */
  lemma EdgeFaithful<S>(exec: Exec<S>, cond: Cond<S>, blocks: seq<Label>, e: Edges, rest: seq<Label>, k: nat, s: S,
                        s1: S)
    requires Splittable(blocks, e) && RestApart(blocks, e, rest) && k < |e.at| && blocks[e.at[k]].nodes != []
    requires EdgeOf(e.at, e.at[k], |e.at|) == Some(k)
    requires Leave(exec, cond, blocks[e.at[k]].nodes, s) == Jumps(e.phi, s1)
    ensures var b, phi := e.at[k], |blocks| - 1;
            Shift(blocks, e, b) < |PhiBlocks(blocks, e) + rest| &&
            Arrive(exec, cond, blocks, e, rest, Shift(blocks, e, b), s) ==
              match exec(e.moves[k], s1) case Some(s2) => Some((phi, s2)) case None => None
  {
    hide LowerEdges, TempLabel, Shape, EdgeOf, FindLabel, Leave, PhiBlocks, Shift, Leaves, CondEdges, SplitEdges;
    var before, b := blocks + rest, e.at[k];
    var temp, move := TempLabel(b, e.operand), e.moves[k];
    ShiftedBlock(blocks, e, rest, b);
    PhiStays(blocks, e, rest);
    LeaveSplit(exec, cond, blocks[b].nodes, s, e.phi, temp, move);
    if Leave(exec, cond, SplitEdges(blocks[b].nodes, e.phi, temp, move), s) == Jumps(temp, s1) &&
      CondEdges(blocks[b].nodes, e.phi) > 0 {
      TempKept(blocks, e, rest, k);
      TempLeaves(exec, cond, e.phi, temp, move, s1);
    }
  }

  /** The phi block stays where it is. */
  lemma PhiStays(blocks: seq<Label>, e: Edges, rest: seq<Label>)
    requires Splittable(blocks, e) && RestApart(blocks, e, rest)
    ensures FindLabel(PhiBlocks(blocks, e) + rest, e.phi) == Some(|blocks| - 1)
  {
    hide TempLabel, FindLabel, LowerEdges, Shape, PhiBlocks;
    FindAppend(blocks, rest, e.phi);
    LabelKept(blocks, e, rest, e.phi);
    NotTemp(blocks, e, |blocks| - 1);
  }

  /** A predecessor with nodes. */
  lemma SplitFaithful<S>(exec: Exec<S>, cond: Cond<S>, blocks: seq<Label>, e: Edges, rest: seq<Label>, k: nat, s: S)
    requires Splittable(blocks, e) && RestApart(blocks, e, rest) && EntersExplicitly(blocks, e, rest)
    requires k < |e.at| && blocks[e.at[k]].nodes != [] && EdgeOf(e.at, e.at[k], |e.at|) == Some(k)
    ensures StepFaithful(exec, cond, blocks, e, rest, e.at[k], s)
  {
    hide LowerEdges, TempLabel, Shape, EdgeOf, FindLabel, Leave, PhiBlocks, Shift, Leaves, CondEdges, SplitEdges;
    var before, b := blocks + rest, e.at[k];
    var temp, move := TempLabel(b, e.operand), e.moves[k];
    ShiftedBlock(blocks, e, rest, b);
    LeaveSplit(exec, cond, blocks[b].nodes, s, e.phi, temp, move);
    var exit := Leave(exec, cond, blocks[b].nodes, s);
    if exit.Jumps? && FindLabel(before, exit.target).Some? {
      PhiFound(blocks, e, rest, exit.target);
      if exit.target == e.phi {
        EdgeFaithful(exec, cond, blocks, e, rest, k, s, exit.s);
        NotTemp(blocks, e, |blocks| - 1);
      } else {
        LabelKept(blocks, e, rest, exit.target);
        NotTemp(blocks, e, FindLabel(before, exit.target).value);
      }
    } else if exit.Falls? {
      FallsMeans(exec, cond, blocks[b].nodes, s);
      assert EdgeExplicit(blocks, b);
      FallShifts(blocks, e, b);
      NotTemp(blocks, e, b + 1);
      ShiftedBlock(blocks, e, rest, b + 1);
    }
  }

  lemma {:induction false} EdgeFound(at: seq<nat>, k: nat, n: nat)
    requires k < n <= |at| && forall i, j | 0 <= i < j < |at| :: at[i] != at[j]
    ensures EdgeOf(at, at[k], n) == Some(k)
  {
    if k < n - 1 {
      EdgeFound(at, k, n - 1);
    }
  }

  /** Phi lowering is sound: if edges into the phi block are explicit, the lowered blocks are
      faithful to the meaning of phi, whatever nodes do to the data. */
  lemma PhiLoweringIsSound<S(!new)>(blocks: seq<Label>, e: Edges, rest: seq<Label>)
    requires Splittable(blocks, e) && RestApart(blocks, e, rest) && EntersExplicitly(blocks, e, rest)
    ensures Faithful<S>(blocks, e, rest)
  {
    hide EntersExplicitly, StepFaithful, TempLabel, FindLabel;
    forall exec: Exec<S>, cond: Cond<S>, b: nat, s: S | b < |blocks + rest|
      ensures StepFaithful(exec, cond, blocks, e, rest, b, s)
    {
      var edge := EdgeOf(e.at, b, |e.at|);
      if edge.None? {
        OtherFaithful(exec, cond, blocks, e, rest, b, s);
      } else if blocks[b].nodes == [] {
        EmptyFaithful(exec, cond, blocks, e, rest, edge.value, s);
      } else {
        SplitFaithful(exec, cond, blocks, e, rest, edge.value, s);
      }
    }
  }

  // And only then: runs that log the nodes they execute

  type Log = seq<Node>

  function Logging(node: Node, log: Log): Option<Log> {
    Some(log + [node])
  }

  /** No condition holds. */
  predicate Never(c: IcmpType, log: Log) {
    false
  }

  /** Without an unconditional jump or ret, control that takes no conditional jump falls out of
      a block. */
  lemma {:induction false} FallsOut(nodes: seq<Node>, log: Log)
    requires !Leaves(nodes)
    ensures Leave(Logging, Never, nodes, log).Falls?
  {
    if nodes != [] {
      assert forall i | 1 <= i < |nodes| :: nodes[i] == nodes[1..][i - 1];
      FallsOut(nodes[1..], if nodes[0].NCondJmp? then log else log + [nodes[0]]);
    }
  }

  lemma FallsIntoPhi(blocks: seq<Label>, e: Edges, rest: seq<Label>, k: nat)
    requires Splittable(blocks, e) && RestApart(blocks, e, rest) && k < |e.at| && blocks[e.at[k]].nodes != []
    requires e.at[k] + 2 == |blocks| && !Leaves(blocks[e.at[k]].nodes)
    ensures !StepFaithful(Logging, Never, blocks, e, rest, e.at[k], [])
  {
    hide LowerEdges, TempLabel, Shape, EdgeOf, FindLabel, Leave, PhiBlocks, Shift, Leaves, CondEdges, SplitEdges;
    var b := e.at[k];
    EdgeFound(e.at, k, |e.at|);
    ShiftedBlock(blocks, e, rest, b);
    LeaveSplit(Logging, Never, blocks[b].nodes, [], e.phi, TempLabel(b, e.operand), e.moves[k]);
    FallsOut(blocks[b].nodes, []);
    NotTemp(blocks, e, b);
    NotTemp(blocks, e, b + 1);
    ShiftedBlock(blocks, e, rest, b + 1);
  }

  lemma EmptyElsewhere(blocks: seq<Label>, e: Edges, rest: seq<Label>, k: nat)
    requires Splittable(blocks, e) && RestApart(blocks, e, rest) && k < |e.at| && blocks[e.at[k]].nodes == []
    requires e.at[k] + 2 != |blocks|
    ensures !StepFaithful(Logging, Never, blocks, e, rest, e.at[k], [])
  {
    hide LowerEdges, TempLabel, Shape, EdgeOf, FindLabel, PhiBlocks, Shift, CondEdges, SplitEdges;
    var b := e.at[k];
    EdgeFound(e.at, k, |e.at|);
    ShiftedBlock(blocks, e, rest, b);
    MoveFalls(Logging, Never, e.moves[k], []);
    NotTemp(blocks, e, b);
    NotTemp(blocks, e, b + 1);
    ShiftedBlock(blocks, e, rest, b + 1);
  }

  /** The first temporary block holds a predecessor's move. */
  lemma {:induction false} FirstTemp(blocks: seq<Label>, e: Edges, n: nat) returns (k: nat)
    requires Splittable(blocks, e) && n <= |e.at| && TempsAfter(blocks, e, n) != []
    ensures k < n && TempsAfter(blocks, e, n)[0] == TempBlock(e.phi, TempLabel(e.at[k], e.operand), e.moves[k])
  {
    hide TempLabel, CondEdges, TempBlocks, FindLabel;
    if TempsAfter(blocks, e, n - 1) != [] {
      k := FirstTemp(blocks, e, n - 1);
    } else {
      k := n - 1;
      var temp := TempLabel(e.at[k], e.operand);
      TempBlocksAre(e.phi, temp, e.moves[k], CondEdges(blocks[e.at[k]].nodes, e.phi), temp);
    }
  }

  lemma PhiFallsOut(blocks: seq<Label>, e: Edges, rest: seq<Label>)
    requires Splittable(blocks, e) && RestApart(blocks, e, rest) && rest != []
    requires |PhiBlocks(blocks, e)| > |blocks| && !Leaves(blocks[|blocks| - 1].nodes)
    ensures !StepFaithful(Logging, Never, blocks, e, rest, |blocks| - 1, [])
  {
    hide LowerEdges, TempLabel, EdgeOf, FindLabel, Leave, Leaves, CondEdges, SplitEdges, TempsAfter, BlockAfter;
    var phi, after := |blocks| - 1, PhiBlocks(blocks, e) + rest;
    NoEdgeAtPhi(blocks, e);
    ShiftedBlock(blocks, e, rest, phi);
    FallsOut(blocks[phi].nodes, []);
    var k := FirstTemp(blocks, e, |e.at|);
    assert after[|blocks|] == PhiBlocks(blocks, e)[|blocks|..][0];
    var log := Leave(Logging, Never, blocks[phi].nodes, []).s;
    TempLeaves(Logging, Never, e.phi, TempLabel(e.at[k], e.operand), e.moves[k], log);
    PhiStays(blocks, e, rest);
  }

  lemma NoEdgeAtPhi(blocks: seq<Label>, e: Edges)
    requires Splittable(blocks, e)
    ensures EdgeOf(e.at, |blocks| - 1, |e.at|) == None
  {
    hide TempLabel, FindLabel;
  }

  /** Phi lowering is exact: it is faithful in all runs if and only if no predecessor that has
      nodes falls into the phi block, those without nodes do, and the phi block does not fall
      into temporary blocks. */
  lemma PhiLoweringIsExact(blocks: seq<Label>, e: Edges, rest: seq<Label>)
    requires Splittable(blocks, e) && RestApart(blocks, e, rest)
    ensures Faithful<Log>(blocks, e, rest) <==> EntersExplicitly(blocks, e, rest)
  {
    hide StepFaithful, TempLabel, FindLabel, LowerEdges, Leaves;
    if EntersExplicitly(blocks, e, rest) {
      PhiLoweringIsSound<Log>(blocks, e, rest);
    } else {
      var b := UnfaithfulStep(blocks, e, rest);
      assert !StepFaithful(Logging, Never, blocks, e, rest, b, []);
    }
  }

  lemma UnfaithfulStep(blocks: seq<Label>, e: Edges, rest: seq<Label>) returns (b: nat)
    requires Splittable(blocks, e) && RestApart(blocks, e, rest) && !EntersExplicitly(blocks, e, rest)
    ensures b < |blocks + rest| && !StepFaithful(Logging, Never, blocks, e, rest, b, [])
  {
    hide StepFaithful, TempLabel, FindLabel, LowerEdges, Leaves, RestApart;
    if k :| 0 <= k < |e.at| && !EdgeExplicit(blocks, e.at[k]) {
      b := e.at[k];
      if blocks[b].nodes == [] {
        EmptyElsewhere(blocks, e, rest, k);
      } else {
        FallsIntoPhi(blocks, e, rest, k);
      }
    } else {
      b := |blocks| - 1;
      PhiFallsOut(blocks, e, rest);
    }
  }

  // Whole runs

  /** The block and state after entering n blocks from block b, with the meaning of phi. */
  function RunPhi<S>(exec: Exec<S>, cond: Cond<S>, blocks: seq<Label>, e: Edges, phi: nat, b: nat, s: S,
                     n: nat): Option<(nat, S)>
    requires b < |blocks| && |e.at| == |e.moves|
    decreases n
  {
    if n == 0 then Some((b, s))
    else
      match EnterPhi(exec, cond, blocks, e, phi, b, s)
      case Some((t, s1)) => RunPhi(exec, cond, blocks, e, phi, t, s1, n - 1)
      case None => None
  }

  /** The same after the pass, where temporary blocks do not count. */
  function RunLowered<S>(exec: Exec<S>, cond: Cond<S>, blocks: seq<Label>, e: Edges, rest: seq<Label>, b: nat, s: S,
                         n: nat): Option<(nat, S)>
    requires Splittable(blocks, e) && b < |PhiBlocks(blocks, e) + rest|
    decreases n
  {
    if n == 0 then Some((b, s))
    else
      match Arrive(exec, cond, blocks, e, rest, b, s)
      case Some((t, s1)) => RunLowered(exec, cond, blocks, e, rest, t, s1, n - 1)
      case None => None
  }

  /** Runs of any length go through the same blocks with the same data, and return alike. */
  lemma {:induction false} RunsAlike<S(!new)>(exec: Exec<S>, cond: Cond<S>, blocks: seq<Label>, e: Edges,
                                              rest: seq<Label>, b: nat, s: S, n: nat, t: nat, end: S)
    requires Splittable(blocks, e) && RestApart(blocks, e, rest) && EntersExplicitly(blocks, e, rest) &&
             b < |blocks + rest|
    requires RunPhi(exec, cond, blocks + rest, e, |blocks| - 1, b, s, n) == Some((t, end)) && t < |blocks + rest|
    ensures Shift(blocks, e, b) < |PhiBlocks(blocks, e) + rest| && Shift(blocks, e, t) < |PhiBlocks(blocks, e) + rest|
    ensures RunLowered(exec, cond, blocks, e, rest, Shift(blocks, e, b), s, n) == Some((Shift(blocks, e, t), end))
    ensures var returned := Leave(exec, cond, (blocks + rest)[t].nodes, end);
            returned.Returns? ==>
              Leave(exec, cond, (PhiBlocks(blocks, e) + rest)[Shift(blocks, e, t)].nodes, end) == returned
    decreases n
  {
    hide EntersExplicitly, EnterPhi, Arrive, Leave, RestApart, LowerEdges, Shape, TempLabel, FindLabel, PhiBlocks;
    PhiLoweringIsSound<S>(blocks, e, rest);
    assert StepFaithful(exec, cond, blocks, e, rest, b, s);
    assert StepFaithful(exec, cond, blocks, e, rest, t, end);
    ShiftedBlock(blocks, e, rest, b);
    ShiftedBlock(blocks, e, rest, t);
    if n > 0 {
      var (u, s1) := EnterPhi(exec, cond, blocks + rest, e, |blocks| - 1, b, s).value;
      RunsAlike(exec, cond, blocks, e, rest, u, s1, n - 1, t, end);
    }
  }

  // The moves

  /** The move of an operand from where it is when the phi is generated. */
  function PhiMove(globals: set<Name>, st: Store, home: Register, v: Value): Result<Node> {
    var size :- ValueSize(globals, st, v);
    var src :- ValueOperand(globals, st, v);
    Ok(NMov(OReg(home, size), src))
  }

  ghost predicate MovesOf(globals: set<Name>, st: Store, home: Register, ops: seq<Value>, moves: seq<Node>) {
    |moves| == |ops| && forall k | 0 <= k < |ops| :: PhiMove(globals, st, home, ops[k]) == Ok(moves[k])
  }

  /** What nodes do to machine states. */
  function Executing(node: Node, m: State): Option<State> {
    if |m.regs| == REGISTERS then Step(node, m) else None
  }

  lemma MoveLeavesOperand(globals: set<Name>, st: Store, home: Register, v: Value, m: State, w: Word)
    requires m.Valid() && Departures.Readable(st, v) && Departures.ValueIn(globals, st, v, m) == Some(w)
    ensures PhiMove(globals, st, home, v).Ok?
    ensures var r := Executing(PhiMove(globals, st, home, v).value, m);
            r.Some? && r.value == m.(regs := m.regs[home := w], flags := r.value.flags)
  {
    assert m.regs[home := m.regs[home]] == m.regs;
  }

  /** Control that enters the phi block from predecessor k finds in the phi's register what
      operand k reads as at the jump, and nothing else changed but flags. */
  lemma PhiHoldsOperand(globals: set<Name>, st: Store, home: Register, ops: seq<Value>, cond: Cond<State>,
                        blocks: seq<Label>, e: Edges, rest: seq<Label>, k: nat, m: State, m1: State, w: Word)
    requires Splittable(blocks, e) && RestApart(blocks, e, rest) && EntersExplicitly(blocks, e, rest)
    requires MovesOf(globals, st, home, ops, e.moves) && k < |ops|
    requires Enter(Executing, cond, blocks + rest, e.at[k], m) == Some((|blocks| - 1, m1)) && m1.Valid()
    requires Departures.Readable(st, ops[k]) && Departures.ValueIn(globals, st, ops[k], m1) == Some(w)
    ensures var r := Arrive(Executing, cond, blocks, e, rest, e.at[k], m);
            r.Some? && r.value.0 == |blocks| - 1 &&
              r.value.1 == m1.(regs := m1.regs[home := w], flags := r.value.1.flags)
  {
    hide EntersExplicitly, Arrive, Enter, Executing, RestApart, LowerEdges, Shape, TempLabel, FindLabel, PhiBlocks,
         PhiMove;
    MoveLeavesOperand(globals, st, home, ops[k], m1, w);
    assert PhiMove(globals, st, home, ops[k]) == Ok(e.moves[k]);
    EdgeFound(e.at, k, |e.at|);
    PhiLoweringIsSound<State>(blocks, e, rest);
    assert StepFaithful(Executing, cond, blocks, e, rest, e.at[k], m);
    NotTemp(blocks, e, e.at[k]);
    NotTemp(blocks, e, |blocks| - 1);
    PhiGrows(blocks, e);
  }
}
