/** Dead block elimination (src/backend/ir_optimizer/dead_code_elim.cpp) and the runs it
    preserves. */
module DeadBlocks {
  import opened Wrappers
  import opened Ir
  import IrSemantics

  // The pass

  function LabelsOf(labels: seq<Name>): set<Name> {
    set l | l in labels
  }

  function InstsReference(insts: seq<Inst>): set<Name> {
    if insts == [] then {} else LabelsOf(insts[0].labels) + InstsReference(insts[1..])
  }

  /** Labels that instructions list as referenced. */
  function Referenced(blocks: seq<Block>): set<Name> {
    if blocks == [] then {} else InstsReference(blocks[0].insts) + Referenced(blocks[1..])
  }

  /** The blocks with a name in a set, in order. */
  function Named(blocks: seq<Block>, names: set<Name>): (r: seq<Block>)
    ensures |r| <= |blocks|
  {
    if blocks == [] then []
    else (if blocks[0].name in names then [blocks[0]] else []) + Named(blocks[1..], names)
  }

  /** What an unreachable block cannot be called: the entry, or a referenced label. */
  function LiveNames(blocks: seq<Block>): set<Name> {
    if blocks == [] then {} else {blocks[0].name} + Referenced(blocks)
  }

  function Surviving(blocks: seq<Block>): seq<Block> {
    Named(blocks, LiveNames(blocks))
  }

  /** A function whose blocks the pass edits in place. */
  class FunctionBody {
    var blocks: seq<Block>

    constructor (blocks: seq<Block>)
      ensures this.blocks == blocks
    {
      this.blocks := blocks;
    }

    method FnDeadCodeElim()
      modifies this
      ensures blocks == Surviving(old(blocks))
    {
      if |blocks| == 0 {
        return;
      }
      var unreachable: set<Name> := {};
      for b := 0 to |blocks|
        invariant blocks == old(blocks)
        invariant unreachable == BlockNames(blocks[..b])
      {
        assert blocks[..b + 1] == blocks[..b] + [blocks[b]];
        unreachable := unreachable + {blocks[b].name};
      }
      assert blocks[..|blocks|] == blocks;
      unreachable := unreachable - {blocks[0].name};
      for b := 0 to |blocks|
        invariant blocks == old(blocks)
        invariant unreachable == BlockNames(blocks) - {blocks[0].name} - Referenced(blocks[..b])
      {
        var insts := blocks[b].insts;
        for i := 0 to |insts|
          invariant blocks == old(blocks) && insts == blocks[b].insts
          invariant unreachable ==
                    BlockNames(blocks) - {blocks[0].name} - Referenced(blocks[..b]) - InstsReference(insts[..i])
        {
          var labels := insts[i].labels;
          for l := 0 to |labels|
            invariant blocks == old(blocks) && insts == blocks[b].insts && labels == insts[i].labels
            invariant unreachable == BlockNames(blocks) - {blocks[0].name} - Referenced(blocks[..b]) -
                                     InstsReference(insts[..i]) - LabelsOf(labels[..l])
          {
            assert labels[..l + 1] == labels[..l] + [labels[l]];
            unreachable := unreachable - {labels[l]};
          }
          assert labels[..|labels|] == labels;
          InstsReferenceLast(insts, i);
        }
        assert insts[..|insts|] == insts;
        ReferencedLast(blocks, b);
      }
      assert blocks[..|blocks|] == blocks;
      ErasedAreSurviving(blocks, unreachable);
      blocks := Without(blocks, unreachable);
    }
  }

  function BlockNames(blocks: seq<Block>): set<Name> {
    set b | b in blocks :: b.name
  }

  /** erase_if of the blocks with a name in a set. */
  function Without(blocks: seq<Block>, names: set<Name>): seq<Block> {
    if blocks == [] then []
    else (if blocks[0].name in names then [] else [blocks[0]]) + Without(blocks[1..], names)
  }

  lemma {:induction false} InstsReferenceLast(insts: seq<Inst>, i: nat)
    requires i < |insts|
    ensures InstsReference(insts[..i + 1]) == InstsReference(insts[..i]) + LabelsOf(insts[i].labels)
  {
    if i == 0 {
      assert insts[..1][1..] == [] && insts[..0] == [];
    } else {
      InstsReferenceLast(insts[1..], i - 1);
      assert insts[..i + 1][1..] == insts[1..][..i] && insts[..i][1..] == insts[1..][..i - 1];
    }
  }

  lemma {:induction false} ReferencedLast(blocks: seq<Block>, b: nat)
    requires b < |blocks|
    ensures Referenced(blocks[..b + 1]) == Referenced(blocks[..b]) + InstsReference(blocks[b].insts)
  {
    if b == 0 {
      assert blocks[..1][1..] == [] && blocks[..0] == [];
    } else {
      ReferencedLast(blocks[1..], b - 1);
      assert blocks[..b + 1][1..] == blocks[1..][..b] && blocks[..b][1..] == blocks[1..][..b - 1];
    }
  }

  lemma {:induction false} WithoutIsNamed(blocks: seq<Block>, dead: set<Name>, live: set<Name>)
    requires forall b | b in blocks :: b.name in dead <==> b.name !in live
    ensures Without(blocks, dead) == Named(blocks, live)
  {
    if blocks != [] {
      assert forall b | b in blocks[1..] :: b in blocks;
      WithoutIsNamed(blocks[1..], dead, live);
    }
  }

  lemma ErasedAreSurviving(blocks: seq<Block>, unreachable: set<Name>)
    requires blocks != [] && unreachable == BlockNames(blocks) - {blocks[0].name} - Referenced(blocks)
    ensures Without(blocks, unreachable) == Surviving(blocks)
  {
    WithoutIsNamed(blocks, unreachable, LiveNames(blocks));
  }

  // Where survivors go

  /** Position of block b among the blocks with a name in a set. */
  function Rank(blocks: seq<Block>, names: set<Name>, b: nat): nat
    requires b <= |blocks|
  {
    |Named(blocks[..b], names)|
  }

  lemma {:induction false} NamedAppend(xs: seq<Block>, ys: seq<Block>, names: set<Name>)
    ensures Named(xs + ys, names) == Named(xs, names) + Named(ys, names)
  {
    if xs == [] {
      assert xs + ys == ys;
    } else {
      assert (xs + ys)[1..] == xs[1..] + ys && (xs + ys)[0] == xs[0];
      NamedAppend(xs[1..], ys, names);
      var first := if xs[0].name in names then [xs[0]] else [];
      assert first + (Named(xs[1..], names) + Named(ys, names)) == (first + Named(xs[1..], names)) + Named(ys, names);
    }
  }

  lemma RankStep(blocks: seq<Block>, names: set<Name>, b: nat)
    requires b < |blocks|
    ensures Rank(blocks, names, b + 1) == Rank(blocks, names, b) + if blocks[b].name in names then 1 else 0
    ensures Rank(blocks, names, b + 1) <= |Named(blocks, names)|
    ensures blocks[b].name in names ==> Named(blocks, names)[Rank(blocks, names, b)] == blocks[b]
  {
    assert blocks[..b + 1] == blocks[..b] + [blocks[b]];
    NamedAppend(blocks[..b], [blocks[b]], names);
    assert [blocks[b]][1..] == [];
    assert blocks == blocks[..b + 1] + blocks[b + 1..];
    NamedAppend(blocks[..b + 1], blocks[b + 1..], names);
  }

  lemma {:induction false} RankMonotone(blocks: seq<Block>, names: set<Name>, b: nat, c: nat)
    requires b <= c <= |blocks|
    ensures Rank(blocks, names, b) <= Rank(blocks, names, c)
    decreases c - b
  {
    if b < c {
      RankStep(blocks, names, b);
      RankMonotone(blocks, names, b + 1, c);
    }
  }

  /** Survivors keep their contents and their order. */
  lemma SurvivorsKeepOrder(blocks: seq<Block>, b: nat, c: nat)
    requires b < c < |blocks| && blocks[b].name in LiveNames(blocks) && blocks[c].name in LiveNames(blocks)
    ensures var live := LiveNames(blocks);
            Rank(blocks, live, b) < Rank(blocks, live, c) < |Surviving(blocks)| &&
            Surviving(blocks)[Rank(blocks, live, b)] == blocks[b] &&
              Surviving(blocks)[Rank(blocks, live, c)] == blocks[c]
  {
    RankStep(blocks, LiveNames(blocks), b);
    RankMonotone(blocks, LiveNames(blocks), b + 1, c);
    RankStep(blocks, LiveNames(blocks), c);
  }

  lemma RankOfFirst(blocks: seq<Block>, names: set<Name>)
    ensures Rank(blocks, names, 0) == 0
  {
    assert blocks[..0] == [];
  }

  lemma RankOfRest(blocks: seq<Block>, names: set<Name>, t: nat)
    requires blocks != [] && t < |blocks|
    ensures Rank(blocks, names, t + 1) == (if blocks[0].name in names then 1 else 0) + Rank(blocks[1..], names, t)
  {
    assert blocks[..t + 1][1..] == blocks[1..][..t] && blocks[..t + 1][0] == blocks[0];
  }

  lemma FindNamedFirst(block: Block, rest: seq<Block>, l: Name)
    ensures FindBlock([block] + rest, l) ==
            if block.name == l then Some(0)
            else match FindBlock(rest, l) case Some(i) => Some(i + 1) case None => None
  {
    assert ([block] + rest)[1..] == rest;
  }

  /** A name in the set is found where it was, counted among the named blocks. */
  lemma {:induction false} FoundAmongNamed(blocks: seq<Block>, names: set<Name>, l: Name)
    requires l in names
    ensures FindBlock(Named(blocks, names), l) ==
            match FindBlock(blocks, l)
            case Some(t) => Some(Rank(blocks, names, t))
            case None => None
  {
    hide Rank, FindBlock, Named;
    if blocks == [] {
      FindsNothing(names, l);
    } else {
      var rest := Named(blocks[1..], names);
      NamedStep(blocks, names);
      FindNamedFirst(blocks[0], rest, l);
      FindNamedFirst(blocks[0], blocks[1..], l);
      assert [blocks[0]] + blocks[1..] == blocks && [] + rest == rest;
      if blocks[0].name == l {
        RankOfFirst(blocks, names);
      } else {
        FoundAmongNamed(blocks[1..], names, l);
        if FindBlock(blocks[1..], l).Some? {
          RankOfRest(blocks, names, FindBlock(blocks[1..], l).value);
        }
      }
    }
  }

  lemma FindsNothing(names: set<Name>, l: Name)
    ensures FindBlock(Named([], names), l) == None && FindBlock([], l) == None
  {
  }

  lemma NamedStep(blocks: seq<Block>, names: set<Name>)
    requires blocks != []
    ensures Named(blocks, names) == (if blocks[0].name in names then [blocks[0]] else []) + Named(blocks[1..], names)
  {
  }

  lemma {:induction false} InstReferenced(blocks: seq<Block>, b: nat, i: nat, l: Name)
    requires b < |blocks| && i < |blocks[b].insts| && l in blocks[b].insts[i].labels
    ensures l in Referenced(blocks)
  {
    if b > 0 {
      InstReferenced(blocks[1..], b - 1, i, l);
    } else {
      InstReferencedIn(blocks[0].insts, i, l);
    }
  }

  lemma {:induction false} InstReferencedIn(insts: seq<Inst>, i: nat, l: Name)
    requires i < |insts| && l in insts[i].labels
    ensures l in InstsReference(insts)
  {
    if i > 0 {
      InstReferencedIn(insts[1..], i - 1, l);
    }
  }

  lemma {:induction false} InstsReferencedBy(insts: seq<Inst>, l: Name) returns (i: nat)
    requires l in InstsReference(insts)
    ensures i < |insts| && l in insts[i].labels
  {
    if l in insts[0].labels {
      i := 0;
    } else {
      var j := InstsReferencedBy(insts[1..], l);
      i := j + 1;
    }
  }

  lemma {:induction false} ReferencedBy(blocks: seq<Block>, l: Name) returns (b: nat, i: nat)
    requires l in Referenced(blocks)
    ensures b < |blocks| && i < |blocks[b].insts| && l in blocks[b].insts[i].labels
  {
    if l in InstsReference(blocks[0].insts) {
      b := 0;
      i := InstsReferencedBy(blocks[0].insts, l);
    } else {
      var c;
      c, i := ReferencedBy(blocks[1..], l);
      b := c + 1;
    }
  }

  lemma {:induction false} NamedAre(blocks: seq<Block>, names: set<Name>, block: Block)
    ensures block in Named(blocks, names) <==> block in blocks && block.name in names
  {
    if blocks != [] {
      NamedAre(blocks[1..], names, block);
      assert block in blocks <==> block == blocks[0] || block in blocks[1..];
    }
  }

  /** Some instruction lists the label. */
  ghost predicate Listed(blocks: seq<Block>, l: Name) {
    exists b, i :: 0 <= b < |blocks| && 0 <= i < |blocks[b].insts| && l in blocks[b].insts[i].labels
  }

  /** Exactly the dead blocks go: a block survives if and only if it has the name of the entry block
      or a label that some instruction lists. */
  lemma SurvivesExactly(blocks: seq<Block>, block: Block)
    ensures block in Surviving(blocks) <==>
            block in blocks && (block.name == blocks[0].name || Listed(blocks, block.name))
  {
    hide Referenced, Named;
    NamedAre(blocks, LiveNames(blocks), block);
    if block in blocks && Listed(blocks, block.name) {
      var b, i :| 0 <= b < |blocks| && 0 <= i < |blocks[b].insts| && block.name in blocks[b].insts[i].labels;
      InstReferenced(blocks, b, i, block.name);
    }
    if block in blocks && block.name in Referenced(blocks) {
      var b, i := ReferencedBy(blocks, block.name);
    }
  }

  /** No reference dangles: a label that a survivor lists names the same block after
      elimination as before, or none in both. */
  lemma NoReferenceDangles(blocks: seq<Block>, b: nat, i: nat, l: Name)
    requires b < |blocks| && i < |blocks[b].insts| && l in blocks[b].insts[i].labels
    ensures match FindBlock(blocks, l)
            case Some(t) => FindBlock(Surviving(blocks), l) == Some(Rank(blocks, LiveNames(blocks), t)) &&
                            Surviving(blocks)[Rank(blocks, LiveNames(blocks), t)] == blocks[t]
            case None => FindBlock(Surviving(blocks), l) == None
  {
    InstReferenced(blocks, b, i, l);
    FoundAmongNamed(blocks, LiveNames(blocks), l);
    if FindBlock(blocks, l).Some? {
      RankStep(blocks, LiveNames(blocks), FindBlock(blocks, l).value);
    }
  }

  // Runs, whatever instructions do to the data

  datatype Effect<S> = Next(s: S) | Jump(l: Name, s: S) | Return(s: S)

  /** Where a run is: at an instruction, returned, past the last block, or at a jump to a
      label that no block has. */
  datatype Config<S> = At(block: nat, inst: nat, s: S) | Returned(s: S) | FellOff(s: S) | Lost(s: S)

  /** Meanings of instructions in which exactly the terminators do not fall through, and
      jumps go to the targets that the operation names. */
  ghost predicate Legal<S(!new)>(sem: (Inst, S) -> Effect<S>) {
    forall inst, s ::
      match sem(inst, s)
      case Next(_) => !IsTerminator(inst.op)
      case Jump(l, _) => IsTerminator(inst.op) && l in Targets(inst.op)
      case Return(_) => IsTerminator(inst.op)
  }

  function Advance<S>(sem: (Inst, S) -> Effect<S>, blocks: seq<Block>, c: Config<S>): Config<S> {
    match c
    case At(b, i, s) =>
      if b >= |blocks| then FellOff(s)
      else if i >= |blocks[b].insts| then
        if b + 1 < |blocks| then At(b + 1, 0, s) else FellOff(s)
      else
        (match sem(blocks[b].insts[i], s)
         case Next(s1) => At(b, i + 1, s1)
         case Jump(l, s1) =>
           (match FindBlock(blocks, l)
            case Some(t) => At(t, 0, s1)
            case None => Lost(s1))
         case Return(s1) => Returned(s1))
    case _ => c
  }

  function RunFor<S>(sem: (Inst, S) -> Effect<S>, blocks: seq<Block>, c: Config<S>, n: nat): Config<S>
    decreases n
  {
    if n == 0 then c else RunFor(sem, blocks, Advance(sem, blocks, c), n - 1)
  }

  ghost predicate InSurvivor<S>(blocks: seq<Block>, c: Config<S>) {
    c.At? ==> c.block < |blocks| && blocks[c.block].name in LiveNames(blocks)
  }

  /** The configuration of the reduced function that matches one of the original. */
  function Image<S>(blocks: seq<Block>, c: Config<S>): Config<S>
    requires InSurvivor(blocks, c)
  {
    if c.At? then At(Rank(blocks, LiveNames(blocks), c.block), c.inst, c.s) else c
  }

  /** Every target of an instruction is among the labels it lists. */
  ghost predicate LabelsListed(blocks: seq<Block>) {
    forall b, i, l | 0 <= b < |blocks| && 0 <= i < |blocks[b].insts| && l in Targets(blocks[b].insts[i].op) ::
      l in blocks[b].insts[i].labels
  }

  predicate FallsThrough(block: Block) {
    forall i | 0 <= i < |block.insts| :: !IsTerminator(block.insts[i].op)
  }

  /** No surviving block falls through into a block that is removed. A block with an
      explicit terminator does not fall through at all. */
  ghost predicate FallsIntoSurvivors(blocks: seq<Block>) {
    forall b | 0 <= b && b + 1 < |blocks| && blocks[b].name in LiveNames(blocks) && FallsThrough(blocks[b]) ::
      blocks[b + 1].name in LiveNames(blocks)
  }

  /** A run that is at the end of a block went past no terminator of it. */
  ghost predicate Passed<S>(blocks: seq<Block>, c: Config<S>) {
    c.At? && c.block < |blocks| ==>
      c.inst <= |blocks[c.block].insts| && forall i | 0 <= i < c.inst :: !IsTerminator(blocks[c.block].insts[i].op)
  }

  lemma LastBlockRank(blocks: seq<Block>, names: set<Name>)
    ensures Rank(blocks, names, |blocks|) == |Named(blocks, names)|
  {
    assert blocks[..|blocks|] == blocks;
  }

  lemma AdvanceMatches<S(!new)>(sem: (Inst, S) -> Effect<S>, blocks: seq<Block>, c: Config<S>)
    requires Legal(sem) && LabelsListed(blocks) && FallsIntoSurvivors(blocks) && InSurvivor(blocks, c) &&
             Passed(blocks, c)
    ensures var c1 := Advance(sem, blocks, c);
            InSurvivor(blocks, c1) && Passed(blocks, c1) &&
              Advance(sem, Surviving(blocks), Image(blocks, c)) == Image(blocks, c1)
  {
    hide Rank, Named, LiveNames;
    if c.At? {
      var live, b, i := LiveNames(blocks), c.block, c.inst;
      RankStep(blocks, live, b);
      if i >= |blocks[b].insts| {
        LastBlockRank(blocks, live);
        if b + 1 < |blocks| {
          RankStep(blocks, live, b + 1);
        }
      } else if sem(blocks[b].insts[i], c.s).Jump? {
        NoReferenceDangles(blocks, b, i, sem(blocks[b].insts[i], c.s).l);
        FoundSurvives(blocks, b, i, sem(blocks[b].insts[i], c.s).l);
      }
    }
  }

  lemma FoundSurvives(blocks: seq<Block>, b: nat, i: nat, l: Name)
    requires b < |blocks| && i < |blocks[b].insts| && l in blocks[b].insts[i].labels
    ensures l in LiveNames(blocks)
  {
    InstReferenced(blocks, b, i, l);
  }

  /** Elimination preserves every run from every surviving instruction, for any number
      of steps and whatever instructions do to the data. */
  lemma {:induction false} EliminationPreservesRuns<S(!new)>(sem: (Inst, S) -> Effect<S>, blocks: seq<Block>,
                                                             c: Config<S>, n: nat)
    requires Legal(sem) && LabelsListed(blocks) && FallsIntoSurvivors(blocks) && InSurvivor(blocks, c) &&
             Passed(blocks, c)
    ensures InSurvivor(blocks, RunFor(sem, blocks, c, n))
    ensures RunFor(sem, Surviving(blocks), Image(blocks, c), n) == Image(blocks, RunFor(sem, blocks, c, n))
    decreases n
  {
    hide Legal, LabelsListed, FallsIntoSurvivors, Image, Advance, InSurvivor, Passed;
    if n > 0 {
      AdvanceMatches(sem, blocks, c);
      EliminationPreservesRuns(sem, blocks, Advance(sem, blocks, c), n - 1);
    }
  }

  /** Runs from the starts of surviving blocks go on as before elimination. */
  ghost predicate RunsPreserved(blocks: seq<Block>) {
    forall sem: (Inst, int) -> Effect<int>, b: nat, s: int, n: nat | Legal(sem) && b < |blocks| &&
      blocks[b].name in LiveNames(blocks) ::
      RunMatches(sem, blocks, b, s, n)
  }

  ghost predicate RunMatches<S>(sem: (Inst, S) -> Effect<S>, blocks: seq<Block>, b: nat, s: S, n: nat)
    requires b < |blocks| && blocks[b].name in LiveNames(blocks)
  {
    var c := RunFor(sem, blocks, At(b, 0, s), n);
    InSurvivor(blocks, c) && RunFor(sem, Surviving(blocks), Image(blocks, At(b, 0, s)), n) == Image(blocks, c)
  }

  /** Falls through everything that may. */
  function Idle(inst: Inst, s: int): Effect<int> {
    if IsTerminator(inst.op) then Return(s) else Next(s)
  }

  lemma {:induction false} IdleReachesEnd(blocks: seq<Block>, b: nat, i: nat)
    requires b + 1 < |blocks| && FallsThrough(blocks[b]) && i <= |blocks[b].insts|
    ensures RunFor(Idle, blocks, At(b, i, 0), |blocks[b].insts| - i + 1) == At(b + 1, 0, 0)
    decreases |blocks[b].insts| - i
  {
    if i < |blocks[b].insts| {
      IdleReachesEnd(blocks, b, i + 1);
    }
  }

  /** Elimination preserves the runs from all surviving blocks exactly when none of them
      falls through into a removed block. */
  lemma PreservesRunsExactly(blocks: seq<Block>)
    requires LabelsListed(blocks)
    ensures RunsPreserved(blocks) <==> FallsIntoSurvivors(blocks)
  {
    if FallsIntoSurvivors(blocks) {
      forall sem: (Inst, int) -> Effect<int>, b: nat, s: int, n: nat | Legal(sem) && b < |blocks| &&
        blocks[b].name in LiveNames(blocks)
        ensures RunMatches(sem, blocks, b, s, n)
      {
        EliminationPreservesRuns(sem, blocks, At(b, 0, s), n);
      }
    }
    if RunsPreserved(blocks) {
      forall b | 0 <= b && b + 1 < |blocks| && blocks[b].name in LiveNames(blocks) && FallsThrough(blocks[b])
        ensures blocks[b + 1].name in LiveNames(blocks)
      {
        assert RunMatches(Idle, blocks, b, 0, |blocks[b].insts| + 1);
        IdleReachesEnd(blocks, b, 0);
      }
    }
  }

  /** The pass is not run-preserving in general: an entry block that falls through into
      an unreferenced block loses it. */
  lemma FallThroughIsLost() returns (blocks: seq<Block>)
    ensures LabelsListed(blocks) && RunFor(Idle, blocks, At(0, 0, 0), 2) == Returned(0)
    ensures RunFor(Idle, Surviving(blocks), At(0, 0, 0), 2) == FellOff(0)
  {
    blocks := [Block("entry", []), Block("next", [Inst(Ret, [], None, [], [])])];
    assert blocks[1..] == [blocks[1]] && [blocks[1]][1..] == [];
    assert LiveNames(blocks) == {"entry"} by {
      assert InstsReference(blocks[1].insts) == {} by { assert blocks[1].insts[1..] == []; }
      assert Referenced(blocks[1..]) == {};
    }
    assert "next" != "entry" by { assert "next"[0] != "entry"[0]; }
    assert Surviving(blocks) == [blocks[0]];
    var c := Advance(Idle, blocks, At(0, 0, 0));
    assert c == At(1, 0, 0) && Advance(Idle, blocks, c) == Returned(0);
    assert RunFor(Idle, blocks, c, 1) == RunFor(Idle, blocks, Advance(Idle, blocks, c), 0);
    var d := Advance(Idle, [blocks[0]], At(0, 0, 0));
    assert d == FellOff(0) && RunFor(Idle, [blocks[0]], d, 1) ==
           RunFor(Idle, [blocks[0]], Advance(Idle, [blocks[0]], d), 0);
  }

  // Whole programs

  function Eliminate(f: Function): Function {
    f.(blocks := Surviving(f.blocks))
  }

  ghost predicate Eliminable(f: Function) {
    LabelsListed(f.blocks) && FallsIntoSurvivors(f.blocks)
  }

  /** Program q is program p with the dead blocks of every function eliminated. */
  ghost predicate Reduced(p: IrSemantics.Program, q: IrSemantics.Program) {
    p.Keys == q.Keys && forall g | g in p :: Eliminable(p[g]) && q[g] == Eliminate(p[g])
  }

  /** The instructions left in a block whose instructions so far do not leave it. */
  ghost predicate Inside(f: Function, b: nat, insts: seq<Inst>) {
    b < |f.blocks| && |insts| <= |f.blocks[b].insts| && f.blocks[b].name in LiveNames(f.blocks) &&
    var i := |f.blocks[b].insts| - |insts|;
    insts == f.blocks[b].insts[i..] && forall j | 0 <= j < i :: !IsTerminator(f.blocks[b].insts[j].op)
  }

  lemma InsideStep(f: Function, b: nat, insts: seq<Inst>)
    requires Inside(f, b, insts) && insts != [] && !IsTerminator(insts[0].op)
    ensures Inside(f, b, insts[1..])
  {
    var i := |f.blocks[b].insts| - |insts|;
    assert f.blocks[b].insts[i..][0] == f.blocks[b].insts[i] &&
           f.blocks[b].insts[i..][1..] == f.blocks[b].insts[i + 1..];
  }

  lemma InsideStart(f: Function, b: nat)
    requires b < |f.blocks| && f.blocks[b].name in LiveNames(f.blocks)
    ensures Inside(f, b, f.blocks[b].insts)
  {
  }

  lemma TargetListed(f: Function, b: nat, insts: seq<Inst>, l: Name) returns (i: nat)
    requires Eliminable(f) && Inside(f, b, insts) && insts != [] && l in Targets(insts[0].op)
    ensures b < |f.blocks| && i < |f.blocks[b].insts| && l in f.blocks[b].insts[i].labels
  {
    hide LiveNames, Targets;
    i := |f.blocks[b].insts| - |insts|;
    assert f.blocks[b].insts[i] == insts[0];
  }

  lemma {:induction false} GotoSame(p: IrSemantics.Program, q: IrSemantics.Program, f: Function, b: nat,
                                    insts: seq<Inst>, l: Name, env: IrSemantics.Env, fuel: nat, calls: nat)
    requires Reduced(p, q) && Eliminable(f) && Inside(f, b, insts) && insts != [] && l in Targets(insts[0].op)
    ensures IrSemantics.Goto(p, f, l, env, fuel, calls) == IrSemantics.Goto(q, Eliminate(f), l, env, fuel, calls)
    decreases fuel, 0
  {
    hide Rank, Named, LiveNames, Reduced, Inside, Eliminable, IrSemantics.Run, Targets;
    var i := TargetListed(f, b, insts, l);
    NoReferenceDangles(f.blocks, b, i, l);
    FoundSurvives(f.blocks, b, i, l);
    if fuel > 0 && FindBlock(f.blocks, l).Some? {
      var t := FindBlock(f.blocks, l).value;
      InsideStart(f, t);
      EliminationKeepsRun(p, q, f, f.blocks[t].insts, t, env, fuel - 1, calls);
    }
  }

  lemma {:induction false} InvokeSame(p: IrSemantics.Program, q: IrSemantics.Program, g: Name,
                                      args: seq<IrSemantics.Machine.Word>, fuel: nat, calls: nat)
    requires Reduced(p, q)
    ensures IrSemantics.Invoke(p, g, args, fuel, calls) == IrSemantics.Invoke(q, g, args, fuel, calls)
    decreases fuel, 0
  {
    hide Rank, Eliminable, Inside, IrSemantics.BindParams, IrSemantics.Run, Referenced;
    if g in p && p[g].blocks != [] {
      var f := p[g];
      assert LiveNames(f.blocks) == {f.blocks[0].name} + Referenced(f.blocks);
      RankStep(f.blocks, LiveNames(f.blocks), 0);
      assert Rank(f.blocks, LiveNames(f.blocks), 0) == 0 by { RankOfFirst(f.blocks, LiveNames(f.blocks)); }
      if fuel > 0 && calls > 0 && |f.params| == |args| {
        InsideStart(f, 0);
        EliminationKeepsRun(p, q, f, f.blocks[0].insts, 0,
                            IrSemantics.Env(IrSemantics.BindParams(f.params, args), map[]), fuel - 1, calls - 1);
      }
    }
  }

  lemma StraightKeepsRun(p: IrSemantics.Program, q: IrSemantics.Program, f: Function, insts: seq<Inst>, b: nat,
                         env: IrSemantics.Env, fuel: nat, calls: nat)
    requires Reduced(p, q) && Eliminable(f) && Inside(f, b, insts) && insts != []
    requires !insts[0].op.Call? && !IsTerminator(insts[0].op)
    ensures Rank(f.blocks, LiveNames(f.blocks), b) < |Surviving(f.blocks)|
    ensures IrSemantics.Run(p, f, insts, b, env, fuel, calls) ==
            IrSemantics.Run(q, Eliminate(f), insts, Rank(f.blocks, LiveNames(f.blocks), b), env, fuel, calls)
    decreases fuel, |f.blocks| - b, |insts|, 0
  {
    hide Rank, Named, LiveNames, Reduced, Eliminable, Inside, IrSemantics.Perform;
    InsideBounds(f, b, insts);
    RankStep(f.blocks, LiveNames(f.blocks), b);
    InsideStep(f, b, insts);
    if IrSemantics.Perform(insts[0], env).Some? {
      EliminationKeepsRun(p, q, f, insts[1..], b, IrSemantics.Perform(insts[0], env).value, fuel, calls);
    }
  }

  lemma CallKeepsRun(p: IrSemantics.Program, q: IrSemantics.Program, f: Function, insts: seq<Inst>, b: nat,
                     env: IrSemantics.Env, fuel: nat, calls: nat)
    requires Reduced(p, q) && Eliminable(f) && Inside(f, b, insts) && insts != [] && insts[0].op.Call?
    ensures Rank(f.blocks, LiveNames(f.blocks), b) < |Surviving(f.blocks)|
    ensures IrSemantics.Run(p, f, insts, b, env, fuel, calls) ==
            IrSemantics.Run(q, Eliminate(f), insts, Rank(f.blocks, LiveNames(f.blocks), b), env, fuel, calls)
    decreases fuel, |f.blocks| - b, |insts|, 0
  {
    hide Rank, Named, LiveNames, Reduced, Eliminable, Inside, IrSemantics.IntsOf, IrSemantics.Invoke;
    InsideBounds(f, b, insts);
    RankStep(f.blocks, LiveNames(f.blocks), b);
    InsideStep(f, b, insts);
    var inst := insts[0];
    if IrSemantics.IntsOf(env, inst.operands).Some? {
      var args := IrSemantics.IntsOf(env, inst.operands).value;
      InvokeSame(p, q, inst.op.callee, args, fuel, calls);
      var v := IrSemantics.Invoke(p, inst.op.callee, args, fuel, calls);
      if v.Some? && inst.result.None? {
        EliminationKeepsRun(p, q, f, insts[1..], b, env, fuel, calls);
      } else if v.Some? && v.value.Some? {
        EliminationKeepsRun(p, q, f, insts[1..], b, IrSemantics.Bind(env, inst.result, IrSemantics.IntV(v.value.value)),
                            fuel, calls);
      }
    }
  }

  /** Elimination preserves what IR functions compute, calls and jumps included. */
  lemma {:induction false} EliminationKeepsRun(p: IrSemantics.Program, q: IrSemantics.Program, f: Function,
                                               insts: seq<Inst>, b: nat, env: IrSemantics.Env, fuel: nat, calls: nat)
    requires Reduced(p, q) && Eliminable(f) && Inside(f, b, insts)
    ensures Rank(f.blocks, LiveNames(f.blocks), b) < |Surviving(f.blocks)|
    ensures IrSemantics.Run(p, f, insts, b, env, fuel, calls) ==
            IrSemantics.Run(q, Eliminate(f), insts, Rank(f.blocks, LiveNames(f.blocks), b), env, fuel, calls)
    decreases fuel, |f.blocks| - b, |insts|, 1
  {
    hide Rank, Named, LiveNames, Reduced, LabelsListed, FallsIntoSurvivors, Inside, IrSemantics.Perform,
         IrSemantics.IntsOf, IrSemantics.BoolOf, IrSemantics.IntOf, IrSemantics.Goto, IrSemantics.Invoke;
    InsideBounds(f, b, insts);
    var live := LiveNames(f.blocks);
    RankStep(f.blocks, live, b);
    if insts == [] {
      LastBlockRank(f.blocks, live);
      if b + 1 < |f.blocks| {
        assert f.blocks[b + 1].name in live by { InsideEnd(f, b); }
        RankStep(f.blocks, live, b + 1);
        InsideStart(f, b + 1);
        EliminationKeepsRun(p, q, f, f.blocks[b + 1].insts, b + 1, env, fuel, calls);
      }
    } else {
      var inst := insts[0];
      match inst.op {
        case Jmp(l) => GotoSame(p, q, f, b, insts, l, env, fuel, calls);
        case Branch(t, e) =>
          GotoSame(p, q, f, b, insts, t, env, fuel, calls);
          GotoSame(p, q, f, b, insts, e, env, fuel, calls);
        case Call(_, _) => CallKeepsRun(p, q, f, insts, b, env, fuel, calls);
        case Ret =>
        case _ => StraightKeepsRun(p, q, f, insts, b, env, fuel, calls);
      }
    }
  }

  lemma InsideBounds(f: Function, b: nat, insts: seq<Inst>)
    requires Inside(f, b, insts)
    ensures b < |f.blocks| && f.blocks[b].name in LiveNames(f.blocks)
  {
  }

  lemma InsideEnd(f: Function, b: nat)
    requires Inside(f, b, []) && b + 1 < |f.blocks| && FallsIntoSurvivors(f.blocks)
    ensures f.blocks[b + 1].name in LiveNames(f.blocks)
  {
  }
}
