/** Whole functions: ownership coherence in every reachable storage state, and no
    lookup of a name that was erased. */
module WholeFunctions {
  import opened Wrappers
  import opened Ir
  import opened Machine
  import opened Storage
  import opened Lowering
  import opened Ownership
  import opened Lifetime

  function Results(insts: seq<Inst>): set<Name> {
    set inst | inst in insts && inst.result.Some? :: inst.result.value
  }

  function ResultsOfBlocks(blocks: seq<Block>): set<Name> {
    set block, x | block in blocks && x in Results(block.insts) :: x
  }

  /** Results are user names that were not defined before. */
  ghost predicate SingleAssignment(insts: seq<Inst>, seen: set<Name>) {
    insts == [] ||
    ((insts[0].result.Some? ==> UserName(insts[0].result.value) && insts[0].result.value !in seen) &&
     SingleAssignment(insts[1..], seen + Results(insts[..1])))
  }

  ghost predicate SingleAssignmentBlocks(blocks: seq<Block>, seen: set<Name>) {
    blocks == [] ||
    (SingleAssignment(blocks[0].insts, seen) && SingleAssignmentBlocks(blocks[1..], seen + Results(blocks[0].insts)))
  }

  /** Operands are parameters, global strings, or results of earlier instructions that
      produce a value. */
  ghost predicate Scoped(insts: seq<Inst>, globals: set<Name>, seen: set<Name>) {
    insts == [] ||
    (Uses(insts[0]) <= seen + globals &&
     (insts[0].result.Some? ==> Produces(insts[0].op)) &&
     Scoped(insts[1..], globals, seen + Results(insts[..1])))
  }

  ghost predicate ScopedBlocks(blocks: seq<Block>, globals: set<Name>, seen: set<Name>) {
    blocks == [] ||
    (Scoped(blocks[0].insts, globals, seen) && ScopedBlocks(blocks[1..], globals, seen + Results(blocks[0].insts)))
  }

  ghost predicate MappedWithin(st: Store, seen: set<Name>) {
    forall x | x in st.vmap :: x in seen || IsTemp(x)
  }

  /** Defined names that are still mentioned are mapped. */
  ghost predicate Available(st: Store, seen: set<Name>, later: set<Name>) {
    forall x | x in seen && x in later :: x in st.vmap
  }

  lemma ResultsStep(insts: seq<Inst>)
    requires insts != []
    ensures Results(insts) == Results(insts[..1]) + Results(insts[1..])
    ensures Results(insts[..1]) == if insts[0].result.Some? then {insts[0].result.value} else {}
  {
    assert insts == insts[..1] + insts[1..];
    assert forall inst | inst in insts :: inst in insts[..1] || inst in insts[1..];
    assert insts[..1] == [insts[0]];
  }

  lemma {:induction false} InstsCoherent(cx: Context, st: Store, insts: seq<Inst>, seen: set<Name>)
    requires Sound(st) && MappedWithin(st, seen) && SingleAssignment(insts, seen)
    requires LowerInsts(cx, st, insts).Ok?
    ensures var st1 := LowerInsts(cx, st, insts).value.st;
            Sound(st1) && MappedWithin(st1, seen + Results(insts)) &&
              (NoTempOwners(st) || insts != [] ==> NoTempOwners(st1))
    decreases |insts|
  {
    hide LowerInst;
    if insts != [] {
      ResultsStep(insts);
      LowerInstSound(cx, st, insts[0]);
      InstsCoherent(cx, LowerInst(cx, st, insts[0]).value.st, insts[1..], seen + Results(insts[..1]));
    }
  }

  lemma {:induction false} BlocksCoherent(cx: Context, st: Store, blocks: seq<Block>, seen: set<Name>)
    requires Sound(st) && NoTempOwners(st) && MappedWithin(st, seen) && SingleAssignmentBlocks(blocks, seen)
    requires LowerBlocks(cx, st, blocks).Ok?
    ensures var st1 := LowerBlocks(cx, st, blocks).value.0;
            Sound(st1) && NoTempOwners(st1) && MappedWithin(st1, seen + ResultsOfBlocks(blocks))
    decreases |blocks|
  {
    hide LowerInsts;
    if blocks != [] {
      InstsCoherent(cx, st, blocks[0].insts, seen);
      var st1 := LowerInsts(cx, st, blocks[0].insts).value.st;
      BlocksCoherent(cx, st1, blocks[1..], seen + Results(blocks[0].insts));
      assert blocks[0] in blocks;
      assert forall b | b in blocks[1..] :: b in blocks;
    }
  }

  /** Splitting a block list at b. */
  lemma {:induction false} SingleAssignmentPrefix(blocks: seq<Block>, seen: set<Name>, b: nat)
    requires SingleAssignmentBlocks(blocks, seen) && b < |blocks|
    ensures SingleAssignmentBlocks(blocks[..b], seen)
    ensures SingleAssignment(blocks[b].insts, seen + ResultsOfBlocks(blocks[..b]))
    decreases b
  {
    if b == 0 {
      assert seen + ResultsOfBlocks(blocks[..0]) == seen;
    } else {
      SingleAssignmentPrefix(blocks[1..], seen + Results(blocks[0].insts), b - 1);
      assert blocks[1..][..b - 1] == blocks[..b][1..];
      assert blocks[..b] == [blocks[0]] + blocks[1..][..b - 1];
      assert seen + ResultsOfBlocks(blocks[..b]) == seen + Results(blocks[0].insts) +
             ResultsOfBlocks(blocks[1..][..b - 1]);
    }
  }

  lemma {:induction false} SingleAssignmentTake(insts: seq<Inst>, seen: set<Name>, i: nat)
    requires SingleAssignment(insts, seen) && i <= |insts|
    ensures SingleAssignment(insts[..i], seen)
    decreases i
  {
    if i > 0 {
      assert insts[..i][1..] == insts[1..][..i - 1] && insts[..i][..1] == insts[..1];
      SingleAssignmentTake(insts[1..], seen + Results(insts[..1]), i - 1);
    }
  }

  function ParamNames(params: seq<(Name, Size)>): set<Name> {
    set p | p in params :: p.0
  }

  lemma {:induction false} PlaceParamsSound(params: seq<(Name, Size)>)
    requires |params| <= MAX_ARGS
    requires forall p | p in params :: UserName(p.0)
    ensures var st := PlaceParams(params);
            Sound(st) && NoTempOwners(st) && st.vmap.Keys == ParamNames(params) && st.temps == 0 && st.frame == 0
    ensures forall r: Register :: PlaceParams(params).cells[r].owner == ""
  {
    if params != [] {
      var last := |params| - 1;
      assert params == params[..last] + [params[last]];
      PlaceParamsSound(params[..last]);
      UserNamesSettled(PlaceParams(params[..last]), params[last].0);
    }
  }

  /** In every storage state that generation of a single-assignment function reaches
      between instructions, each owned register is the location of its owner, no two
      registers share an owner, and no temporary owns a register. */
  lemma OwnershipCoherence(cx: Context, f: Function, b: nat, i: nat)
    requires |f.params| <= MAX_ARGS && b < |f.blocks| && i <= |f.blocks[b].insts|
    requires forall p | p in f.params :: UserName(p.0)
    requires SingleAssignmentBlocks(f.blocks, ParamNames(f.params))
    requires StateAt(cx, f, b, i).Ok?
    ensures var st := StateAt(cx, f, b, i).value;
            Coherent(st) && OwnersDistinct(st) && NoTempOwners(st)
  {
    hide LowerBlocks, LowerInsts, PlaceParams;
    var seen := ParamNames(f.params);
    PlaceParamsSound(f.params);
    SingleAssignmentPrefix(f.blocks, seen, b);
    BlocksCoherent(cx, PlaceParams(f.params), f.blocks[..b], seen);
    SingleAssignmentTake(f.blocks[b].insts, seen + ResultsOfBlocks(f.blocks[..b]), i);
    var st := LowerBlocks(cx, PlaceParams(f.params), f.blocks[..b]).value.0;
    InstsCoherent(cx, st, f.blocks[b].insts[..i], seen + ResultsOfBlocks(f.blocks[..b]));
  }

  // Lookups

  lemma {:induction false} PendingIn(ops: seq<Value>, dropped: seq<bool>, x: Name)
    requires |dropped| == |ops|
    ensures x in Pending(ops, dropped) <==> exists k | 0 <= k < |ops| :: dropped[k] && ops[k] == Var(ops[k].size, x)
  {
    if ops != [] {
      PendingIn(ops[1..], dropped[1..], x);
      if k :| 0 <= k < |ops| && dropped[k] && ops[k] == Var(ops[k].size, x) {
        assert k == 0 || (ops[1..][k - 1] == ops[k] && dropped[1..][k - 1] == dropped[k]);
      }
      if k :| 0 <= k < |ops| - 1 && dropped[1..][k] && ops[1..][k] == Var(ops[1..][k].size, x) {
        assert ops[k + 1] == ops[1..][k] && dropped[k + 1];
      }
    }
  }

  lemma UsesIn(inst: Inst, k: nat)
    requires k < |inst.operands| && inst.operands[k].Var?
    ensures inst.operands[k].name in Uses(inst)
  {
    assert inst.operands[k] in inst.operands;
  }

  lemma {:induction false} InstsFindNames(cx: Context, st: Store, insts: seq<Inst>, seen: set<Name>, after: set<Name>)
    requires Sound(st) && MappedWithin(st, seen) && SingleAssignment(insts, seen)
    requires Scoped(insts, cx.globals, seen) && FlaggedInsts(insts, after)
    requires Available(st, seen, InstsMention(insts) + after)
    ensures LowerInsts(cx, st, insts) != Err(NotFound)
    ensures LowerInsts(cx, st, insts).Ok? ==>
            Available(LowerInsts(cx, st, insts).value.st, seen + Results(insts), after)
    decreases |insts|
  {
    hide LowerInst;
    if insts != [] {
      var inst := insts[0];
      ResultsStep(insts);
      forall k | 0 <= k < |inst.operands| ensures Resolves(cx.globals, st, inst.operands[k]) {
        if inst.operands[k].Var? {
          UsesIn(inst, k);
        }
      }
      LowerInstFinds(cx, st, inst);
      if LowerInst(cx, st, inst).Ok? {
        LowerInstSound(cx, st, inst);
        var st1 := LowerInst(cx, st, inst).value.st;
        var seen1 := seen + Results(insts[..1]);
        forall x | x in seen1 && x in InstsMention(insts[1..]) + after ensures x in st1.vmap {
          PendingIn(inst.operands, inst.dropped, x);
        }
        InstsFindNames(cx, st1, insts[1..], seen1, after);
        assert seen + Results(insts) == seen1 + Results(insts[1..]);
      }
    }
  }

  lemma {:induction false} BlocksFindNames(cx: Context, st: Store, blocks: seq<Block>, seen: set<Name>)
    requires Sound(st) && NoTempOwners(st) && MappedWithin(st, seen) && SingleAssignmentBlocks(blocks, seen)
    requires ScopedBlocks(blocks, cx.globals, seen) && FlaggedBlocks(blocks)
    requires Available(st, seen, BlocksMention(blocks))
    ensures LowerBlocks(cx, st, blocks) != Err(NotFound)
    decreases |blocks|
  {
    hide LowerInsts;
    if blocks != [] {
      InstsFindNames(cx, st, blocks[0].insts, seen, BlocksMention(blocks[1..]));
      if LowerInsts(cx, st, blocks[0].insts).Ok? {
        InstsCoherent(cx, st, blocks[0].insts, seen);
        BlocksFindNames(cx, LowerInsts(cx, st, blocks[0].insts).value.st, blocks[1..], seen + Results(blocks[0].insts));
      }
    }
  }

  /** The generator never looks up an erased name: a single-assignment function whose
      operands are parameters, global strings or earlier results, flagged by the
      lifetime analysis, never fails on a lookup, across drops, erasures and remaps. */
  lemma NeverLooksUpErasedNames(globals: set<Name>, f: Function)
    requires |f.params| <= MAX_ARGS && forall p | p in f.params :: UserName(p.0)
    requires SingleAssignmentBlocks(f.blocks, ParamNames(f.params))
    requires ScopedBlocks(f.blocks, globals, ParamNames(f.params))
    requires FlaggedBlocks(f.blocks)
    ensures CompileFunction(globals, f) != Err(NotFound)
  {
    hide LowerBlocks, PlaceParams;
    PlaceParamsSound(f.params);
    BlocksFindNames(Context(f.returnType, globals), PlaceParams(f.params), f.blocks, ParamNames(f.params));
  }
}
