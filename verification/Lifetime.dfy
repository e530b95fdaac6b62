/** Variable lifetimes: where a name is mentioned for the last time in layout order
    (src/backend/ir_analyzer/scope_analyzer.cpp). */
module Lifetime {
  import opened Wrappers
  import opened Ir

  /** Flags say which operands are variables that nothing in later mentions. */
  ghost predicate Flagged(inst: Inst, later: set<Name>) {
    |inst.dropped| == |inst.operands| &&
    forall k | 0 <= k < |inst.operands| ::
      inst.dropped[k] <==> inst.operands[k].Var? && inst.operands[k].name !in later
  }

  /** Every instruction is flagged by what follows it, the names in after included. */
  ghost predicate FlaggedInsts(insts: seq<Inst>, after: set<Name>) {
    insts == [] || (Flagged(insts[0], InstsMention(insts[1..]) + after) && FlaggedInsts(insts[1..], after))
  }

  ghost predicate FlaggedBlocks(blocks: seq<Block>) {
    blocks == [] || (FlaggedInsts(blocks[0].insts, BlocksMention(blocks[1..])) && FlaggedBlocks(blocks[1..]))
  }

  /** A place in the layout: block and instruction index. */
  type Place = (nat, nat)

  predicate Before(p: Place, q: Place) {
    p.0 < q.0 || (p.0 == q.0 && p.1 < q.1)
  }

  predicate IsPlace(blocks: seq<Block>, p: Place) {
    p.0 < |blocks| && p.1 < |blocks[p.0].insts|
  }

  function At(blocks: seq<Block>, p: Place): Inst
    requires IsPlace(blocks, p)
  {
    blocks[p.0].insts[p.1]
  }

  /** What instructions after a place mention. */
  function Later(blocks: seq<Block>, p: Place): set<Name>
    requires IsPlace(blocks, p)
  {
    InstsMention(blocks[p.0].insts[p.1 + 1..]) + BlocksMention(blocks[p.0 + 1..])
  }

  lemma {:induction false} InstsMentionIn(insts: seq<Inst>, x: Name)
    ensures x in InstsMention(insts) <==> exists i | 0 <= i < |insts| :: x in Mentions(insts[i])
  {
    if insts != [] {
      InstsMentionIn(insts[1..], x);
      assert forall i | 1 <= i < |insts| :: insts[i] == insts[1..][i - 1];
      if i :| 0 <= i < |insts| && x in Mentions(insts[i]) {
        assert i == 0 || x in Mentions(insts[1..][i - 1]);
      }
    }
  }

  lemma {:induction false} BlocksMentionIn(blocks: seq<Block>, x: Name)
    ensures x in BlocksMention(blocks) <==> exists p: Place | IsPlace(blocks, p) :: x in Mentions(At(blocks, p))
  {
    if blocks != [] {
      InstsMentionIn(blocks[0].insts, x);
      BlocksMentionIn(blocks[1..], x);
      if p: Place :| IsPlace(blocks, p) && x in Mentions(At(blocks, p)) {
        if p.0 > 0 {
          assert IsPlace(blocks[1..], (p.0 - 1, p.1)) && At(blocks[1..], (p.0 - 1, p.1)) == At(blocks, p);
        }
      }
      if x in InstsMention(blocks[0].insts) {
        var i :| 0 <= i < |blocks[0].insts| && x in Mentions(blocks[0].insts[i]);
        assert IsPlace(blocks, (0, i)) && At(blocks, (0, i)) == blocks[0].insts[i];
      } else if x in BlocksMention(blocks[1..]) {
        var p: Place :| IsPlace(blocks[1..], p) && x in Mentions(At(blocks[1..], p));
        assert IsPlace(blocks, (p.0 + 1, p.1)) && At(blocks, (p.0 + 1, p.1)) == At(blocks[1..], p);
      }
    }
  }

  /** Later mentions are the mentions at later places. */
  lemma LaterIn(blocks: seq<Block>, p: Place, x: Name)
    requires IsPlace(blocks, p)
    ensures x in Later(blocks, p) <==> exists q: Place | IsPlace(blocks, q) && Before(p, q) ::
            x in Mentions(At(blocks, q))
  {
    if x in Later(blocks, p) {
      LaterMentioned(blocks, p, x);
    }
    forall q: Place | IsPlace(blocks, q) && Before(p, q) && x in Mentions(At(blocks, q)) ensures x in Later(blocks, p) {
      MentionIsLater(blocks, p, q, x);
    }
  }

  lemma LaterMentioned(blocks: seq<Block>, p: Place, x: Name)
    requires IsPlace(blocks, p) && x in Later(blocks, p)
    ensures exists q: Place | IsPlace(blocks, q) && Before(p, q) :: x in Mentions(At(blocks, q))
  {
    var tail := blocks[p.0].insts[p.1 + 1..];
    if x in InstsMention(tail) {
      InstsMentionIn(tail, x);
      var i :| 0 <= i < |tail| && x in Mentions(tail[i]);
      assert IsPlace(blocks, (p.0, p.1 + 1 + i)) && At(blocks, (p.0, p.1 + 1 + i)) == tail[i];
    } else {
      BlocksMentionIn(blocks[p.0 + 1..], x);
      var q: Place :| IsPlace(blocks[p.0 + 1..], q) && x in Mentions(At(blocks[p.0 + 1..], q));
      assert IsPlace(blocks, (p.0 + 1 + q.0, q.1)) && At(blocks, (p.0 + 1 + q.0, q.1)) == At(blocks[p.0 + 1..], q);
    }
  }

  lemma MentionIsLater(blocks: seq<Block>, p: Place, q: Place, x: Name)
    requires IsPlace(blocks, p) && IsPlace(blocks, q) && Before(p, q) && x in Mentions(At(blocks, q))
    ensures x in Later(blocks, p)
  {
    if q.0 == p.0 {
      var tail := blocks[p.0].insts[p.1 + 1..];
      assert tail[q.1 - p.1 - 1] == At(blocks, q);
      InstsMentionIn(tail, x);
    } else {
      var rest := blocks[p.0 + 1..];
      assert IsPlace(rest, (q.0 - p.0 - 1, q.1)) && At(rest, (q.0 - p.0 - 1, q.1)) == At(blocks, q);
      BlocksMentionIn(rest, x);
    }
  }

  /** Flags by place and flags by suffix are the same thing. */
  lemma {:induction false} FlaggedInstsByPlace(insts: seq<Inst>, after: set<Name>)
    requires forall i | 0 <= i < |insts| :: Flagged(insts[i], InstsMention(insts[i + 1..]) + after)
    ensures FlaggedInsts(insts, after)
  {
    if insts != [] {
      var rest := insts[1..];
      forall i | 0 <= i < |rest| ensures Flagged(rest[i], InstsMention(rest[i + 1..]) + after) {
        assert rest[i] == insts[i + 1] && rest[i + 1..] == insts[i + 2..];
      }
      FlaggedInstsByPlace(rest, after);
    }
  }

  lemma {:induction false} FlaggedBlocksByPlace(blocks: seq<Block>)
    requires forall p: Place | IsPlace(blocks, p) :: Flagged(At(blocks, p), Later(blocks, p))
    ensures FlaggedBlocks(blocks)
  {
    if blocks != [] {
      forall i | 0 <= i < |blocks[0].insts|
        ensures Flagged(blocks[0].insts[i], InstsMention(blocks[0].insts[i + 1..]) + BlocksMention(blocks[1..]))
      {
        assert At(blocks, (0, i)) == blocks[0].insts[i];
      }
      FlaggedInstsByPlace(blocks[0].insts, BlocksMention(blocks[1..]));
      forall p: Place | IsPlace(blocks[1..], p) ensures Flagged(At(blocks[1..], p), Later(blocks[1..], p)) {
        assert At(blocks, (p.0 + 1, p.1)) == At(blocks[1..], p);
        assert blocks[1..][p.0 + 1..] == blocks[p.0 + 2..];
      }
      FlaggedBlocksByPlace(blocks[1..]);
    }
  }

  // The two passes

  /** The map holds the last place among those before end that mentions a name. */
  ghost predicate LastMentions(blocks: seq<Block>, lifetime: map<Name, Place>, end: Place) {
    (forall x | x in lifetime :: MentionedAt(blocks, lifetime[x], x) && Before(lifetime[x], end)) &&
    (forall x, q: Place | MentionedAt(blocks, q, x) && Before(q, end) :: x in lifetime && !Before(lifetime[x], q))
  }

  ghost predicate MentionedAt(blocks: seq<Block>, p: Place, x: Name) {
    IsPlace(blocks, p) && x in Mentions(At(blocks, p))
  }

  /** r is the map with all of xs moved to p. */
  ghost predicate Redirected(lifetime: map<Name, Place>, r: map<Name, Place>, xs: set<Name>, p: Place) {
    r.Keys == lifetime.Keys + xs &&
    forall x | x in r :: r[x] == if x in xs then p else lifetime[x]
  }

  method DocumentInstruction(blocks: seq<Block>, lifetime: map<Name, Place>, b: nat, i: nat)
      returns (r: map<Name, Place>)
    requires IsPlace(blocks, (b, i))
    ensures Redirected(lifetime, r, Mentions(At(blocks, (b, i))), (b, i))
  {
    var inst := blocks[b].insts[i];
    ghost var xs := if inst.result.Some? then {inst.result.value} else {};
    r := lifetime;
    if inst.result.Some? {
      r := r[inst.result.value := (b, i)];
    }
    for k := 0 to |inst.operands|
      invariant Redirected(lifetime, r, xs + VarNames(inst.operands[..k]), (b, i))
    {
      VarNamesStep(inst.operands, k);
      if inst.operands[k].Var? {
        r := r[inst.operands[k].name := (b, i)];
      }
    }
    assert inst.operands[..|inst.operands|] == inst.operands;
    assert xs + VarNames(inst.operands) == Mentions(inst);
  }

  lemma VarNamesStep(vs: seq<Value>, k: nat)
    requires k < |vs|
    ensures VarNames(vs[..k + 1]) == VarNames(vs[..k]) + if vs[k].Var? then {vs[k].name} else {}
  {
    assert vs[..k + 1] == vs[..k] + [vs[k]];
    assert forall v | v in vs[..k + 1] :: v in vs[..k] || v == vs[k];
    assert vs[k] in vs[..k + 1];
    forall x | x in VarNames(vs[..k]) ensures x in VarNames(vs[..k + 1]) {
      var v :| v in vs[..k] && v.Var? && v.name == x;
      assert v in vs[..k + 1];
    }
  }

  method DetectDropped(inst: Inst, lifetime: map<Name, Place>, here: Place) returns (flags: seq<bool>)
    requires forall v | v in inst.operands && v.Var? :: v.name in lifetime
    ensures |flags| == |inst.operands|
    ensures forall k | 0 <= k < |flags| :: flags[k] <==>
              inst.operands[k].Var? && lifetime[inst.operands[k].name] == here
  {
    flags := [];
    for k := 0 to |inst.operands|
      invariant |flags| == k
      invariant forall j | 0 <= j < k :: flags[j] <==> inst.operands[j].Var? && lifetime[inst.operands[j].name] == here
    {
      flags := flags + [inst.operands[k].Var? && lifetime[inst.operands[k].name] == here];
    }
  }

  /** Two functions that differ at most in their drop flags. */
  ghost predicate SameCode(f: Function, g: Function) {
    g == f.(blocks := g.blocks) && SameBlocks(f.blocks, g.blocks)
  }

  ghost predicate SameBlocks(bs: seq<Block>, cs: seq<Block>) {
    |bs| == |cs| && forall b | 0 <= b < |bs| :: SameBlock(bs[b], cs[b])
  }

  ghost predicate SameBlock(b: Block, c: Block) {
    b.name == c.name && |b.insts| == |c.insts| &&
    forall i | 0 <= i < |b.insts| :: SameInst(b.insts[i], c.insts[i])
  }

  ghost predicate SameInst(a: Inst, b: Inst) {
    b == a.(dropped := b.dropped)
  }

  method FirstPass(blocks: seq<Block>) returns (lifetime: map<Name, Place>)
    ensures LastMentions(blocks, lifetime, (|blocks|, 0))
  {
    lifetime := map[];
    for b := 0 to |blocks|
      invariant LastMentions(blocks, lifetime, (b, 0))
    {
      for i := 0 to |blocks[b].insts|
        invariant LastMentions(blocks, lifetime, (b, i))
      {
        var next := DocumentInstruction(blocks, lifetime, b, i);
        LastMentionsStep(blocks, lifetime, next, b, i);
        lifetime := next;
      }
      LastMentionsEndOfBlock(blocks, lifetime, b);
    }
  }

  lemma LastMentionsStep(blocks: seq<Block>, lifetime: map<Name, Place>, next: map<Name, Place>, b: nat, i: nat)
    requires LastMentions(blocks, lifetime, (b, i)) && IsPlace(blocks, (b, i))
    requires Redirected(lifetime, next, Mentions(At(blocks, (b, i))), (b, i))
    ensures LastMentions(blocks, next, (b, i + 1))
  {
    hide Mentions;
    forall x | x in next ensures MentionedAt(blocks, next[x], x) && Before(next[x], (b, i + 1)) {
    }
    forall x, q: Place | MentionedAt(blocks, q, x) && Before(q, (b, i + 1)) ensures x in next && !Before(next[x], q) {
      if x !in Mentions(At(blocks, (b, i))) {
        assert Before(q, (b, i));
      }
    }
  }

  lemma LastMentionsEndOfBlock(blocks: seq<Block>, lifetime: map<Name, Place>, b: nat)
    requires b < |blocks| && LastMentions(blocks, lifetime, (b, |blocks[b].insts|))
    ensures LastMentions(blocks, lifetime, (b + 1, 0))
  {
    assert forall q: Place | IsPlace(blocks, q) :: Before(q, (b + 1, 0)) <==> Before(q, (b, |blocks[b].insts|));
  }

  method MarkInstruction(blocks: seq<Block>, lifetime: map<Name, Place>, b: nat, i: nat) returns (inst: Inst)
    requires LastMentions(blocks, lifetime, (|blocks|, 0)) && IsPlace(blocks, (b, i))
    ensures SameInst(At(blocks, (b, i)), inst) && Flagged(inst, Later(blocks, (b, i)))
  {
    inst := blocks[b].insts[i];
    forall v | v in inst.operands && v.Var?
      ensures v.name in lifetime && (lifetime[v.name] == (b, i) <==> v.name !in Later(blocks, (b, i)))
    {
      LastMentionDecides(blocks, lifetime, (b, i), v.name);
    }
    var flags := DetectDropped(inst, lifetime, (b, i));
    inst := inst.(dropped := flags);
  }

  /** Block b with its operands marked. */
  ghost predicate Marked(blocks: seq<Block>, b: nat, block: Block)
    requires b < |blocks|
  {
    SameBlock(blocks[b], block) && forall i | 0 <= i < |block.insts| :: Flagged(block.insts[i], Later(blocks, (b, i)))
  }

  lemma MarkedPlace(blocks: seq<Block>, marked: seq<Block>, p: Place)
    requires IsPlace(marked, p) && p.0 < |blocks| && Marked(blocks, p.0, marked[p.0])
    ensures IsPlace(blocks, p) && Flagged(At(marked, p), Later(blocks, p))
  {
    hide Flagged, Later, SameInst;
  }

  lemma MarkedSame(blocks: seq<Block>, b: nat, block: Block)
    requires b < |blocks| && Marked(blocks, b, block)
    ensures SameBlock(blocks[b], block)
  {
  }

  method MarkBlock(blocks: seq<Block>, lifetime: map<Name, Place>, b: nat) returns (block: Block)
    requires LastMentions(blocks, lifetime, (|blocks|, 0)) && b < |blocks|
    ensures Marked(blocks, b, block)
  {
    hide LastMentions, Flagged, Later, SameInst;
    var insts := [];
    for i := 0 to |blocks[b].insts|
      invariant |insts| == i
      invariant forall j | 0 <= j < i :: SameInst(blocks[b].insts[j], insts[j])
      invariant forall j | 0 <= j < i :: Flagged(insts[j], Later(blocks, (b, j)))
    {
      var inst := MarkInstruction(blocks, lifetime, b, i);
      insts := insts + [inst];
    }
    block := blocks[b].(insts := insts);
  }

  /** Marks every operand that is mentioned for the last time. Exactly the variables no
      later instruction mentions are marked, and nothing else changes. */
  method AnalyzeVariableLifetimes(f: Function) returns (g: Function)
    ensures SameCode(f, g)
    ensures forall p: Place | IsPlace(g.blocks, p) ::
              IsPlace(f.blocks, p) && Flagged(At(g.blocks, p), Later(f.blocks, p))
  {
    hide LastMentions, Flagged, Later, SameBlock, Marked, IsPlace;
    var lifetime := FirstPass(f.blocks);
    var blocks := [];
    for b := 0 to |f.blocks|
      invariant |blocks| == b
      invariant forall c | 0 <= c < b :: Marked(f.blocks, c, blocks[c])
    {
      var block := MarkBlock(f.blocks, lifetime, b);
      blocks := blocks + [block];
    }
    g := f.(blocks := blocks);
    forall c | 0 <= c < |blocks| ensures SameBlock(f.blocks[c], blocks[c]) {
      MarkedSame(f.blocks, c, blocks[c]);
    }
    forall p: Place | IsPlace(g.blocks, p)
      ensures IsPlace(f.blocks, p) && Flagged(At(g.blocks, p), Later(f.blocks, p))
    {
      PlaceBounds(g.blocks, p);
      MarkedPlace(f.blocks, g.blocks, p);
    }
  }

  lemma PlaceBounds(blocks: seq<Block>, p: Place)
    requires IsPlace(blocks, p)
    ensures p.0 < |blocks|
  {
  }

  lemma LastMentionDecides(blocks: seq<Block>, lifetime: map<Name, Place>, p: Place, x: Name)
    requires LastMentions(blocks, lifetime, (|blocks|, 0))
    requires IsPlace(blocks, p) && x in Mentions(At(blocks, p))
    ensures x in lifetime && (lifetime[x] == p <==> x !in Later(blocks, p))
  {
    LaterIn(blocks, p, x);
    assert MentionedAt(blocks, p, x) && Before(p, (|blocks|, 0));
    forall q: Place | IsPlace(blocks, q) && Before(p, q) && x in Mentions(At(blocks, q)) ensures lifetime[x] != p {
      assert MentionedAt(blocks, q, x) && Before(q, (|blocks|, 0));
    }
  }

  lemma {:induction false} SameInstsMention(xs: seq<Inst>, ys: seq<Inst>)
    requires |xs| == |ys| && forall i | 0 <= i < |xs| :: SameInst(xs[i], ys[i])
    ensures InstsMention(xs) == InstsMention(ys)
  {
    if xs != [] {
      assert SameInst(xs[0], ys[0]);
      assert forall i | 0 <= i < |xs| - 1 :: xs[1..][i] == xs[i + 1] && ys[1..][i] == ys[i + 1];
      SameInstsMention(xs[1..], ys[1..]);
    }
  }

  lemma {:induction false} SameBlocksMention(bs: seq<Block>, cs: seq<Block>)
    requires SameBlocks(bs, cs)
    ensures BlocksMention(bs) == BlocksMention(cs)
  {
    if bs != [] {
      assert SameBlock(bs[0], cs[0]);
      SameInstsMention(bs[0].insts, cs[0].insts);
      assert forall b | 0 <= b < |bs| - 1 :: bs[1..][b] == bs[b + 1] && cs[1..][b] == cs[b + 1];
      SameBlocksMention(bs[1..], cs[1..]);
    }
  }

  lemma SameLater(bs: seq<Block>, cs: seq<Block>, p: Place)
    requires SameBlocks(bs, cs) && IsPlace(cs, p) && IsPlace(bs, p)
    ensures Later(bs, p) == Later(cs, p)
  {
    hide InstsMention, BlocksMention;
    assert SameBlock(bs[p.0], cs[p.0]);
    var xs, ys := bs[p.0].insts[p.1 + 1..], cs[p.0].insts[p.1 + 1..];
    forall i | 0 <= i < |xs| ensures SameInst(xs[i], ys[i]) {
      assert xs[i] == bs[p.0].insts[p.1 + 1 + i] && ys[i] == cs[p.0].insts[p.1 + 1 + i];
    }
    SameInstsMention(xs, ys);
    var us, vs := bs[p.0 + 1..], cs[p.0 + 1..];
    assert forall b | 0 <= b < |us| :: us[b] == bs[p.0 + 1 + b] && vs[b] == cs[p.0 + 1 + b];
    SameBlocksMention(us, vs);
  }

  /** What the analysis returns is flagged in the form code generation relies on. */
  lemma AnalysisFlagsBlocks(f: Function, g: Function)
    requires SameCode(f, g)
    requires forall p: Place | IsPlace(g.blocks, p) ::
               IsPlace(f.blocks, p) && Flagged(At(g.blocks, p), Later(f.blocks, p))
    ensures FlaggedBlocks(g.blocks)
  {
    forall p: Place | IsPlace(g.blocks, p) ensures Flagged(At(g.blocks, p), Later(g.blocks, p)) {
      SameLater(f.blocks, g.blocks, p);
    }
    FlaggedBlocksByPlace(g.blocks);
  }

  // What the analysis computes

  function FlagsOf(inst: Inst, later: set<Name>): seq<bool> {
    seq(|inst.operands|, k requires 0 <= k < |inst.operands| => inst.operands[k].Var? &&
        inst.operands[k].name !in later)
  }

  function AnalyzedInsts(insts: seq<Inst>, after: set<Name>): seq<Inst> {
    if insts == [] then []
    else [insts[0].(dropped := FlagsOf(insts[0], InstsMention(insts[1..]) + after))] + AnalyzedInsts(insts[1..], after)
  }

  function AnalyzedBlocks(blocks: seq<Block>): seq<Block> {
    if blocks == [] then []
    else
      [Block(blocks[0].name, AnalyzedInsts(blocks[0].insts, BlocksMention(blocks[1..])))] +
      AnalyzedBlocks(blocks[1..])
  }

  function Analyzed(f: Function): Function {
    f.(blocks := AnalyzedBlocks(f.blocks))
  }

  lemma {:induction false} InstsAnalyzed(xs: seq<Inst>, ys: seq<Inst>, after: set<Name>)
    requires |xs| == |ys| && (forall i | 0 <= i < |xs| :: SameInst(xs[i], ys[i])) && FlaggedInsts(ys, after)
    ensures ys == AnalyzedInsts(xs, after)
  {
    if xs != [] {
      assert SameInst(xs[0], ys[0]);
      assert forall i | 0 <= i < |xs| - 1 :: xs[1..][i] == xs[i + 1] && ys[1..][i] == ys[i + 1];
      SameInstsMention(xs[1..], ys[1..]);
      assert ys[0].dropped == FlagsOf(xs[0], InstsMention(xs[1..]) + after);
      InstsAnalyzed(xs[1..], ys[1..], after);
    }
  }

  lemma {:induction false} BlocksAnalyzed(bs: seq<Block>, cs: seq<Block>)
    requires SameBlocks(bs, cs) && FlaggedBlocks(cs)
    ensures cs == AnalyzedBlocks(bs)
  {
    if bs != [] {
      assert SameBlock(bs[0], cs[0]);
      assert forall b | 0 <= b < |bs| - 1 :: bs[1..][b] == bs[b + 1] && cs[1..][b] == cs[b + 1];
      SameBlocksMention(bs[1..], cs[1..]);
      InstsAnalyzed(bs[0].insts, cs[0].insts, BlocksMention(bs[1..]));
      BlocksAnalyzed(bs[1..], cs[1..]);
    }
  }

  /** Flags are determined by the code: there is one analyzed form of a function. */
  lemma AnalysisIsUnique(f: Function, g: Function)
    requires SameCode(f, g) && FlaggedBlocks(g.blocks)
    ensures g == Analyzed(f)
  {
    BlocksAnalyzed(f.blocks, g.blocks);
  }

  lemma {:induction false} AnalyzedSameInsts(insts: seq<Inst>, after: set<Name>)
    ensures |AnalyzedInsts(insts, after)| == |insts|
    ensures forall i | 0 <= i < |insts| :: SameInst(insts[i], AnalyzedInsts(insts, after)[i])
  {
    if insts != [] {
      AnalyzedSameInsts(insts[1..], after);
      assert forall i | 0 < i < |insts| :: insts[i] == insts[1..][i - 1];
    }
  }

  lemma {:induction false} AnalyzedSameBlocks(blocks: seq<Block>)
    ensures SameBlocks(blocks, AnalyzedBlocks(blocks))
  {
    if blocks != [] {
      AnalyzedSameInsts(blocks[0].insts, BlocksMention(blocks[1..]));
      AnalyzedSameBlocks(blocks[1..]);
      var rest := AnalyzedBlocks(blocks[1..]);
      forall b | 0 <= b < |blocks| ensures SameBlock(blocks[b], AnalyzedBlocks(blocks)[b]) {
        if b > 0 {
          assert blocks[b] == blocks[1..][b - 1] && SameBlock(blocks[1..][b - 1], rest[b - 1]);
        }
      }
    }
  }

  // Runs

  /** One step of control from a point, which may be the end of a block. */
  ghost predicate Follows(blocks: seq<Block>, p: Place, q: Place) {
    p.0 < |blocks| && p.1 <= |blocks[p.0].insts| &&
    if p.1 == |blocks[p.0].insts| then q == (p.0 + 1, 0)
    else if Targets(At(blocks, p).op) != [] then
      exists l | l in Targets(At(blocks, p).op) :: FindBlock(blocks, l).Some? && q == (FindBlock(blocks, l).value, 0)
    else !At(blocks, p).op.Ret? && q == (p.0, p.1 + 1)
  }

  ghost predicate IsRun(blocks: seq<Block>, run: seq<Place>) {
    forall k | 0 <= k < |run| - 1 :: Follows(blocks, run[k], run[k + 1])
  }

  /** Every jump goes to a block further down. */
  ghost predicate JumpsForward(blocks: seq<Block>) {
    forall p: Place, l | IsPlace(blocks, p) && l in Targets(At(blocks, p).op) && FindBlock(blocks, l).Some? ::
      FindBlock(blocks, l).value > p.0
  }

  lemma {:induction false} RunsGoForward(blocks: seq<Block>, run: seq<Place>, k: nat, l: nat)
    requires IsRun(blocks, run) && JumpsForward(blocks)
    requires k < l < |run|
    ensures Before(run[k], run[l])
    decreases l - k
  {
    assert Follows(blocks, run[k], run[k + 1]);
    if k + 1 < l {
      RunsGoForward(blocks, run, k + 1, l);
    }
  }

  /** No run of a function with forward jumps mentions a name after the instruction at
      which it was marked as dropped. */
  lemma DropsAreSound(blocks: seq<Block>, run: seq<Place>, k: nat, l: nat, o: nat)
    requires IsRun(blocks, run) && JumpsForward(blocks)
    requires forall p: Place | IsPlace(blocks, p) :: Flagged(At(blocks, p), Later(blocks, p))
    requires k < l < |run| && IsPlace(blocks, run[k]) && IsPlace(blocks, run[l])
    requires o < |At(blocks, run[k]).operands| && |At(blocks, run[k]).dropped| == |At(blocks, run[k]).operands|
    requires At(blocks, run[k]).operands[o].Var? && At(blocks, run[k]).dropped[o]
    ensures At(blocks, run[k]).operands[o].name !in Mentions(At(blocks, run[l]))
  {
    RunsGoForward(blocks, run, k, l);
    LaterIn(blocks, run[k], At(blocks, run[k]).operands[o].name);
  }
}
