/** The bytes that loads and stores access: those of the allocation, as many as the size says
    (src/backend/codegen/instructions.cpp, src/ir/nodes.hpp, src/backend/codegen/asmgen/asm_nodes.cpp). */
module Accesses {
  import opened Wrappers
  import opened Ir
  import opened Text
  import opened Machine
  import opened Storage
  import opened Lowering
  import opened WholeFunctions
  import opened FrameLayout
  import Frames
  import Emitter

  // Sizes

  /** An integer size of n bits has the fewest bytes that hold them; a pointer has those of i64. */
  lemma BytesHoldBits(size: Size, n: nat)
    requires Emitter.SizeName(size) == Some("i" + Decimal(n))
    ensures SizeInBytes(size).Some? && 8 * (SizeInBytes(size).value - 1) < n <= 8 * SizeInBytes(size).value
    ensures SizeInBytes(Ptr) == SizeInBytes(I64) && EightBytes(size) == (n == 64)
  {
    var name := "i" + Decimal(n);
    assert name[0] == 'i' && name[1..] == Decimal(n);
    assert "void"[0] == 'v' && "ptr"[0] == 'p';
    assert Decimal(1) == "1" && Decimal(8) == "8";
    assert Decimal(16) == "16" && Decimal(32) == "32" && Decimal(64) == "64";
    SameNumeral(n, 1);
    SameNumeral(n, 8);
    SameNumeral(n, 16);
    SameNumeral(n, 32);
    SameNumeral(n, 64);
  }

  lemma SameNumeral(m: nat, n: nat)
    ensures Decimal(m) == Decimal(n) ==> m == n
  {
    NumeralOfDecimal(m);
    NumeralOfDecimal(n);
  }

  // The operand in memory

  /** The bytes an instruction accesses through an operand, by their addresses. */
  ghost predicate Touches(o: Operand, rbp: int, a: int) {
    o.OMem? && SizeInBytes(o.size).Some? && rbp - o.below <= a < rbp - o.below + SizeInBytes(o.size).value
  }

  /** The operand accesses so many bytes from an address on, and no others. */
  ghost predicate TouchesFrom(o: Operand, rbp: int, at: int, n: nat) {
    o.OMem? && forall a: int :: Touches(o, rbp, a) <==> at <= a < at + n
  }

  /** A store through a pointer to an allocation writes as many bytes as its size has, from the
      start of the allocation on. */
  lemma StoreTouches(cx: Context, st: Store, size: Size, ops: seq<Value>, n: nat, rbp: int)
    requires LowerStore(cx, st, size, ops).Ok? && SizeInBytes(size) == Some(n)
    requires ops[0].Var? && ops[0].name in st.vmap && st.vmap[ops[0].name].Slot?
    ensures var nodes := LowerStore(cx, st, size, ops).value.nodes;
            |nodes| == 1 && nodes[0].NMov? && TouchesFrom(nodes[0].dest, rbp, rbp - st.vmap[ops[0].name].below, n)
  {
  }

  /** A load reads as many, and if its result is in the frame it writes as many there. */
  lemma LoadTouches(cx: Context, st: Store, size: Size, ops: seq<Value>, n: nat, rbp: int)
    requires LowerLoad(cx, st, size, ops).Ok? && SizeInBytes(size) == Some(n)
    requires ops[0].Var? && ops[0].name in st.vmap && st.vmap[ops[0].name].Slot?
    ensures var low := LowerLoad(cx, st, size, ops).value;
            |low.nodes| == 1 && low.nodes[0].NMov? &&
            TouchesFrom(low.nodes[0].src, rbp, rbp - st.vmap[ops[0].name].below, n) && low.dest.Some? &&
            (low.dest.value.Slot? ==>
               low.dest.value.below == st.frame + n &&
               TouchesFrom(low.nodes[0].dest, rbp, rbp - low.dest.value.below, n))
  {
    hide FirstFree;
  }

  // In a compiled function

  /** The operand through which an instruction accesses an allocation. */
  function MemoryOperand(op: Op, nodes: seq<Node>): Operand
    requires |nodes| == 1 && nodes[0].NMov?
  {
    if op.Store? then nodes[0].dest else nodes[0].src
  }

  function AccessSize(op: Op): Size
    requires op.Store? || op.Load?
  {
    if op.Store? then op.ssize else op.size
  }

  /** Instruction i of block b stores or loads through a name that is in the frame. */
  ghost predicate Accesses(globals: set<Name>, f: Function, b: nat, i: nat, x: Name) {
    CompileFunction(globals, f).Ok? && |f.params| <= MAX_ARGS && b < |f.blocks| && i < |f.blocks[b].insts| &&
    var inst := f.blocks[b].insts[i];
    (inst.op.Store? || inst.op.Load?) && inst.operands != [] && inst.operands[0].Var? && inst.operands[0].name == x &&
    StateAt(Context(f.returnType, globals), f, b, i).Ok? &&
    var st := StateAt(Context(f.returnType, globals), f, b, i).value;
    x in st.vmap && st.vmap[x].Slot?
  }

  lemma InstTouches(cx: Context, st: Store, inst: Inst, x: Name, n: nat, rbp: int)
    requires LowerInst(cx, st, inst).Ok? && (inst.op.Store? || inst.op.Load?)
    requires inst.operands != [] && inst.operands[0].Var? && inst.operands[0].name == x
    requires x in st.vmap && st.vmap[x].Slot? && SizeInBytes(AccessSize(inst.op)) == Some(n)
    ensures var nodes := LowerInst(cx, st, inst).value.nodes;
            |nodes| == 1 && nodes[0].NMov? &&
            TouchesFrom(MemoryOperand(inst.op, nodes), rbp, rbp - st.vmap[x].below, n)
  {
    hide LowerStore, LowerLoad, DropAll, TouchesFrom;
    var pending := Pending(inst.operands, inst.dropped);
    DropsQuiet(st, st, pending);
    if inst.op.Store? {
      StoreTouches(cx, DropAll(st, pending), inst.op.ssize, inst.operands, n, rbp);
    } else {
      LoadTouches(cx, DropAll(st, pending), inst.op.size, inst.operands, n, rbp);
    }
  }

  lemma LowersAt(globals: set<Name>, f: Function, b: nat, i: nat)
    requires CompileFunction(globals, f).Ok? && |f.params| <= MAX_ARGS && b < |f.blocks| && i < |f.blocks[b].insts|
    ensures StateAt(Context(f.returnType, globals), f, b, i).Ok?
    ensures var cx := Context(f.returnType, globals);
            LowerInst(cx, StateAt(cx, f, b, i).value, f.blocks[b].insts[i]).Ok?
  {
    hide LowerBlocks, LowerInst, LowerInsts, CompileFunction;
    var cx, insts := Context(f.returnType, globals), f.blocks[b].insts;
    var st0, st := Reached(globals, f, b, i);
    var also, st1 := Reached(globals, f, b, i + 1);
    assert insts[..i + 1] == insts[..i] + [insts[i]];
    LowerInstsAppend(cx, st0, insts[..i], [insts[i]]);
    FirstLowers(cx, st, insts[i]);
  }

  lemma FirstLowers(cx: Context, st: Store, inst: Inst)
    requires LowerInsts(cx, st, [inst]).Ok?
    ensures LowerInst(cx, st, inst).Ok?
  {
  }

  /** Where rbp and rsp are in a compiled function with a frame. */
  ghost predicate InFrame(globals: set<Name>, f: Function, m0: State, m1: State) {
    m0.Valid() && CompileFunction(globals, f).Ok? &&
    var fn := CompileFunction(globals, f).value;
    fn.frame > 0 && Frames.Registers(fn.saved) && Frames.Entered(fn.frame, fn.saved, m0, m1)
  }

  /** Instruction i of block b accesses n bytes from the start of a name on, no byte of another
      name in the frame, and none outside the frame: neither the saved registers below it, nor
      the saved rbp and the caller's memory above. */
  ghost predicate StaysInside(globals: set<Name>, f: Function, b: nat, i: nat, x: Name, n: nat, m1: State)
    requires Accesses(globals, f, b, i, x)
  {
    var cx, inst := Context(f.returnType, globals), f.blocks[b].insts[i];
    var st, bytes := StateAt(cx, f, b, i).value, BytesAt(cx, f, b, i);
    LowerInst(cx, st, inst).Ok? &&
    var nodes := LowerInst(cx, st, inst).value.nodes;
    |nodes| == 1 && nodes[0].NMov? &&
    var o := MemoryOperand(inst.op, nodes);
    TouchesFrom(o, m1.rbp, m1.rbp - st.vmap[x].below, n) &&
    (forall a: int | Touches(o, m1.rbp, a) :: m1.rsp + 8 * |CompileFunction(globals, f).value.saved| <= a < m1.rbp) &&
    (forall y | y in st.vmap && st.vmap[y].Slot? && y != x :: y in bytes &&
       forall a: int | Touches(o, m1.rbp, a) ::
         !(m1.rbp - st.vmap[y].below <= a < m1.rbp - st.vmap[y].below + bytes[y]))
  }

  /** So it is if the size has no more bytes than the name. */
  lemma AccessesStayInside(globals: set<Name>, f: Function, b: nat, i: nat, x: Name, n: nat, m0: State, m1: State)
    requires Accesses(globals, f, b, i, x) && Assigned(f) && InFrame(globals, f, m0, m1)
    requires SizeInBytes(AccessSize(f.blocks[b].insts[i].op)) == Some(n)
    requires x in BytesAt(Context(f.returnType, globals), f, b, i) &&
             n <= BytesAt(Context(f.returnType, globals), f, b, i)[x]
    ensures StaysInside(globals, f, b, i, x, n, m1)
  {
    hide CompileFunction, StateAt, BytesAt, LowerInst, Touches;
    var cx := Context(f.returnType, globals);
    var st := StateAt(cx, f, b, i).value;
    LowersAt(globals, f, b, i);
    InstTouches(cx, st, f.blocks[b].insts[i], x, n, m1.rbp);
    FrameHoldsEverySlot(globals, f, b, i);
    forall y | y in st.vmap && st.vmap[y].Slot? && y != x
      ensures var bytes := BytesAt(cx, f, b, i);
              y in bytes && Apart(st.vmap[x].below, bytes[x], st.vmap[y].below, bytes[y])
    {
    }
  }

  /** A store or load through an allocated pointer stays inside the allocation, anywhere later in
      the function, if its size has no more bytes than were allocated. */
  lemma AllocationsAreAccessedInside(globals: set<Name>, f: Function, c: nat, j: nat, b: nat, i: nat, n: nat,
                                     m0: State, m1: State)
    requires c < |f.blocks| && j < |f.blocks[c].insts| && f.blocks[c].insts[j].op.Allocate? &&
             f.blocks[c].insts[j].result.Some?
    requires Accesses(globals, f, b, i, f.blocks[c].insts[j].result.value) && c <= b && (c == b ==> j < i)
    requires Assigned(f) && InFrame(globals, f, m0, m1)
    requires SizeInBytes(AccessSize(f.blocks[b].insts[i].op)) == Some(n) && n <= f.blocks[c].insts[j].op.bytes
    ensures StaysInside(globals, f, b, i, f.blocks[c].insts[j].result.value, n, m1)
  {
    hide CompileFunction, StateAt, BytesAt, StaysInside;
    AllocationsKeepTheirBytes(globals, f, c, j, b, i);
    AccessesStayInside(globals, f, b, i, f.blocks[c].insts[j].result.value, n, m0, m1);
  }
}
