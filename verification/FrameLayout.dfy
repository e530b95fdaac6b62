/** The layout of a function's frame: the parts of it that names are given, by allocation or
    because no register is free, do not overlap, whenever they are given
    (src/backend/codegen/valuegen.cpp, src/backend/codegen/dataflow.cpp). */
module FrameLayout {
  import opened Wrappers
  import opened Ir
  import opened Machine
  import opened Storage
  import opened Lowering
  import opened Ownership
  import opened Simulation
  import opened WholeFunctions
  import opened Frames
  import Generation
  import Tampering

  // The bytes that names in the frame are given

  function SizeBytes(size: Size): nat {
    match SizeInBytes(size)
    case Some(n) => n
    case None => 0
  }

  /** The bytes for the result of an instruction. */
  function ResultBytes(op: Op): nat {
    match op
    case Allocate(n) => n
    case Load(s) => SizeBytes(s)
    case _ => 0
  }

  /** The bytes for a name that is in the frame after an instruction: those it had, those of
      the size it had in the register it was moved out of, or those of a result. */
  function SlotBytes(st: Store, bytes: map<Name, nat>, op: Op, x: Name): nat {
    if x !in st.vmap then ResultBytes(op)
    else
      match st.vmap[x]
      case Slot(_) => if x in bytes then bytes[x] else 0
      case InReg(r) => SizeBytes(st.cells[r].size)
      case _ => 0
  }

  function BytesAfter(st: Store, bytes: map<Name, nat>, op: Op, st1: Store): map<Name, nat> {
    map x | x in st1.vmap && st1.vmap[x].Slot? :: SlotBytes(st, bytes, op, x)
  }

  function BytesAfterInsts(cx: Context, st: Store, insts: seq<Inst>, bytes: map<Name, nat>): map<Name, nat>
    requires LowerInsts(cx, st, insts).Ok?
    decreases |insts|
  {
    if insts == [] then bytes
    else
      var st1 := LowerInst(cx, st, insts[0]).value.st;
      BytesAfterInsts(cx, st1, insts[1..], BytesAfter(st, bytes, insts[0].op, st1))
  }

  function BytesAfterBlocks(cx: Context, st: Store, blocks: seq<Block>, bytes: map<Name, nat>): map<Name, nat>
    requires LowerBlocks(cx, st, blocks).Ok?
    decreases |blocks|
  {
    if blocks == [] then bytes
    else
      var st1 := LowerInsts(cx, st, blocks[0].insts).value.st;
      BytesAfterBlocks(cx, st1, blocks[1..], BytesAfterInsts(cx, st, blocks[0].insts, bytes))
  }

  /** The bytes of every name that is in the frame before instruction i of block b. */
  function BytesAt(cx: Context, f: Function, b: nat, i: nat): map<Name, nat>
    requires |f.params| <= MAX_ARGS && b < |f.blocks| && i <= |f.blocks[b].insts| && StateAt(cx, f, b, i).Ok?
  {
    var st := PlaceParams(f.params);
    BytesAfterInsts(cx, LowerBlocks(cx, st, f.blocks[..b]).value.0, f.blocks[b].insts[..i],
                    BytesAfterBlocks(cx, st, f.blocks[..b], map[]))
  }

  // Slots

  /** The bytes [b - n, b) and [c - k, c) below rbp have none in common. */
  predicate Apart(b: nat, n: nat, c: nat, k: nat) {
    b + k <= c || c + n <= b
  }

  /** Names in the frame have their bytes inside it, and no two have a byte in common. */
  ghost predicate Laid(st: Store, bytes: map<Name, nat>) {
    (forall x | x in st.vmap && st.vmap[x].Slot? :: x in bytes && bytes[x] <= st.vmap[x].below <= st.frame) &&
    (forall x, y | x in st.vmap && y in st.vmap && x != y && st.vmap[x].Slot? && st.vmap[y].Slot? ::
       Apart(st.vmap[x].below, bytes[x], st.vmap[y].below, bytes[y]))
  }

  /** The same while an instruction is lowered that started in st0. */
  ghost predicate Laying(st0: Store, bytes: map<Name, nat>, op: Op, st: Store) {
    st0.frame <= st.frame && Laid(st, BytesAfter(st0, bytes, op, st)) && Staying(st0, st) &&
    (forall x | x in st.vmap && st.vmap[x].Slot? :: x in st0.vmap)
  }

  /** No names but temporaries are new, and those in the frame stay where they are. */
  ghost predicate Staying(st0: Store, st: Store) {
    forall x | x in st.vmap && !IsTemp(x) :: Stays(st0, st, x)
  }

  predicate Stays(st0: Store, st: Store, x: Name)
    requires x in st.vmap
  {
    x in st0.vmap && (st0.vmap[x].Slot? ==> st.vmap[x] == st0.vmap[x])
  }

  /** The same for an instruction, but for its result. */
  ghost predicate StayingBut(st0: Store, st: Store, result: Option<Name>) {
    forall x | x in st.vmap && !IsTemp(x) && result != Some(x) :: Stays(st0, st, x)
  }

  /** Owners are names that were in registers of the same size. */
  ghost predicate SizesKept(st0: Store, st: Store) {
    forall r: Register | st.cells[r].owner != "" ::
      var x := st.cells[r].owner;
      x in st0.vmap && st0.vmap[x].InReg? && st.cells[r].size == st0.cells[st0.vmap[x].reg].size
  }

  lemma LayingQuietly(st0: Store, bytes: map<Name, nat>, op: Op, st: Store, st1: Store)
    requires Laying(st0, bytes, op, st) && st.frame <= st1.frame
    requires forall x | x in st1.vmap && st1.vmap[x].Slot? :: x in st.vmap && st.vmap[x] == st1.vmap[x]
    requires Staying(st, st1)
    ensures Laying(st0, bytes, op, st1)
  {
  }

  lemma LaidAbove(st: Store, st1: Store, bytes: map<Name, nat>, bytes1: map<Name, nat>, z: Name)
    requires Laid(st, bytes) && z in st1.vmap && st1.vmap[z].Slot? && z in bytes1
    requires st.frame <= st1.frame == st1.vmap[z].below && st.frame + bytes1[z] <= st1.frame
    requires forall x | x in st1.vmap && st1.vmap[x].Slot? && x != z ::
               x in st.vmap && st.vmap[x] == st1.vmap[x] && x in bytes1 && bytes1[x] == bytes[x]
    ensures Laid(st1, bytes1)
  {
  }

  /** A vacated register's owner went to an unowned register, or to the new end of the frame. */
  ghost predicate Rehoused(st: Store, st1: Store, r: Register, home: Loc) {
    var x := st.cells[r].owner;
    x in st.vmap && st.vmap[x] == InReg(r) && st1.vmap == st.vmap[x := home] && st1.cells[r].owner == "" &&
    (forall s: Register | s != r && home != InReg(s) :: st1.cells[s] == st.cells[s]) &&
    (match home
     case InReg(h) =>
       h != r && st1.frame == st.frame && st1.cells[h].owner == x && st1.cells[h].size == st.cells[r].size
     case Slot(k) => k == st1.frame == st.frame + SizeBytes(st.cells[r].size)
     case _ => false)
  }

  lemma VacateRehouses(globals: set<Name>, st: Store, r: Register) returns (home: Loc)
    requires Sound(st) && EmptyRegister(globals, st, r).Ok? && st.cells[r].owner != ""
    ensures Rehoused(st, EmptyRegister(globals, st, r).value.st, r, home)
  {
    hide RemapValue, FirstFree;
    var found := FindValStorage(st, st.cells[r].size).value;
    home := found.1;
    RemapIs(found.0, st.cells[r].owner, r, home);
  }

  lemma VacateLays(globals: set<Name>, st0: Store, bytes: map<Name, nat>, op: Op, st: Store, r: Register)
    requires Sound(st) && Laying(st0, bytes, op, st) && SizesKept(st0, st) && EmptyRegister(globals, st, r).Ok?
    ensures var st1 := EmptyRegister(globals, st, r).value.st; Laying(st0, bytes, op, st1) && SizesKept(st0, st1)
  {
    if st.cells[r].owner != "" {
      hide EmptyRegister, Laying, SlotBytes;
      var home := VacateRehouses(globals, st, r);
      var st1 := EmptyRegister(globals, st, r).value.st;
      if home.InReg? {
        LayingQuietly(st0, bytes, op, st, st1);
      } else {
        SpillLays(st0, bytes, op, st, st1, st.cells[r].owner, r);
      }
    }
  }

  lemma SpillLays(st0: Store, bytes: map<Name, nat>, op: Op, st: Store, st1: Store, x: Name, r: Register)
    requires Laying(st0, bytes, op, st) && SizesKept(st0, st) && x == st.cells[r].owner != ""
    requires st1.frame == st.frame + SizeBytes(st.cells[r].size) && st1.vmap == st.vmap[x := Slot(st1.frame)]
    ensures Laying(st0, bytes, op, st1)
  {
    LaidAbove(st, st1, BytesAfter(st0, bytes, op, st), BytesAfter(st0, bytes, op, st1), x);
  }

  lemma TakeLays(st0: Store, bytes: map<Name, nat>, op: Op, st: Store, r: Register, size: Size)
    requires Laying(st0, bytes, op, st) && SizesKept(st0, st) && st.cells[r].owner == ""
    ensures Laying(st0, bytes, op, GetRegister(st, r, size)) && SizesKept(st0, GetRegister(st, r, size))
  {
    hide Laid, SlotBytes;
    LayingQuietly(st0, bytes, op, st, GetRegister(st, r, size));
  }

  lemma ForceFindLays(globals: set<Name>, st0: Store, bytes: map<Name, nat>, op: Op, st: Store, size: Size)
    requires Sound(st) && Laying(st0, bytes, op, st) && SizesKept(st0, st) && ForceFindRegister(globals, st, size).Ok?
    ensures Laying(st0, bytes, op, ForceFindRegister(globals, st, size).value.0.st)
  {
    hide EmptyRegister, Laying, SizesKept, GetRegister;
    if FirstFree(st.cells, 0).Some? {
      TakeLays(st0, bytes, op, st, FirstFree(st.cells, 0).value, size);
    } else {
      var r := FirstUnfrozen(st.cells, 0).value;
      VacateLays(globals, st0, bytes, op, st, r);
      EmptyRegisterSound(globals, st, r);
      TakeLays(st0, bytes, op, EmptyRegister(globals, st, r).value.st, r, size);
    }
  }

  lemma ClaimLays(st0: Store, bytes: map<Name, nat>, op: Op, st: Store, r: Register, size: Size)
    requires Laying(st0, bytes, op, st)
    ensures Laying(st0, bytes, op, ClaimTemp(st, r, size))
  {
    hide Laying;
    LayingQuietly(st0, bytes, op, st, ClaimTemp(st, r, size));
  }

  lemma EnsureLays(globals: set<Name>, st0: Store, bytes: map<Name, nat>, op: Op, st: Store, v: Value)
    requires Sound(st) && Laying(st0, bytes, op, st) && SizesKept(st0, st) && EnsureInRegister(globals, st, v).Ok?
    ensures Laying(st0, bytes, op, EnsureInRegister(globals, st, v).value.0.st)
  {
    hide ForceFindRegister, Laying, SizesKept, ClaimTemp;
    if RegisterOf(st, v).None? {
      var size := ValueSize(globals, st, v).value;
      ForceFindLays(globals, st0, bytes, op, st, size);
      var (e, r) := ForceFindRegister(globals, st, size).value;
      ClaimLays(st0, bytes, op, e.st, r, ValueSize(globals, e.st, v).value);
    }
  }

  lemma ArgLays(cx: Context, st0: Store, bytes: map<Name, nat>, op: Op, st: Store, v: Value, dropped: bool, r: Register)
    requires Sound(st) && Laying(st0, bytes, op, st) && SizesKept(st0, st) && LowerArg(cx, st, v, dropped, r).Ok?
    ensures var st1 := LowerArg(cx, st, v, dropped, r).value.st; Laying(st0, bytes, op, st1) && SizesKept(st0, st1)
  {
    hide EmptyRegister, Laying, SizesKept;
    VacateLays(cx.globals, st0, bytes, op, st, r);
  }

  lemma {:induction false} ArgsLay(cx: Context, st0: Store, bytes: map<Name, nat>, op: Op, st: Store, ops: seq<Value>,
                                   dropped: seq<bool>, i: nat)
    requires Sound(st) && Laying(st0, bytes, op, st) && SizesKept(st0, st)
    requires i <= |ops| && LowerArgs(cx, st, ops, dropped, i).Ok?
    ensures var st1 := LowerArgs(cx, st, ops, dropped, i).value.st; Laying(st0, bytes, op, st1) && SizesKept(st0, st1)
    decreases |ops| - i
  {
    hide LowerArg, Laying, SizesKept;
    if i < |ops| {
      ArgLays(cx, st0, bytes, op, st, ops[i], dropped[i], ParamRegister(i));
      LowerArgSound(cx, st, ops[i], dropped[i], ParamRegister(i));
      var st1 := LowerArg(cx, st, ops[i], dropped[i], ParamRegister(i)).value.st;
      ArgsLay(cx, st0, bytes, op, st1, ops, dropped, i + 1);
    }
  }

  lemma CallLays(cx: Context, st0: Store, bytes: map<Name, nat>, op: Op, st: Store, g: Name, size: Size,
                 ops: seq<Value>, dropped: seq<bool>)
    requires Sound(st) && Laying(st0, bytes, op, st) && SizesKept(st0, st)
    requires LowerCall(cx, st, g, size, ops, dropped).Ok?
    ensures var low := LowerCall(cx, st, g, size, ops, dropped).value;
            Laying(st0, bytes, op, low.st) && low.dest == Some(InReg(RAX))
  {
    hide LowerArgs, EmptyRegister, Laying, SizesKept, GetRegister;
    ArgsLay(cx, st0, bytes, op, st, ops, dropped, 0);
    LowerArgsSound(cx, st, ops, dropped, 0);
    var args := LowerArgs(cx, st, ops, dropped, 0).value;
    VacateLays(cx.globals, st0, bytes, op, args.st, RAX);
    EmptyRegisterSound(cx.globals, args.st, RAX);
    TakeLays(st0, bytes, op, EmptyRegister(cx.globals, args.st, RAX).value.st, RAX, size);
  }

  /** What lowering an instruction leaves: names laid out, and room for its result. */
  ghost predicate Leaving(st0: Store, bytes: map<Name, nat>, op: Op, low: Lowered) {
    Laying(st0, bytes, op, low.st) &&
    (low.dest.Some? && low.dest.value.Slot? ==> RoomFor(st0, bytes, op, low.st, low.dest.value.below))
  }

  ghost predicate RoomFor(st0: Store, bytes: map<Name, nat>, op: Op, st: Store, below: nat) {
    ResultBytes(op) <= below <= st.frame &&
    forall x | x in st.vmap && st.vmap[x].Slot? ::
      Apart(st.vmap[x].below, SlotBytes(st0, bytes, op, x), below, ResultBytes(op))
  }

  lemma GrowthLeaves(st0: Store, bytes: map<Name, nat>, op: Op, st: Store)
    requires Laying(st0, bytes, op, st)
    ensures var st1 := st.(frame := st.frame + ResultBytes(op));
            Laying(st0, bytes, op, st1) && RoomFor(st0, bytes, op, st1, st1.frame)
  {
    hide SlotBytes;
    LayingQuietly(st0, bytes, op, st, st.(frame := st.frame + ResultBytes(op)));
  }

  lemma LoadLeaves(cx: Context, st0: Store, bytes: map<Name, nat>, st: Store, size: Size, ops: seq<Value>)
    requires Laying(st0, bytes, Load(size), st) && SizesKept(st0, st) && LowerLoad(cx, st, size, ops).Ok?
    ensures Leaving(st0, bytes, Load(size), LowerLoad(cx, st, size, ops).value)
  {
    hide Laying, GetRegister, SizesKept, ValueOperand, RoomFor;
    match FirstFree(st.cells, 0)
    case Some(r) => TakeLays(st0, bytes, Load(size), st, r, size);
    case None => GrowthLeaves(st0, bytes, Load(size), st);
  }

  lemma ArithLeaves(cx: Context, st0: Store, bytes: map<Name, nat>, op: Op, st: Store, t: ArithType, ops: seq<Value>)
    requires Sound(st) && Laying(st0, bytes, op, st) && SizesKept(st0, st) && LowerArith(cx, st, t, ops).Ok?
    ensures Leaving(st0, bytes, op, LowerArith(cx, st, t, ops).value)
  {
    hide EnsureInRegister, Laying, SizesKept, RoomFor;
    if RegisterOf(st, ops[0]).None? {
      EnsureLays(cx.globals, st0, bytes, op, st, ops[1]);
    }
  }

  lemma SelectLeaves(cx: Context, st0: Store, bytes: map<Name, nat>, op: Op, st: Store, ops: seq<Value>)
    requires Sound(st) && Laying(st0, bytes, op, st) && SizesKept(st0, st) && LowerSelect(cx, st, ops).Ok?
    ensures Leaving(st0, bytes, op, LowerSelect(cx, st, ops).value)
  {
    hide ForceFindRegister, Laying, SizesKept, RoomFor;
    ForceFindLays(cx.globals, st0, bytes, op, st, ValueSize(cx.globals, st, ops[1]).value);
  }

  lemma OpLeaves(cx: Context, st0: Store, bytes: map<Name, nat>, st: Store, inst: Inst)
    requires Sound(st) && Laying(st0, bytes, inst.op, st) && SizesKept(st0, st) && LowerOp(cx, st, inst).Ok?
    ensures Leaving(st0, bytes, inst.op, LowerOp(cx, st, inst).value)
  {
    hide Laying, SizesKept, RoomFor, LowerCall, LowerSelect, LowerArith, LowerLoad, ValueOperand, SizedOperand,
         ConditionOf, ValueSize;
    match inst.op
    case Allocate(n) => GrowthLeaves(st0, bytes, inst.op, st);
    case Load(s) => LoadLeaves(cx, st0, bytes, st, s, inst.operands);
    case Arith(t) => ArithLeaves(cx, st0, bytes, inst.op, st, t, inst.operands);
    case Select => SelectLeaves(cx, st0, bytes, inst.op, st, inst.operands);
    case Call(g, s) => CallLays(cx, st0, bytes, inst.op, st, g, s, inst.operands, inst.dropped);
    case _ =>
  }

  // Instructions and blocks

  lemma {:induction false} DropsQuiet(st0: Store, st: Store, xs: seq<Name>)
    ensures EraseAll(st, xs).frame == DropAll(st, xs).frame == st.frame && DropAll(st, xs).vmap == st.vmap
    ensures forall x | x in EraseAll(st, xs).vmap :: x in st.vmap && EraseAll(st, xs).vmap[x] == st.vmap[x]
    ensures SizesKept(st0, st) ==> SizesKept(st0, DropAll(st, xs))
    decreases |xs|
  {
    if xs != [] {
      DropsQuiet(st0, DropOwnership(st, xs[0]), xs[1..]);
      DropsQuiet(st0, EraseValue(st, xs[0]), xs[1..]);
    }
  }

  lemma SettleLays(st0: Store, bytes: map<Name, nat>, inst: Inst, low: Lowered, pending: seq<Name>)
    requires Leaving(st0, bytes, inst.op, low) && (inst.result.Some? ==> inst.result.value !in st0.vmap)
    ensures var st1 := Settle(low.st, inst, pending, low.dest);
            st0.frame <= st1.frame && Laid(st1, BytesAfter(st0, bytes, inst.op, st1)) &&
            StayingBut(st0, st1, inst.result)
  {
    hide EraseAll, DropAll, Laying, RoomFor, Staying, StayingBut;
    DropsQuiet(st0, low.st, pending);
    DropsQuiet(st0, DropAll(low.st, pending), pending);
    var late := CleanTemps(EraseAll(if AutoDrop(inst.op) then low.st else DropAll(low.st, pending), pending));
    Stay(low.st, late);
    LayingQuietly(st0, bytes, inst.op, low.st, late);
    StayBut(st0, bytes, inst.op, late, inst.result, low.dest);
    if low.dest.Some? && inst.result.Some? {
      ResultLaid(st0, bytes, inst.op, low, late, inst.result.value);
    } else {
      LayingLaid(st0, bytes, inst.op, late);
    }
  }

  lemma Stay(st: Store, st1: Store)
    requires forall x | x in st1.vmap :: x in st.vmap && st1.vmap[x] == st.vmap[x]
    ensures Staying(st, st1)
  {
  }

  lemma StayBut(st0: Store, bytes: map<Name, nat>, op: Op, late: Store, result: Option<Name>, dest: Option<Loc>)
    requires Laying(st0, bytes, op, late)
    ensures StayingBut(st0, late, result)
    ensures dest.Some? && result.Some? ==> StayingBut(st0, MapValue(late, result.value, dest.value), result)
  {
    hide Laid;
  }

  lemma LayingLaid(st0: Store, bytes: map<Name, nat>, op: Op, st: Store)
    requires Laying(st0, bytes, op, st)
    ensures st0.frame <= st.frame && Laid(st, BytesAfter(st0, bytes, op, st))
  {
  }

  lemma ResultLaid(st0: Store, bytes: map<Name, nat>, op: Op, low: Lowered, late: Store, z: Name)
    requires Leaving(st0, bytes, op, low) && Laying(st0, bytes, op, late) && z !in st0.vmap && low.dest.Some?
    requires late.frame == low.st.frame
    requires forall x | x in late.vmap :: x in low.st.vmap && low.st.vmap[x] == late.vmap[x]
    ensures var st1 := MapValue(late, z, low.dest.value);
            st0.frame <= st1.frame && Laid(st1, BytesAfter(st0, bytes, op, st1))
  {
    hide SlotBytes, Laid;
    var st1 := MapValue(late, z, low.dest.value);
    assert st1.vmap == late.vmap[z := low.dest.value] && st1.frame == late.frame;
    if low.dest.value.Slot? {
      NewResult(st0, bytes, op, z);
      LaidBeside(late, st1, BytesAfter(st0, bytes, op, late), BytesAfter(st0, bytes, op, st1), z);
    } else {
      LaidLess(late, st1, BytesAfter(st0, bytes, op, late), BytesAfter(st0, bytes, op, st1));
    }
  }

  lemma LaidLess(st: Store, st1: Store, bytes: map<Name, nat>, bytes1: map<Name, nat>)
    requires Laid(st, bytes) && st.frame <= st1.frame
    requires forall x | x in st1.vmap && st1.vmap[x].Slot? ::
               x in st.vmap && st.vmap[x] == st1.vmap[x] && x in bytes1 && bytes1[x] == bytes[x]
    ensures Laid(st1, bytes1)
  {
  }

  lemma LaidBeside(st: Store, st1: Store, bytes: map<Name, nat>, bytes1: map<Name, nat>, z: Name)
    requires Laid(st, bytes) && z in st1.vmap && st1.vmap[z].Slot? && z in bytes1 && st1.frame == st.frame
    requires bytes1[z] <= st1.vmap[z].below <= st1.frame
    requires forall x | x in st1.vmap && st1.vmap[x].Slot? && x != z ::
               x in st.vmap && st.vmap[x] == st1.vmap[x] && x in bytes1 && bytes1[x] == bytes[x] &&
               Apart(st1.vmap[x].below, bytes1[x], st1.vmap[z].below, bytes1[z])
    ensures Laid(st1, bytes1)
  {
  }

  lemma NewResult(st0: Store, bytes: map<Name, nat>, op: Op, z: Name)
    requires z !in st0.vmap
    ensures SlotBytes(st0, bytes, op, z) == ResultBytes(op)
  {
  }

  lemma StartLays(st: Store, bytes: map<Name, nat>, op: Op)
    requires Sound(st) && Laid(st, bytes)
    ensures Laying(st, bytes, op, st) && SizesKept(st, st)
  {
  }

  lemma InstLays(cx: Context, st: Store, bytes: map<Name, nat>, inst: Inst)
    requires Sound(st) && Laid(st, bytes) && LowerInst(cx, st, inst).Ok?
    requires inst.result.Some? ==> inst.result.value !in st.vmap
    ensures var st1 := LowerInst(cx, st, inst).value.st;
            st.frame <= st1.frame && Laid(st1, BytesAfter(st, bytes, inst.op, st1)) &&
            StayingBut(st, st1, inst.result)
  {
    hide LowerOp, DropAll, Staying, Settle, Laid, Laying, SizesKept, BytesAfter, Leaving;
    var pending := Pending(inst.operands, inst.dropped);
    StartLays(st, bytes, inst.op);
    DropsQuiet(st, st, pending);
    EraseAllSound(st, pending);
    var at := if AutoDrop(inst.op) then DropAll(st, pending) else st;
    Stay(st, at);
    LayingQuietly(st, bytes, inst.op, st, at);
    OpLeaves(cx, st, bytes, at, inst);
    SettleLays(st, bytes, inst, LowerOp(cx, at, inst).value, pending);
  }

  lemma {:induction false} InstsLay(cx: Context, st: Store, insts: seq<Inst>, bytes: map<Name, nat>, seen: set<Name>)
    requires Sound(st) && Laid(st, bytes) && MappedWithin(st, seen) && SingleAssignment(insts, seen)
    requires LowerInsts(cx, st, insts).Ok?
    ensures var st1 := LowerInsts(cx, st, insts).value.st;
            st.frame <= st1.frame && Laid(st1, BytesAfterInsts(cx, st, insts, bytes))
    decreases |insts|
  {
    hide LowerInst, Laid, BytesAfter, Sound;
    if insts != [] {
      InstLays(cx, st, bytes, insts[0]);
      LowerInstSound(cx, st, insts[0]);
      var st1 := LowerInst(cx, st, insts[0]).value.st;
      assert MappedWithin(st1, seen + Results(insts[..1])) by { ResultsStep(insts); }
      InstsLay(cx, st1, insts[1..], BytesAfter(st, bytes, insts[0].op, st1), seen + Results(insts[..1]));
    }
  }

  lemma {:induction false} BlocksLay(cx: Context, st: Store, blocks: seq<Block>, bytes: map<Name, nat>, seen: set<Name>)
    requires Sound(st) && NoTempOwners(st) && Laid(st, bytes) && MappedWithin(st, seen) &&
             SingleAssignmentBlocks(blocks, seen)
    requires LowerBlocks(cx, st, blocks).Ok?
    ensures var st1 := LowerBlocks(cx, st, blocks).value.0;
            st.frame <= st1.frame && Laid(st1, BytesAfterBlocks(cx, st, blocks, bytes))
    decreases |blocks|
  {
    hide LowerInsts, Laid, Sound, BytesAfterInsts;
    if blocks != [] {
      InstsLay(cx, st, blocks[0].insts, bytes, seen);
      InstsCoherent(cx, st, blocks[0].insts, seen);
      BlocksLay(cx, LowerInsts(cx, st, blocks[0].insts).value.st, blocks[1..],
                BytesAfterInsts(cx, st, blocks[0].insts, bytes), seen + Results(blocks[0].insts));
    }
  }

  // Allocated bytes

  /** The name is in the frame with n bytes, if it is in use. */
  ghost predicate Holds(st: Store, bytes: map<Name, nat>, x: Name, n: nat) {
    x in st.vmap ==> st.vmap[x].Slot? && x in bytes && bytes[x] == n
  }

  lemma InstHolds(cx: Context, st: Store, bytes: map<Name, nat>, inst: Inst, x: Name, n: nat)
    requires Sound(st) && Laid(st, bytes) && LowerInst(cx, st, inst).Ok? && UserName(x) && Holds(st, bytes, x, n)
    requires inst.result.Some? ==> inst.result.value !in st.vmap && inst.result != Some(x)
    ensures var st1 := LowerInst(cx, st, inst).value.st; Holds(st1, BytesAfter(st, bytes, inst.op, st1), x, n)
  {
    hide LowerInst, Laid, Sound;
    InstLays(cx, st, bytes, inst);
    var st1 := LowerInst(cx, st, inst).value.st;
    if x in st1.vmap {
      assert Stays(st, st1, x);
    }
  }

  lemma AllocationHolds(cx: Context, st: Store, bytes: map<Name, nat>, inst: Inst, x: Name)
    requires inst.op.Allocate? && inst.result == Some(x) && x !in st.vmap && LowerInst(cx, st, inst).Ok?
    ensures var st1 := LowerInst(cx, st, inst).value.st;
            Holds(st1, BytesAfter(st, bytes, inst.op, st1), x, inst.op.bytes)
  {
    hide EraseAll, DropAll, CleanTemps;
  }

  lemma {:induction false} InstsHold(cx: Context, st: Store, insts: seq<Inst>, bytes: map<Name, nat>, seen: set<Name>,
                                     x: Name, n: nat)
    requires Sound(st) && Laid(st, bytes) && MappedWithin(st, seen) && SingleAssignment(insts, seen) && x in seen
    requires LowerInsts(cx, st, insts).Ok? && UserName(x) && Holds(st, bytes, x, n)
    ensures Holds(LowerInsts(cx, st, insts).value.st, BytesAfterInsts(cx, st, insts, bytes), x, n)
    decreases |insts|
  {
    hide LowerInst, Laid, BytesAfter, Sound, Holds;
    if insts != [] {
      InstLays(cx, st, bytes, insts[0]);
      InstHolds(cx, st, bytes, insts[0], x, n);
      LowerInstSound(cx, st, insts[0]);
      var st1 := LowerInst(cx, st, insts[0]).value.st;
      assert MappedWithin(st1, seen + Results(insts[..1])) by { ResultsStep(insts); }
      InstsHold(cx, st1, insts[1..], BytesAfter(st, bytes, insts[0].op, st1), seen + Results(insts[..1]), x, n);
    }
  }

  lemma {:induction false} AllocatedInsts(cx: Context, st: Store, insts: seq<Inst>, bytes: map<Name, nat>,
                                          seen: set<Name>, j: nat, x: Name)
    requires Sound(st) && Laid(st, bytes) && MappedWithin(st, seen) && SingleAssignment(insts, seen)
    requires LowerInsts(cx, st, insts).Ok? && j < |insts| && insts[j].op.Allocate? && insts[j].result == Some(x)
    ensures UserName(x) && x in Results(insts)
    ensures Holds(LowerInsts(cx, st, insts).value.st, BytesAfterInsts(cx, st, insts, bytes), x, insts[j].op.bytes)
    decreases |insts|
  {
    hide LowerInst, Laid, BytesAfter, Sound, Holds;
    InstLays(cx, st, bytes, insts[0]);
    LowerInstSound(cx, st, insts[0]);
    var st1 := LowerInst(cx, st, insts[0]).value.st;
    ResultsStep(insts);
    assert MappedWithin(st1, seen + Results(insts[..1]));
    var bytes1 := BytesAfter(st, bytes, insts[0].op, st1);
    if j == 0 {
      assert x !in st.vmap;
      AllocationHolds(cx, st, bytes, insts[0], x);
      InstsHold(cx, st1, insts[1..], bytes1, seen + Results(insts[..1]), x, insts[0].op.bytes);
    } else {
      AllocatedInsts(cx, st1, insts[1..], bytes1, seen + Results(insts[..1]), j - 1, x);
    }
  }

  lemma {:induction false} BlocksHold(cx: Context, st: Store, blocks: seq<Block>, bytes: map<Name, nat>,
                                      seen: set<Name>, x: Name, n: nat)
    requires Sound(st) && NoTempOwners(st) && Laid(st, bytes) && MappedWithin(st, seen) &&
             SingleAssignmentBlocks(blocks, seen) && x in seen
    requires LowerBlocks(cx, st, blocks).Ok? && UserName(x) && Holds(st, bytes, x, n)
    ensures Holds(LowerBlocks(cx, st, blocks).value.0, BytesAfterBlocks(cx, st, blocks, bytes), x, n)
    decreases |blocks|
  {
    hide LowerInsts, Laid, Sound, BytesAfterInsts, Holds;
    if blocks != [] {
      InstsLay(cx, st, blocks[0].insts, bytes, seen);
      InstsCoherent(cx, st, blocks[0].insts, seen);
      InstsHold(cx, st, blocks[0].insts, bytes, seen, x, n);
      BlocksHold(cx, LowerInsts(cx, st, blocks[0].insts).value.st, blocks[1..],
                 BytesAfterInsts(cx, st, blocks[0].insts, bytes), seen + Results(blocks[0].insts), x, n);
    }
  }

  lemma {:induction false} AllocatedBlocks(cx: Context, st: Store, blocks: seq<Block>, bytes: map<Name, nat>,
                                           seen: set<Name>, c: nat, j: nat, x: Name)
    requires Sound(st) && NoTempOwners(st) && Laid(st, bytes) && MappedWithin(st, seen) &&
             SingleAssignmentBlocks(blocks, seen)
    requires LowerBlocks(cx, st, blocks).Ok? && c < |blocks| && j < |blocks[c].insts|
    requires blocks[c].insts[j].op.Allocate? && blocks[c].insts[j].result == Some(x)
    ensures UserName(x) && x in ResultsOfBlocks(blocks)
    ensures Holds(LowerBlocks(cx, st, blocks).value.0, BytesAfterBlocks(cx, st, blocks, bytes), x,
                  blocks[c].insts[j].op.bytes)
    decreases |blocks|
  {
    hide LowerInsts, Laid, Sound, BytesAfterInsts, Holds;
    InstsLay(cx, st, blocks[0].insts, bytes, seen);
    InstsCoherent(cx, st, blocks[0].insts, seen);
    var st1, bytes1 := LowerInsts(cx, st, blocks[0].insts).value.st, BytesAfterInsts(cx, st, blocks[0].insts, bytes);
    assert blocks[0] in blocks && forall b | b in blocks[1..] :: b in blocks;
    if c == 0 {
      AllocatedInsts(cx, st, blocks[0].insts, bytes, seen, j, x);
      BlocksHold(cx, st1, blocks[1..], bytes1, seen + Results(blocks[0].insts), x, blocks[0].insts[j].op.bytes);
    } else {
      AllocatedBlocks(cx, st1, blocks[1..], bytes1, seen + Results(blocks[0].insts), c - 1, j, x);
    }
  }

  // Every reachable state

  lemma {:induction false} LowerInstsAppend(cx: Context, st: Store, xs: seq<Inst>, ys: seq<Inst>)
    requires LowerInsts(cx, st, xs + ys).Ok?
    ensures LowerInsts(cx, st, xs).Ok?
    ensures LowerInsts(cx, LowerInsts(cx, st, xs).value.st, ys).Ok?
    ensures LowerInsts(cx, st, xs + ys).value.st == LowerInsts(cx, LowerInsts(cx, st, xs).value.st, ys).value.st
    decreases |xs|
  {
    hide LowerInst;
    if xs == [] {
      assert xs + ys == ys;
      assert LowerInsts(cx, st, xs) == Ok(Emit(st, []));
    } else {
      assert (xs + ys)[1..] == xs[1..] + ys && (xs + ys)[0] == xs[0];
      LowerInstsAppend(cx, LowerInst(cx, st, xs[0]).value.st, xs[1..], ys);
    }
  }

  ghost predicate Assigned(f: Function) {
    (forall p | p in f.params :: UserName(p.0)) && SingleAssignmentBlocks(f.blocks, ParamNames(f.params))
  }

  lemma {:induction false} FirstSlots(params: seq<(Name, Size)>)
    requires |params| <= MAX_ARGS
    ensures PlaceParams(params).frame == 0 && Laid(PlaceParams(params), map[])
    ensures forall x | x in PlaceParams(params).vmap :: PlaceParams(params).vmap[x].InReg?
  {
    if params != [] {
      FirstSlots(params[..|params| - 1]);
    }
  }

  lemma FramesGrow(cx: Context, st: Store, insts: seq<Inst>, blocks: seq<Block>)
    requires LowerInsts(cx, st, insts).Ok? && LowerBlocks(cx, LowerInsts(cx, st, insts).value.st, blocks).Ok?
    ensures st.frame <= LowerBlocks(cx, LowerInsts(cx, st, insts).value.st, blocks).value.0.frame
  {
    hide LowerInsts, LowerBlocks, Tampering.Tampered, Tampering.WritesOnly, Tampering.Tracked;
    Tampering.LowerInstsTampers(cx, st, insts, Tampering.MaxArgsInsts(insts));
    Tampering.LowerBlocksTampers(cx, LowerInsts(cx, st, insts).value.st, blocks, Tampering.MaxArgsBlocks(blocks));
  }

  /** Where generation is before instruction i of block b, and what it has ahead. */
  lemma Reached(globals: set<Name>, f: Function, b: nat, i: nat) returns (st0: Store, st: Store)
    requires CompileFunction(globals, f).Ok? && |f.params| <= MAX_ARGS && b < |f.blocks| && i <= |f.blocks[b].insts|
    ensures var cx := Context(f.returnType, globals);
            LowerBlocks(cx, PlaceParams(f.params), f.blocks[..b]).Ok? &&
            st0 == LowerBlocks(cx, PlaceParams(f.params), f.blocks[..b]).value.0 &&
            LowerInsts(cx, st0, f.blocks[b].insts[..i]).Ok? &&
            st == LowerInsts(cx, st0, f.blocks[b].insts[..i]).value.st && StateAt(cx, f, b, i) == Ok(st) &&
            st.frame <= CompileFunction(globals, f).value.frame
  {
    hide LowerBlocks, LowerInsts, PlaceParams, SavedFrom;
    var cx, start, insts := Context(f.returnType, globals), PlaceParams(f.params), f.blocks[b].insts;
    Generation.SplitAround(cx, start, f.blocks, b);
    assert f.blocks == f.blocks[..b + 1] + f.blocks[b + 1..];
    Generation.LowerBlocksAppend(cx, start, f.blocks[..b + 1], f.blocks[b + 1..]);
    st0 := LowerBlocks(cx, start, f.blocks[..b]).value.0;
    assert insts == insts[..i] + insts[i..];
    LowerInstsAppend(cx, st0, insts[..i], insts[i..]);
    st := LowerInsts(cx, st0, insts[..i]).value.st;
    FramesGrow(cx, st, insts[i..], f.blocks[b + 1..]);
  }

  /** What is known at the start of block b. */
  lemma ReachedBlock(cx: Context, f: Function, b: nat)
    requires |f.params| <= MAX_ARGS && b < |f.blocks| && Assigned(f)
    requires LowerBlocks(cx, PlaceParams(f.params), f.blocks[..b]).Ok?
    ensures var start, blocks := PlaceParams(f.params), f.blocks[..b];
            var st0, seen := LowerBlocks(cx, start, blocks).value.0, ParamNames(f.params) + ResultsOfBlocks(blocks);
            Sound(start) && NoTempOwners(start) && Laid(start, map[]) && MappedWithin(start, ParamNames(f.params)) &&
            SingleAssignmentBlocks(blocks, ParamNames(f.params)) &&
            Sound(st0) && NoTempOwners(st0) && MappedWithin(st0, seen) && SingleAssignment(f.blocks[b].insts, seen) &&
            Laid(st0, BytesAfterBlocks(cx, start, blocks, map[]))
  {
    hide LowerBlocks, PlaceParams, Laid, BytesAfterBlocks;
    PlaceParamsSound(f.params);
    FirstSlots(f.params);
    SingleAssignmentPrefix(f.blocks, ParamNames(f.params), b);
    BlocksCoherent(cx, PlaceParams(f.params), f.blocks[..b], ParamNames(f.params));
    BlocksLay(cx, PlaceParams(f.params), f.blocks[..b], map[], ParamNames(f.params));
  }

  /** In every state that generation of a single-assignment function reaches, every name in
      the frame has all the bytes it was given inside the final frame, and no two names have
      a byte in common: those allocated, those moved there, earlier or later. */
  lemma FrameHoldsEverySlot(globals: set<Name>, f: Function, b: nat, i: nat)
    requires CompileFunction(globals, f).Ok? && |f.params| <= MAX_ARGS && b < |f.blocks| && i <= |f.blocks[b].insts|
    requires Assigned(f)
    ensures StateAt(Context(f.returnType, globals), f, b, i).Ok?
    ensures var cx, frame := Context(f.returnType, globals), CompileFunction(globals, f).value.frame;
            var st, bytes := StateAt(cx, f, b, i).value, BytesAt(cx, f, b, i);
            (forall x | x in st.vmap && st.vmap[x].Slot? :: x in bytes && bytes[x] <= st.vmap[x].below <= frame) &&
            (forall x, y | x in st.vmap && y in st.vmap && x != y && st.vmap[x].Slot? && st.vmap[y].Slot? ::
               Apart(st.vmap[x].below, bytes[x], st.vmap[y].below, bytes[y]))
  {
    hide LowerBlocks, LowerInsts, PlaceParams, CompileFunction, BytesAfterInsts, BytesAfterBlocks;
    var cx, insts := Context(f.returnType, globals), f.blocks[b].insts;
    var st0, st := Reached(globals, f, b, i);
    ReachedBlock(cx, f, b);
    var seen := ParamNames(f.params) + ResultsOfBlocks(f.blocks[..b]);
    SingleAssignmentTake(insts, seen, i);
    InstsLay(cx, st0, insts[..i], BytesAfterBlocks(cx, PlaceParams(f.params), f.blocks[..b], map[]), seen);
  }

  /** The bytes of an allocated name are those allocated, for as long as the name is in use. */
  lemma AllocationsKeepTheirBytes(globals: set<Name>, f: Function, c: nat, j: nat, b: nat, i: nat)
    requires CompileFunction(globals, f).Ok? && |f.params| <= MAX_ARGS && b < |f.blocks| && i <= |f.blocks[b].insts|
    requires Assigned(f) && c <= b && j < |f.blocks[c].insts| && (c == b ==> j < i)
    requires f.blocks[c].insts[j].op.Allocate? && f.blocks[c].insts[j].result.Some?
    ensures StateAt(Context(f.returnType, globals), f, b, i).Ok?
    ensures var cx, inst := Context(f.returnType, globals), f.blocks[c].insts[j];
            Holds(StateAt(cx, f, b, i).value, BytesAt(cx, f, b, i), inst.result.value, inst.op.bytes)
  {
    hide LowerBlocks, LowerInsts, PlaceParams, CompileFunction, BytesAfterInsts, BytesAfterBlocks, Holds, Laid;
    var cx, insts := Context(f.returnType, globals), f.blocks[b].insts;
    var x := f.blocks[c].insts[j].result.value;
    var st0, st := Reached(globals, f, b, i);
    ReachedBlock(cx, f, b);
    var seen := ParamNames(f.params) + ResultsOfBlocks(f.blocks[..b]);
    var bytes := BytesAfterBlocks(cx, PlaceParams(f.params), f.blocks[..b], map[]);
    SingleAssignmentTake(insts, seen, i);
    if c == b {
      AllocatedInsts(cx, st0, insts[..i], bytes, seen, j, x);
    } else {
      AllocatedBlocks(cx, PlaceParams(f.params), f.blocks[..b], map[], ParamNames(f.params), c, j, x);
      InstsHold(cx, st0, insts[..i], bytes, seen, x, f.blocks[c].insts[j].op.bytes);
    }
  }

  /** In memory: between the saved registers and rbp. */
  lemma SlotsDoNotOverlap(globals: set<Name>, f: Function, b: nat, i: nat, m0: State, m1: State, x: Name, y: Name)
    requires CompileFunction(globals, f).Ok? && |f.params| <= MAX_ARGS && b < |f.blocks| && i <= |f.blocks[b].insts|
    requires Assigned(f) && m0.Valid() && StateAt(Context(f.returnType, globals), f, b, i).Ok?
    requires var fn := CompileFunction(globals, f).value;
             fn.frame > 0 && Registers(fn.saved) && Entered(fn.frame, fn.saved, m0, m1)
    requires var st := StateAt(Context(f.returnType, globals), f, b, i).value;
             x in st.vmap && y in st.vmap && x != y && st.vmap[x].Slot? && st.vmap[y].Slot?
    ensures var cx, fn := Context(f.returnType, globals), CompileFunction(globals, f).value;
            var st, bytes := StateAt(cx, f, b, i).value, BytesAt(cx, f, b, i);
            var at, also := m1.rbp - st.vmap[x].below, m1.rbp - st.vmap[y].below;
            x in bytes && y in bytes &&
            m1.rsp + 8 * |fn.saved| <= at && at + bytes[x] <= m1.rbp &&
            (at + bytes[x] <= also || also + bytes[y] <= at)
  {
    hide CompileFunction, StateAt, BytesAt;
    FrameHoldsEverySlot(globals, f, b, i);
  }

  lemma SpillIs(globals: set<Name>, st: Store, r: Register, n: nat)
    requires Sound(st) && FirstFree(st.cells, 0) == None && st.cells[r].owner != ""
    requires SizeInBytes(st.cells[r].size) == Some(n)
    ensures EmptyRegister(globals, st, r).Ok?
    ensures EmptyRegister(globals, st, r).value.st.vmap == st.vmap[st.cells[r].owner := Slot(st.frame + n)]
  {
    hide RemapValue, FirstFree;
    RemapIs(st.(frame := st.frame + n), st.cells[r].owner, r, Slot(st.frame + n));
  }

  /** A name that is moved to the frame is read and written there as eight bytes, whatever
      size it had: they stay clear of what the frame held before exactly if it had eight. */
  lemma SpilledNamesFit(globals: set<Name>, st: Store, r: Register, x: Name, n: nat)
    requires Sound(st) && FirstFree(st.cells, 0) == None && st.cells[r].owner == x && x != ""
    requires SizeInBytes(st.cells[r].size) == Some(n)
    ensures EmptyRegister(globals, st, r).Ok?
    ensures var st1 := EmptyRegister(globals, st, r).value.st;
            ValueOperand(globals, st1, Var(st.cells[r].size, x)) == Ok(OMem(st.frame + n, Ptr)) &&
            (st.frame + SizeInBytes(Ptr).value <= st.frame + n <==> n == 8)
  {
    hide EmptyRegister, FirstFree;
    SpillIs(globals, st, r, n);
  }
}
