/** What a callee gets through the pointers that are passed to it: allocations and global
    strings (src/backend/codegen/instructions.cpp, src/backend/codegen/context/value_reference.cpp). */
module Pointers {
  import opened Wrappers
  import opened Ir
  import opened Machine
  import opened Storage
  import opened Lowering
  import opened Ownership
  import opened Simulation
  import opened ArgumentSetup
  import opened FrameLayout
  import opened WholeFunctions
  import opened Departures
  import Frames

  // Operands that are addresses

  /** A pointer to an allocation. */
  predicate Allocated(st: Store, v: Value) {
    v.Var? && v.size == Ptr && v.name in st.vmap && st.vmap[v.name].Slot?
  }

  /** A global string. */
  predicate Declared(globals: set<Name>, st: Store, v: Value) {
    v.Var? && v.name !in st.vmap && v.name in globals
  }

  /** A declared name that is not in use reads as the address of the symbol of that name, so
      different symbols read differently. */
  lemma GlobalReads(globals: set<Name>, st: Store, v: Value, m: State)
    requires m.Valid() && Declared(globals, st, v)
    ensures ValueOperand(globals, st, v).Ok? && ValueSize(globals, st, v) == Ok(Ptr)
    ensures var o := ValueOperand(globals, st, v).value;
            Read(m, o) == if v.name in m.symbols then Some(m.symbols[v.name]) else None
  {
  }

  /** A store of one global string through another does nothing, whichever they are: operands
      that are symbols count as equal. */
  lemma {:induction false} StringsAreNotStored(cx: Context, st: Store, size: Size, a: Value, b: Value, m: State)
    requires m.Valid() && Declared(cx.globals, st, a) && Declared(cx.globals, st, b)
    ensures LowerStore(cx, st, size, [a, b]).Ok?
    ensures Steps(LowerStore(cx, st, size, [a, b]).value.nodes, m) == Some(m)
  {
    OneNode(LowerStore(cx, st, size, [a, b]).value.nodes[0], m);
  }

  // The set-up of a call, whatever state it runs from

  /** No vacated value goes to an argument register that is loaded already. */
  ghost predicate HomesClear(cx: Context, st: Store, ops: seq<Value>, dropped: seq<bool>, i: nat)
    requires i <= |ops| <= MAX_ARGS && |dropped| == |ops|
    decreases |ops| - i
  {
    i == |ops| ||
    (HomeClear(st, i) &&
     (LowerArg(cx, st, ops[i], dropped[i], ParamRegister(i)).Ok? ==>
        HomesClear(cx, LowerArg(cx, st, ops[i], dropped[i], ParamRegister(i)).value.st, ops, dropped, i + 1)))
  }

  ghost predicate HomeClear(st: Store, i: nat)
    requires i < MAX_ARGS
  {
    st.cells[ParamRegister(i)].owner != "" ==>
      match FirstFree(st.cells, 0) case Some(h) => h !in ArgRegisters(i) case None => true
  }

  /** Everything from the end of the frame upwards is the same. */
  ghost predicate FrameSame(frame: nat, m: State, m1: State) {
    m1.rbp == m.rbp && m1.symbols == m.symbols && forall a: int | m.rbp - frame <= a :: SameCell(m.mem, m1.mem, a)
  }

  ghost predicate Usable(st: Store) {
    Sound(st) && "" !in st.vmap
  }

  lemma VacateMoves(globals: set<Name>, st: Store, r: Register, m: State)
    requires Usable(st) && m.Valid() && EmptyRegister(globals, st, r).Ok?
    requires Steps(EmptyRegister(globals, st, r).value.nodes, m).Some?
    ensures var e := EmptyRegister(globals, st, r).value;
            var m1 := Steps(e.nodes, m).value;
            Usable(e.st) && SlotsInPlace(st, e.st) && st.frame <= e.st.frame && FrameSame(st.frame, m, m1) &&
            forall s: Register | st.cells[r].owner == "" || FirstFree(st.cells, 0) != Some(s) ::
              m1.regs[s] == m.regs[s]
  {
    EmptyRegisterSound(globals, st, r);
    var e := EmptyRegister(globals, st, r).value;
    if st.cells[r].owner != "" {
      hide EmptyRegister, FirstFree;
      var home := VacateRehouses(globals, st, r);
      VacatingNode(globals, st, r, m);
    }
  }

  lemma VacatingNode(globals: set<Name>, st: Store, r: Register, m: State)
    requires Usable(st) && m.Valid() && EmptyRegister(globals, st, r).Ok? && st.cells[r].owner != ""
    requires Steps(EmptyRegister(globals, st, r).value.nodes, m).Some?
    ensures var m1 := Steps(EmptyRegister(globals, st, r).value.nodes, m).value;
            FrameSame(st.frame, m, m1) &&
            forall s: Register | FirstFree(st.cells, 0) != Some(s) :: m1.regs[s] == m.regs[s]
  {
    hide FirstFree, RemapValue, FrameSame, Steps, Step;
    var size := st.cells[r].size;
    var node := EmptyRegister(globals, st, r).value.nodes[0];
    OneNode(node, m);
    match FirstFree(st.cells, 0)
    case Some(h) =>
      assert exists s :: node == NMov(OReg(h, s), OReg(r, s));
      MovedToRegister(h, r, node, st.frame, m);
    case None =>
      assert node == NMov(OMem(st.frame + SizeInBytes(size).value, Ptr), OReg(r, size));
      MovedToFrame(st.frame, r, size, m);
  }

  lemma MovedToRegister(h: Register, r: Register, node: Node, frame: nat, m: State)
    requires m.Valid() && Step(node, m).Some? && exists s :: node == NMov(OReg(h, s), OReg(r, s))
    ensures var m1 := Step(node, m).value;
            FrameSame(frame, m, m1) && forall s: Register | s != h :: m1.regs[s] == m.regs[s]
  {
  }

  /** Only eight bytes are moved from a register. */
  lemma MovedToFrame(frame: nat, r: Register, size: Size, m: State)
    requires m.Valid() && SizeInBytes(size).Some?
    requires Step(NMov(OMem(frame + SizeInBytes(size).value, Ptr), OReg(r, size)), m).Some?
    ensures var m1 := Step(NMov(OMem(frame + SizeInBytes(size).value, Ptr), OReg(r, size)), m).value;
            FrameSame(frame, m, m1) && m1.regs == m.regs
  {
    var mem := Write(m.mem, m.rbp - (frame + 8), m.regs[r]);
    forall a: int | m.rbp - frame <= a ensures SameCell(m.mem, mem, a) {
      WriteApart(m.mem, m.rbp - (frame + 8), m.regs[r], a);
    }
  }

  lemma {:induction false} StepsPrefix(a: seq<Node>, b: seq<Node>, m: State)
    requires m.Valid() && Steps(a + b, m).Some?
    ensures Steps(a, m).Some?
  {
    if a == [] {
    } else {
      assert (a + b)[1..] == a[1..] + b;
      StepsPrefix(a[1..], b, Step(a[0], m).value);
    }
  }

  /** What an operand that is an address is in a machine state. */
  function AddressIn(st: Store, v: Value, m: State): Word
    requires v.Var? && ((v.name in st.vmap && st.vmap[v.name].Slot?) || v.name in m.symbols)
  {
    if v.name in st.vmap && st.vmap[v.name].Slot? then (m.rbp - st.vmap[v.name].below) % WORD else m.symbols[v.name]
  }

  /** The set-up of one argument: where it leaves addresses, and what it leaves alone. */
  ghost predicate ArgMoved(cx: Context, st: Store, v: Value, i: nat, e: Emit, m: State)
    requires m.Valid() && i < MAX_ARGS && Steps(e.nodes, m).Some?
  {
    var m1 := Steps(e.nodes, m).value;
    Usable(e.st) && SlotsInPlace(st, e.st) && st.frame <= e.st.frame && FrameSame(st.frame, m, m1) &&
    (HomeClear(st, i) ==> forall j | 0 <= j < i :: m1.regs[ParamRegister(j)] == m.regs[ParamRegister(j)]) &&
    (Allocated(st, v) ==> m1.regs[ParamRegister(i)] == AddressIn(st, v, m)) &&
    (Declared(cx.globals, st, v) ==> v.name in m.symbols && m1.regs[ParamRegister(i)] == AddressIn(st, v, m))
  }

  /** A vacated register is loaded, or keeps what it has. */
  lemma ArgNodes(cx: Context, st: Store, v: Value, dropped: bool, p: Register) returns (load: seq<Node>)
    requires LowerArg(cx, st, v, dropped, p).Ok?
    ensures EmptyRegister(cx.globals, st, p).Ok?
    ensures var e := EmptyRegister(cx.globals, st, p).value;
            LowerArg(cx, st, v, dropped, p) == Ok(Emit(e.st, e.nodes + load)) &&
            (load == [] || exists o :: load == [NMov(OReg(p, v.size), o)] || load == [NLea(OReg(p, Ptr), o)]) &&
            (SlotsInPlace(st, e.st) && (Allocated(st, v) || Declared(cx.globals, st, v)) ==>
               load == [AddressNode(st, v, p)])
  {
    hide EmptyRegister;
    var e := EmptyRegister(cx.globals, st, p).value;
    var arg := LowerArg(cx, st, v, dropped, p).value;
    if arg.nodes == e.nodes && !Allocated(st, v) && !Declared(cx.globals, st, v) {
      load := [];
      assert e.nodes + [] == e.nodes;
    } else {
      load := [arg.nodes[|arg.nodes| - 1]];
    }
  }

  lemma LoadStep(load: Node, p: Register, s: Size, o: Operand, m: State)
    requires m.Valid() && Step(load, m).Some? && (load == NMov(OReg(p, s), o) || load == NLea(OReg(p, Ptr), o))
    ensures var m1 := Step(load, m).value; m1 == m.(regs := m1.regs, flags := m1.flags)
    ensures forall r: Register | r != p :: Step(load, m).value.regs[r] == m.regs[r]
  {
  }

  lemma AddressStep(globals: set<Name>, st: Store, v: Value, p: Register, m: State)
    requires m.Valid() && (Allocated(st, v) || Declared(globals, st, v)) && Step(AddressNode(st, v, p), m).Some?
    ensures Declared(globals, st, v) ==> v.name in m.symbols
    ensures Step(AddressNode(st, v, p), m).value.regs[p] == AddressIn(st, v, m)
  {
  }

  lemma ArgMoves(cx: Context, st: Store, v: Value, dropped: bool, i: nat, m: State)
    requires Usable(st) && m.Valid() && i < MAX_ARGS && LowerArg(cx, st, v, dropped, ParamRegister(i)).Ok?
    requires Steps(LowerArg(cx, st, v, dropped, ParamRegister(i)).value.nodes, m).Some?
    ensures ArgMoved(cx, st, v, i, LowerArg(cx, st, v, dropped, ParamRegister(i)).value, m)
  {
    hide EmptyRegister, FirstFree, Usable, SlotsInPlace, LowerArg, Steps, Step, AddressNode, Allocated, Declared,
         AddressIn;
    var p := ParamRegister(i);
    var load := ArgNodes(cx, st, v, dropped, p);
    var e := EmptyRegister(cx.globals, st, p).value;
    StepsPrefix(e.nodes, load, m);
    VacateMoves(cx.globals, st, p, m);
    var m1 := Steps(e.nodes, m).value;
    StepsAppend(e.nodes, load, m);
    if load == [] {
      StepsNil(m1);
    } else {
      OneNode(load[0], m1);
      var o :| load == [NMov(OReg(p, v.size), o)] || load == [NLea(OReg(p, Ptr), o)];
      LoadStep(load[0], p, v.size, o, m1);
    }
    EarlierKept(st, i, m, m1);
    if Allocated(st, v) || Declared(cx.globals, st, v) {
      AddressStep(cx.globals, st, v, p, m1);
      SameAddress(cx.globals, st, v, m, m1);
    }
  }

  lemma EarlierKept(st: Store, i: nat, m: State, m1: State)
    requires m.Valid() && m1.Valid() && i < MAX_ARGS
    requires forall s: Register | st.cells[ParamRegister(i)].owner == "" || FirstFree(st.cells, 0) != Some(s) ::
               m1.regs[s] == m.regs[s]
    ensures HomeClear(st, i) ==> forall j | 0 <= j < i :: m1.regs[ParamRegister(j)] == m.regs[ParamRegister(j)]
    ensures forall j | 0 <= j < i :: ParamRegister(j) != ParamRegister(i)
  {
    hide FirstFree;
    forall j | 0 <= j < i ensures ParamRegister(j) in ArgRegisters(i) {
      ArgRegistersDistinct(i, j);
    }
  }

  lemma SameAddress(globals: set<Name>, st: Store, v: Value, m: State, m1: State)
    requires m1.rbp == m.rbp && m1.symbols == m.symbols && (Allocated(st, v) || Declared(globals, st, v))
    requires Declared(globals, st, v) ==> v.name in m.symbols
    ensures v.Var? && AddressIn(st, v, m1) == AddressIn(st, v, m)
  {
  }

  /** Every address is where the callee expects it. */
  ghost predicate AddressesInPlace(globals: set<Name>, st: Store, ops: seq<Value>, i: nat, m: State, m1: State)
    requires m1.Valid() && i <= |ops| <= MAX_ARGS
  {
    forall k | i <= k < |ops| ::
      (Allocated(st, ops[k]) ==> m1.regs[ParamRegister(k)] == (m.rbp - st.vmap[ops[k].name].below) % WORD) &&
      (Declared(globals, st, ops[k]) ==>
         ops[k].name in m.symbols && m1.regs[ParamRegister(k)] == m.symbols[ops[k].name])
  }

  lemma {:induction false} ArgsMove(cx: Context, st: Store, ops: seq<Value>, dropped: seq<bool>, i: nat, m: State)
    requires Usable(st) && m.Valid() && i <= |ops| == |dropped| <= MAX_ARGS && LowerArgs(cx, st, ops, dropped, i).Ok?
    requires Steps(LowerArgs(cx, st, ops, dropped, i).value.nodes, m).Some? && HomesClear(cx, st, ops, dropped, i)
    ensures var e := LowerArgs(cx, st, ops, dropped, i).value;
            var m1 := Steps(e.nodes, m).value;
            Usable(e.st) && st.frame <= e.st.frame && FrameSame(st.frame, m, m1) &&
            (forall j | 0 <= j < i :: m1.regs[ParamRegister(j)] == m.regs[ParamRegister(j)]) &&
            AddressesInPlace(cx.globals, st, ops, i, m, m1)
    decreases |ops| - i
  {
    hide LowerArg, Steps, Usable, HomeClear, Allocated, Declared, AddressIn, SlotsInPlace, FrameSame;
    if i == |ops| {
      StepsNil(m);
      FrameStays(st.frame, m);
    } else {
      var e := LowerArg(cx, st, ops[i], dropped[i], ParamRegister(i)).value;
      var rest := LowerArgs(cx, e.st, ops, dropped, i + 1).value;
      StepsPrefix(e.nodes, rest.nodes, m);
      StepsAppend(e.nodes, rest.nodes, m);
      ArgMoves(cx, st, ops[i], dropped[i], i, m);
      var m1 := Steps(e.nodes, m).value;
      ArgsMove(cx, e.st, ops, dropped, i + 1, m1);
      FrameStillSame(st.frame, e.st.frame, m, m1, Steps(rest.nodes, m1).value);
      InPlaceFrom(cx.globals, st, e.st, ops, i, m, m1, Steps(rest.nodes, m1).value);
    }
  }

  lemma FrameStays(frame: nat, m: State)
    ensures FrameSame(frame, m, m)
  {
  }

  lemma FrameStillSame(frame: nat, more: nat, m: State, m1: State, m2: State)
    requires FrameSame(frame, m, m1) && FrameSame(more, m1, m2) && frame <= more
    ensures FrameSame(frame, m, m2)
  {
    forall a: int | m.rbp - frame <= a ensures SameCell(m.mem, m2.mem, a) {
      assert SameCell(m.mem, m1.mem, a);
      assert SameCell(m1.mem, m2.mem, a);
    }
  }

  lemma InPlaceFrom(globals: set<Name>, st: Store, st1: Store, ops: seq<Value>, i: nat, m: State, m1: State, m2: State)
    requires m1.Valid() && m2.Valid() && i < |ops| <= MAX_ARGS && SlotsInPlace(st, st1)
    requires m1.rbp == m.rbp && m1.symbols == m.symbols
    requires Allocated(st, ops[i]) ==> m1.regs[ParamRegister(i)] == AddressIn(st, ops[i], m)
    requires Declared(globals, st, ops[i]) ==>
               ops[i].name in m.symbols && m1.regs[ParamRegister(i)] == AddressIn(st, ops[i], m)
    requires AddressesInPlace(globals, st1, ops, i + 1, m1, m2)
    requires m2.regs[ParamRegister(i)] == m1.regs[ParamRegister(i)]
    ensures AddressesInPlace(globals, st, ops, i, m, m2)
  {
  }

  /** No vacated value, that of rax included, goes to a loaded argument register. */
  ghost predicate CallClear(cx: Context, st: Store, ops: seq<Value>, dropped: seq<bool>)
    requires |ops| <= MAX_ARGS && |dropped| == |ops| && LowerArgs(cx, st, ops, dropped, 0).Ok?
  {
    HomesClear(cx, st, ops, dropped, 0) &&
    var st1 := LowerArgs(cx, st, ops, dropped, 0).value.st;
    st1.cells[RAX].owner != "" ==>
      match FirstFree(st1.cells, 0) case Some(h) => h !in ArgRegisters(|ops|) case None => true
  }

  lemma CallNodesAre(cx: Context, st: Store, g: Name, size: Size, ops: seq<Value>, dropped: seq<bool>)
    requires LowerCall(cx, st, g, size, ops, dropped).Ok?
    ensures LowerArgs(cx, st, ops, dropped, 0).Ok?
    ensures EmptyRegister(cx.globals, LowerArgs(cx, st, ops, dropped, 0).value.st, RAX).Ok?
    ensures LowerCall(cx, st, g, size, ops, dropped).value.nodes ==
            LowerArgs(cx, st, ops, dropped, 0).value.nodes +
            (EmptyRegister(cx.globals, LowerArgs(cx, st, ops, dropped, 0).value.st, RAX).value.nodes +
            [NMov(OReg(RAX, I64), OImm(0, I64))]) + [NCall(g)]
  {
    hide LowerArgs, EmptyRegister, GetRegister;
  }

  /** Whatever the call passes besides, and from whatever state its set-up runs: at the call
      instruction the argument register of a pointer to an allocation holds the address at which
      the allocation starts, that of a global string holds the address of its symbol, and the
      frame is as it was. */
  lemma AddressesArePassed(cx: Context, st: Store, g: Name, size: Size, ops: seq<Value>, dropped: seq<bool>, m: State)
      returns (setup: seq<Node>)
    requires Usable(st) && m.Valid() && |ops| == |dropped| <= MAX_ARGS && LowerCall(cx, st, g, size, ops, dropped).Ok?
    requires LowerArgs(cx, st, ops, dropped, 0).Ok? && CallClear(cx, st, ops, dropped)
    ensures LowerCall(cx, st, g, size, ops, dropped).value.nodes == setup + [NCall(g)]
    ensures Steps(setup, m).Some? ==>
              var m1 := Steps(setup, m).value;
              AddressesInPlace(cx.globals, st, ops, 0, m, m1) && FrameSame(st.frame, m, m1)
  {
    hide LowerArgs, LowerCall, EmptyRegister, Steps, Usable, HomesClear, FirstFree, AddressesInPlace, FrameSame;
    CallNodesAre(cx, st, g, size, ops, dropped);
    var args := LowerArgs(cx, st, ops, dropped, 0).value;
    var rax := EmptyRegister(cx.globals, args.st, RAX).value;
    var clear := NMov(OReg(RAX, I64), OImm(0, I64));
    setup := args.nodes + (rax.nodes + [clear]);
    if Steps(setup, m).Some? {
      StepsPrefix(args.nodes, rax.nodes + [clear], m);
      StepsAppend(args.nodes, rax.nodes + [clear], m);
      ArgsMove(cx, st, ops, dropped, 0, m);
      var m1 := Steps(args.nodes, m).value;
      StepsPrefix(rax.nodes, [clear], m1);
      StepsAppend(rax.nodes, [clear], m1);
      VacateMoves(cx.globals, args.st, RAX, m1);
      var m2 := Steps(rax.nodes, m1).value;
      OneNode(clear, m2);
      FrameStillSame(st.frame, args.st.frame, m, m1, m2);
      ClearedStill(cx.globals, st, args.st, ops, m, m1, m2, Step(clear, m2).value);
    }
  }

  lemma ClearedStill(globals: set<Name>, st: Store, st1: Store, ops: seq<Value>, m: State, m1: State, m2: State,
                     m3: State)
    requires m1.Valid() && m2.Valid() && |ops| <= MAX_ARGS && AddressesInPlace(globals, st, ops, 0, m, m1)
    requires forall s: Register | st1.cells[RAX].owner == "" || FirstFree(st1.cells, 0) != Some(s) ::
               m2.regs[s] == m1.regs[s]
    requires st1.cells[RAX].owner != "" ==>
               match FirstFree(st1.cells, 0) case Some(h) => h !in ArgRegisters(|ops|) case None => true
    requires FrameSame(st.frame, m, m2) && m3 == m2.(regs := m2.regs[RAX := 0], flags := m3.flags)
    ensures AddressesInPlace(globals, st, ops, 0, m, m3) && FrameSame(st.frame, m, m3)
  {
    hide FirstFree, Allocated, Declared;
    forall j | 0 <= j < |ops| ensures ParamRegister(j) in ArgRegisters(|ops|) {
    }
  }

  // What the callee reads there

  /** A store through a pointer, and then the set-up of a call that passes the pointer: the value
      is at the address in the argument register. */
  lemma StoredIsPassed(cx: Context, st: Store, p: Name, v: Value, g: Name, size: Size, ops: seq<Value>,
                       dropped: seq<bool>, k: nat, m: State, w: Word)
      returns (setup: seq<Node>)
    requires Usable(st) && m.Valid() && |ops| == |dropped| <= MAX_ARGS && LowerCall(cx, st, g, size, ops, dropped).Ok?
    requires LowerArgs(cx, st, ops, dropped, 0).Ok? && CallClear(cx, st, ops, dropped)
    requires k < |ops| && ops[k] == Var(Ptr, p) && Allocated(st, ops[k])
    requires st.vmap[p].below <= st.frame && st.vmap[p].below <= m.rbp
    requires Readable(st, v) && Storable(st, st.vmap[p].below, v) && ValueIn(cx.globals, st, v, m) == Some(w)
    ensures LowerStore(cx, st, I64, [Var(Ptr, p), v]).Ok?
    ensures LowerCall(cx, st, g, size, ops, dropped).value.nodes == setup + [NCall(g)]
    ensures var run := Steps(LowerStore(cx, st, I64, [Var(Ptr, p), v]).value.nodes + setup, m);
            run.Some? ==> var a := run.value.regs[ParamRegister(k)]; a in run.value.mem && run.value.mem[a] == w
  {
    hide LowerArgs, LowerCall, LowerStore, Steps, Usable, CallClear, StoresIn, Storable, Readable, ValueIn;
    StoresExactly(cx, st, p, v);
    var store := LowerStore(cx, st, I64, [Var(Ptr, p), v]).value.nodes;
    assert StoresIn(store, st.vmap[p].below, m, w);
    var m1 := StoredAt(store, st.vmap[p].below, m, w);
    setup := AddressesArePassed(cx, st, g, size, ops, dropped, m1);
    StepsAppend(store, setup, m);
    if Steps(setup, m1).Some? {
      assert SameCell(m1.mem, Steps(setup, m1).value.mem, m.rbp - st.vmap[p].below);
    }
  }

  lemma StoredAt(nodes: seq<Node>, below: nat, m: State, w: Word) returns (m1: State)
    requires m.Valid() && StoresIn(nodes, below, m, w)
    ensures Steps(nodes, m) == Some(m1) && m1.Valid() && m1.rbp == m.rbp
    ensures m.rbp - below in m1.mem && m1.mem[m.rbp - below] == w
  {
    m1 := Steps(nodes, m).value;
  }

  /** In the frame of a function, the addresses of two names are apart by the bytes of the lower
      one: pointers to two allocations are different. */
  lemma AddressesDiffer(globals: set<Name>, f: Function, b: nat, i: nat, m0: State, m1: State, x: Name, y: Name)
    requires CompileFunction(globals, f).Ok? && |f.params| <= MAX_ARGS && b < |f.blocks| && i <= |f.blocks[b].insts|
    requires Assigned(f) && m0.Valid() && StateAt(Context(f.returnType, globals), f, b, i).Ok?
    requires var fn := CompileFunction(globals, f).value;
             fn.frame > 0 && Frames.Registers(fn.saved) && Frames.Entered(fn.frame, fn.saved, m0, m1)
    requires var st := StateAt(Context(f.returnType, globals), f, b, i).value;
             x in st.vmap && y in st.vmap && x != y && st.vmap[x].Slot? && st.vmap[y].Slot?
    ensures var cx := Context(f.returnType, globals);
            var st, bytes := StateAt(cx, f, b, i).value, BytesAt(cx, f, b, i);
            var p, q := (m1.rbp - st.vmap[x].below) % WORD, (m1.rbp - st.vmap[y].below) % WORD;
            x in bytes && y in bytes && (p + bytes[x] <= q || q + bytes[y] <= p) &&
            (bytes[x] > 0 && bytes[y] > 0 ==> p != q)
  {
    hide CompileFunction, StateAt, BytesAt;
    SlotsDoNotOverlap(globals, f, b, i, m0, m1, x, y);
    SlotsDoNotOverlap(globals, f, b, i, m0, m1, y, x);
    var st, bytes := StateAt(Context(f.returnType, globals), f, b, i).value,
      BytesAt(Context(f.returnType, globals), f, b, i);
    InRange(m1.rbp - st.vmap[x].below, m1.rbp);
    InRange(m1.rbp - st.vmap[y].below, m1.rbp);
  }

  lemma InRange(at: int, rbp: Word)
    requires 0 <= at <= rbp
    ensures at % WORD == at
  {
  }
}
