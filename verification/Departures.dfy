/** Where lowering departs from what an instruction means, and exactly when it does not. */
module Departures {
  import opened Wrappers
  import opened Ir
  import opened Machine
  import opened IrSemantics
  import opened Storage
  import opened Lowering
  import opened Ownership
  import opened Simulation
  import opened ArgumentSetup
  import opened Generation
  import Conditions

  /** What a value reads as in a machine state. */
  function ValueIn(globals: set<Name>, st: Store, v: Value, m: State): Option<Word>
    requires m.Valid()
  {
    match ValueOperand(globals, st, v)
    case Ok(o) => Read(m, o)
    case Err(_) => None
  }

  /** A literal an instruction can carry, or a name in a register or slot of eight bytes. */
  predicate Readable(st: Store, v: Value) {
    match v
    case Lit(s, n) => s == I64 && n < IMM_LIMIT
    case Var(_, x) => x in st.vmap && match st.vmap[x] case InReg(r) => EightBytes(st.cells[r].size)
      case Slot(_) => true case _ => false
  }

  predicate Computable(t: ArithType) {
    t == Add || t == Sub || t == Mul
  }

  function Uniform(w: Word): State {
    State([w, w, w, w, w, w, w, w, w, w, w, w, w, w, w], 0, 0, None, map[], map[])
  }

  // Subtraction: operands change places when the left one is not in a register

  ghost predicate Computes(cx: Context, st: Store, t: ArithType, ops: seq<Value>)
    requires |ops| == 2
  {
    var r := LowerArith(cx, st, t, ops);
    r.Ok? && r.value.dest.Some? && r.value.dest.value.InReg? &&
    forall m: State, a: Word, b: Word | m.Valid() && ValueIn(cx.globals, st, ops[0], m) == Some(a) &&
      ValueIn(cx.globals, st, ops[1], m) == Some(b) ::
      Leaves(r.value, m, Arithmetic(t, a, b))
  }

  /** Running the nodes leaves a word in the result's register. */
  ghost predicate Leaves(low: Lowered, m: State, w: Option<Word>)
    requires m.Valid() && low.dest.Some? && low.dest.value.InReg?
  {
    w.Some? && Steps(low.nodes, m).Some? && Steps(low.nodes, m).value.regs[low.dest.value.reg] == w.value
  }

  lemma OneNode(node: Node, m: State)
    requires m.Valid()
    ensures Steps([node], m) == Step(node, m)
  {
    assert [node][1..] == [];
    if Step(node, m).Some? {
      assert Steps([], Step(node, m).value) == Step(node, m);
    }
  }

  lemma ArithIs(cx: Context, st: Store, t: ArithType, ops: seq<Value>)
    requires |ops| == 2 && Readable(st, ops[0]) && Readable(st, ops[1]) &&
             (RegisterOf(st, ops[0]).Some? || RegisterOf(st, ops[1]).Some?)
    ensures var left := RegisterOf(st, ops[0]).Some?;
            var dom, sub := if left then ops[0] else ops[1], if left then ops[1] else ops[0];
            ValueOperand(cx.globals, st, dom).Ok? && ValueOperand(cx.globals, st, sub).Ok? &&
            LowerArith(cx, st, t, ops) ==
              Ok(Lowered(st, [NArith(t, ValueOperand(cx.globals, st, dom).value,
                                     ValueOperand(cx.globals, st, sub).value)], Some(InReg(RegisterOf(st, dom).value))))
  {
    assert forall n: Node :: [] + [n] == [n];
  }

  lemma ArithLeaves(cx: Context, st: Store, t: ArithType, ops: seq<Value>, m: State, a: Word, b: Word)
    requires |ops| == 2 && Readable(st, ops[0]) && Readable(st, ops[1]) &&
             (RegisterOf(st, ops[0]).Some? || RegisterOf(st, ops[1]).Some?)
    requires Computable(t) && m.Valid() && ValueIn(cx.globals, st, ops[0], m) == Some(a) &&
             ValueIn(cx.globals, st, ops[1], m) == Some(b)
    ensures LowerArith(cx, st, t, ops).Ok? && LowerArith(cx, st, t, ops).value.dest.Some? &&
            LowerArith(cx, st, t, ops).value.dest.value.InReg?
    ensures Leaves(LowerArith(cx, st, t, ops).value, m, if RegisterOf(st, ops[0]).Some? then Arithmetic(t, a, b)
                   else Arithmetic(t, b, a))
  {
    hide LowerArith;
    ArithIs(cx, st, t, ops);
    OneNode(LowerArith(cx, st, t, ops).value.nodes[0], m);
  }

  lemma Commutes(t: ArithType, a: Word, b: Word)
    requires t == Add || t == Mul
    ensures Arithmetic(t, a, b) == Arithmetic(t, b, a)
  {
    assert a * b == b * a;
  }

  /** A machine state in which a subtraction with its left operand outside registers goes
      wrong. */
  lemma WrongDifference(cx: Context, st: Store, ops: seq<Value>) returns (m: State, a: Word, b: Word)
    requires |ops| == 2 && Readable(st, ops[0]) && Readable(st, ops[1]) && RegisterOf(st, ops[0]).None? &&
             RegisterOf(st, ops[1]).Some?
    ensures m.Valid() && ValueIn(cx.globals, st, ops[0], m) == Some(a) && ValueIn(cx.globals, st, ops[1], m) == Some(b)
    ensures Arithmetic(Sub, a, b) != Arithmetic(Sub, b, a)
  {
    match ops[0] {
      case Lit(_, n) => a, b := n, n + 1;
      case Var(_, _) => a, b := 0, 1;
    }
    m := Uniform(b);
    if ops[0].Var? {
      m := m.(mem := map[0 - st.vmap[ops[0].name].below := 0]);
    }
  }

  /** With an operand in a register, lowered arithmetic computes the operation on all operand
      values exactly when it is not a subtraction whose left operand is outside registers. */
  lemma RegisterComputesExactly(cx: Context, st: Store, t: ArithType, ops: seq<Value>)
    requires |ops| == 2 && Computable(t) && Readable(st, ops[0]) && Readable(st, ops[1])
    requires RegisterOf(st, ops[0]).Some? || RegisterOf(st, ops[1]).Some?
    ensures Computes(cx, st, t, ops) <==> (t == Sub ==> RegisterOf(st, ops[0]).Some?)
  {
    hide LowerArith, Readable, ValueIn, Leaves;
    assert LowerArith(cx, st, t, ops).Ok? && LowerArith(cx, st, t, ops).value.dest.Some? &&
           LowerArith(cx, st, t, ops).value.dest.value.InReg? by {
      ArithIs(cx, st, t, ops);
    }
    forall m: State, a: Word, b: Word | m.Valid() && ValueIn(cx.globals, st, ops[0], m) == Some(a) &&
      ValueIn(cx.globals, st, ops[1], m) == Some(b)
      ensures Leaves(LowerArith(cx, st, t, ops).value, m, if RegisterOf(st, ops[0]).Some? then Arithmetic(t, a, b)
                     else Arithmetic(t, b, a))
      ensures t != Sub ==> Arithmetic(t, a, b) == Arithmetic(t, b, a)
    {
      ArithLeaves(cx, st, t, ops, m, a, b);
      if t != Sub {
        Commutes(t, a, b);
      }
    }
    if t == Sub && RegisterOf(st, ops[0]).None? {
      var m, a, b := WrongDifference(cx, st, ops);
      LeavesOne(LowerArith(cx, st, t, ops).value, m, Arithmetic(t, a, b), Arithmetic(t, b, a));
    }
  }

  lemma LeavesOne(low: Lowered, m: State, v: Option<Word>, w: Option<Word>)
    requires m.Valid() && low.dest.Some? && low.dest.value.InReg? && Leaves(low, m, w) && v != w
    ensures !Leaves(low, m, v)
  {
  }

  // The dominating operand is overwritten

  /** Arithmetic on two names in registers keeps all names in keep in all machine states. */
  ghost predicate KeepsNames(cx: Context, st: Store, t: ArithType, x: Name, y: Name, keep: set<Name>) {
    var r := LowerArith(cx, st, t, [Var(I64, x), Var(I64, y)]);
    r.Ok? &&
    forall env: Env, m: State | m.Valid() && Represents(st, keep + {x, y}, env, m) && IntOf(env, Var(I64, x)).Some? &&
      IntOf(env, Var(I64, y)).Some? ::
      KeptBy(st, keep, env, m, r.value.nodes)
  }

  ghost predicate KeptBy(st: Store, keep: set<Name>, env: Env, m: State, nodes: seq<Node>)
    requires m.Valid()
  {
    Steps(nodes, m).Some? && Represents(st, keep, env, Steps(nodes, m).value)
  }

  /** It does exactly when the left one, which the result replaces, is not among them. The
      flags must not be needed, which arithmetic destroys. */
  lemma ArithmeticKeepsNamesExactly(cx: Context, st: Store, t: ArithType, x: Name, y: Name, keep: set<Name>)
    requires Computable(t) && x != y && Readable(st, Var(I64, x)) && Readable(st, Var(I64, y))
    requires RegisterOf(st, Var(I64, x)).Some? && RegisterOf(st, Var(I64, y)).Some?
    requires RegistersApart(st, keep + {x, y}) && FlagsFree(st, keep)
    ensures KeepsNames(cx, st, t, x, y, keep) <==> x !in keep
  {
    hide LowerArith, KeptBy;
    var ops := [Var(I64, x), Var(I64, y)];
    ArithIs(cx, st, t, ops);
    var nodes := LowerArith(cx, st, t, ops).value.nodes;
    if x in keep {
      var env := Env(map[x := IntV(2), y := IntV(2)], map[]);
      var m := Uniform(2);
      assert Represents(st, keep + {x, y}, env, m);
      OverwritesTwo(cx, st, t, x, y, keep, env, m);
    } else {
      forall env: Env, m: State | m.Valid() && Represents(st, keep + {x, y}, env, m) && IntOf(env, Var(I64, x)).Some? &&
        IntOf(env, Var(I64, y)).Some?
        ensures KeptBy(st, keep, env, m, nodes)
      {
        OthersKept(cx, st, t, x, y, keep, env, m);
      }
    }
  }

  lemma OverwritesTwo(cx: Context, st: Store, t: ArithType, x: Name, y: Name, keep: set<Name>, env: Env, m: State)
    requires Computable(t) && Readable(st, Var(I64, x)) && Readable(st, Var(I64, y)) &&
             RegisterOf(st, Var(I64, x)).Some? && RegisterOf(st, Var(I64, y)).Some?
    requires x in keep && m == Uniform(2) && x in env.vals && env.vals[x] == IntV(2) &&
             LowerArith(cx, st, t, [Var(I64, x), Var(I64, y)]).Ok?
    ensures !KeptBy(st, keep, env, m, LowerArith(cx, st, t, [Var(I64, x), Var(I64, y)]).value.nodes)
  {
    hide LowerArith, Arithmetic, Represents;
    ArithIs(cx, st, t, [Var(I64, x), Var(I64, y)]);
    var low := LowerArith(cx, st, t, [Var(I64, x), Var(I64, y)]).value;
    OneNode(low.nodes[0], m);
    TwiceTwo(t);
    assert Steps(low.nodes, m).Some? && Steps(low.nodes, m).value.regs[st.vmap[x].reg] != 2;
    NotRepresented(st, keep, env, Steps(low.nodes, m).value, x, 2);
  }

  lemma TwiceTwo(t: ArithType)
    requires Computable(t)
    ensures Arithmetic(t, 2, 2).Some? && Arithmetic(t, 2, 2).value != 2
  {
  }

  lemma NotRepresented(st: Store, keep: set<Name>, env: Env, m: State, x: Name, w: Word)
    requires m.Valid() && x in keep && x in env.vals && env.vals[x] == IntV(w) && x in st.vmap && st.vmap[x].InReg? &&
             m.regs[st.vmap[x].reg] != w
    ensures !Represents(st, keep, env, m)
  {
    assert !HoldsAt(st.vmap[x], env.vals[x], Content(env, x), m);
  }

  lemma OthersKept(cx: Context, st: Store, t: ArithType, x: Name, y: Name, keep: set<Name>, env: Env, m: State)
    requires Computable(t) && x !in keep && Readable(st, Var(I64, x)) && Readable(st, Var(I64, y)) &&
             RegisterOf(st, Var(I64, x)).Some? && RegisterOf(st, Var(I64, y)).Some?
    requires RegistersApart(st, keep + {x, y}) && FlagsFree(st, keep) && m.Valid() &&
             Represents(st, keep + {x, y}, env, m)
    ensures LowerArith(cx, st, t, [Var(I64, x), Var(I64, y)]).Ok?
    ensures KeptBy(st, keep, env, m, LowerArith(cx, st, t, [Var(I64, x), Var(I64, y)]).value.nodes)
  {
    hide LowerArith;
    ArithIs(cx, st, t, [Var(I64, x), Var(I64, y)]);
    var low := LowerArith(cx, st, t, [Var(I64, x), Var(I64, y)]).value;
    OneNode(low.nodes[0], m);
    var m1 := Steps(low.nodes, m).value;
    forall z | z in keep && z in env.vals
      ensures z in st.vmap && HoldsAt(st.vmap[z], env.vals[z], Content(env, z), m1)
    {
      assert HoldsAt(st.vmap[z], env.vals[z], Content(env, z), m);
    }
  }

  // Stores: a literal 0 has no printed form, and memory is not moved to memory

  /** The lowered store puts the value of its second operand into the allocation, in all
      machine states in which that operand reads, and changes nothing else. */
  ghost predicate Stores(cx: Context, st: Store, p: Name, v: Value)
    requires p in st.vmap && st.vmap[p].Slot?
  {
    var r := LowerStore(cx, st, I64, [Var(Ptr, p), v]);
    r.Ok? && r.value.st == st &&
    forall m: State, w: Word | m.Valid() && ValueIn(cx.globals, st, v, m) == Some(w) ::
      StoresIn(r.value.nodes, st.vmap[p].below, m, w)
  }

  ghost predicate StoresIn(nodes: seq<Node>, below: nat, m: State, w: Word)
    requires m.Valid()
  {
    Steps(nodes, m).Some? &&
    var m1 := Steps(nodes, m).value;
    m1 == m.(mem := m1.mem) && Read(m1, OMem(below, I64)) == Some(w) &&
    forall a: int | a + 8 <= m.rbp - below || m.rbp - below + 8 <= a :: SameCell(m.mem, m1.mem, a)
  }

  /** What can be stored: a literal other than 0, a name in a register, or what is in the
      allocation already. */
  predicate Storable(st: Store, below: nat, v: Value) {
    match v
    case Lit(_, n) => n != 0
    case Var(_, x) => x in st.vmap && (st.vmap[x].InReg? || st.vmap[x] == Slot(below))
  }

  lemma StoreIs(cx: Context, st: Store, p: Name, v: Value)
    requires p in st.vmap && st.vmap[p].Slot? && Readable(st, v)
    ensures ValueOperand(cx.globals, st, v).Ok?
    ensures LowerStore(cx, st, I64, [Var(Ptr, p), v]) ==
              Ok(Lowered(st, [NMov(OMem(st.vmap[p].below, I64), ValueOperand(cx.globals, st, v).value)], None))
  {
  }

  lemma StorableStores(cx: Context, st: Store, v: Value, below: nat, m: State, w: Word)
    requires Readable(st, v) && Storable(st, below, v) && m.Valid() && ValueIn(cx.globals, st, v, m) == Some(w)
    ensures StoresIn([NMov(OMem(below, I64), ValueOperand(cx.globals, st, v).value)], below, m, w)
  {
    var node := NMov(OMem(below, I64), ValueOperand(cx.globals, st, v).value);
    OneNode(node, m);
    var m1 := Steps([node], m).value;
    forall a: int | a + 8 <= m.rbp - below || m.rbp - below + 8 <= a ensures SameCell(m.mem, m1.mem, a) {
      WriteApart(m.mem, m.rbp - below, w, a);
    }
  }

  lemma UnstorableFails(cx: Context, st: Store, v: Value, below: nat, m: State)
    requires Readable(st, v) && !Storable(st, below, v) && m.Valid()
    ensures Steps([NMov(OMem(below, I64), ValueOperand(cx.globals, st, v).value)], m) == None
  {
    OneNode(NMov(OMem(below, I64), ValueOperand(cx.globals, st, v).value), m);
  }

  /** A lowered store does what the instruction means exactly for those values. */
  lemma StoresExactly(cx: Context, st: Store, p: Name, v: Value)
    requires p in st.vmap && st.vmap[p].Slot? && Readable(st, v)
    ensures Stores(cx, st, p, v) <==> Storable(st, st.vmap[p].below, v)
  {
    hide LowerStore, Readable, ValueIn, StoresIn, Storable, Telling, Steps;
    var below := st.vmap[p].below;
    StoreIs(cx, st, p, v);
    if Storable(st, below, v) {
      forall m: State, w: Word | m.Valid() && ValueIn(cx.globals, st, v, m) == Some(w)
        ensures StoresIn(LowerStore(cx, st, I64, [Var(Ptr, p), v]).value.nodes, below, m, w)
      {
        StorableStores(cx, st, v, below, m, w);
      }
    } else {
      var m := Telling(st, [v]);
      assert v in [v];
      TellingReads(cx.globals, st, v, [v]);
      TellingValid(st, [v]);
      UnstorableFails(cx, st, v, below, m);
      NotStored(LowerStore(cx, st, I64, [Var(Ptr, p), v]).value.nodes, below, m, ValueIn(cx.globals, st, v, m).value);
    }
  }

  lemma NotStored(nodes: seq<Node>, below: nat, m: State, w: Word)
    requires m.Valid() && Steps(nodes, m) == None
    ensures !StoresIn(nodes, below, m, w)
  {
  }

  lemma TellingValid(st: Store, ops: seq<Value>)
    ensures Telling(st, ops).Valid() && Telling(st, ops).regs == DISTINCT
  {
  }

  // Comparisons: cmp takes no immediate on the left, and not two places in memory

  /** After the lowered comparison the condition of its result holds exactly when the relation
      does, in all machine states in which the operands read, and nothing else changed. */
  ghost predicate Compares(cx: Context, st: Store, t: IcmpType, ops: seq<Value>)
    requires |ops| == 2
  {
    var r := LowerIcmp(cx, st, t, ops);
    r.Ok? && r.value.dest == Some(Flag(t)) && r.value.st == st &&
    forall m: State, a: Word, b: Word | m.Valid() && ValueIn(cx.globals, st, ops[0], m) == Some(a) &&
      ValueIn(cx.globals, st, ops[1], m) == Some(b) ::
      ComparesIn(r.value.nodes, t, m, a, b)
  }

  ghost predicate ComparesIn(nodes: seq<Node>, t: IcmpType, m: State, a: Word, b: Word)
    requires m.Valid()
  {
    Steps(nodes, m).Some? &&
    var m1 := Steps(nodes, m).value;
    m1 == m.(flags := m1.flags) && m1.flags.Some? &&
    (Conditions.Holds(Conditions.CondInst(t), m1.flags.value) <==> Conditions.Relation(t, HALF, a, b))
  }

  predicate Comparable(st: Store, ops: seq<Value>)
    requires |ops| == 2
  {
    ops[0].Var? && (RegisterOf(st, ops[0]).Some? || RegisterOf(st, ops[1]).Some? || ops[1].Lit?)
  }

  lemma IcmpIs(cx: Context, st: Store, t: IcmpType, ops: seq<Value>)
    requires |ops| == 2 && Readable(st, ops[0]) && Readable(st, ops[1])
    ensures ValueOperand(cx.globals, st, ops[0]).Ok? && ValueOperand(cx.globals, st, ops[1]).Ok?
    ensures LowerIcmp(cx, st, t, ops) ==
              Ok(Lowered(st, [NCmp(ValueOperand(cx.globals, st, ops[0]).value,
                                   ValueOperand(cx.globals, st, ops[1]).value)], Some(Flag(t))))
  {
  }

  lemma CmpSteps(cx: Context, st: Store, t: IcmpType, ops: seq<Value>, m: State, a: Word, b: Word)
    requires |ops| == 2 && Readable(st, ops[0]) && Readable(st, ops[1])
    requires m.Valid() && ValueIn(cx.globals, st, ops[0], m) == Some(a) && ValueIn(cx.globals, st, ops[1], m) == Some(b)
    ensures LowerIcmp(cx, st, t, ops).Ok?
    ensures var nodes := LowerIcmp(cx, st, t, ops).value.nodes;
            if Comparable(st, ops) then ComparesIn(nodes, t, m, a, b) else Steps(nodes, m) == None
  {
    hide Conditions.Holds, Conditions.CmpFlags, Conditions.Relation, LowerIcmp;
    IcmpIs(cx, st, t, ops);
    OneNode(LowerIcmp(cx, st, t, ops).value.nodes[0], m);
    Conditions.CompareByHalf(t, HALF, a, b);
  }

  /** A lowered comparison does what the instruction means exactly if the left operand is no
      literal and the operands are not both in memory. */
  lemma ComparesExactly(cx: Context, st: Store, t: IcmpType, ops: seq<Value>)
    requires |ops| == 2 && Readable(st, ops[0]) && Readable(st, ops[1])
    ensures Compares(cx, st, t, ops) <==> Comparable(st, ops)
  {
    hide LowerIcmp, Readable, ValueIn, ComparesIn, Comparable, Telling, Steps;
    IcmpIs(cx, st, t, ops);
    if Comparable(st, ops) {
      forall m: State, a: Word, b: Word | m.Valid() && ValueIn(cx.globals, st, ops[0], m) == Some(a) &&
        ValueIn(cx.globals, st, ops[1], m) == Some(b)
        ensures ComparesIn(LowerIcmp(cx, st, t, ops).value.nodes, t, m, a, b)
      {
        CmpSteps(cx, st, t, ops, m, a, b);
      }
    } else {
      var m := Telling(st, ops);
      TellingValid(st, ops);
      TellingReads(cx.globals, st, ops[0], ops);
      TellingReads(cx.globals, st, ops[1], ops);
      var a, b := ValueIn(cx.globals, st, ops[0], m).value, ValueIn(cx.globals, st, ops[1], m).value;
      CmpSteps(cx, st, t, ops, m, a, b);
      NotCompared(LowerIcmp(cx, st, t, ops).value.nodes, t, m, a, b);
    }
  }

  lemma NotCompared(nodes: seq<Node>, t: IcmpType, m: State, a: Word, b: Word)
    requires m.Valid() && Steps(nodes, m) == None
    ensures !ComparesIn(nodes, t, m, a, b)
  {
  }

  // Loads: without a free register the value would go from memory to memory

  /** The lowered load leaves the content of an allocation where its result is mapped, in all
      machine states in which the allocation has content. */
  ghost predicate Fetches(cx: Context, st: Store, p: Name)
    requires p in st.vmap && st.vmap[p].Slot?
  {
    var r := LowerLoad(cx, st, I64, [Var(Ptr, p)]);
    r.Ok? && r.value.dest.Some? && OperandAt(r.value.dest.value, I64).Ok? &&
    forall m: State, w: Word | m.Valid() && Read(m, OMem(st.vmap[p].below, I64)) == Some(w) ::
      FetchesIn(r.value.nodes, OperandAt(r.value.dest.value, I64).value, m, w)
  }

  ghost predicate FetchesIn(nodes: seq<Node>, dest: Operand, m: State, w: Word)
    requires m.Valid()
  {
    Steps(nodes, m).Some? && Read(Steps(nodes, m).value, dest) == Some(w)
  }

  lemma LoadIsMov(cx: Context, st: Store, p: Name)
    requires p in st.vmap && st.vmap[p].Slot?
    ensures var r := LowerLoad(cx, st, I64, [Var(Ptr, p)]);
            r.Ok? && r.value.dest.Some? && OperandAt(r.value.dest.value, I64).Ok? &&
            r.value.nodes == [NMov(OperandAt(r.value.dest.value, I64).value, OMem(st.vmap[p].below, I64))] &&
            (match FirstFree(st.cells, 0)
             case Some(h) => r.value.dest == Some(InReg(h))
             case None => r.value.dest == Some(Slot(st.frame + 8)))
  {
    hide FirstFree;
  }

  /** A lowered load does what the instruction means exactly if a register is free. The other
      case, an allocation that is already where the result would be put, lies outside the
      frame. */
  lemma LoadsExactly(cx: Context, st: Store, p: Name)
    requires p in st.vmap && st.vmap[p].Slot?
    ensures Fetches(cx, st, p) <==> (exists r: Register :: st.cells[r].owner == "") || st.vmap[p].below == st.frame + 8
  {
    hide LowerLoad, FirstFree;
    LoadIsMov(cx, st, p);
    var r, below := LowerLoad(cx, st, I64, [Var(Ptr, p)]).value, st.vmap[p].below;
    var dest := OperandAt(r.dest.value, I64).value;
    if FirstFree(st.cells, 0).Some? || below == st.frame + 8 {
      forall m: State, w: Word | m.Valid() && Read(m, OMem(below, I64)) == Some(w)
        ensures FetchesIn(r.nodes, dest, m, w)
      {
        OneNode(r.nodes[0], m);
      }
    } else {
      var m := Uniform(0).(mem := map[0 - below := 0]);
      OneNode(r.nodes[0], m);
      assert !FetchesIn(r.nodes, dest, m, 0);
    }
  }

  // Selects: loading a literal 0 destroys the flags, cmov takes no literal, and the found
  // register may be where the true operand is

  /** What a generator's storage state has in every function: owners are mapped to their
      registers, and slots are in the frame. */
  ghost predicate Regular(st: Store) {
    Coherent(st) && OwnedSized(st) && forall x | x in st.vmap && st.vmap[x].Slot? :: st.vmap[x].below <= st.frame
  }

  lemma TwoNodes(a: Node, b: Node, m: State)
    requires m.Valid()
    ensures Steps([a, b], m) == match Step(a, m) case Some(m1) => Step(b, m1) case None => None
  {
    assert [a, b][1..] == [b];
    if Step(a, m).Some? {
      OneNode(b, Step(a, m).value);
    }
  }

  /** What a search for a register does to reading values: nothing. */
  ghost predicate ReadsAs(globals: set<Name>, st: Store, m: State, st1: Store, m1: State, v: Value)
    requires m.Valid() && m1.Valid()
  {
    Readable(st, v) ==>
      Readable(st1, v) && (ValueIn(globals, st, v, m).Some? ==>
                           ValueIn(globals, st1, v, m1) == ValueIn(globals, st, v, m))
  }

  lemma MovedReads(globals: set<Name>, st: Store, st1: Store, x: Name, r: Register, home: Loc, m: State, m1: State,
                   v: Value)
    requires Regular(st) && m.Valid() && x in st.vmap && st.vmap[x] == InReg(r) && Moved(st, st1, x, r, home) &&
             home.Slot?
    requires st1.cells[r].size == st.cells[r].size
    requires m1 == m.(mem := Write(m.mem, m.rbp - home.below, m.regs[r]))
    ensures ReadsAs(globals, st, m, st1, m1, v)
  {
    if v.Var? && v.name in st.vmap && v.name != x && st.vmap[v.name].Slot? {
      WriteApart(m.mem, m.rbp - home.below, m.regs[r], m.rbp - st.vmap[v.name].below);
    }
  }

  lemma VacatedSize(globals: set<Name>, st: Store, r: Register)
    requires Coherent(st) && OwnedSized(st) && st.cells[r].owner != "" && FirstFree(st.cells, 0).None?
    ensures EmptyRegister(globals, st, r).Ok? &&
            EmptyRegister(globals, st, r).value.st.cells[r].size == st.cells[r].size
  {
    hide FirstFree;
    var x := st.cells[r].owner;
    var found := FindValStorage(st, st.cells[r].size).value;
    RemapIs(found.0, x, r, found.1);
  }

  lemma VacateKeepsReads(globals: set<Name>, st: Store, r: Register, m: State) returns (m1: State)
    requires Regular(st) && FirstFree(st.cells, 0).None? && st.cells[r].owner != "" && m.Valid()
    ensures EmptyRegister(globals, st, r).Ok?
    ensures var e := EmptyRegister(globals, st, r).value;
            Steps(e.nodes, m) == Some(m1) && m1.Valid() && m1.flags == m.flags && m1.rbp == m.rbp &&
              m1.regs == m.regs &&
            forall v :: ReadsAs(globals, st, m, e.st, m1, v)
  {
    hide EmptyRegister, Moved, ReadsAs, FirstFree, Steps;
    var x := st.cells[r].owner;
    var home, s, t := EmptyRegisterMoves(globals, st, r);
    VacatedSize(globals, st, r);
    var st1 := EmptyRegister(globals, st, r).value.st;
    MovedHome(st, st1, x, r, home);
    m1 := MoveSteps(home, s, t, r, m);
    forall v ensures ReadsAs(globals, st, m, st1, m1, v) {
      MovedReads(globals, st, st1, x, r, home, m, m1, v);
    }
  }

  lemma TakenReads(globals: set<Name>, st: Store, r: Register, size: Size, m: State, v: Value)
    requires m.Valid() && EightBytes(size)
    ensures ReadsAs(globals, st, m, GetRegister(st, r, size), m, v)
  {
  }

  lemma ReadsThen(globals: set<Name>, st: Store, m: State, st1: Store, m1: State, st2: Store, v: Value)
    requires m.Valid() && m1.Valid() && ReadsAs(globals, st, m, st1, m1, v) && ReadsAs(globals, st1, m1, st2, m1, v)
    ensures ReadsAs(globals, st, m, st2, m1, v)
  {
  }

  /** Finding a register leaves all operands readable, with the values they had. */
  lemma SearchKeepsReads(globals: set<Name>, st: Store, size: Size, m: State) returns (m1: State)
    requires Regular(st) && EightBytes(size) && ForceFindRegister(globals, st, size).Ok? && m.Valid()
    ensures var (e, h) := ForceFindRegister(globals, st, size).value;
            Steps(e.nodes, m) == Some(m1) && m1.Valid() && m1.flags == m.flags && m1.rbp == m.rbp &&
              m1.regs == m.regs &&
            e.st.cells[h].size == size && forall v :: ReadsAs(globals, st, m, e.st, m1, v)
  {
    hide EmptyRegister, ReadsAs, FirstFree, FirstUnfrozen, GetRegister, Steps, Regular;
    var (e, h) := ForceFindRegister(globals, st, size).value;
    TakenSize(st, h, size);
    if FirstFree(st.cells, 0).Some? {
      m1 := m;
      StepsNil(m);
      forall v ensures ReadsAs(globals, st, m, e.st, m1, v) {
        TakenReads(globals, st, h, size, m, v);
      }
    } else {
      m1 := VacateKeepsReads(globals, st, h, m);
      var st1 := EmptyRegister(globals, st, h).value.st;
      TakenSize(st1, h, size);
      forall v ensures ReadsAs(globals, st, m, e.st, m1, v) {
        TakenReads(globals, st1, h, size, m1, v);
        ReadsThen(globals, st, m, st1, m1, e.st, v);
      }
    }
  }

  lemma TakenSize(st: Store, r: Register, size: Size)
    ensures GetRegister(st, r, size).cells[r].size == size
  {
  }

  /** The state and the register in which a select is generated. */
  function Found(cx: Context, st: Store, ops: seq<Value>): (Emit, Register)
    requires LowerSelect(cx, st, ops).Ok?
  {
    ForceFindRegister(cx.globals, st, ValueSize(cx.globals, st, ops[1]).value).value
  }

  /** The true operand is a name that loading the false one does not overwrite, and the
      false operand is not the literal 0. */
  predicate Selectable(cx: Context, st: Store, ops: seq<Value>)
    requires LowerSelect(cx, st, ops).Ok?
  {
    var (e, h) := Found(cx, st, ops);
    ops[1].Var? && (ops[2].Lit? ==> ops[2].value != 0) &&
    (RegisterOf(e.st, ops[1]) == Some(h) ==> RegisterOf(st, ops[2]) == Some(h))
  }

  /** In all machine states with flags in which the operands read, the result's register ends
      up with the operand that the condition selects. */
  ghost predicate Selects(cx: Context, st: Store, ops: seq<Value>)
    requires LowerSelect(cx, st, ops).Ok?
  {
    var low, t := LowerSelect(cx, st, ops).value, ConditionOf(cx, st, ops[0]).value;
    low.dest == Some(InReg(Found(cx, st, ops).1)) &&
    forall m: State, x: Word, y: Word |
      m.Valid() && ValueIn(cx.globals, st, ops[1], m) == Some(x) && ValueIn(cx.globals, st, ops[2], m) == Some(y) ::
      m.flags.Some? ==> SelectsIn(low.nodes, Found(cx, st, ops).1, t, m, x, y)
  }

  ghost predicate SelectsIn(nodes: seq<Node>, h: Register, t: IcmpType, m: State, x: Word, y: Word)
    requires m.Valid() && m.flags.Some?
  {
    Steps(nodes, m).Some? &&
    Steps(nodes, m).value.regs[h] == if Conditions.Holds(Conditions.CondInst(t), m.flags.value) then x else y
  }

  lemma SelectIs(cx: Context, st: Store, ops: seq<Value>)
    requires LowerSelect(cx, st, ops).Ok?
    ensures |ops| == 3 && ConditionOf(cx, st, ops[0]).Ok? && !(ops[1].Lit? && ops[2].Lit?)
    ensures var (e, h) := Found(cx, st, ops);
            ValueOperand(cx.globals, e.st, ops[1]).Ok? && ValueOperand(cx.globals, e.st, ops[2]).Ok? &&
            var t, home := ConditionOf(cx, st, ops[0]).value, OReg(h, e.st.cells[h].size);
            LowerSelect(cx, st, ops) ==
              Ok(Lowered(e.st, e.nodes + [NMov(home, ValueOperand(cx.globals, e.st, ops[2]).value),
                                          NCmov(t, home, ValueOperand(cx.globals, e.st, ops[1]).value)],
                                            Some(InReg(h))))
  {
    hide ForceFindRegister, ValueOperand, ConditionOf, ValueSize;
  }

  lemma SelectSizes(cx: Context, st: Store, ops: seq<Value>)
    requires LowerSelect(cx, st, ops).Ok? && Readable(st, ops[1]) && Readable(st, ops[2])
    ensures ValueSize(cx.globals, st, ops[1]) == ValueSize(cx.globals, st, ops[2])
    ensures ValueSize(cx.globals, st, ops[1]).Ok? && EightBytes(ValueSize(cx.globals, st, ops[1]).value)
    ensures ForceFindRegister(cx.globals, st, ValueSize(cx.globals, st, ops[1]).value).Ok?
    ensures ops[2].Lit? ==> RegisterOf(st, ops[1]).Some?
  {
    hide ForceFindRegister;
  }

  lemma SelectableSteps(globals: set<Name>, st: Store, h: Register, t: IcmpType, a: Value, b: Value, m: State, x: Word,
                        y: Word)
    requires Readable(st, a) && Readable(st, b) && EightBytes(st.cells[h].size)
    requires a.Var? && (b.Lit? ==> b.value != 0) && (RegisterOf(st, a) == Some(h) ==> x == y)
    requires m.Valid() && m.flags.Some? && ValueIn(globals, st, a, m) == Some(x) &&
             ValueIn(globals, st, b, m) == Some(y)
    ensures var home := OReg(h, st.cells[h].size);
            SelectsIn([NMov(home, ValueOperand(globals, st, b).value),
                       NCmov(t, home, ValueOperand(globals, st, a).value)], h, t, m, x, y)
  {
    hide Conditions.Holds, Conditions.CondInst;
    var home := OReg(h, st.cells[h].size);
    TwoNodes(NMov(home, ValueOperand(globals, st, b).value), NCmov(t, home, ValueOperand(globals, st, a).value), m);
  }

  /** Flags on which a condition has a given outcome. */
  function FlagsFor(t: IcmpType, outcome: bool): Conditions.Flags {
    match t
    case Eq => Conditions.Flags(outcome, false, false, false)
    case Neq => Conditions.Flags(!outcome, false, false, false)
    case Slt => Conditions.Flags(false, outcome, false, false)
    case Sge => Conditions.Flags(false, !outcome, false, false)
    case Sgt => Conditions.Flags(false, !outcome, false, false)
    case Sle => Conditions.Flags(false, outcome, false, false)
    case Ult => Conditions.Flags(false, false, outcome, false)
    case Uge => Conditions.Flags(false, false, !outcome, false)
    case Ugt => Conditions.Flags(false, false, !outcome, false)
    case Ule => Conditions.Flags(false, false, outcome, false)
  }

  lemma FlagsForHolds(t: IcmpType, outcome: bool)
    ensures Conditions.Holds(Conditions.CondInst(t), FlagsFor(t, outcome)) == outcome
  {
  }

  /** Flags on which a select that is not selectable goes wrong. */
  function WrongFlags(t: IcmpType, st: Store, h: Register, a: Value): Conditions.Flags {
    FlagsFor(t, RegisterOf(st, a) == Some(h) || !Conditions.Holds(Conditions.CondInst(t), XOR_FLAGS))
  }

  lemma UnselectableSteps(globals: set<Name>, st: Store, h: Register, t: IcmpType, a: Value, b: Value, m: State,
                          x: Word, y: Word)
    requires Readable(st, a) && Readable(st, b) && EightBytes(st.cells[h].size)
    requires a.Lit? || (b.Lit? && b.value == 0) || RegisterOf(st, a) == Some(h)
    requires m.Valid() && m.flags == Some(WrongFlags(t, st, h, a)) && ValueIn(globals, st, a, m) == Some(x) &&
             ValueIn(globals, st, b, m) == Some(y)
    requires a.Var? ==> x != y
    ensures var home := OReg(h, st.cells[h].size);
            !SelectsIn([NMov(home, ValueOperand(globals, st, b).value),
                        NCmov(t, home, ValueOperand(globals, st, a).value)], h, t, m, x, y)
  {
    hide Conditions.Holds, Conditions.CondInst, FlagsFor;
    var home := OReg(h, st.cells[h].size);
    TwoNodes(NMov(home, ValueOperand(globals, st, b).value), NCmov(t, home, ValueOperand(globals, st, a).value), m);
    FlagsForHolds(t, RegisterOf(st, a) == Some(h) || !Conditions.Holds(Conditions.CondInst(t), XOR_FLAGS));
  }

  lemma SelectsAfterSearch(e: seq<Node>, nodes: seq<Node>, h: Register, t: IcmpType, m: State, m1: State, x: Word,
                           y: Word)
    requires m.Valid() && Steps(e, m) == Some(m1) && m1.Valid() && m1.flags == m.flags && m.flags.Some?
    ensures SelectsIn(e + nodes, h, t, m, x, y) <==> SelectsIn(nodes, h, t, m1, x, y)
  {
    StepsAppend(e, nodes, m);
  }

  /** What is in the found register was there before. */
  lemma SearchMoves(globals: set<Name>, st: Store, size: Size, v: Value)
    requires Coherent(st) && OwnedSized(st) && ForceFindRegister(globals, st, size).Ok?
    ensures var (e, h) := ForceFindRegister(globals, st, size).value;
            RegisterOf(e.st, v) == Some(h) ==> RegisterOf(st, v) == Some(h)
  {
    hide EmptyRegister, FirstFree, FirstUnfrozen, Moved;
    if FirstFree(st.cells, 0).None? {
      var r := FirstUnfrozen(st.cells, 0).value;
      var home, s, t := EmptyRegisterMoves(globals, st, r);
      MovedMap(st, EmptyRegister(globals, st, r).value.st, st.cells[r].owner, r, home);
    }
  }

  lemma MovedMap(st: Store, st1: Store, x: Name, r: Register, home: Loc)
    requires Moved(st, st1, x, r, home)
    ensures st1.vmap == st.vmap[x := home]
  {
  }

  lemma SameRegisterReads(globals: set<Name>, st: Store, h: Register, a: Value, b: Value, m: State)
    requires m.Valid() && Readable(st, a) && Readable(st, b) && RegisterOf(st, a) == RegisterOf(st, b) == Some(h)
    ensures ValueIn(globals, st, a, m) == ValueIn(globals, st, b, m) == Some(m.regs[h])
  {
  }

  lemma SelectRuns(cx: Context, st: Store, ops: seq<Value>, m: State, x: Word, y: Word)
    requires Regular(st) && LowerSelect(cx, st, ops).Ok? && |ops| == 3 && Readable(st, ops[1]) && Readable(st, ops[2])
    requires m.Valid() && m.flags.Some? && ValueIn(cx.globals, st, ops[1], m) == Some(x) &&
             ValueIn(cx.globals, st, ops[2], m) == Some(y)
    ensures ConditionOf(cx, st, ops[0]).Ok?
    ensures var (e, h) := Found(cx, st, ops);
            var t := ConditionOf(cx, st, ops[0]).value;
            (Selectable(cx, st, ops) ==> SelectsIn(LowerSelect(cx, st, ops).value.nodes, h, t, m, x, y)) &&
            (!Selectable(cx, st, ops) && m.flags == Some(WrongFlags(t, e.st, h, ops[1])) && (ops[1].Var? ==> x != y) ==>
               !SelectsIn(LowerSelect(cx, st, ops).value.nodes, h, t, m, x, y))
  {
    hide LowerSelect, ForceFindRegister, Readable, ValueIn, SelectsIn, WrongFlags, Steps, ConditionOf, ValueSize;
    SelectIs(cx, st, ops);
    SelectSizes(cx, st, ops);
    var size := ValueSize(cx.globals, st, ops[1]).value;
    var (e, h) := Found(cx, st, ops);
    var t := ConditionOf(cx, st, ops[0]).value;
    var m1 := SearchKeepsReads(cx.globals, st, size, m);
    assert ReadsAs(cx.globals, st, m, e.st, m1, ops[1]) && ReadsAs(cx.globals, st, m, e.st, m1, ops[2]);
    var home := OReg(h, e.st.cells[h].size);
    var nodes := [NMov(home, ValueOperand(cx.globals, e.st, ops[2]).value),
                  NCmov(t, home, ValueOperand(cx.globals, e.st, ops[1]).value)];
    SelectsAfterSearch(e.nodes, nodes, h, t, m, m1, x, y);
    SearchMoves(cx.globals, st, size, ops[1]);
    if Selectable(cx, st, ops) {
      if RegisterOf(e.st, ops[1]) == Some(h) {
        SameRegisterReads(cx.globals, st, h, ops[1], ops[2], m);
      }
      SelectableSteps(cx.globals, e.st, h, t, ops[1], ops[2], m1, x, y);
    } else if m.flags == Some(WrongFlags(t, e.st, h, ops[1])) && (ops[1].Var? ==> x != y) {
      UnselectableSteps(cx.globals, e.st, h, t, ops[1], ops[2], m1, x, y);
    }
  }

  /** Values that a state with different registers tells apart. */
  lemma ToldApart(globals: set<Name>, st: Store, ops: seq<Value>, a: Value, b: Value)
    requires a in ops && b in ops && Readable(st, a) && Readable(st, b)
    requires RegisterOf(st, a).Some? && RegisterOf(st, b) != RegisterOf(st, a)
    ensures ValueIn(globals, st, a, Telling(st, ops)).Some? && ValueIn(globals, st, b, Telling(st, ops)).Some?
    ensures ValueIn(globals, st, a, Telling(st, ops)) != ValueIn(globals, st, b, Telling(st, ops))
  {
    hide Telling;
    TellingValid(st, ops);
    TellingReads(globals, st, a, ops);
    TellingReads(globals, st, b, ops);
    var m := Telling(st, ops);
    SourceKept(globals, st, a, m, m);
    SourceKept(globals, st, b, m, m);
    var src := SourceOf(globals, st, b, m);
    DistinctSources(src, RegisterOf(st, a).value);
  }

  /** A state in which the operands of a select that goes wrong differ. */
  lemma DifferentOperands(cx: Context, st: Store, ops: seq<Value>, flags: Conditions.Flags)
      returns (m: State, x: Word, y: Word)
    requires LowerSelect(cx, st, ops).Ok? && |ops| == 3 && Readable(st, ops[1]) && Readable(st, ops[2]) && Regular(st)
    requires !Selectable(cx, st, ops)
    ensures m.Valid() && m.flags == Some(flags)
    ensures ValueIn(cx.globals, st, ops[1], m) == Some(x) && ValueIn(cx.globals, st, ops[2], m) == Some(y)
    ensures ops[1].Var? ==> x != y
  {
    hide LowerSelect, ForceFindRegister, Readable, ValueIn, ValueSize, Telling;
    var values := [ops[1], ops[2]];
    assert ops[1] in values && ops[2] in values;
    TellingValid(st, values);
    TellingReads(cx.globals, st, ops[1], values);
    TellingReads(cx.globals, st, ops[2], values);
    SelectSizes(cx, st, ops);
    SearchMoves(cx.globals, st, ValueSize(cx.globals, st, ops[1]).value, ops[1]);
    m := Telling(st, values).(flags := Some(flags));
    FlagsUnread(cx.globals, st, ops[1], Telling(st, values), m);
    FlagsUnread(cx.globals, st, ops[2], Telling(st, values), m);
    x, y := ValueIn(cx.globals, st, ops[1], m).value, ValueIn(cx.globals, st, ops[2], m).value;
    if ops[1].Var? {
      ToldApart(cx.globals, st, values, ops[1], ops[2]);
    }
  }

  lemma FlagsUnread(globals: set<Name>, st: Store, v: Value, m: State, m1: State)
    requires m.Valid() && m1 == m.(flags := m1.flags)
    ensures ValueIn(globals, st, v, m1) == ValueIn(globals, st, v, m)
  {
  }

  /** A lowered select does what the instruction means exactly for those operands. */
  lemma SelectsExactly(cx: Context, st: Store, ops: seq<Value>)
    requires Regular(st) && LowerSelect(cx, st, ops).Ok? && |ops| == 3 && Readable(st, ops[1]) && Readable(st, ops[2])
    ensures Selects(cx, st, ops) <==> Selectable(cx, st, ops)
  {
    hide LowerSelect, ForceFindRegister, Readable, ValueIn, SelectsIn, WrongFlags, Steps, ConditionOf, ValueSize,
         Regular, Selectable;
    SelectIs(cx, st, ops);
    var (e, h) := Found(cx, st, ops);
    var t := ConditionOf(cx, st, ops[0]).value;
    if Selectable(cx, st, ops) {
      forall m: State, x: Word, y: Word |
        m.Valid() && ValueIn(cx.globals, st, ops[1], m) == Some(x) && ValueIn(cx.globals, st, ops[2], m) == Some(y)
        ensures m.flags.Some? ==> SelectsIn(LowerSelect(cx, st, ops).value.nodes, h, t, m, x, y)
      {
        if m.flags.Some? {
          SelectRuns(cx, st, ops, m, x, y);
        }
      }
    } else {
      var m, x, y := DifferentOperands(cx, st, ops, WrongFlags(t, e.st, h, ops[1]));
      SelectRuns(cx, st, ops, m, x, y);
    }
  }

  // Arithmetic without an operand in a register: the right operand is to be loaded, but its mov
  // has the register as its source, and of memory the address is loaded

  /** A register is free, or can be vacated. */
  predicate HasRegister(st: Store) {
    exists r: Register :: st.cells[r].owner == "" || !st.cells[r].frozen
  }

  lemma SearchFinds(globals: set<Name>, st: Store, size: Size)
    requires Coherent(st) && OwnedSized(st)
    ensures ForceFindRegister(globals, st, size).Ok? <==> HasRegister(st)
  {
    hide EmptyRegister, FirstFree, FirstUnfrozen;
    if FirstFree(st.cells, 0).None? && FirstUnfrozen(st.cells, 0).Some? {
      VacatedSize(globals, st, FirstUnfrozen(st.cells, 0).value);
    }
  }

  /** The node that is to load the right operand. */
  function LoadNode(st: Store, v: Value, h: Register): Node {
    match v
    case Lit(s, n) => NMov(OImm(n, s), OReg(h, s))
    case Var(_, x) =>
      if x in st.vmap && st.vmap[x].Slot? then NLea(OReg(h, Ptr), OMem(st.vmap[x].below, Ptr)) else NRet
  }

  /** Neither operand is in a register. */
  predicate OutsideRegisters(st: Store, ops: seq<Value>) {
    |ops| == 2 && Readable(st, ops[0]) && Readable(st, ops[1]) && RegisterOf(st, ops[0]).None? &&
    RegisterOf(st, ops[1]).None?
  }

  lemma LiteralIsNotLoaded(cx: Context, st: Store, t: ArithType, ops: seq<Value>, m: State)
    requires OutsideRegisters(st, ops) && ops[1].Lit? && LowerArith(cx, st, t, ops).Ok? && m.Valid()
    ensures Steps(LowerArith(cx, st, t, ops).value.nodes, m) == None
  {
    hide ForceFindRegister, ClaimTemp;
    var (e, h) := ForceFindRegister(cx.globals, st, I64).value;
    var placed := EnsureInRegister(cx.globals, st, ops[1]).value.0;
    assert placed.nodes == e.nodes + [LoadNode(st, ops[1], h)];
    FailsAt(e.nodes, LoadNode(st, ops[1], h), LowerArith(cx, st, t, ops).value.nodes[|placed.nodes|..], m);
    assert LowerArith(cx, st, t, ops).value.nodes == (e.nodes + [LoadNode(st, ops[1], h)]) +
           LowerArith(cx, st, t, ops).value.nodes[|placed.nodes|..];
  }

  lemma {:induction false} FailsAt(before: seq<Node>, node: Node, rest: seq<Node>, m: State)
    requires m.Valid() && forall m1: State | m1.Valid() :: Step(node, m1) == None
    ensures Steps(before + [node] + rest, m) == None
    decreases |before|
  {
    var all := before + [node] + rest;
    if before == [] {
      assert all[0] == node;
    } else {
      assert all[0] == before[0] && all[1..] == before[1..] + [node] + rest;
      if Step(before[0], m).Some? {
        FailsAt(before[1..], node, rest, Step(before[0], m).value);
      }
    }
  }

  /** What arithmetic lowers to when the right operand is memory. */
  lemma AddressIsLoaded(cx: Context, st: Store, t: ArithType, ops: seq<Value>) returns (src: Operand)
    requires OutsideRegisters(st, ops) && ops[1].Var? && Sound(st) && ForceFindRegister(cx.globals, st, Ptr).Ok?
    requires "" !in st.vmap
    ensures LowerArith(cx, st, t, ops).Ok?
    ensures var (e, h) := ForceFindRegister(cx.globals, st, Ptr).value;
            var low := LowerArith(cx, st, t, ops).value;
            low.dest == Some(InReg(h)) && ValueOperand(cx.globals, e.st, ops[0]) == Ok(src) && !src.OReg? &&
            !src.OGlobal? &&
            low.nodes == e.nodes + [LoadNode(st, ops[1], h), NArith(t, OReg(h, Ptr), src)]
  {
    hide ForceFindRegister, ClaimTemp, EnsureInRegister;
    var (e, h) := ForceFindRegister(cx.globals, st, Ptr).value;
    ForceFindSound(cx.globals, st, Ptr);
    SlotsStay(cx.globals, st, Ptr, ops[0]);
    SlotsStay(cx.globals, st, Ptr, ops[1]);
    Claimed(cx.globals, e, h, ops[0]);
    EnsureLoads(cx.globals, st, ops[1]);
    src := ValueOperand(cx.globals, e.st, ops[0]).value;
    var load, arith := LoadNode(st, ops[1], h), NArith(t, OReg(h, Ptr), src);
    assert e.nodes + [load] + [arith] == e.nodes + [load, arith];
  }

  /** A search for a register leaves values outside registers where they are. */
  lemma SlotsStay(globals: set<Name>, st: Store, size: Size, v: Value)
    requires Sound(st) && ForceFindRegister(globals, st, size).Ok? && Readable(st, v) && RegisterOf(st, v).None?
    requires "" !in st.vmap
    ensures var e := ForceFindRegister(globals, st, size).value.0;
            v.Var? ==> v.name in e.st.vmap && e.st.vmap[v.name] == st.vmap[v.name]
  {
    hide RemapValue, FirstFree, FirstUnfrozen;
    if FirstFree(st.cells, 0).None? {
      var r := FirstUnfrozen(st.cells, 0).value;
      if st.cells[r].owner != "" {
        var found := FindValStorage(st, st.cells[r].size).value;
        RemapIs(found.0, st.cells[r].owner, r, found.1);
      }
    }
  }

  lemma Claimed(globals: set<Name>, e: Emit, h: Register, v: Value)
    requires Sound(e.st) && Readable(e.st, v) && RegisterOf(e.st, v).None?
    ensures var st1 := ClaimTemp(e.st, h, Ptr);
            st1.vmap == e.st.vmap[TempName(e.st.temps) := InReg(h)] && st1.cells[h].size == Ptr &&
            ValueOperand(globals, st1, v) == ValueOperand(globals, e.st, v) && ValueOperand(globals, e.st, v).Ok? &&
            !ValueOperand(globals, e.st, v).value.OReg? && !ValueOperand(globals, e.st, v).value.OGlobal?
  {
  }

  lemma EnsureLoads(globals: set<Name>, st: Store, v: Value)
    requires Readable(st, v) && v.Var? && RegisterOf(st, v).None? && ForceFindRegister(globals, st, Ptr).Ok?
    requires var e := ForceFindRegister(globals, st, Ptr).value.0;
             v.name in e.st.vmap && e.st.vmap[v.name] == st.vmap[v.name]
    ensures var (e, h) := ForceFindRegister(globals, st, Ptr).value;
            EnsureInRegister(globals, st, v) ==
              Ok((Emit(ClaimTemp(e.st, h, Ptr), e.nodes + [LoadNode(st, v, h)]), Var(Ptr, TempName(e.st.temps))))
  {
    hide ForceFindRegister, ClaimTemp;
  }

  /** The address of the right operand. */
  function AddressOf(st: Store, v: Value, m: State): Word {
    if v.Var? && v.name in st.vmap && st.vmap[v.name].Slot? then (m.rbp - st.vmap[v.name].below) % WORD else 0
  }

  /** The operation is done on the address of the right operand and the left operand. */
  lemma AddressComputed(cx: Context, st: Store, t: ArithType, ops: seq<Value>, m: State, a: Word)
    requires OutsideRegisters(st, ops) && ops[1].Var? && Regular(st) && Sound(st) && Computable(t)
    requires ForceFindRegister(cx.globals, st, Ptr).Ok? && m.Valid() && ValueIn(cx.globals, st, ops[0], m) == Some(a)
    ensures LowerArith(cx, st, t, ops).Ok?
    ensures var low := LowerArith(cx, st, t, ops).value;
            low.dest.Some? && low.dest.value.InReg? && Leaves(low, m, Arithmetic(t, AddressOf(st, ops[1], m), a))
  {
    hide LowerArith, ForceFindRegister, Steps, Regular;
    var (e, h) := ForceFindRegister(cx.globals, st, Ptr).value;
    RegularSized(st);
    var src := AddressIsLoaded(cx, st, t, ops);
    var m1 := SearchKeepsReads(cx.globals, st, Ptr, m);
    assert ReadsAs(cx.globals, st, m, e.st, m1, ops[0]);
    var load, arith := LoadNode(st, ops[1], h), NArith(t, OReg(h, Ptr), src);
    StepsAppend(e.nodes, [load, arith], m);
    TwoNodes(load, arith, m1);
    LoadedAdds(t, h, src, m1, st.vmap[ops[1].name].below, a);
  }

  lemma LoadedAdds(t: ArithType, h: Register, src: Operand, m: State, below: nat, a: Word)
    requires m.Valid() && Computable(t) && !src.OReg? && !src.OGlobal? && Read(m, src) == Some(a)
    ensures var r := Step(NLea(OReg(h, Ptr), OMem(below, Ptr)), m);
            r.Some? && r.value.Valid() &&
            var end := Step(NArith(t, OReg(h, Ptr), src), r.value);
            end.Some? && Arithmetic(t, (m.rbp - below) % WORD, a) == Some(end.value.regs[h])
  {
  }

  /** A multiplication of memory by 0: the product is right though the factor is not. */
  predicate ZeroTimes(st: Store, t: ArithType, ops: seq<Value>) {
    |ops| == 2 && t == Mul && ops[0].Lit? && ops[0].value == 0 && ops[1].Var? && HasRegister(st)
  }

  /** Addresses and contents on which anything else goes wrong: the right operand is at
      address 1 and holds 2, another left operand holds 1. */
  lemma WrongAddress(globals: set<Name>, st: Store, t: ArithType, ops: seq<Value>) returns (m: State, a: Word)
    requires OutsideRegisters(st, ops) && ops[1].Var? && Computable(t)
    requires !(t == Mul && ops[0].Lit? && ops[0].value == 0)
    ensures m.Valid() && ValueIn(globals, st, ops[0], m) == Some(a) && ValueIn(globals, st, ops[1], m) == Some(2)
    ensures Arithmetic(t, AddressOf(st, ops[1], m), a) != Arithmetic(t, a, 2)
  {
    var k := st.vmap[ops[1].name].below;
    AddressOne(k);
    m := Uniform(0).(rbp := (k + 1) % WORD);
    if ops[0].Lit? {
      a := ops[0].value;
      m := m.(mem := map[m.rbp - k := 2]);
    } else {
      var j := st.vmap[ops[0].name].below;
      a := if j == k then 2 else 1;
      m := m.(mem := map[m.rbp - j := 1][m.rbp - k := 2]);
    }
  }

  lemma AddressOne(k: nat)
    ensures ((k + 1) % WORD - k) % WORD == 1
  {
  }

  lemma OutsideComputesExactly(cx: Context, st: Store, t: ArithType, ops: seq<Value>)
    requires OutsideRegisters(st, ops) && ops[1].Var? && Regular(st) && Sound(st) && Computable(t)
    ensures Computes(cx, st, t, ops) <==> ZeroTimes(st, t, ops)
  {
    hide LowerArith, ForceFindRegister, Readable, ValueIn, Leaves, Regular, Sound, HasRegister, AddressOf;
    SearchFinds(cx.globals, st, Ptr) by { RegularSized(st); }
    if !HasRegister(st) {
      NoneToLoad(cx, st, t, ops);
    } else if t == Mul && ops[0].Lit? && ops[0].value == 0 {
      SomeRead(cx, st, t, ops);
      forall m: State, a: Word, b: Word | m.Valid() && ValueIn(cx.globals, st, ops[0], m) == Some(a) &&
        ValueIn(cx.globals, st, ops[1], m) == Some(b)
        ensures Leaves(LowerArith(cx, st, t, ops).value, m, Arithmetic(t, a, b))
      {
        AddressComputed(cx, st, t, ops, m, a);
        ZeroReads(cx.globals, st, ops[0], m);
      }
    } else {
      var m, a := WrongAddress(cx.globals, st, t, ops);
      AddressComputed(cx, st, t, ops, m, a);
      LeavesOne(LowerArith(cx, st, t, ops).value, m, Arithmetic(t, a, 2), Arithmetic(t, AddressOf(st, ops[1], m), a));
    }
  }

  lemma RegularSized(st: Store)
    requires Regular(st)
    ensures Coherent(st) && OwnedSized(st) && "" !in st.vmap
  {
  }

  lemma ZeroReads(globals: set<Name>, st: Store, v: Value, m: State)
    requires m.Valid() && Readable(st, v) && v.Lit? && v.value == 0
    ensures ValueIn(globals, st, v, m) == Some(0)
  {
  }

  lemma SomeRead(cx: Context, st: Store, t: ArithType, ops: seq<Value>)
    requires OutsideRegisters(st, ops) && ops[1].Var? && Regular(st) && Sound(st) && Computable(t)
    requires ForceFindRegister(cx.globals, st, Ptr).Ok?
    ensures LowerArith(cx, st, t, ops).Ok?
    ensures var low := LowerArith(cx, st, t, ops).value; low.dest.Some? && low.dest.value.InReg?
  {
    hide LowerArith, ForceFindRegister;
    RegularSized(st);
    var src := AddressIsLoaded(cx, st, t, ops);
  }

  lemma NoneToLoad(cx: Context, st: Store, t: ArithType, ops: seq<Value>)
    requires OutsideRegisters(st, ops) && ops[1].Var? && ForceFindRegister(cx.globals, st, Ptr).Err?
    ensures LowerArith(cx, st, t, ops).Err?
  {
    hide ForceFindRegister;
  }

  /** The operations that lowered arithmetic computes: the left operand is in a register; or
      the right one is, and the operation commutes; or memory is multiplied by 0. */
  predicate Computed(st: Store, t: ArithType, ops: seq<Value>)
    requires |ops| == 2
  {
    RegisterOf(st, ops[0]).Some? ||
    (if RegisterOf(st, ops[1]).Some? then t != Sub else ZeroTimes(st, t, ops))
  }

  /** Lowered arithmetic computes the operation on all operand values exactly then. */
  lemma ArithmeticComputesExactly(cx: Context, st: Store, t: ArithType, ops: seq<Value>)
    requires |ops| == 2 && Computable(t) && Readable(st, ops[0]) && Readable(st, ops[1])
    requires OutsideRegisters(st, ops) && ops[1].Var? ==> Regular(st) && Sound(st)
    ensures Computes(cx, st, t, ops) <==> Computed(st, t, ops)
  {
    hide LowerArith, Readable, ValueIn, Leaves, Regular, Sound, HasRegister, Computes;
    if !OutsideRegisters(st, ops) {
      RegisterComputesExactly(cx, st, t, ops);
    } else if ops[1].Var? {
      OutsideComputesExactly(cx, st, t, ops);
    } else {
      LiteralComputesNot(cx, st, t, ops);
    }
  }

  lemma LiteralComputesNot(cx: Context, st: Store, t: ArithType, ops: seq<Value>)
    requires OutsideRegisters(st, ops) && ops[1].Lit?
    ensures !Computes(cx, st, t, ops)
  {
    hide LowerArith, Readable, ValueIn, Steps, Telling;
    if LowerArith(cx, st, t, ops).Ok? {
      var m := Telling(st, ops);
      TellingValid(st, ops);
      TellingReads(cx.globals, st, ops[0], ops);
      TellingReads(cx.globals, st, ops[1], ops);
      LiteralIsNotLoaded(cx, st, t, ops, m);
      var a, b := ValueIn(cx.globals, st, ops[0], m).value, ValueIn(cx.globals, st, ops[1], m).value;
      assert forall low: Lowered | low.dest.Some? && low.dest.value.InReg? && Steps(low.nodes, m) == None ::
               !Leaves(low, m, Arithmetic(t, a, b));
    }
  }

  // Arguments are loaded in order, over names that have no owner

  /** Where an argument comes from: a register, or a word that does not change meanwhile. */
  datatype Source = FromRegister(reg: Register) | Fixed(w: Word)

  function SourceValue(src: Source, regs: seq<Word>): Word
    requires |regs| == REGISTERS
  {
    match src
    case FromRegister(r) => regs[r]
    case Fixed(w) => w
  }

  /** The registers after loading arguments from i on, one by one. */
  function LoadAll(srcs: seq<Source>, i: nat, regs: seq<Word>): (r: seq<Word>)
    requires |regs| == REGISTERS && i <= |srcs| <= MAX_ARGS
    ensures |r| == REGISTERS
    decreases |srcs| - i
  {
    if i == |srcs| then regs
    else LoadAll(srcs, i + 1, regs[ParamRegister(i) := SourceValue(srcs[i], regs)])
  }

  /** No argument and no register to keep is in an argument register that an earlier
      argument, other than itself, is loaded into. */
  predicate InOrder(srcs: seq<Source>, keep: set<nat>)
    requires |srcs| <= MAX_ARGS
  {
    (forall i, j | 0 <= i < j < |srcs| && srcs[j] == FromRegister(ParamRegister(i)) :: srcs[i] == srcs[j]) &&
    (forall i | 0 <= i < |srcs| && ParamRegister(i) in keep :: srcs[i] == FromRegister(ParamRegister(i)))
  }

  ghost predicate Loads(srcs: seq<Source>, keep: set<nat>, regs: seq<Word>)
    requires |regs| == REGISTERS && |srcs| <= MAX_ARGS
  {
    var end := LoadAll(srcs, 0, regs);
    (forall i | 0 <= i < |srcs| :: end[ParamRegister(i)] == SourceValue(srcs[i], regs)) &&
    (forall r: Register | r in keep :: end[r] == regs[r])
  }

  lemma ParamRegistersApart(i: nat, j: nat)
    requires i < MAX_ARGS && j < MAX_ARGS && i != j
    ensures ParamRegister(i) != ParamRegister(j)
  {
  }

  /** Loading from i on leaves the other registers as they are. */
  lemma {:induction false} LoadAllLeaves(srcs: seq<Source>, i: nat, regs: seq<Word>, r: Register)
    requires |regs| == REGISTERS && i <= |srcs| <= MAX_ARGS && forall k | i <= k < |srcs| :: ParamRegister(k) != r
    ensures LoadAll(srcs, i, regs)[r] == regs[r]
    decreases |srcs| - i
  {
    if i < |srcs| {
      LoadAllLeaves(srcs, i + 1, regs[ParamRegister(i) := SourceValue(srcs[i], regs)], r);
    }
  }

  /** Registers after the first i arguments. */
  function LoadSome(srcs: seq<Source>, i: nat, regs: seq<Word>): (r: seq<Word>)
    requires |regs| == REGISTERS && i <= |srcs| <= MAX_ARGS
    ensures |r| == REGISTERS
  {
    if i == 0 then regs
    else var before := LoadSome(srcs, i - 1, regs); before[ParamRegister(i - 1) := SourceValue(srcs[i - 1], before)]
  }

  lemma {:induction false} LoadInTwo(srcs: seq<Source>, i: nat, regs: seq<Word>)
    requires |regs| == REGISTERS && i <= |srcs| <= MAX_ARGS
    ensures LoadAll(srcs, 0, regs) == LoadAll(srcs, i, LoadSome(srcs, i, regs))
  {
    if i > 0 {
      LoadInTwo(srcs, i - 1, regs);
    }
  }

  lemma {:induction false} LoadSomeLeaves(srcs: seq<Source>, i: nat, regs: seq<Word>, r: Register)
    requires |regs| == REGISTERS && i <= |srcs| <= MAX_ARGS && forall k | 0 <= k < i :: ParamRegister(k) != r
    ensures LoadSome(srcs, i, regs)[r] == regs[r]
  {
    if i > 0 {
      LoadSomeLeaves(srcs, i - 1, regs, r);
    }
  }

  /** Argument i ends up as what its source was when its turn came. */
  lemma LoadedThen(srcs: seq<Source>, i: nat, regs: seq<Word>)
    requires |regs| == REGISTERS && i < |srcs| <= MAX_ARGS
    ensures LoadAll(srcs, 0, regs)[ParamRegister(i)] == SourceValue(srcs[i], LoadSome(srcs, i, regs))
    ensures forall j | i < j <= |srcs| ::
            LoadSome(srcs, j, regs)[ParamRegister(i)] == SourceValue(srcs[i], LoadSome(srcs, i, regs))
  {
    LoadInTwo(srcs, i + 1, regs);
    forall k | i + 1 <= k < |srcs| ensures ParamRegister(k) != ParamRegister(i) {
      ParamRegistersApart(i, k);
    }
    LoadAllLeaves(srcs, i + 1, LoadSome(srcs, i + 1, regs), ParamRegister(i));
    forall j | i < j <= |srcs| ensures LoadSome(srcs, j, regs)[ParamRegister(i)] ==
      SourceValue(srcs[i], LoadSome(srcs, i, regs)) {
      LoadedStays(srcs, i, j, regs);
    }
  }

  lemma {:induction false} LoadedStays(srcs: seq<Source>, i: nat, j: nat, regs: seq<Word>)
    requires |regs| == REGISTERS && i < j <= |srcs| <= MAX_ARGS
    ensures LoadSome(srcs, j, regs)[ParamRegister(i)] == SourceValue(srcs[i], LoadSome(srcs, i, regs))
    decreases j
  {
    if j > i + 1 {
      LoadedStays(srcs, i, j - 1, regs);
      ParamRegistersApart(i, j - 1);
    }
  }

  /** In order, every source still is what it was. */
  lemma {:induction false} SourceStill(srcs: seq<Source>, keep: set<nat>, j: nat, regs: seq<Word>)
    requires |regs| == REGISTERS && j < |srcs| <= MAX_ARGS && InOrder(srcs, keep)
    ensures SourceValue(srcs[j], LoadSome(srcs, j, regs)) == SourceValue(srcs[j], regs)
    decreases j
  {
    if srcs[j].FromRegister? {
      var r := srcs[j].reg;
      if i :| 0 <= i < j && ParamRegister(i) == r {
        SourceStill(srcs, keep, i, regs);
        LoadedStays(srcs, i, j, regs);
      } else {
        LoadSomeLeaves(srcs, j, regs, r);
      }
    }
  }

  lemma InOrderLoads(srcs: seq<Source>, keep: set<nat>, regs: seq<Word>)
    requires |regs| == REGISTERS && |srcs| <= MAX_ARGS && InOrder(srcs, keep)
    ensures Loads(srcs, keep, regs)
  {
    forall i | 0 <= i < |srcs| ensures LoadAll(srcs, 0, regs)[ParamRegister(i)] == SourceValue(srcs[i], regs) {
      LoadedThen(srcs, i, regs);
      SourceStill(srcs, keep, i, regs);
    }
    forall r: Register | r in keep ensures LoadAll(srcs, 0, regs)[r] == regs[r] {
      if i :| 0 <= i < |srcs| && ParamRegister(i) == r {
        LoadedThen(srcs, i, regs);
        SourceStill(srcs, keep, i, regs);
      } else {
        LoadAllLeaves(srcs, 0, regs, r);
      }
    }
  }

  /** Registers that differ from each other and from every fixed source below the limit. */
  const DISTINCT: seq<Word> := [
    IMM_LIMIT, IMM_LIMIT + 1, IMM_LIMIT + 2, IMM_LIMIT + 3, IMM_LIMIT + 4, IMM_LIMIT + 5, IMM_LIMIT + 6, IMM_LIMIT + 7,
    IMM_LIMIT + 8, IMM_LIMIT + 9, IMM_LIMIT + 10, IMM_LIMIT + 11, IMM_LIMIT + 12, IMM_LIMIT + 13, IMM_LIMIT + 14]

  lemma DistinctSources(a: Source, r: Register)
    requires (a.Fixed? ==> a.w < IMM_LIMIT) && a != FromRegister(r)
    ensures SourceValue(a, DISTINCT) != DISTINCT[r]
  {
  }

  lemma OutOfOrderFails(srcs: seq<Source>, keep: set<nat>)
    requires |srcs| <= MAX_ARGS && !InOrder(srcs, keep) && forall k | 0 <= k < |srcs| :: srcs[k].Fixed? ==>
             srcs[k].w < IMM_LIMIT
    ensures !Loads(srcs, keep, DISTINCT)
  {
    if i, j :| 0 <= i < j < |srcs| && srcs[j] == FromRegister(ParamRegister(i)) && srcs[i] != srcs[j] {
      LoadedThen(srcs, i, DISTINCT);
      LoadedThen(srcs, j, DISTINCT);
      DistinctSources(srcs[i], ParamRegister(i));
    } else {
      var i :| 0 <= i < |srcs| && ParamRegister(i) in keep && srcs[i] != FromRegister(ParamRegister(i));
      LoadedThen(srcs, i, DISTINCT);
      DistinctSources(srcs[i], ParamRegister(i));
    }
  }

  /** Argument registers that nobody owns are loaded correctly, whatever they hold and
      with the registers in keep unchanged, exactly when the arguments are in order. Two
      parameters that a function passes on in exchanged places are not. */
  lemma ArgumentsLoadExactly(srcs: seq<Source>, keep: set<nat>)
    requires |srcs| <= MAX_ARGS && forall k | 0 <= k < |srcs| :: srcs[k].Fixed? ==> srcs[k].w < IMM_LIMIT
    ensures (forall regs: seq<Word> | |regs| == REGISTERS :: Loads(srcs, keep, regs)) <==> InOrder(srcs, keep)
    ensures var a, b := FromRegister(ParamRegister(1)), FromRegister(ParamRegister(0)); !InOrder([a, b], keep)
  {
    hide Loads, InOrder;
    if InOrder(srcs, keep) {
      forall regs: seq<Word> | |regs| == REGISTERS ensures Loads(srcs, keep, regs) {
        InOrderLoads(srcs, keep, regs);
      }
    } else {
      OutOfOrderFails(srcs, keep);
    }
    ExchangedOutOfOrder(keep);
  }

  lemma ExchangedOutOfOrder(keep: set<nat>)
    ensures var a, b := FromRegister(ParamRegister(1)), FromRegister(ParamRegister(0)); !InOrder([a, b], keep)
  {
    var srcs := [FromRegister(ParamRegister(1)), FromRegister(ParamRegister(0))];
    assert srcs[1] == FromRegister(ParamRegister(0)) && srcs[0] != srcs[1];
  }

  // The set-up of a call whose argument registers nobody owns is such a loading

  /** The source of an operand in a machine state. */
  function SourceOf(globals: set<Name>, st: Store, v: Value, m: State): Source
    requires m.Valid() && Readable(st, v) && ValueIn(globals, st, v, m).Some?
  {
    if RegisterOf(st, v).Some? then FromRegister(RegisterOf(st, v).value) else Fixed(ValueIn(globals, st, v, m).value)
  }

  ghost predicate Unowned(st: Store, n: nat) {
    forall k | 0 <= k < n && k < MAX_ARGS :: st.cells[ParamRegister(k)].owner == ""
  }

  lemma ArgIsLoad(cx: Context, st: Store, v: Value, dropped: bool, i: nat, m: State) returns (m1: State)
    requires i < MAX_ARGS && Unowned(st, i + 1) && m.Valid() && v.size == I64 && Readable(st, v) &&
             ValueIn(cx.globals, st, v, m).Some?
    ensures LowerArg(cx, st, v, dropped, ParamRegister(i)).Ok? &&
            LowerArg(cx, st, v, dropped, ParamRegister(i)).value.st == st
    ensures Steps(LowerArg(cx, st, v, dropped, ParamRegister(i)).value.nodes, m) == Some(m1)
    ensures m1 == m.(flags := m1.flags,
                     regs := m.regs[ParamRegister(i) := SourceValue(SourceOf(cx.globals, st, v, m), m.regs)])
  {
    var p := ParamRegister(i);
    var node := NMov(OReg(p, I64), ValueOperand(cx.globals, st, v).value);
    OneNode(node, m);
    assert m.regs[p := m.regs[p]] == m.regs;
    assert [] + [node] == [node];
    m1 := Steps(LowerArg(cx, st, v, dropped, p).value.nodes, m).value;
  }

  ghost predicate AllReadable(st: Store, ops: seq<Value>) {
    forall k | 0 <= k < |ops| :: Readable(st, ops[k]) && ops[k].size == I64
  }

  /** Every operand reads as something in a machine state. */
  ghost predicate AllRead(globals: set<Name>, st: Store, ops: seq<Value>, m: State)
    requires m.Valid()
  {
    forall k | 0 <= k < |ops| :: ValueIn(globals, st, ops[k], m).Some?
  }

  ghost predicate SourcesAre(globals: set<Name>, st: Store, ops: seq<Value>, m: State, srcs: seq<Source>)
    requires m.Valid() && AllReadable(st, ops) && AllRead(globals, st, ops, m)
  {
    |srcs| == |ops| && forall k | 0 <= k < |ops| :: srcs[k] == SourceOf(globals, st, ops[k], m)
  }

  lemma SourceKept(globals: set<Name>, st: Store, v: Value, m: State, m1: State)
    requires m.Valid() && m1.Valid() && m1.mem == m.mem && m1.rbp == m.rbp && Readable(st, v) &&
             ValueIn(globals, st, v, m).Some?
    ensures ValueIn(globals, st, v, m1).Some? && SourceOf(globals, st, v, m1) == SourceOf(globals, st, v, m)
    ensures ValueIn(globals, st, v, m) == Some(SourceValue(SourceOf(globals, st, v, m), m.regs))
  {
  }

  lemma {:induction false} ArgsAreLoads(cx: Context, st: Store, ops: seq<Value>, dropped: seq<bool>, i: nat, m: State,
                                        srcs: seq<Source>) returns (m1: State)
    requires i <= |ops| == |dropped| <= MAX_ARGS && Unowned(st, |ops|) && m.Valid() && AllReadable(st, ops) &&
             AllRead(cx.globals, st, ops, m)
    requires SourcesAre(cx.globals, st, ops, m, srcs)
    ensures LowerArgs(cx, st, ops, dropped, i).Ok?
    ensures Steps(LowerArgs(cx, st, ops, dropped, i).value.nodes, m) == Some(m1)
    ensures m1 == m.(flags := m1.flags, regs := LoadAll(srcs, i, m.regs))
    decreases |ops| - i
  {
    hide LowerArg, Readable, ValueIn, SourceOf, Steps, SourceValue;
    if i == |ops| {
      m1 := m;
      assert Steps([], m) == Some(m) by { StepsNil(m); }
    } else {
      var m2 := ArgIsLoad(cx, st, ops[i], dropped[i], i, m);
      forall k | 0 <= k < |ops| ensures ValueIn(cx.globals, st, ops[k], m2).Some? &&
        SourceOf(cx.globals, st, ops[k], m2) == SourceOf(cx.globals, st, ops[k], m) {
        SourceKept(cx.globals, st, ops[k], m, m2);
      }
      m1 := ArgsAreLoads(cx, st, ops, dropped, i + 1, m2, srcs);
      StepsAppend(LowerArg(cx, st, ops[i], dropped[i], ParamRegister(i)).value.nodes,
                  LowerArgs(cx, st, ops, dropped, i + 1).value.nodes, m);
    }
  }

  /** The set-up loads the arguments and keeps some registers in all machine states. */
  ghost predicate SetsUp(cx: Context, st: Store, ops: seq<Value>, dropped: seq<bool>, keep: set<nat>)
    requires |ops| <= MAX_ARGS
  {
    var r := LowerArgs(cx, st, ops, dropped, 0);
    r.Ok? && forall m: State | m.Valid() && AllRead(cx.globals, st, ops, m) ::
      SetsUpIn(cx, st, ops, keep, r.value.nodes, m)
  }

  ghost predicate SetsUpIn(cx: Context, st: Store, ops: seq<Value>, keep: set<nat>, nodes: seq<Node>, m: State)
    requires |ops| <= MAX_ARGS && m.Valid()
  {
    Steps(nodes, m).Some? &&
    (forall k | 0 <= k < |ops| ::
       Some(Steps(nodes, m).value.regs[ParamRegister(k)]) ==
       ValueIn(cx.globals, st, ops[k], m)) &&
    (forall r: Register | r in keep :: Steps(nodes, m).value.regs[r] == m.regs[r])
  }

  /** No operand and no register to keep is in an argument register into which an earlier
      operand, other than itself, goes. */
  predicate OperandsInOrder(st: Store, ops: seq<Value>, keep: set<nat>)
    requires |ops| <= MAX_ARGS
  {
    (forall i, j | 0 <= i < j < |ops| && RegisterOf(st, ops[j]) == Some(ParamRegister(i)) ::
     RegisterOf(st, ops[i]) == Some(ParamRegister(i))) &&
    (forall i | 0 <= i < |ops| && ParamRegister(i) in keep :: RegisterOf(st, ops[i]) == Some(ParamRegister(i)))
  }

  lemma OrderOfSources(globals: set<Name>, st: Store, ops: seq<Value>, m: State, srcs: seq<Source>, keep: set<nat>)
    requires |ops| <= MAX_ARGS && m.Valid() && AllReadable(st, ops) && AllRead(globals, st, ops, m) &&
             SourcesAre(globals, st, ops, m, srcs)
    ensures InOrder(srcs, keep) <==> OperandsInOrder(st, ops, keep)
  {
    hide Readable, ValueIn;
    forall k, r: Register | 0 <= k < |ops| ensures srcs[k] == FromRegister(r) <==> RegisterOf(st, ops[k]) == Some(r) {
    }
  }

  /** A machine state with different registers in which every operand reads. */
  function Telling(st: Store, ops: seq<Value>): State {
    var cells := set v | v in ops && v.Var? && v.name in st.vmap && st.vmap[v.name].Slot? :: 0 - st.vmap[v.name].below;
    State(DISTINCT, 0, 0, None, map a: int | a in cells :: 0, map[])
  }

  lemma TellingReads(globals: set<Name>, st: Store, v: Value, ops: seq<Value>)
    requires Readable(st, v) && v in ops
    ensures ValueIn(globals, st, v, Telling(st, ops)).Some?
    ensures var src := SourceOf(globals, st, v, Telling(st, ops)); src.Fixed? ==> src.w < IMM_LIMIT
  {
  }

  lemma SetsUpMeansLoads(cx: Context, st: Store, ops: seq<Value>, dropped: seq<bool>, keep: set<nat>, m: State,
                         srcs: seq<Source>)
    requires |ops| == |dropped| <= MAX_ARGS && Unowned(st, |ops|) && m.Valid() && AllReadable(st, ops) &&
             AllRead(cx.globals, st, ops, m)
    requires SourcesAre(cx.globals, st, ops, m, srcs)
    ensures LowerArgs(cx, st, ops, dropped, 0).Ok?
    ensures SetsUpIn(cx, st, ops, keep, LowerArgs(cx, st, ops, dropped, 0).value.nodes, m) <==>
            Loads(srcs, keep, m.regs)
  {
    hide LowerArgs, Readable, ValueIn, SourceOf, Steps, SourceValue, LoadAll;
    var m1 := ArgsAreLoads(cx, st, ops, dropped, 0, m, srcs);
    forall k | 0 <= k < |ops| ensures ValueIn(cx.globals, st, ops[k], m) == Some(SourceValue(srcs[k], m.regs)) {
      SourceKept(cx.globals, st, ops[k], m, m);
    }
  }

  /** The set-up of a call whose argument registers nobody owns loads every argument and
      keeps some registers, in all machine states, exactly when the operands are in order. */
  lemma SetUpIsRightExactly(cx: Context, st: Store, ops: seq<Value>, dropped: seq<bool>, keep: set<nat>)
    requires |ops| == |dropped| <= MAX_ARGS && Unowned(st, |ops|) && AllReadable(st, ops)
    ensures SetsUp(cx, st, ops, dropped, keep) <==> OperandsInOrder(st, ops, keep)
  {
    hide LowerArgs, Readable, ValueIn, SourceOf, SetsUpIn, Loads, InOrder, OperandsInOrder, Telling;
    forall m: State | m.Valid() && AllRead(cx.globals, st, ops, m)
      ensures LowerArgs(cx, st, ops, dropped, 0).Ok?
      ensures OperandsInOrder(st, ops, keep) ==>
              SetsUpIn(cx, st, ops, keep, LowerArgs(cx, st, ops, dropped, 0).value.nodes, m)
    {
      var srcs := seq(|ops|, k requires 0 <= k < |ops| => SourceOf(cx.globals, st, ops[k], m));
      OrderOfSources(cx.globals, st, ops, m, srcs, keep);
      SetsUpMeansLoads(cx, st, ops, dropped, keep, m, srcs);
      if InOrder(srcs, keep) {
        InOrderLoads(srcs, keep, m.regs);
      }
    }
    TellingState(cx.globals, st, ops);
    var m := Telling(st, ops);
    if !OperandsInOrder(st, ops, keep) {
      var srcs := seq(|ops|, k requires 0 <= k < |ops| => SourceOf(cx.globals, st, ops[k], m));
      OrderOfSources(cx.globals, st, ops, m, srcs, keep);
      SetsUpMeansLoads(cx, st, ops, dropped, keep, m, srcs);
      OutOfOrderFails(srcs, keep);
    }
  }

  lemma TellingState(globals: set<Name>, st: Store, ops: seq<Value>)
    requires AllReadable(st, ops)
    ensures Telling(st, ops).Valid() && Telling(st, ops).regs == DISTINCT && AllRead(globals, st, ops, Telling(st, ops))
    ensures forall k | 0 <= k < |ops| :: var src := SourceOf(globals, st, ops[k], Telling(st, ops)); src.Fixed? ==>
            src.w < IMM_LIMIT
  {
    hide Readable, ValueIn, SourceOf;
    forall k | 0 <= k < |ops|
      ensures ValueIn(globals, st, ops[k], Telling(st, ops)).Some?
      ensures var src := SourceOf(globals, st, ops[k], Telling(st, ops)); src.Fixed? ==> src.w < IMM_LIMIT
    {
      TellingReads(globals, st, ops[k], ops);
    }
  }
}
