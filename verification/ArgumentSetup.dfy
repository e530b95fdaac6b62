/** Argument set-up of calls is a parallel move
    (src/backend/codegen/instructions.cpp, src/backend/codegen/dataflow.cpp). */
module ArgumentSetup {
  import opened Wrappers
  import opened Ir
  import opened Machine
  import opened IrSemantics
  import opened Storage
  import opened Lowering
  import opened Ownership
  import opened Tampering
  import opened Simulation

  /** Loading argument i is safe: a vacated value finds a home outside the argument
      registers already loaded, and no value still needed stays in the register, other
      than the argument itself when it is not needed after the call. */
  ghost predicate ArgSafe(st: Store, v: Value, i: nat, all: set<Name>, keep: set<Name>, stay: set<Name>)
    requires i < MAX_ARGS
  {
    var p := ParamRegister(i);
    (st.cells[p].owner != "" ==> SafeHome(st, all, ArgRegisters(i))) &&
    (st.cells[p].owner == "" ==>
       forall x | x in keep && x in st.vmap && st.vmap[x] == InReg(p) :: v.Var? && v.name == x && x !in stay)
  }

  /** The loaded argument registers have no owner and hold no name needed after the call. */
  ghost predicate Loaded(st: Store, i: nat, stay: set<Name>)
    requires i <= MAX_ARGS
  {
    forall j | 0 <= j < i :: st.cells[ParamRegister(j)].owner == "" && Unneeded(st, stay, ParamRegister(j))
  }

  lemma ArgRegistersDistinct(i: nat, j: nat)
    requires j < i < MAX_ARGS
    ensures ParamRegister(j) != ParamRegister(i) && ParamRegister(j) in ArgRegisters(i) &&
            ParamRegister(i) !in ArgRegisters(i)
  {
  }

  lemma CopySteps(o: Operand, p: Register, m: State, w: Word) returns (m1: State)
    requires m.Valid() && Read(m, o) == Some(w)
    ensures Steps([NMov(OReg(p, I64), o)], m) == Some(m1)
    ensures m1 == m.(regs := m.regs[p := w], flags := m1.flags) && (m1.flags == m.flags || o.OImm?)
  {
    var node := NMov(OReg(p, I64), o);
    m1 := Step(node, m).value;
    assert m.regs[p := m.regs[p]] == m.regs;
    assert [node][1..] == [];
    assert Steps([], m1) == Some(m1);
  }

  /** Copying a value into a register that no other needed name is in. */
  lemma CopyLoads(globals: set<Name>, st: Store, v: Value, p: Register, all: set<Name>, keep: set<Name>, env: Env,
                  m: State, w: Word) returns (m1: State)
    requires m.Valid() && Good(st, all) && Represents(st, keep + VarNames([v]), env, m)
    requires keep + VarNames([v]) <= all && FlagsFree(st, all)
    requires IntOf(env, v) == Some(w)
    requires forall x | x in keep && x in st.vmap && st.vmap[x] == InReg(p) :: v.Var? && v.name == x
    ensures ValueOperand(globals, st, v).Ok?
    ensures Steps([NMov(OReg(p, I64), ValueOperand(globals, st, v).value)], m) == Some(m1)
    ensures m1.regs == m.regs[p := w] && m1.mem == m.mem && m1.rsp == m.rsp && m1.rbp == m.rbp
    ensures Represents(st, keep, env, m1)
  {
    hide Steps, SlotsApart, RegistersApart, OwnedSized, Sound;
    GoodSubset(st, all, keep + VarNames([v]));
    OperandReads(globals, st, v, keep + VarNames([v]), env, m);
    m1 := CopySteps(ValueOperand(globals, st, v).value, p, m, w);
    forall x | x in keep && x in env.vals
      ensures x in st.vmap && HoldsAt(st.vmap[x], env.vals[x], Content(env, x), m1)
    {
      assert HoldsAt(st.vmap[x], env.vals[x], Content(env, x), m);
    }
  }

  // What operands pass

  /** What an operand passes in a machine state: an integer its value, a pointer to an allocation
      the address at which the allocation starts, and a global string the address of the symbol of
      its name. */
  ghost predicate PassesAs(globals: set<Name>, st: Store, env: Env, v: Value, m: State, w: Word) {
    match v
    case Lit(_, _) => IntOf(env, v) == Some(w)
    case Var(s, x) =>
      if x !in st.vmap then EightBytes(s) && x in globals && x in m.symbols && w == m.symbols[x]
      else if s == Ptr then st.vmap[x].Slot? && w == (m.rbp - st.vmap[x].below) % WORD
      else IntOf(env, v) == Some(w)
  }

  /** Names in the frame stay where they are, and no others are in use. */
  ghost predicate SlotsInPlace(st: Store, st1: Store) {
    st1.vmap.Keys == st.vmap.Keys && forall x | x in st.vmap && st.vmap[x].Slot? :: st1.vmap[x] == st.vmap[x]
  }

  lemma VacatedSlotsInPlace(st: Store, st1: Store, r: Register, avoid: set<nat>)
    requires Sound(st) && OwnedSized(st) && Vacated(st, st1, r, avoid)
    ensures SlotsInPlace(st, st1)
  {
    assert st.cells[r].owner != "" ==> st.vmap[st.cells[r].owner] == InReg(r);
  }

  /** What an operand passes does not depend on what the set-up of others has done. */
  lemma PassesStill(globals: set<Name>, st: Store, st1: Store, env: Env, v: Value, m: State, m1: State, w: Word)
    requires SlotsInPlace(st, st1) && m1.rbp == m.rbp && m1.symbols == m.symbols && PassesAs(globals, st, env, v, m, w)
    ensures PassesAs(globals, st1, env, v, m1, w)
  {
  }

  /** The operands that are read pass their integers. */
  lemma IntsPass(globals: set<Name>, st: Store, env: Env, ops: seq<Value>, m: State, args: seq<Word>)
    requires m.Valid() && IntsOf(env, ops) == Some(args) && Represents(st, VarNames(ops), env, m)
    ensures forall k | 0 <= k < |ops| :: PassesAs(globals, st, env, ops[k], m, args[k])
  {
    forall k | 0 <= k < |ops| ensures PassesAs(globals, st, env, ops[k], m, args[k]) {
      assert ops[k] in ops;
      assert IntOf(env, ops[k]) == Some(args[k]);
      if ops[k].Var? {
        assert ops[k].name in VarNames(ops) && ops[k].name in env.vals;
      }
    }
  }

  lemma AddressSteps(node: Node, p: Register, w: Word, st: Store, keep: set<Name>, env: Env, m: State)
      returns (m1: State)
    requires m.Valid() && Represents(st, keep, env, m) && Unneeded(st, keep, p)
    requires Step(node, m) == Some(m.(regs := m.regs[p := w]))
    ensures Steps([node], m) == Some(m1) && m1 == m.(regs := m.regs[p := w]) && Represents(st, keep, env, m1)
  {
    m1 := Step(node, m).value;
    assert [node][1..] == [];
    assert Steps([], m1) == Some(m1);
    forall x | x in keep && x in env.vals
      ensures x in st.vmap && HoldsAt(st.vmap[x], env.vals[x], Content(env, x), m1)
    {
      assert HoldsAt(st.vmap[x], env.vals[x], Content(env, x), m);
    }
  }

  /** What one argument's set-up establishes. */
  ghost predicate ArgLoaded(e: Emit, i: nat, w: Word, all: set<Name>, keep: set<Name>, stay: set<Name>, env: Env,
                            m: State)
    requires m.Valid() && i < MAX_ARGS
  {
    Good(e.st, all) && FlagsFree(e.st, all) && Loaded(e.st, i + 1, stay) &&
    Steps(e.nodes, m).Some? &&
    var m1 := Steps(e.nodes, m).value;
    Represents(e.st, keep, env, m1) &&
    m1.regs[ParamRegister(i)] == w &&
    (forall j | 0 <= j < i :: m1.regs[ParamRegister(j)] == m.regs[ParamRegister(j)]) &&
    Within(m, m1, e.st.frame, Tampered(e.st) + ArgRegisters(i + 1))
  }

  lemma VacatedFlagsFree(st: Store, st1: Store, r: Register, avoid: set<nat>, all: set<Name>)
    requires Vacated(st, st1, r, avoid) && FlagsFree(st, all)
    ensures FlagsFree(st1, all)
  {
  }

  lemma VacatedLoaded(st: Store, st1: Store, i: nat, stay: set<Name>)
    requires i < MAX_ARGS && OwnedSized(st)
    requires Vacated(st, st1, ParamRegister(i), ArgRegisters(i)) && Loaded(st, i, stay)
    requires st.cells[ParamRegister(i)].owner == "" ==> Unneeded(st, stay, ParamRegister(i))
    requires Protected(st, stay)
    ensures Loaded(st1, i + 1, stay)
  {
    forall j | 0 <= j < i + 1 ensures st1.cells[ParamRegister(j)].owner == "" && Unneeded(st1, stay, ParamRegister(j)) {
      if j < i {
        ArgRegistersDistinct(i, j);
      }
    }
  }

  lemma StayUnneeded(st: Store, v: Value, i: nat, all: set<Name>, keep: set<Name>, stay: set<Name>)
    requires i < MAX_ARGS && stay <= keep && ArgSafe(st, v, i, all, keep, stay)
    ensures st.cells[ParamRegister(i)].owner == "" ==> Unneeded(st, stay, ParamRegister(i))
  {
  }

  lemma AfterVacate(st: Store, st1: Store, v: Value, i: nat, all: set<Name>, keep: set<Name>, stay: set<Name>)
    requires i < MAX_ARGS && keep <= all && ArgSafe(st, v, i, all, keep, stay)
    requires OwnedSized(st) && Protected(st, all) && Vacated(st, st1, ParamRegister(i), ArgRegisters(i))
    ensures forall x | x in keep && x in st1.vmap && st1.vmap[x] == InReg(ParamRegister(i)) :: v.Var? && v.name == x
  {
  }

  lemma KeptInPlace(st: Store, v: Value, p: Register, need: set<Name>, env: Env, m: State)
    requires m.Valid() && Represents(st, need, env, m) && VarNames([v]) <= need
    requires v.Var? && IntOf(env, v).Some? && RegisterOf(st, v) == Some(p)
    ensures m.regs[p] == IntOf(env, v).value
  {
    assert v in [v];
    assert HoldsAt(st.vmap[v.name], env.vals[v.name], Content(env, v.name), m);
  }

  lemma ArgumentWithin(m: State, m1: State, m2: State, frame: nat, i: nat, tampered: set<nat>)
    requires m.Valid() && m1.Valid() && m2.Valid() && i < MAX_ARGS
    requires Within(m, m1, frame, tampered - ArgRegisters(i))
    requires m2.mem == m1.mem && m2.rsp == m1.rsp && m2.rbp == m1.rbp
    requires forall r: Register | r != ParamRegister(i) :: m2.regs[r] == m1.regs[r]
    ensures Within(m, m2, frame, tampered + ArgRegisters(i + 1))
    ensures forall j | 0 <= j < i :: m2.regs[ParamRegister(j)] == m.regs[ParamRegister(j)]
  {
    forall j | 0 <= j < i ensures m2.regs[ParamRegister(j)] == m.regs[ParamRegister(j)] {
      ArgRegistersDistinct(i, j);
    }
    assert ParamRegister(i) in ArgRegisters(i + 1);
  }

  /** The node that loads an address into a vacated register. */
  function AddressNode(st: Store, v: Value, p: Register): Node {
    if v.Var? && v.name in st.vmap && st.vmap[v.name].Slot? then
      NLea(OReg(p, Ptr), OMem(st.vmap[v.name].below, Ptr))
    else NMov(OReg(p, v.size), OGlobal(if v.Var? then v.name else ""))
  }

  predicate IsAddress(st: Store, v: Value) {
    v.Var? && (v.name !in st.vmap || v.size == Ptr)
  }

  lemma AddressSetUp(cx: Context, st: Store, v: Value, dropped: bool, p: Register, env: Env, m: State, w: Word)
    requires m.Valid() && IsAddress(st, v) && PassesAs(cx.globals, st, env, v, m, w)
    requires EmptyRegister(cx.globals, st, p).Ok? && SlotsInPlace(st, EmptyRegister(cx.globals, st, p).value.st)
    ensures var e := EmptyRegister(cx.globals, st, p).value;
            LowerArg(cx, st, v, dropped, p) == Ok(Emit(e.st, e.nodes + [AddressNode(st, v, p)]))
    ensures forall m1: State | m1.Valid() && m1.rbp == m.rbp && m1.symbols == m.symbols ::
      Step(AddressNode(st, v, p), m1) == Some(m1.(regs := m1.regs[p := w]))
  {
    hide EmptyRegister;
  }

  lemma NotThere(st: Store, v: Value, p: Register, keep: set<Name>)
    requires v.Var? && (v.name in st.vmap ==> st.vmap[v.name].Slot?)
    requires forall x | x in keep && x in st.vmap && st.vmap[x] == InReg(p) :: v.Var? && v.name == x
    ensures Unneeded(st, keep, p)
  {
  }

  /** Set-up of argument i, from the state in which arguments before it are loaded. */
  lemma ArgumentLoads(cx: Context, st: Store, v: Value, dropped: bool, i: nat, all: set<Name>, keep: set<Name>,
                      stay: set<Name>, env: Env, m: State, w: Word)
    requires m.Valid() && i < MAX_ARGS
    requires Good(st, all) && FlagsFree(st, all) && Loaded(st, i, stay)
    requires stay <= keep <= all && VarNames([v]) <= all
    requires Represents(st, keep + VarNames([v]), env, m) && PassesAs(cx.globals, st, env, v, m, w)
    requires dropped <==> v.Var? && v.name !in stay
    requires ArgSafe(st, v, i, all, keep, stay)
    ensures LowerArg(cx, st, v, dropped, ParamRegister(i)).Ok?
    ensures ArgLoaded(LowerArg(cx, st, v, dropped, ParamRegister(i)).value, i, w, all, keep, stay, env, m)
    ensures SlotsInPlace(st, LowerArg(cx, st, v, dropped, ParamRegister(i)).value.st)
  {
    hide EmptyRegister, Represents, Vacated, Within, Protected, RegistersApart, SlotsApart, Steps, SafeHome, Sound,
         OwnedSized, Loaded, FlagsFree, Unneeded, PassesAs, LowerArg, SlotsInPlace;
    var p := ParamRegister(i);
    var need := keep + VarNames([v]);
    VacateKeepsValues(cx.globals, st, p, all, need, ArgRegisters(i), env, m);
    var e := EmptyRegister(cx.globals, st, p).value;
    var m1 := Steps(e.nodes, m).value;
    VacatedFlagsFree(st, e.st, p, ArgRegisters(i), all);
    StayUnneeded(st, v, i, all, keep, stay);
    GoodSubset(st, all, stay);
    VacatedLoaded(st, e.st, i, stay);
    AfterVacate(st, e.st, v, i, all, keep, stay);
    VacatedSlotsInPlace(st, e.st, p, ArgRegisters(i));
    PassesStill(cx.globals, st, e.st, env, v, m, m1, w);
    if IsAddress(st, v) {
      RepresentsSubset(e.st, need, keep, env, m1);
      AddressInPlace(st, e.st, env, v, cx.globals, m, w);
      NotThere(e.st, v, p, keep);
      AddressSetUp(cx, st, v, dropped, p, env, m, w);
      var m2 := AddressSteps(AddressNode(st, v, p), p, w, e.st, keep, env, m1);
      ArgumentWithin(m, m1, m2, e.st.frame, i, Tampered(e.st));
      StepsAppend(e.nodes, [AddressNode(st, v, p)], m);
    } else {
      IntegerLoads(cx, st, v, dropped, i, all, keep, env, m, m1, w);
    }
  }

  lemma AddressInPlace(st: Store, st1: Store, env: Env, v: Value, globals: set<Name>, m: State, w: Word)
    requires IsAddress(st, v) && PassesAs(globals, st, env, v, m, w) && SlotsInPlace(st, st1)
    ensures v.name in st1.vmap ==> st1.vmap[v.name].Slot?
  {
  }

  /** An integer stays in its register, or is copied. */
  lemma IntegerLoads(cx: Context, st: Store, v: Value, dropped: bool, i: nat, all: set<Name>, keep: set<Name>,
                     env: Env, m: State, m1: State, w: Word)
    requires m.Valid() && m1.Valid() && i < MAX_ARGS && keep <= all && VarNames([v]) <= all
    requires !IsAddress(st, v) && PassesAs(cx.globals, st, env, v, m, w) && Represents(st, keep + VarNames([v]), env, m)
    requires EmptyRegister(cx.globals, st, ParamRegister(i)).Ok?
    requires var e := EmptyRegister(cx.globals, st, ParamRegister(i)).value;
             Good(e.st, all) && FlagsFree(e.st, all) && Steps(e.nodes, m) == Some(m1) &&
             Represents(e.st, keep + VarNames([v]), env, m1) && m1.regs[ParamRegister(i)] == m.regs[ParamRegister(i)] &&
             Within(m, m1, e.st.frame, Tampered(e.st) - ArgRegisters(i)) &&
             forall x | x in keep && x in e.st.vmap && e.st.vmap[x] == InReg(ParamRegister(i)) :: v.Var? && v.name == x
    ensures LowerArg(cx, st, v, dropped, ParamRegister(i)).Ok?
    ensures var e := EmptyRegister(cx.globals, st, ParamRegister(i)).value;
            var arg := LowerArg(cx, st, v, dropped, ParamRegister(i)).value;
            arg.st == e.st && Steps(arg.nodes, m).Some? &&
            var m2 := Steps(arg.nodes, m).value;
            Represents(e.st, keep, env, m2) && m2.regs[ParamRegister(i)] == w &&
            (forall j | 0 <= j < i :: m2.regs[ParamRegister(j)] == m.regs[ParamRegister(j)]) &&
            Within(m, m2, e.st.frame, Tampered(e.st) + ArgRegisters(i + 1))
  {
    hide EmptyRegister, Represents, Within, Protected, RegistersApart, SlotsApart, Steps, Sound, OwnedSized, FlagsFree;
    var p, need := ParamRegister(i), keep + VarNames([v]);
    var e := EmptyRegister(cx.globals, st, p).value;
    assert IntOf(env, v) == Some(w);
    if !dropped && RegisterOf(st, v) == Some(p) {
      KeptInPlace(st, v, p, need, env, m);
      RepresentsSubset(e.st, need, keep, env, m1);
      ArgumentWithin(m, m1, m1, e.st.frame, i, Tampered(e.st));
    } else {
      var m2 := CopyLoads(cx.globals, e.st, v, p, all, keep, env, m1, w);
      ArgumentWithin(m, m1, m2, e.st.frame, i, Tampered(e.st));
      StepsAppend(e.nodes, [NMov(OReg(p, I64), ValueOperand(cx.globals, e.st, v).value)], m);
    }
  }

  // The whole set-up

  lemma StepsNil(m: State)
    requires m.Valid()
    ensures Steps([], m) == Some(m)
  {
  }

  lemma WithinSame(m: State, frame: nat, changed: set<nat>)
    requires m.Valid()
    ensures Within(m, m, frame, changed)
  {
  }

  /** Every argument's set-up is safe in the state in which its turn comes. */
  ghost predicate ArgsSafe(cx: Context, st: Store, ops: seq<Value>, dropped: seq<bool>, i: nat, stay: set<Name>)
    requires |dropped| == |ops| && i <= |ops|
    decreases |ops| - i
  {
    i == |ops| ||
    (i < MAX_ARGS &&
     ArgSafe(st, ops[i], i, stay + VarNames(ops), stay + VarNames(ops[i + 1..]), stay) &&
     (LowerArg(cx, st, ops[i], dropped[i], ParamRegister(i)).Ok? ==>
        ArgsSafe(cx, LowerArg(cx, st, ops[i], dropped[i], ParamRegister(i)).value.st, ops, dropped, i + 1, stay)))
  }

  ghost predicate ArgsInPlace(m: State, args: seq<Word>, i: nat)
    requires m.Valid() && i <= |args| && i <= MAX_ARGS
  {
    forall j | 0 <= j < i :: m.regs[ParamRegister(j)] == args[j]
  }

  lemma VarNamesSuffix(ops: seq<Value>, i: nat)
    requires i < |ops|
    ensures VarNames(ops[i..]) == VarNames(ops[i + 1..]) + VarNames([ops[i]])
    ensures VarNames(ops[i..]) <= VarNames(ops)
  {
    assert ops[i..] == [ops[i]] + ops[i + 1..];
    assert forall v | v in ops[i..] :: v in ops;
    assert forall v | v in ops[i..] :: v in [ops[i]] || v in ops[i + 1..];
    assert forall v | v in ops[i + 1..] :: v in ops[i..];
    assert ops[i] in ops[i..];
  }

  /** What the set-up of arguments i onwards establishes. */
  ghost predicate AllLoaded(e: Emit, args: seq<Word>, all: set<Name>, stay: set<Name>, env: Env, m: State)
    requires m.Valid() && |args| <= MAX_ARGS
  {
    Good(e.st, all) && FlagsFree(e.st, all) && Loaded(e.st, |args|, stay) &&
    Steps(e.nodes, m).Some? &&
    var m1 := Steps(e.nodes, m).value;
    Represents(e.st, stay, env, m1) && ArgsInPlace(m1, args, |args|) &&
    Within(m, m1, e.st.frame, Tampered(e.st) + ArgRegisters(|args|))
  }

  lemma AllLoadedFrom(e: Emit, rest: Emit, i: nat, args: seq<Word>, all: set<Name>, keep: set<Name>, stay: set<Name>,
                      env: Env, m: State)
    requires m.Valid() && i < |args| <= MAX_ARGS
    requires ArgLoaded(e, i, args[i], all, keep, stay, env, m)
    requires AllLoaded(rest, args, all, stay, env, Steps(e.nodes, m).value)
    requires Widens(e.st, rest.st)
    ensures AllLoaded(Emit(rest.st, e.nodes + rest.nodes), args, all, stay, env, m)
  {
    hide Good, Represents, Within, Steps, Loaded, FlagsFree;
    var m1 := Steps(e.nodes, m).value;
    StepsAppend(e.nodes, rest.nodes, m);
    MoreArgRegisters(i + 1, |args|);
    WithinTransitive(m, m1, Steps(rest.nodes, m1).value, e.st.frame, rest.st.frame,
                     Tampered(e.st) + ArgRegisters(i + 1), Tampered(rest.st) + ArgRegisters(|args|));
  }

  /** The state that the set-up of arguments i onwards starts from. */
  ghost predicate ArgsReady(cx: Context, st: Store, ops: seq<Value>, dropped: seq<bool>, i: nat, stay: set<Name>,
                            env: Env, m: State, args: seq<Word>)
    requires m.Valid() && |dropped| == |ops| == |args| && i <= |ops| <= MAX_ARGS
  {
    Good(st, stay + VarNames(ops)) && FlagsFree(st, stay + VarNames(ops)) && Loaded(st, i, stay) &&
    Represents(st, stay + VarNames(ops[i..]), env, m) && ArgsInPlace(m, args, i) &&
      ArgsSafe(cx, st, ops, dropped, i, stay)
  }

  /** The next argument is loaded, and the others can be. */
  lemma NextArgumentLoads(cx: Context, st: Store, ops: seq<Value>, dropped: seq<bool>, i: nat, stay: set<Name>,
                          env: Env, m: State, args: seq<Word>)
    requires m.Valid() && |dropped| == |ops| == |args| <= MAX_ARGS && i < |ops|
    requires PassesAs(cx.globals, st, env, ops[i], m, args[i])
    requires dropped[i] <==> ops[i].Var? && ops[i].name !in stay
    requires ArgsReady(cx, st, ops, dropped, i, stay, env, m, args)
    ensures LowerArg(cx, st, ops[i], dropped[i], ParamRegister(i)).Ok?
    ensures var e := LowerArg(cx, st, ops[i], dropped[i], ParamRegister(i)).value;
            ArgLoaded(e, i, args[i], stay + VarNames(ops), stay + VarNames(ops[i + 1..]), stay, env, m) &&
            SlotsInPlace(st, e.st) && ArgsReady(cx, e.st, ops, dropped, i + 1, stay, env, Steps(e.nodes, m).value, args)
  {
    hide LowerArg, Good, Represents, Within, Steps, Loaded, FlagsFree, ArgSafe, Tampered, PassesAs, SlotsInPlace;
    VarNamesSuffix(ops, i);
    var keep := stay + VarNames(ops[i + 1..]);
    assert stay + VarNames(ops[i..]) == keep + VarNames([ops[i]]);
    ArgumentLoads(cx, st, ops[i], dropped[i], i, stay + VarNames(ops), keep, stay, env, m, args[i]);
  }

  lemma NoArgumentsLeft(st: Store, ops: seq<Value>, stay: set<Name>, env: Env, m: State, args: seq<Word>)
    requires m.Valid() && |ops| == |args| <= MAX_ARGS && Good(st, stay + VarNames(ops)) &&
             FlagsFree(st, stay + VarNames(ops))
    requires Loaded(st, |ops|, stay) && Represents(st, stay + VarNames([]), env, m) && ArgsInPlace(m, args, |ops|)
    ensures AllLoaded(Emit(st, []), args, stay + VarNames(ops), stay, env, m)
  {
    hide Good, Represents, Within, Steps, Loaded, FlagsFree, Tampered;
    RepresentsSubset(st, stay + VarNames([]), stay, env, m);
    WithinSame(m, st.frame, Tampered(st) + ArgRegisters(|args|));
    StepsNil(m);
  }

  /** Argument set-up is a parallel move, over any mix of integers, pointers to allocations and
      global strings: if every step is safe, then in the end argument register i holds what
      operand i passed before the call, for every i, and every name needed after the call has
      its value at its, possibly new, location outside the argument registers. */
  lemma {:induction false} ArgumentsAreAParallelMove(cx: Context, st: Store, ops: seq<Value>, dropped: seq<bool>,
                                                     i: nat, stay: set<Name>, env: Env, m: State, args: seq<Word>)
    requires m.Valid() && |dropped| == |ops| == |args| && i <= |ops| <= MAX_ARGS
    requires forall k | i <= k < |ops| :: PassesAs(cx.globals, st, env, ops[k], m, args[k])
    requires forall k | i <= k < |ops| :: dropped[k] <==> ops[k].Var? && ops[k].name !in stay
    requires ArgsReady(cx, st, ops, dropped, i, stay, env, m, args)
    ensures LowerArgs(cx, st, ops, dropped, i).Ok?
    ensures AllLoaded(LowerArgs(cx, st, ops, dropped, i).value, args, stay + VarNames(ops), stay, env, m)
    decreases |ops| - i
  {
    hide LowerArg, ArgLoaded, AllLoaded, Good, Represents, Loaded, FlagsFree, ArgSafe, PassesAs, VarNames, SlotsInPlace;
    if i == |ops| {
      assert ops[i..] == [];
      NoArgumentsLeft(st, ops, stay, env, m, args);
    } else {
      NextArgumentLoads(cx, st, ops, dropped, i, stay, env, m, args);
      var e := LowerArg(cx, st, ops[i], dropped[i], ParamRegister(i)).value;
      StepsOfArgument(e, i, args[i], stay + VarNames(ops), stay + VarNames(ops[i + 1..]), stay, env, m);
      forall k | i < k < |ops| ensures PassesAs(cx.globals, e.st, env, ops[k], Steps(e.nodes, m).value, args[k]) {
        PassesStill(cx.globals, st, e.st, env, ops[k], m, Steps(e.nodes, m).value, args[k]);
      }
      ArgumentsAreAParallelMove(cx, e.st, ops, dropped, i + 1, stay, env, Steps(e.nodes, m).value, args);
      LowerArgsTampers(cx, e.st, ops, dropped, i + 1);
      AllLoadedFrom(e, LowerArgs(cx, e.st, ops, dropped, i + 1).value, i, args, stay + VarNames(ops),
                    stay + VarNames(ops[i + 1..]), stay, env, m);
    }
  }

  lemma StepsOfArgument(e: Emit, i: nat, w: Word, all: set<Name>, keep: set<Name>, stay: set<Name>, env: Env, m: State)
    requires m.Valid() && i < MAX_ARGS && ArgLoaded(e, i, w, all, keep, stay, env, m)
    ensures Steps(e.nodes, m).Some? && Steps(e.nodes, m).value.Valid()
  {
  }
}
