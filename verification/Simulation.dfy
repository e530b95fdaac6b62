/** When a storage state and a machine state represent the values of an IR run, and the
    moves that keep them doing so. */
module Simulation {
  import opened Wrappers
  import opened Ir
  import opened Machine
  import opened IrSemantics
  import opened Storage
  import opened Ownership
  import opened Tampering
  import Conditions

  // Representation

  ghost predicate CellIs(m: State, below: nat, w: Word) {
    m.rbp - below in m.mem && m.mem[m.rbp - below] == w
  }

  function Content(env: Env, x: Name): Option<Word> {
    if x in env.cells then Some(env.cells[x]) else None
  }

  /** The location holds the value; the location of a pointer holds what was stored. */
  ghost predicate HoldsAt(loc: Loc, v: Val, content: Option<Word>, m: State)
    requires m.Valid()
  {
    match v
    case IntV(w) => (loc.InReg? && m.regs[loc.reg] == w) || (loc.Slot? && CellIs(m, loc.below, w))
    case BoolV(b) => loc.Flag? && m.flags.Some? && Conditions.Holds(Conditions.CondInst(loc.cond), m.flags.value) == b
    case PtrV(_) => loc.Slot? && (content.Some? ==> CellIs(m, loc.below, content.value))
  }

  /** Every needed name that has a value is where the storage state says it is. */
  ghost predicate Represents(st: Store, need: set<Name>, env: Env, m: State)
    requires m.Valid()
  {
    forall x | x in need && x in env.vals :: x in st.vmap && HoldsAt(st.vmap[x], env.vals[x], Content(env, x), m)
  }

  predicate IsParamRegister(r: nat) {
    r == RDI || r == RSI || r == RDX
  }

  /** Needed names in registers own them, or are parameters in place. */
  ghost predicate Protected(st: Store, need: set<Name>) {
    forall x | x in need && x in st.vmap && st.vmap[x].InReg? ::
      var c := st.cells[st.vmap[x].reg];
      EightBytes(c.size) && (c.owner == x || (c.owner == "" && IsParamRegister(st.vmap[x].reg)))
  }

  ghost predicate RegistersApart(st: Store, need: set<Name>) {
    forall x, y | x in need && y in need && x in st.vmap && y in st.vmap && st.vmap[x].InReg? &&
      st.vmap[x] == st.vmap[y] :: x == y
  }

  ghost predicate SlotsApart(st: Store, need: set<Name>) {
    (forall x | x in need && x in st.vmap && st.vmap[x].Slot? :: 8 <= st.vmap[x].below <= st.frame) &&
    (forall x, y | x in need && y in need && x in st.vmap && y in st.vmap && st.vmap[x].Slot? && st.vmap[y].Slot? &&
     x != y ::
       st.vmap[x].below + 8 <= st.vmap[y].below || st.vmap[y].below + 8 <= st.vmap[x].below)
  }

  ghost predicate OwnedSized(st: Store) {
    "" !in st.vmap && forall r: Register | st.cells[r].owner != "" :: EightBytes(st.cells[r].size)
  }

  /** A storage state from which needed names can be moved and kept apart. */
  ghost predicate Good(st: Store, need: set<Name>) {
    Sound(st) && OwnedSized(st) && Protected(st, need) && RegistersApart(st, need) && SlotsApart(st, need)
  }

  /** No needed name is in a register. */
  ghost predicate Unneeded(st: Store, need: set<Name>, r: Register) {
    forall x | x in need && x in st.vmap :: st.vmap[x] != InReg(r)
  }

  /** The flags hold no needed comparison. */
  ghost predicate FlagsFree(st: Store, need: set<Name>) {
    forall x | x in need && x in st.vmap :: !st.vmap[x].Flag?
  }

  // What instructions may change

  ghost predicate MemWithin(m0: State, m1: State, frame: nat) {
    forall a | frame == 0 || a + 8 <= m0.rbp - frame || a >= m0.rbp :: SameCell(m0.mem, m1.mem, a)
  }

  ghost predicate RegsWithin(m0: State, m1: State, changed: set<nat>)
    requires m0.Valid() && m1.Valid()
  {
    forall r: Register | r !in changed :: m1.regs[r] == m0.regs[r]
  }

  /** Execution from m0 to m1 stays within a frame and a set of registers. */
  ghost predicate Within(m0: State, m1: State, frame: nat, changed: set<nat>)
    requires m0.Valid() && m1.Valid()
  {
    m1.rsp == m0.rsp && m1.rbp == m0.rbp && MemWithin(m0, m1, frame) && RegsWithin(m0, m1, changed)
  }

  lemma WithinTransitive(m0: State, m1: State, m2: State, f1: nat, f2: nat, c1: set<nat>, c2: set<nat>)
    requires m0.Valid() && m1.Valid() && m2.Valid()
    requires Within(m0, m1, f1, c1) && Within(m1, m2, f2, c2) && f1 <= f2 && c1 <= c2
    ensures Within(m0, m2, f2, c2)
  {
    forall a | f2 == 0 || a + 8 <= m0.rbp - f2 || a >= m0.rbp ensures SameCell(m0.mem, m2.mem, a) {
      assert SameCell(m0.mem, m1.mem, a);
      assert SameCell(m1.mem, m2.mem, a);
    }
  }

  // Vacating a register

  /** A home for a vacated value: not to be avoided, and no needed name's location. */
  ghost predicate SafeHome(st: Store, need: set<Name>, avoid: set<nat>) {
    FirstFree(st.cells, 0).Some? ==>
      FirstFree(st.cells, 0).value !in avoid && Unneeded(st, need, FirstFree(st.cells, 0).value)
  }

  /** The state after name x moved from register r to home. */
  ghost predicate Moved(st: Store, st1: Store, x: Name, r: Register, home: Loc) {
    st1.vmap == st.vmap[x := home] && st1.frame >= st.frame && st1.temps == st.temps &&
    st1.cells[r].owner == "" &&
    (forall s: Register | s != r && home != InReg(s) :: st1.cells[s] == st.cells[s]) &&
    (home.InReg? ==>
      (home.reg != r && st.cells[home.reg].owner == "" && st1.cells[home.reg].owner == x &&
       EightBytes(st1.cells[home.reg].size) && st1.cells[home.reg].tampered)) &&
    (home.Slot? ==> home.below == st1.frame == st.frame + 8) &&
    (home.InReg? || home.Slot?) &&
    st1.cells[r].tampered == st.cells[r].tampered
  }

  /** Remapping frees the register a name was in, and gives the new location its owner. */
  lemma RemapIs(st: Store, x: Name, r: Register, home: Loc)
    requires x in st.vmap && st.vmap[x] == InReg(r) && (home.InReg? ==> home.reg != r)
    ensures var st1 := RemapValue(st, x, home);
            st1.vmap == st.vmap[x := home] && st1.frame == st.frame && st1.temps == st.temps &&
            st1.cells[r] == Unclaim(Unclaim(st.cells[r])) &&
            (forall s: Register | s != r && home != InReg(s) :: st1.cells[s] == st.cells[s]) &&
            (home.InReg? ==> st1.cells[home.reg] == Grab(st.cells[home.reg], st.cells[home.reg].size).(owner := x))
  {
    var st1 := DropOwnership(st, x);
    assert st1 == st.(cells := st.cells[r := Unclaim(st.cells[r])]);
    var st2 := EraseValue(st1, x);
    assert st2 == st1.(cells := st1.cells[r := Unclaim(st1.cells[r])], vmap := st.vmap - {x});
    assert (st.vmap - {x})[x := home] == st.vmap[x := home];
  }

  lemma RemapMoves(st: Store, st1: Store, x: Name, r: Register, home: Loc)
    requires Coherent(st) && st.cells[r].owner == x && x != "" && EightBytes(st.cells[r].size)
    requires FindValStorage(st, st.cells[r].size) == Ok((st1, home))
    ensures Moved(st, RemapValue(st1, x, home), x, r, home)
    ensures match FirstFree(st.cells, 0)
            case Some(h) => home == InReg(h)
            case None => home.Slot?
  {
    hide RemapValue, FirstFree;
    RemapIs(st1, x, r, home);
  }

  lemma EmptyRegisterMoves(globals: set<Name>, st: Store, r: Register) returns (home: Loc, s: Size, t: Size)
    requires Coherent(st) && OwnedSized(st) && st.cells[r].owner != ""
    ensures EmptyRegister(globals, st, r).Ok?
    ensures var e := EmptyRegister(globals, st, r).value;
            Moved(st, e.st, st.cells[r].owner, r, home) &&
            EightBytes(s) && EightBytes(t) && OperandAt(home, s).Ok? &&
              e.nodes == [NMov(OperandAt(home, s).value, OReg(r, t))]
    ensures match FirstFree(st.cells, 0)
            case Some(h) => home == InReg(h)
            case None => home.Slot?
  {
    hide RemapValue, Moved, FirstFree;
    var x := st.cells[r].owner;
    var found := FindValStorage(st, st.cells[r].size).value;
    home := found.1;
    s, t := SizeOf(found.0, home), SizeOf(found.0, InReg(r));
    RemapMoves(st, found.0, x, r, home);
  }

  lemma MoveSteps(home: Loc, s: Size, t: Size, r: Register, m: State) returns (m1: State)
    requires m.Valid() && EightBytes(s) && EightBytes(t) && (home.InReg? || home.Slot?)
    requires home.InReg? ==> home.reg != r
    ensures Steps([NMov(OperandAt(home, s).value, OReg(r, t))], m) == Some(m1)
    ensures home.InReg? ==> m1 == m.(regs := m.regs[home.reg := m.regs[r]])
    ensures home.Slot? ==> m1 == m.(mem := Write(m.mem, m.rbp - home.below, m.regs[r]))
  {
    var node := NMov(OperandAt(home, s).value, OReg(r, t));
    m1 := Step(node, m).value;
    assert [node][1..] == [];
    assert Steps([], m1) == Some(m1);
  }

  lemma MovedGood(st: Store, st1: Store, x: Name, r: Register, home: Loc, need: set<Name>)
    requires Good(st, need) && Sound(st1) && Moved(st, st1, x, r, home)
    requires x != "" && st.cells[r].owner == x && x in st.vmap && st.vmap[x] == InReg(r)
    requires home.InReg? ==> Unneeded(st, need, home.reg)
    ensures Good(st1, need)
  {
    assert forall y | y in need && y in st.vmap && y != x && st.vmap[y].InReg? :: st.vmap[y].reg != r by {
      assert forall y | y in need && y in st.vmap && y != x && st.vmap[y].InReg? ::
          st.cells[st.vmap[y].reg].owner == y ||
            (st.cells[st.vmap[y].reg].owner == "" && IsParamRegister(st.vmap[y].reg));
    }
  }

  /** Only the owner of r, if any, is elsewhere; neither r nor a register to be avoided
      got an owner. */
  ghost predicate Vacated(st: Store, st1: Store, r: Register, avoid: set<nat>) {
    st1.vmap.Keys == st.vmap.Keys &&
    (forall x | x in st.vmap && x != st.cells[r].owner :: st1.vmap[x] == st.vmap[x]) &&
    (forall x | x in st.vmap && x == st.cells[r].owner != "" && st1.vmap[x].InReg? ::
       st1.vmap[x].reg != r && st1.vmap[x].reg !in avoid) &&
    (forall x | x in st.vmap && st1.vmap[x].Flag? :: st.vmap[x].Flag?) &&
    st1.cells[r].owner == "" &&
    (forall s: Register | s in avoid && st.cells[s].owner == "" :: st1.cells[s].owner == "") &&
    st1.frame >= st.frame && Tampered(st) <= Tampered(st1)
  }

  lemma MovedVacated(st: Store, st1: Store, x: Name, r: Register, home: Loc, avoid: set<nat>)
    requires Moved(st, st1, x, r, home) && x == st.cells[r].owner != "" && x in st.vmap
    requires home.InReg? ==> home.reg !in avoid
    ensures Vacated(st, st1, r, avoid)
    ensures home.InReg? ==> home.reg in Tampered(st1)
  {
  }

  lemma MoveRepresents(st: Store, st1: Store, x: Name, r: Register, home: Loc, need: set<Name>, env: Env, m: State,
                       m1: State)
    requires m.Valid() && Good(st, need) && Represents(st, need, env, m)
    requires Moved(st, st1, x, r, home) && x in st.vmap && st.vmap[x] == InReg(r)
    requires home.InReg? ==> Unneeded(st, need, home.reg) && m1 == m.(regs := m.regs[home.reg := m.regs[r]])
    requires home.Slot? ==> m1 == m.(mem := Write(m.mem, m.rbp - home.below, m.regs[r]))
    ensures m1.Valid() && Represents(st1, need, env, m1)
  {
    forall y | y in need && y in env.vals
      ensures y in st1.vmap && HoldsAt(st1.vmap[y], env.vals[y], Content(env, y), m1)
    {
      assert HoldsAt(st.vmap[y], env.vals[y], Content(env, y), m);
      if y != x && home.Slot? && st.vmap[y].Slot? {
        WriteApart(m.mem, m.rbp - home.below, m.regs[r], m.rbp - st.vmap[y].below);
      }
    }
  }

  lemma MoveWithin(st1: Store, r: Register, home: Loc, avoid: set<nat>, m: State, m1: State)
    requires m.Valid() && m1.Valid()
    requires home.InReg? ==> home.reg in Tampered(st1) - avoid && m1 == m.(regs := m.regs[home.reg := m.regs[r]])
    requires home.Slot? ==> 8 <= home.below <= st1.frame && m1 == m.(mem := Write(m.mem, m.rbp - home.below, m.regs[r]))
    requires home.InReg? || home.Slot?
    ensures Within(m, m1, st1.frame, Tampered(st1) - avoid)
  {
    forall a | home.Slot? && (a + 8 <= m.rbp - st1.frame || a >= m.rbp) ensures SameCell(m.mem, m1.mem, a) {
      WriteApart(m.mem, m.rbp - home.below, m.regs[r], a);
    }
  }

  lemma GoodSubset(st: Store, all: set<Name>, need: set<Name>)
    requires Good(st, all) && need <= all
    ensures Good(st, need)
  {
  }

  lemma RepresentsSubset(st: Store, all: set<Name>, need: set<Name>, env: Env, m: State)
    requires m.Valid() && Represents(st, all, env, m) && need <= all
    ensures Represents(st, need, env, m)
  {
  }

  /** Vacating a register keeps every needed name's value at its, possibly new, location
      and all names apart; it changes no register but a home outside avoid, and memory
      only in a new slot. */
  lemma VacateKeepsValues(globals: set<Name>, st: Store, r: Register, all: set<Name>, need: set<Name>, avoid: set<nat>,
                          env: Env, m: State)
    requires m.Valid() && need <= all && Good(st, all) && Represents(st, need, env, m)
    requires st.cells[r].owner != "" ==> SafeHome(st, all, avoid)
    ensures EmptyRegister(globals, st, r).Ok?
    ensures var e := EmptyRegister(globals, st, r).value;
            Good(e.st, all) && Vacated(st, e.st, r, avoid) && Steps(e.nodes, m).Some? &&
            var m1 := Steps(e.nodes, m).value;
            Represents(e.st, need, env, m1) && m1.flags == m.flags && m1.regs[r] == m.regs[r] &&
            Within(m, m1, e.st.frame, Tampered(e.st) - avoid)
  {
    if st.cells[r].owner != "" {
      hide EmptyRegister, Moved, Represents, Vacated, Within, Protected, RegistersApart, SlotsApart, Steps;
      var x := st.cells[r].owner;
      var home, s, t := EmptyRegisterMoves(globals, st, r);
      EmptyRegisterSound(globals, st, r);
      MovedHome(st, EmptyRegister(globals, st, r).value.st, x, r, home);
      var m1 := MoveSteps(home, s, t, r, m);
      var st1 := EmptyRegister(globals, st, r).value.st;
      MovedGood(st, st1, x, r, home, all);
      MovedVacated(st, st1, x, r, home, avoid);
      GoodSubset(st, all, need);
      MoveRepresents(st, st1, x, r, home, need, env, m, m1);
      MoveWithin(st1, r, home, avoid, m, m1);
    }
  }

  lemma MovedHome(st: Store, st1: Store, x: Name, r: Register, home: Loc)
    requires Moved(st, st1, x, r, home)
    ensures home.InReg? || home.Slot?
    ensures home.InReg? ==> home.reg != r
    ensures home.Slot? ==> 8 <= home.below <= st1.frame
  {
  }

  // Reading a value

  /** Needed names in registers have eight-byte cells. */
  ghost predicate Sized(st: Store, need: set<Name>) {
    forall x | x in need && x in st.vmap && st.vmap[x].InReg? :: EightBytes(st.cells[st.vmap[x].reg].size)
  }

  /** An integer operand reads as the value it has. */
  lemma OperandReads(globals: set<Name>, st: Store, v: Value, need: set<Name>, env: Env, m: State)
    requires m.Valid() && Sized(st, need) && Represents(st, need, env, m)
    requires VarNames([v]) <= need && IntOf(env, v).Some?
    ensures ValueOperand(globals, st, v).Ok?
    ensures var o := ValueOperand(globals, st, v).value;
            Read(m, o) == IntOf(env, v) &&
            (v.Lit? ==> o.OImm? && o.val == v.value) &&
            (v.Var? ==> v.name in st.vmap && (st.vmap[v.name].InReg? || st.vmap[v.name].Slot?) &&
                        (st.vmap[v.name].InReg? ==> o.OReg? && o.reg == st.vmap[v.name].reg) &&
                        (st.vmap[v.name].Slot? ==> o.OMem? && o.below == st.vmap[v.name].below))
  {
    if v.Var? {
      assert v in [v];
      assert v.name in need;
      assert HoldsAt(st.vmap[v.name], env.vals[v.name], Content(env, v.name), m);
    }
  }
}
