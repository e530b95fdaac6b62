/** The storage state of code generation as a value: register cells, the location of
    every name, and the frame size (src/backend/codegen/context/function_storage.cpp,
    src/backend/codegen/valuegen.cpp). */
module Storage {
  import opened Wrappers
  import opened Ir
  import opened Machine
  import opened Text

  type Register = r: nat | r < REGISTERS

  /** A register_storage. No owner is the empty name. */
  datatype Cell = Cell(owner: Name, size: Size, tampered: bool, frozen: bool)

  const EMPTY_CELL := Cell("", NoSize, false, false)

  const EMPTY_CELLS: seq<Cell> := [
    EMPTY_CELL, EMPTY_CELL, EMPTY_CELL, EMPTY_CELL, EMPTY_CELL,
    EMPTY_CELL, EMPTY_CELL, EMPTY_CELL, EMPTY_CELL, EMPTY_CELL,
    EMPTY_CELL, EMPTY_CELL, EMPTY_CELL, EMPTY_CELL, EMPTY_CELL]

  type Cells = s: seq<Cell> | |s| == REGISTERS witness EMPTY_CELLS

  /** A virtual_memory a name can map to: a register, the frame bytes that start some
      distance below rbp, a comparison whose outcome is in the flags, an alias of a
      literal, or a global string. */
  datatype Loc = InReg(reg: Register) | Slot(below: nat) | Flag(cond: IcmpType) | Alias(asize: Size,
      value: nat) | Global(gname: Name)

  datatype Store = Store(cells: Cells, vmap: map<Name, Loc>, frame: nat, temps: nat)

  function Grab(c: Cell, size: Size): Cell {
    c.(size := size, tampered := true, frozen := true)
  }

  function Unclaim(c: Cell): Cell {
    c.(owner := "", frozen := false)
  }

  function GetRegister(st: Store, r: Register, size: Size): Store {
    st.(cells := st.cells[r := Grab(st.cells[r], size)])
  }

  function MapValue(st: Store, x: Name, loc: Loc): Store {
    var st1 := st.(vmap := st.vmap[x := loc]);
    if loc.InReg? then
      st1.(cells := st.cells[loc.reg := Grab(st.cells[loc.reg], st.cells[loc.reg].size).(owner := x)])
    else st1
  }

  function Release(st: Store, x: Name): Store {
    if x in st.vmap && st.vmap[x].InReg? then
      st.(cells := st.cells[st.vmap[x].reg := Unclaim(st.cells[st.vmap[x].reg])])
    else st
  }

  function DropOwnership(st: Store, x: Name): Store {
    Release(st, x)
  }

  function EraseValue(st: Store, x: Name): Store {
    Release(st, x).(vmap := st.vmap - {x})
  }

  function RemapValue(st: Store, x: Name, loc: Loc): Store {
    MapValue(if x in st.vmap then EraseValue(DropOwnership(st, x), x) else st, x, loc)
  }

  function DropAll(st: Store, xs: seq<Name>): Store
    decreases |xs|
  {
    if xs == [] then st else DropAll(DropOwnership(st, xs[0]), xs[1..])
  }

  function EraseAll(st: Store, xs: seq<Name>): Store
    decreases |xs|
  {
    if xs == [] then st else EraseAll(EraseValue(st, xs[0]), xs[1..])
  }

  const TEMP_PREFIX: string := "__temp"

  function CleanCell(c: Cell): Cell {
    (if StartsWith(c.owner, TEMP_PREFIX) then Unclaim(c) else c).(frozen := false)
  }

  /** End of an instruction: temporaries give their registers back, nothing is frozen. */
  function CleanTemps(st: Store): Store {
    st.(cells := seq(REGISTERS, i requires 0 <= i < REGISTERS => CleanCell(st.cells[i])))
  }

  /** The lowest unowned register from i on. */
  function FirstFree(cells: Cells, i: nat): (r: Option<Register>)
    requires i <= REGISTERS
    ensures r.Some? ==> i <= r.value && cells[r.value].owner == ""
    ensures r.Some? ==> forall j | i <= j < r.value :: cells[j].owner != ""
    ensures r.None? ==> forall j | i <= j < REGISTERS :: cells[j].owner != ""
    decreases REGISTERS - i
  {
    if i == REGISTERS then None
    else if cells[i].owner == "" then Some(i)
    else FirstFree(cells, i + 1)
  }

  function FirstUnfrozen(cells: Cells, i: nat): (r: Option<Register>)
    requires i <= REGISTERS
    ensures r.Some? ==> i <= r.value && !cells[r.value].frozen && forall j | i <= j < r.value :: cells[j].frozen
    ensures r.None? ==> forall j | i <= j < REGISTERS :: cells[j].frozen
    decreases REGISTERS - i
  {
    if i == REGISTERS then None
    else if !cells[i].frozen then Some(i)
    else FirstUnfrozen(cells, i + 1)
  }

  function StackAllocate(st: Store, bytes: nat): (Store, Loc) {
    (st.(frame := st.frame + bytes), Slot(st.frame + bytes))
  }

  /** A free register, or else a slot of the frame. */
  function FindValStorage(st: Store, size: Size): Result<(Store, Loc)> {
    match FirstFree(st.cells, 0)
    case Some(r) => Ok((GetRegister(st, r, size), InReg(r)))
    case None =>
      (match SizeInBytes(size)
       case Some(n) => Ok(StackAllocate(st, n))
       case None => Err(Rejected))
  }

  function SizeOf(st: Store, loc: Loc): Size {
    match loc
    case InReg(r) => st.cells[r].size
    case Slot(_) => Ptr
    case Flag(_) => I1
    case Alias(s, _) => s
    case Global(_) => Ptr
  }

  function OperandAt(loc: Loc, size: Size): Result<Operand> {
    match loc
    case InReg(r) => Ok(OReg(r, size))
    case Slot(k) => Ok(OMem(k, size))
    case Global(x) => Ok(OGlobal(x))
    case _ => Err(Rejected)
  }

  /** Where a name is: its mapped location, or the global string of that name. */
  function Lookup(globals: set<Name>, st: Store, x: Name): Result<Loc> {
    if x in st.vmap then Ok(st.vmap[x])
    else if x in globals then Ok(Global(x))
    else Err(NotFound)
  }

  /** The register a value reference names, if it is in one. */
  function RegisterOf(st: Store, v: Value): Option<Register> {
    if v.Var? && v.name in st.vmap && st.vmap[v.name].InReg? then Some(st.vmap[v.name].reg) else None
  }

  function ValueSize(globals: set<Name>, st: Store, v: Value): Result<Size> {
    match v
    case Lit(s, _) => Ok(s)
    case Var(_, x) =>
      var loc :- Lookup(globals, st, x);
      Ok(SizeOf(st, loc))
  }

  function ValueOperand(globals: set<Name>, st: Store, v: Value): Result<Operand> {
    match v
    case Lit(s, n) => Ok(OImm(n, s))
    case Var(_, x) =>
      var loc :- Lookup(globals, st, x);
      OperandAt(loc, SizeOf(st, loc))
  }

  /** What a step of generation leaves: the store, and the nodes it appended. */
  datatype Emit = Emit(st: Store, nodes: seq<Node>)

  /** Vacates a register: its owner moves to a free register or to the frame. */
  function EmptyRegister(globals: set<Name>, st: Store, r: Register): Result<Emit> {
    var x := st.cells[r].owner;
    if x == "" then Ok(Emit(st, []))
    else
      var origin :- Lookup(globals, st, x);
      var found :- FindValStorage(st, SizeOf(st, origin));
      var (st1, home) := found;
      var dest :- OperandAt(home, SizeOf(st1, home));
      var src :- OperandAt(origin, SizeOf(st1, origin));
      Ok(Emit(RemapValue(st1, x, home), [NMov(dest, src)]))
  }

  function CopyToRegister(globals: set<Name>, st: Store, v: Value, r: Register): Result<Emit> {
    var e :- EmptyRegister(globals, st, r);
    var src :- ValueOperand(globals, e.st, v);
    Ok(Emit(e.st, e.nodes + [NMov(OReg(r, v.size), src)]))
  }

  /** A free register, else the first one that is not frozen, vacated. */
  function ForceFindRegister(globals: set<Name>, st: Store, size: Size): Result<(Emit, Register)> {
    match FirstFree(st.cells, 0)
    case Some(r) => Ok((Emit(GetRegister(st, r, size), []), r))
    case None =>
      (match FirstUnfrozen(st.cells, 0)
       case Some(r) =>
         var e :- EmptyRegister(globals, st, r);
         Ok((Emit(GetRegister(e.st, r, size), e.nodes), r))
       case None => Err(Rejected))
  }

  function TempName(n: nat): Name {
    TEMP_PREFIX + Decimal(n)
  }

  /** The register goes to the next temporary name. */
  function ClaimTemp(st: Store, r: Register, size: Size): Store {
    MapValue(GetRegister(st, r, size), TempName(st.temps), InReg(r)).(temps := st.temps + 1)
  }

  /** Loads a value into a found register: an address for a pointer, else a mov, which
      has the register as its source. */
  function PlaceInRegister(globals: set<Name>, e: Emit, r: Register, v: Value): (p: Result<(Emit, Value)>)
    ensures p.Ok? ==> RegisterOf(p.value.0.st, p.value.1).Some?
  {
    var size :- ValueSize(globals, e.st, v);
    var operand :- ValueOperand(globals, e.st, v);
    var node := if size == Ptr then NLea(OReg(r, Ptr), operand) else NMov(operand, OReg(r, size));
    Ok((Emit(ClaimTemp(e.st, r, size), e.nodes + [node]), Var(size, TempName(e.st.temps))))
  }

  function EnsureInRegister(globals: set<Name>, st: Store, v: Value): (r: Result<(Emit, Value)>)
    ensures r.Ok? ==> RegisterOf(r.value.0.st, r.value.1).Some?
  {
    if RegisterOf(st, v).Some? then Ok((Emit(st, []), v))
    else
      var size :- ValueSize(globals, st, v);
      var found :- ForceFindRegister(globals, st, size);
      PlaceInRegister(globals, found.0, found.1, v)
  }
}
