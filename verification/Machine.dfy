/** Assembly nodes (src/backend/codegen/asmgen) and the machine that runs what they
    print: fifteen 64-bit registers, rsp, rbp, the status flags and a memory of
    eight-byte cells. A node has no meaning (None) where its printed form is not an
    x86-64 instruction, or reads flags or cells that hold nothing. */
module Machine {
  import opened Wrappers
  import opened Ir
  import Conditions

  const HALF: nat := 0x8000_0000_0000_0000
  const WORD: nat := 0x1_0000_0000_0000_0000

  type Word = x: nat | x < WORD

  const REGISTERS: nat := 15

  const RAX: nat := 0
  const RDX: nat := 3
  const RSI: nat := 4
  const RDI: nat := 5

  /** The argument registers of section 3.2.3 of the System V AMD64 ABI that the
      generator knows. */
  const MAX_ARGS: nat := 3

  function ParamRegister(i: nat): (r: nat)
    requires i < MAX_ARGS
  {
    [RDI, RSI, RDX][i]
  }

  /** The first n argument registers. */
  function ArgRegisters(n: nat): set<nat> {
    set i | 0 <= i < n && i < MAX_ARGS :: ParamRegister(i)
  }

  datatype Operand =
    | OReg(reg: nat, size: Size)
    | OImm(val: nat, size: Size)
    | OMem(below: nat, size: Size) // the bytes from rbp - below upwards
    | OGlobal(name: Name)

  datatype Node =
    | NStackSave
    | NMov(dest: Operand, src: Operand)
    | NLea(dest: Operand, address: Operand)
    | NCmov(cond: IcmpType, dest: Operand, src: Operand)
    | NCmp(lhs: Operand, rhs: Operand)
    | NArith(arith: ArithType, dest: Operand, src: Operand)
    | NJmp(target: Name)
    | NCondJmp(cond: IcmpType, target: Name)
    | NCall(callee: Name)
    | NRet

  datatype Label = Label(name: Name, nodes: seq<Node>)

  /** Symbols are the addresses that linking gives to global strings. */
  datatype State = State(regs: seq<Word>, rsp: Word, rbp: Word, flags: Option<Conditions.Flags>, mem: map<int, Word>,
                         symbols: map<Name, Word>)
  {
    ghost predicate Valid() {
      |regs| == REGISTERS
    }
  }

  // Memory

  /** Writing a cell destroys every cell that overlaps it. */
  function Write(mem: map<int, Word>, a: int, w: Word): map<int, Word> {
    (map k | k in mem && (k + 8 <= a || a + 8 <= k) :: mem[k])[a := w]
  }

  /** Cell a is untouched between two memories. */
  ghost predicate SameCell(m0: map<int, Word>, m1: map<int, Word>, a: int) {
    (a in m0 <==> a in m1) && (a in m0 ==> m0[a] == m1[a])
  }

  lemma WriteApart(mem: map<int, Word>, a: int, w: Word, k: int)
    requires k + 8 <= a || a + 8 <= k
    ensures SameCell(mem, Write(mem, a, w), k)
  {
  }

  // Operands and single instructions

  predicate EightBytes(size: Size) {
    size == I64 || size == Ptr
  }

  /** Immediates an instruction can carry without sign extension. */
  const IMM_LIMIT: nat := 0x8000_0000

  function Read(m: State, o: Operand): Option<Word>
    requires m.Valid()
  {
    match o
    case OReg(r, s) => if r < REGISTERS && EightBytes(s) then Some(m.regs[r]) else None
    case OImm(v, s) => if v < IMM_LIMIT && EightBytes(s) then Some(v) else None
    case OMem(k, s) => if EightBytes(s) && m.rbp - k in m.mem then Some(m.mem[m.rbp - k]) else None
    case OGlobal(x) => if x in m.symbols then Some(m.symbols[x]) else None
  }

  function Assign(m: State, o: Operand, w: Word): (r: Option<State>)
    requires m.Valid()
    ensures r.Some? ==> r.value.Valid() && r.value.symbols == m.symbols
  {
    match o
    case OReg(r, s) => if r < REGISTERS && EightBytes(s) then Some(m.(regs := m.regs[r := w])) else None
    case OMem(k, s) => if EightBytes(s) then Some(m.(mem := Write(m.mem, m.rbp - k, w))) else None
    case _ => None
  }

  /** Operand equality as the mov constructor tests it: sizes do not count. */
  predicate SameOperand(a: Operand, b: Operand) {
    match a
    case OReg(r, _) => b.OReg? && b.reg == r
    case OImm(v, _) => b.OImm? && b.val == v
    case OMem(k, _) => b.OMem? && b.below == k
    case OGlobal(_) => b.OGlobal?
  }

  function Arithmetic(t: ArithType, a: Word, b: Word): Option<Word> {
    match t
    case Add => Some((a + b) % WORD)
    case Sub => Some((a + WORD - b) % WORD)
    case Mul => Some((a * b) % WORD)
    case _ => None
  }

  /** The width of words, and of the comparisons on them. */
  lemma WordsHave64Bits()
    ensures WORD == Conditions.Pow2(64) && HALF == Conditions.Pow2(63)
  {
    hide Conditions.Pow2;
    Sixteen();
    Doubled(4, 4);
    Doubled(8, 8);
    Doubled(16, 16);
    Doubled(32, 32);
    Doubled(63, 1);
  }

  lemma Sixteen()
    ensures Conditions.Pow2(4) == 16 && Conditions.Pow2(1) == 2
  {
  }

  lemma {:induction false} Doubled(n: nat, k: nat)
    ensures Conditions.Pow2(n + k) == Conditions.Pow2(n) * Conditions.Pow2(k)
  {
    if k > 0 {
      Doubled(n, k - 1);
    }
  }

  /** Arithmetic is exact up to a multiple of 2^64, whatever integers that differ from the words
      by such multiples the words stand for, signed or not. */
  lemma ArithmeticIsModular(t: ArithType, a: Word, b: Word, i: int, j: int) returns (q: int)
    requires t == Add || t == Sub || t == Mul
    ensures Arithmetic(t, a, b).Some?
    ensures var n, k := a + i * WORD, b + j * WORD;
            (match t case Add => n + k case Sub => n - k case _ => n * k) == Arithmetic(t, a, b).value + q * WORD
  {
    match t {
      case Add => q := (a + b) / WORD + i + j;
      case Sub => q := (a + WORD - b) / WORD - 1 + i - j;
      case Mul =>
        q := a * b / WORD + (a * j + i * b + i * j * WORD);
        Distributes(a, b, i, j);
    }
  }

  lemma Distributes(a: int, b: int, i: int, j: int)
    ensures (a + i * WORD) * (b + j * WORD) == a * b + (a * j + i * b + i * j * WORD) * WORD
  {
    assert (a + i * WORD) * (b + j * WORD) == a * b + a * (j * WORD) + (i * WORD) * b + (i * WORD) * (j * WORD);
    assert a * (j * WORD) == a * j * WORD && (i * WORD) * b == i * b * WORD;
    assert (i * WORD) * (j * WORD) == i * j * WORD * WORD;
  }

  /** Flags after xor of a register with itself. */
  const XOR_FLAGS := Conditions.Flags(true, false, false, false)

  /** One printed instruction that neither jumps nor touches rsp. A mov between equal
      operands is not printed, a mov from 0 is printed as xor, and arithmetic leaves
      flags no generated code may read. Only a mov to a register can carry the address of
      a symbol, which has 64 bits. */
  function Step(node: Node, m: State): (r: Option<State>)
    requires m.Valid()
    ensures r.Some? ==> r.value.Valid() && r.value.rsp == m.rsp && r.value.rbp == m.rbp && r.value.symbols == m.symbols
  {
    match node
    case NMov(d, s) =>
      if SameOperand(s, d) then Some(m)
      else if s.OImm? && s.val == 0 then
        if d.OReg? && d.reg < REGISTERS && EightBytes(d.size)
        then Some(m.(regs := m.regs[d.reg := 0], flags := Some(XOR_FLAGS))) else None
      else if d.OMem? && (s.OMem? || s.OGlobal?) then None
      else
        (match Read(m, s)
         case Some(w) => Assign(m, d, w)
         case None => None)
    case NLea(d, a) =>
      if d.OReg? && d.reg < REGISTERS && a.OMem? then Some(m.(regs := m.regs[d.reg := (m.rbp - a.below) % WORD]))
      else None
    case NCmp(a, b) =>
      if a.OImm? || a.OGlobal? || b.OGlobal? || (a.OMem? && b.OMem?) then None
      else
        (match (Read(m, a), Read(m, b))
         case (Some(x), Some(y)) => Some(m.(flags := Some(Conditions.CmpFlags(HALF, x, y))))
         case _ => None)
    case NCmov(t, d, s) =>
      if !d.OReg? || s.OImm? || s.OGlobal? || m.flags.None? then None
      else
        (match (Read(m, s), Read(m, d))
         case (Some(w), Some(_)) => if Conditions.Holds(Conditions.CondInst(t), m.flags.value) then Assign(m, d, w)
           else Some(m)
         case _ => None)
    case NArith(t, d, s) =>
      if !d.OReg? || s.OGlobal? then None
      else
        (match (Read(m, d), Read(m, s))
         case (Some(x), Some(y)) =>
           (match Arithmetic(t, x, y)
            case Some(w) => Assign(m.(flags := None), d, w)
            case None => None)
         case _ => None)
    case _ => None
  }

  function Steps(nodes: seq<Node>, m: State): (r: Option<State>)
    requires m.Valid()
    ensures r.Some? ==> r.value.Valid() && r.value.rsp == m.rsp && r.value.rbp == m.rbp && r.value.symbols == m.symbols
  {
    if nodes == [] then Some(m)
    else
      match Step(nodes[0], m)
      case Some(m1) => Steps(nodes[1..], m1)
      case None => None
  }

  lemma {:induction false} StepsAppend(a: seq<Node>, b: seq<Node>, m: State)
    requires m.Valid()
    requires Steps(a, m).Some?
    ensures Steps(a + b, m) == Steps(b, Steps(a, m).value)
  {
    if a == [] {
      assert a + b == b;
    } else {
      assert (a + b)[1..] == a[1..] + b;
      StepsAppend(a[1..], b, Step(a[0], m).value);
    }
  }

  // Frames

  function Push(m: State, w: Word): (r: Option<State>)
    requires m.Valid()
    ensures r.Some? ==> r.value.Valid() && r.value.symbols == m.symbols
  {
    if m.rsp < 8 then None
    else Some(m.(rsp := m.rsp - 8, mem := Write(m.mem, m.rsp - 8, w)))
  }

  function Pop(m: State): (r: Option<(Word, State)>)
    requires m.Valid()
    ensures r.Some? ==> r.value.1.Valid() && r.value.1.symbols == m.symbols
  {
    if m.rsp in m.mem && m.rsp + 8 < WORD then Some((m.mem[m.rsp], m.(rsp := m.rsp + 8))) else None
  }

  function PushRegs(saved: seq<nat>, m: State): (r: Option<State>)
    requires m.Valid()
    ensures r.Some? ==> r.value.Valid() && r.value.symbols == m.symbols
  {
    if saved == [] then Some(m)
    else if saved[0] >= REGISTERS then None
    else
      match Push(m, m.regs[saved[0]])
      case Some(m1) => PushRegs(saved[1..], m1)
      case None => None
  }

  /** Pops in the opposite order. */
  function PopRegs(saved: seq<nat>, m: State): (r: Option<State>)
    requires m.Valid()
    ensures r.Some? ==> r.value.Valid() && r.value.symbols == m.symbols
  {
    if saved == [] then Some(m)
    else
      var last := |saved| - 1;
      if saved[last] >= REGISTERS then None
      else
        match Pop(m)
        case Some((w, m1)) => PopRegs(saved[..last], m1.(regs := m1.regs[saved[last] := w]))
        case None => None
  }

  /** What stack_save prints once the frame size and the saved set are final. */
  function Prologue(frame: nat, saved: seq<nat>, m: State): (r: Option<State>)
    requires m.Valid()
    ensures r.Some? ==> r.value.Valid() && r.value.symbols == m.symbols
  {
    if frame == 0 then PushRegs(saved, m)
    else
      match Push(m, m.rbp)
      case Some(m1) =>
        if m1.rsp < frame then None
        else PushRegs(saved, m1.(rbp := m1.rsp, rsp := m1.rsp - frame, flags := None))
      case None => None
  }

  /** What ret prints: the popped return address and the state after it. */
  function Epilogue(frame: nat, saved: seq<nat>, m: State): (r: Option<(Word, State)>)
    requires m.Valid()
    ensures r.Some? ==> r.value.1.Valid() && r.value.1.symbols == m.symbols
  {
    match PopRegs(saved, m)
    case Some(m1) =>
      if frame == 0 then Pop(m1)
      else
        (match Pop(m1.(rsp := m1.rbp))
         case Some((w, m2)) => Pop(m2.(rbp := w))
         case None => None)
    case None => None
  }

  // Whole functions

  datatype AsmFunction = AsmFunction(blocks: seq<Label>, frame: nat, saved: seq<nat>)

  type AsmProgram = map<Name, AsmFunction>

  function FindLabel(blocks: seq<Label>, name: Name): (r: Option<nat>)
    ensures r.Some? ==> r.value < |blocks| && blocks[r.value].name == name
  {
    if blocks == [] then None
    else if blocks[0].name == name then Some(0)
    else
      match FindLabel(blocks[1..], name)
      case Some(i) => Some(i + 1)
      case None => None
  }

  /** The address a call pushes: a number of its position in the code. */
  function ReturnAddress(b: nat, left: nat): Word {
    (b + left) % WORD
  }

  /** Runs the remaining nodes of block b, then the blocks after it, up to the ret that
      leaves the function. The result is the address returned to and the state there.
      Every taken jump and every call costs one unit of fuel. */
  function Run(p: AsmProgram, f: AsmFunction, nodes: seq<Node>, b: nat, m: State, fuel: nat): (r: Option<(Word, State)>)
    requires m.Valid() && b < |f.blocks|
    ensures r.Some? ==> r.value.1.Valid() && r.value.1.symbols == m.symbols
    decreases fuel, |f.blocks| - b, |nodes|
  {
    if nodes == [] then
      if b + 1 < |f.blocks| then Run(p, f, f.blocks[b + 1].nodes, b + 1, m, fuel) else None
    else
      match nodes[0]
      case NStackSave =>
        (match Prologue(f.frame, f.saved, m)
         case Some(m1) => Run(p, f, nodes[1..], b, m1, fuel)
         case None => None)
      case NRet => Epilogue(f.frame, f.saved, m)
      case NJmp(l) => Goto(p, f, l, m, fuel)
      case NCondJmp(t, l) =>
        if m.flags.None? then None
        else if Conditions.Holds(Conditions.CondInst(t), m.flags.value) then Goto(p, f, l, m, fuel)
        else Run(p, f, nodes[1..], b, m, fuel)
      case NCall(g) =>
        (match Invoke(p, g, ReturnAddress(b, |nodes|), m, fuel)
         case Some(m1) => Run(p, f, nodes[1..], b, m1, fuel)
         case None => None)
      case _ =>
        (match Step(nodes[0], m)
         case Some(m1) => Run(p, f, nodes[1..], b, m1, fuel)
         case None => None)
  }

  function Goto(p: AsmProgram, f: AsmFunction, l: Name, m: State, fuel: nat): (r: Option<(Word, State)>)
    requires m.Valid()
    ensures r.Some? ==> r.value.1.Valid() && r.value.1.symbols == m.symbols
    decreases fuel, 0
  {
    if fuel == 0 then None
    else
      match FindLabel(f.blocks, l)
      case Some(t) => Run(p, f, f.blocks[t].nodes, t, m, fuel - 1)
      case None => None
  }

  /** A call: control must come back to the pushed address. */
  function Invoke(p: AsmProgram, g: Name, site: Word, m: State, fuel: nat): (r: Option<State>)
    requires m.Valid()
    ensures r.Some? ==> r.value.Valid() && r.value.symbols == m.symbols
    decreases fuel, 0
  {
    if fuel == 0 || g !in p || p[g].blocks == [] then None
    else
      match Push(m, site)
      case Some(m1) =>
        (match Run(p, p[g], p[g].blocks[0].nodes, 0, m1, fuel - 1)
         case Some((back, m2)) => if back == site then Some(m2) else None
         case None => None)
      case None => None
  }
}
