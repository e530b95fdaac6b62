/** The intermediate representation (src/ir/nodes.hpp). */
module Ir {
  import opened Wrappers

  type Name = string

  datatype Size = I1 | I8 | I16 | I32 | I64 | Ptr | NoSize | ParamDependent

  /** Bytes of a size; None where the source throws. */
  function SizeInBytes(size: Size): Option<nat> {
    match size
    case I1 => Some(1)
    case I8 => Some(1)
    case I16 => Some(2)
    case I32 => Some(4)
    case I64 => Some(8)
    case Ptr => Some(8)
    case _ => None
  }

  datatype IcmpType = Eq | Neq | Slt | Sgt | Sle | Sge | Ult | Ugt | Ule | Uge

  datatype ArithType = Add | Sub | Mul | Div | Mod

  datatype Value = Lit(size: Size, value: nat) | Var(size: Size, name: Name)

  datatype Op =
    | Literal(lsize: Size, value: nat)
    | Allocate(bytes: nat)
    | Store(ssize: Size)
    | Load(size: Size)
    | Icmp(cmp: IcmpType)
    | Branch(onTrue: Name, onFalse: Name)
    | Jmp(target: Name)
    | Arith(arith: ArithType)
    | Ret
    | Call(callee: Name, retSize: Size)
    | Phi(incoming: seq<Name>)
    | Select
    | Zext(zsize: Size)
    | Sext(xsize: Size)
    | GetArrayPtr(element: Size)

  /** A block instruction. The field dropped is the metadata the lifetime analysis
      attaches: one flag an operand, empty until the analysis has run. */
  datatype Inst = Inst(op: Op, operands: seq<Value>, result: Option<Name>, labels: seq<Name>, dropped: seq<bool>)

  datatype Block = Block(name: Name, insts: seq<Inst>)

  datatype Function = Function(name: Name, params: seq<(Name, Size)>, blocks: seq<Block>, returnType: Size)

  datatype GlobalString = GlobalString(name: Name, value: string)

  datatype Prototype = Prototype(name: Name, params: seq<(Name, Size)>, returnType: Size)

  datatype Root = Root(globals: seq<GlobalString>, externs: seq<Prototype>, functions: seq<Function>)

  /** Call, arithmetic and select release dropped operands after lowering, all
      other instructions before. */
  predicate AutoDrop(op: Op) {
    !(op.Call? || op.Arith? || op.Select?)
  }

  /** The labels an instruction can transfer control to. */
  function Targets(op: Op): seq<Name> {
    match op
    case Branch(t, f) => [t, f]
    case Jmp(l) => [l]
    case _ => []
  }

  predicate IsTerminator(op: Op) {
    op.Branch? || op.Jmp? || op.Ret?
  }

  function VarNames(vs: seq<Value>): set<Name> {
    set v | v in vs && v.Var? :: v.name
  }

  /** Names an instruction reads. */
  function Uses(inst: Inst): set<Name> {
    VarNames(inst.operands)
  }

  /** Names an instruction mentions, as operand or as result. */
  function Mentions(inst: Inst): set<Name> {
    Uses(inst) + (if inst.result.Some? then {inst.result.value} else {})
  }

  function InstsMention(insts: seq<Inst>): set<Name> {
    if insts == [] then {} else Mentions(insts[0]) + InstsMention(insts[1..])
  }

  function BlocksMention(blocks: seq<Block>): set<Name> {
    if blocks == [] then {} else InstsMention(blocks[0].insts) + BlocksMention(blocks[1..])
  }

  /** Position of the first block with a name. */
  function FindBlock(blocks: seq<Block>, name: Name): (r: Option<nat>)
    ensures r.Some? ==> r.value < |blocks| && blocks[r.value].name == name
  {
    if blocks == [] then None
    else if blocks[0].name == name then Some(0)
    else
      match FindBlock(blocks[1..], name)
      case Some(i) => Some(i + 1)
      case None => None
  }
}
