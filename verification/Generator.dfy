/** The code generator as it runs: a function context whose register cells, value map,
    pending drops, frame size and assembly blocks the generation steps change in place
    (src/backend/codegen). Every step is proved against its function on storage values. */
module Generator {
  import opened Wrappers
  import opened Ir
  import opened Machine
  import opened Text
  import opened Storage
  import opened Lowering

  /** Nodes added to the last block, which is the current label. */
  function Appended(blocks: seq<Label>, nodes: seq<Node>): (r: seq<Label>)
    requires blocks != []
    ensures |r| == |blocks|
  {
    var last := |blocks| - 1;
    blocks[..last] + [Label(blocks[last].name, blocks[last].nodes + nodes)]
  }

  lemma AppendedNothing(blocks: seq<Label>)
    requires blocks != []
    ensures Appended(blocks, []) == blocks
  {
    assert blocks[|blocks| - 1].nodes + [] == blocks[|blocks| - 1].nodes;
  }

  lemma AppendedTwice(blocks: seq<Label>, a: seq<Node>, b: seq<Node>)
    requires blocks != []
    ensures Appended(Appended(blocks, a), b) == Appended(blocks, a + b)
  {
    var nodes := blocks[|blocks| - 1].nodes;
    assert (nodes + a) + b == nodes + (a + b);
  }

  /** Nodes in front of what is emitted afterwards. */
  function Prepend(nodes: seq<Node>, r: Result<Emit>): Result<Emit> {
    match r
    case Ok(e) => Ok(Emit(e.st, nodes + e.nodes))
    case Err(_) => r
  }

  class FunctionContext {
    const returnType: Size
    const globals: set<Name>
    const registers: array<Cell>
    const registerIsParam: array<bool>
    var valueMap: map<Name, Loc>
    var pendingDrop: seq<Name>
    var currentStackSize: nat
    var tempCounter: nat
    var asmBlocks: seq<Label>

    ghost predicate Valid()
      reads this, registers
    {
      registers.Length == REGISTERS && registerIsParam.Length == REGISTERS && asmBlocks != []
    }

    function Contents(): Store
      requires registers.Length == REGISTERS
      reads this, registers
    {
      Store.Store(registers[..], valueMap, currentStackSize, tempCounter)
    }

    function Fixed(): Context {
      Context(returnType, globals)
    }

    /** The context changed as a value-level step did, and emitted its nodes. */
    twostate predicate Did(e: Emit)
      requires old(Valid())
      reads this, registers
    {
      Valid() && Contents() == e.st && asmBlocks == Appended(old(asmBlocks), e.nodes) && pendingDrop == old(pendingDrop)
    }

    constructor (returnType: Size, globals: set<Name>)
      ensures Valid() && fresh(registers) && fresh(registerIsParam)
      ensures forall r: Register :: !registerIsParam[r]
      ensures this.returnType == returnType && this.globals == globals
      ensures Contents() == FRESH && pendingDrop == [] && asmBlocks == [Label(STACKSAVE, [])]
    {
      this.returnType := returnType;
      this.globals := globals;
      registers := new Cell[REGISTERS](_ => EMPTY_CELL);
      registerIsParam := new bool[REGISTERS](_ => false);
      valueMap := map[];
      pendingDrop := [];
      currentStackSize := 0;
      tempCounter := 0;
      asmBlocks := [Label(STACKSAVE, [])];
    }

    method AddAsmNode(node: Node)
      requires Valid()
      modifies this`asmBlocks
      ensures asmBlocks == Appended(old(asmBlocks), [node])
    {
      var last := |asmBlocks| - 1;
      asmBlocks := asmBlocks[last := Label(asmBlocks[last].name, asmBlocks[last].nodes + [node])];
    }

    // Function storage

    /** A register reference is tampered, and grabbed at a size. */
    method GetRegister(r: Register, size: Size)
      requires Valid()
      modifies registers
      ensures Contents() == Storage.GetRegister(old(Contents()), r, size)
    {
      registers[r] := Grab(registers[r], size);
    }

    method MapValue(x: Name, loc: Loc)
      requires Valid()
      modifies this`valueMap, registers
      ensures Contents() == Storage.MapValue(old(Contents()), x, loc)
    {
      valueMap := valueMap[x := loc];
      if loc.InReg? {
        registers[loc.reg] := Grab(registers[loc.reg], registers[loc.reg].size).(owner := x);
      }
    }

    method DropOwnership(x: Name)
      requires Valid()
      modifies registers
      ensures Contents() == Storage.DropOwnership(old(Contents()), x)
    {
      if x in valueMap && valueMap[x].InReg? {
        var r := valueMap[x].reg;
        registers[r] := Unclaim(registers[r]);
      }
    }

    method EraseValue(x: Name)
      requires Valid()
      modifies this`valueMap, registers
      ensures Contents() == Storage.EraseValue(old(Contents()), x)
    {
      var known := x in valueMap;
      var loc := if known then valueMap[x] else Global(x);
      valueMap := valueMap - {x};
      if known && loc.InReg? {
        registers[loc.reg] := Unclaim(registers[loc.reg]);
      }
    }

    method RemapValue(x: Name, loc: Loc)
      requires Valid()
      modifies this`valueMap, registers
      ensures Contents() == Storage.RemapValue(old(Contents()), x, loc)
    {
      if x in valueMap {
        DropOwnership(x);
        EraseValue(x);
      }
      MapValue(x, loc);
    }

    method DropReassignable()
      requires Valid()
      modifies registers
      ensures Contents() == DropAll(old(Contents()), pendingDrop)
    {
      hide Storage.DropOwnership;
      for i := 0 to |pendingDrop|
        invariant valueMap == old(valueMap)
        invariant DropAll(old(Contents()), pendingDrop) == DropAll(Contents(), pendingDrop[i..])
      {
        assert pendingDrop[i..][0] == pendingDrop[i] && pendingDrop[i..][1..] == pendingDrop[i + 1..];
        DropOwnership(pendingDrop[i]);
      }
    }

    method EraseReassignable()
      requires Valid()
      modifies this`valueMap, this`pendingDrop, registers
      ensures Contents() == EraseAll(old(Contents()), old(pendingDrop)) && pendingDrop == []
    {
      hide Storage.EraseValue;
      for i := 0 to |pendingDrop|
        invariant pendingDrop == old(pendingDrop)
        invariant EraseAll(old(Contents()), pendingDrop) == EraseAll(Contents(), pendingDrop[i..])
      {
        assert pendingDrop[i..][0] == pendingDrop[i] && pendingDrop[i..][1..] == pendingDrop[i + 1..];
        EraseValue(pendingDrop[i]);
      }
      pendingDrop := [];
    }

    method ClaimTempRegister(r: Register, size: Size) returns (name: Name)
      requires Valid()
      modifies this`valueMap, this`tempCounter, registers
      ensures Contents() == ClaimTemp(old(Contents()), r, size) && name == TempName(old(tempCounter))
    {
      name := TempName(tempCounter);
      tempCounter := tempCounter + 1;
      GetRegister(r, size);
      MapValue(name, InReg(r));
    }

    /** The clean-up at the end of an instruction. */
    method CleanRegisters()
      requires Valid()
      modifies registers
      ensures Contents() == CleanTemps(old(Contents()))
    {
      for r := 0 to REGISTERS
        invariant forall i | 0 <= i < r :: registers[i] == CleanCell(old(registers[i]))
        invariant forall i | r <= i < REGISTERS :: registers[i] == old(registers[i])
      {
        if StartsWith(registers[r].owner, TEMP_PREFIX) {
          registers[r] := Unclaim(registers[r]);
        }
        registers[r] := registers[r].(frozen := false);
      }
      assert registers[..] == CleanTemps(old(Contents())).cells;
    }

    // Finding storage

    /** The first register that is not in use. */
    method FindRegister(size: Size) returns (found: Option<Register>)
      requires Valid()
      modifies registers
      ensures found == FirstFree(old(Contents()).cells, 0)
      ensures Contents() == if found.Some? then Storage.GetRegister(old(Contents()), found.value, size)
              else old(Contents())
    {
      for r := 0 to REGISTERS
        invariant Contents() == old(Contents())
        invariant FirstFree(Contents().cells, 0) == FirstFree(Contents().cells, r)
      {
        if registers[r].owner == "" {
          GetRegister(r, size);
          return Some(r);
        }
      }
      return None;
    }

    method StackAllocate(bytes: nat) returns (loc: Loc)
      requires Valid()
      modifies this`currentStackSize
      ensures (Contents(), loc) == Storage.StackAllocate(old(Contents()), bytes)
    {
      currentStackSize := currentStackSize + bytes;
      loc := Slot(currentStackSize);
    }

    method FindValStorage(size: Size) returns (r: Result<Loc>)
      requires Valid()
      modifies this`currentStackSize, registers
      ensures var spec := Storage.FindValStorage(old(Contents()), size);
              r.Ok? == spec.Ok? && (r.Ok? ==> (Contents(), r.value) == spec.value)
    {
      var found := FindRegister(size);
      if found.Some? {
        return Ok(InReg(found.value));
      }
      var bytes := SizeInBytes(size);
      if bytes.None? {
        return Err(Rejected);
      }
      var loc := StackAllocate(bytes.value);
      return Ok(loc);
    }

    /** Moves the owner of a register elsewhere. */
    method EmptyRegister(r: Register) returns (ok: bool)
      requires Valid()
      modifies this, registers
      ensures ok == Storage.EmptyRegister(globals, old(Contents()), r).Ok?
      ensures ok ==> Did(Storage.EmptyRegister(globals, old(Contents()), r).value)
    {
      hide Storage.FindValStorage, Storage.RemapValue, Appended;
      AppendedNothing(asmBlocks);
      var x := registers[r].owner;
      if x == "" {
        return true;
      }
      var origin := Lookup(globals, Contents(), x);
      if origin.Err? {
        return false;
      }
      var home := FindValStorage(SizeOf(Contents(), origin.value));
      if home.Err? {
        return false;
      }
      var dest := OperandAt(home.value, SizeOf(Contents(), home.value));
      var src := OperandAt(origin.value, SizeOf(Contents(), origin.value));
      if dest.Err? || src.Err? {
        return false;
      }
      AddAsmNode(NMov(dest.value, src.value));
      RemapValue(x, home.value);
      return true;
    }

    method CopyToRegister(v: Value, r: Register) returns (ok: bool)
      requires Valid()
      modifies this, registers
      ensures ok == Storage.CopyToRegister(globals, old(Contents()), v, r).Ok?
      ensures ok ==> Did(Storage.CopyToRegister(globals, old(Contents()), v, r).value)
    {
      hide Storage.EmptyRegister, Appended;
      ghost var blocks := asmBlocks;
      ok := EmptyRegister(r);
      if !ok {
        return;
      }
      var src := ValueOperand(globals, Contents(), v);
      if src.Err? {
        return false;
      }
      AppendedTwice(blocks, Storage.EmptyRegister(globals, old(Contents()), r).value.nodes,
                    [NMov(OReg(r, v.size), src.value)]);
      AddAsmNode(NMov(OReg(r, v.size), src.value));
    }

    method ForceFindRegister(size: Size) returns (found: Result<Register>)
      requires Valid()
      modifies this, registers
      ensures var spec := Storage.ForceFindRegister(globals, old(Contents()), size);
              found.Ok? == spec.Ok? && (found.Ok? ==> found.value == spec.value.1 && Did(spec.value.0))
    {
      hide Storage.EmptyRegister, Storage.GetRegister, Appended;
      AppendedNothing(asmBlocks);
      var free := FindRegister(size);
      if free.Some? {
        return Ok(free.value);
      }
      for r := 0 to REGISTERS
        invariant Contents() == old(Contents()) && asmBlocks == old(asmBlocks) && pendingDrop == old(pendingDrop)
        invariant FirstUnfrozen(Contents().cells, 0) == FirstUnfrozen(Contents().cells, r)
      {
        if !registers[r].frozen {
          var ok := EmptyRegister(r);
          if !ok {
            return Err(Rejected);
          }
          GetRegister(r, size);
          return Ok(r);
        }
      }
      return Err(Rejected);
    }

    method EnsureInRegister(v: Value) returns (r: Result<Value>)
      requires Valid()
      modifies this, registers
      ensures var spec := Storage.EnsureInRegister(globals, old(Contents()), v);
              r.Ok? == spec.Ok? && (r.Ok? ==> r.value == spec.value.1 && Did(spec.value.0))
    {
      hide Storage.ForceFindRegister, ClaimTemp, Appended;
      AppendedNothing(asmBlocks);
      if RegisterOf(Contents(), v).Some? {
        return Ok(v);
      }
      ghost var blocks := asmBlocks;
      var size := ValueSize(globals, Contents(), v);
      if size.Err? {
        return Err(Rejected);
      }
      var reg := ForceFindRegister(size.value);
      if reg.Err? {
        return Err(Rejected);
      }
      size := ValueSize(globals, Contents(), v);
      if size.Err? {
        return Err(Rejected);
      }
      var operand := ValueOperand(globals, Contents(), v);
      if operand.Err? {
        return Err(Rejected);
      }
      var node := if size.value == Ptr then NLea(OReg(reg.value, Ptr), operand.value)
        else NMov(operand.value, OReg(reg.value, size.value));
      AppendedTwice(blocks, Storage.ForceFindRegister(globals, old(Contents()),
                                                      ValueSize(globals, old(Contents()), v).value).value.0.nodes,
                    [node]);
      AddAsmNode(node);
      var name := ClaimTempRegister(reg.value, size.value);
      return Ok(Var(size.value, name));
    }

    // Instructions

    /** The context changed as lowering an instruction did, and emitted its nodes. */
    twostate predicate DidLower(low: Lowered)
      requires old(Valid())
      reads this, registers
    {
      Did(Emit(low.st, low.nodes))
    }

    /** The outcome is that of a value-level lowering, and so is the context. */
    twostate predicate Refines(new r: Result<Option<Loc>>, spec: Result<Lowered>)
      requires old(Valid())
      reads this, registers
    {
      r.Ok? == spec.Ok? && (r.Ok? ==> r.value == spec.value.dest && DidLower(spec.value))
    }

    method GenLiteral(size: Size, value: nat, operands: seq<Value>) returns (r: Result<Option<Loc>>)
      requires Valid()
      ensures Refines(r, if operands == [] then Ok(Lowered(old(Contents()), [], Some(Alias(size, value))))
                      else Err(Rejected))
    {
      AppendedNothing(asmBlocks);
      if operands != [] {
        return Err(Rejected);
      }
      return Ok(Some(Alias(size, value)));
    }

    method GenAllocate(bytes: nat, operands: seq<Value>) returns (r: Result<Option<Loc>>)
      requires Valid()
      modifies this`currentStackSize
      ensures Refines(r, if operands == [] then
                      Ok(Lowered(Storage.StackAllocate(old(Contents()), bytes).0, [],
                                 Some(Storage.StackAllocate(old(Contents()), bytes).1))) else Err(Rejected))
    {
      AppendedNothing(asmBlocks);
      if operands != [] {
        return Err(Rejected);
      }
      var loc := StackAllocate(bytes);
      return Ok(Some(loc));
    }

    method GenStore(size: Size, operands: seq<Value>) returns (r: Result<Option<Loc>>)
      requires Valid()
      modifies this`asmBlocks
      ensures Refines(r, LowerStore(Fixed(), old(Contents()), size, operands))
    {
      if |operands| != 2 {
        return Err(Rejected);
      }
      var dest := SizedOperand(globals, Contents(), operands[0], size);
      var src := ValueOperand(globals, Contents(), operands[1]);
      if dest.Err? || src.Err? {
        return Err(Rejected);
      }
      AddAsmNode(NMov(dest.value, src.value));
      return Ok(None);
    }

    method GenLoad(size: Size, operands: seq<Value>) returns (r: Result<Option<Loc>>)
      requires Valid()
      modifies this`asmBlocks, this`currentStackSize, registers
      ensures Refines(r, LowerLoad(Fixed(), old(Contents()), size, operands))
    {
      hide Storage.FindValStorage;
      if |operands| != 1 {
        return Err(Rejected);
      }
      var found := FindValStorage(size);
      if found.Err? {
        return Err(Rejected);
      }
      var access := ValueOperand(globals, Contents(), operands[0]);
      var dest := OperandAt(found.value, size);
      if access.Err? || dest.Err? {
        return Err(Rejected);
      }
      AddAsmNode(NMov(dest.value, Resize(access.value, size)));
      return Ok(Some(found.value));
    }

    method GenIcmp(t: IcmpType, operands: seq<Value>) returns (r: Result<Option<Loc>>)
      requires Valid()
      modifies this`asmBlocks
      ensures Refines(r, LowerIcmp(Fixed(), old(Contents()), t, operands))
    {
      if |operands| != 2 {
        return Err(Rejected);
      }
      var lhs := ValueOperand(globals, Contents(), operands[0]);
      var rhs := ValueOperand(globals, Contents(), operands[1]);
      if lhs.Err? || rhs.Err? {
        return Err(Rejected);
      }
      AddAsmNode(NCmp(lhs.value, rhs.value));
      return Ok(Some(Flag(t)));
    }

    method GenBranch(onTrue: Name, onFalse: Name, operands: seq<Value>) returns (r: Result<Option<Loc>>)
      requires Valid()
      modifies this`asmBlocks
      ensures Refines(r, LowerBranch(Fixed(), old(Contents()), onTrue, onFalse, operands))
    {
      if |operands| != 1 {
        return Err(Rejected);
      }
      var cond := ConditionOf(Fixed(), Contents(), operands[0]);
      if cond.Err? {
        return Err(Rejected);
      }
      AppendedTwice(asmBlocks, [NCondJmp(cond.value, onTrue)], [NJmp(onFalse)]);
      assert [NCondJmp(cond.value, onTrue)] + [NJmp(onFalse)] == [NCondJmp(cond.value, onTrue), NJmp(onFalse)];
      AddAsmNode(NCondJmp(cond.value, onTrue));
      AddAsmNode(NJmp(onFalse));
      return Ok(None);
    }

    method GenJmp(target: Name, operands: seq<Value>) returns (r: Result<Option<Loc>>)
      requires Valid()
      modifies this`asmBlocks
      ensures Refines(r, if operands == [] then Ok(Lowered(old(Contents()), [NJmp(target)], None)) else Err(Rejected))
    {
      if operands != [] {
        return Err(Rejected);
      }
      AddAsmNode(NJmp(target));
      return Ok(None);
    }

    method GenRet(operands: seq<Value>) returns (r: Result<Option<Loc>>)
      requires Valid()
      modifies this`asmBlocks
      ensures Refines(r, LowerRet(Fixed(), old(Contents()), operands))
    {
      if |operands| > 1 {
        return Err(Rejected);
      }
      if operands != [] {
        var size := ValueSize(globals, Contents(), operands[0]);
        if size.Err? || size.value != returnType {
          return Err(Rejected);
        }
        var src := ValueOperand(globals, Contents(), operands[0]);
        if src.Err? {
          return Err(Rejected);
        }
        AppendedTwice(asmBlocks, [NMov(OReg(RAX, size.value), src.value)], [NRet]);
        assert [NMov(OReg(RAX, size.value), src.value)] + [NRet] == [NMov(OReg(RAX, size.value), src.value), NRet];
        AddAsmNode(NMov(OReg(RAX, size.value), src.value));
      } else if returnType != NoSize {
        return Err(Rejected);
      }
      AddAsmNode(NRet);
      return Ok(None);
    }

    method GenArithmetic(t: ArithType, operands: seq<Value>) returns (r: Result<Option<Loc>>)
      requires Valid()
      modifies this, registers
      ensures Refines(r, LowerArith(Fixed(), old(Contents()), t, operands))
    {
      hide Storage.EnsureInRegister, Appended;
      AppendedNothing(asmBlocks);
      ghost var blocks := asmBlocks;
      if |operands| != 2 {
        return Err(Rejected);
      }
      var dom, sub := operands[0], operands[1];
      ghost var nodes: seq<Node> := [];
      if RegisterOf(Contents(), dom).None? {
        var e := EnsureInRegister(operands[1]);
        if e.Err? {
          return Err(Rejected);
        }
        dom, sub := e.value, operands[0];
        nodes := Storage.EnsureInRegister(globals, old(Contents()), operands[1]).value.0.nodes;
      }
      var dest := ValueOperand(globals, Contents(), dom);
      var src := ValueOperand(globals, Contents(), sub);
      if dest.Err? || src.Err? {
        return Err(Rejected);
      }
      AppendedTwice(blocks, nodes, [NArith(t, dest.value, src.value)]);
      AddAsmNode(NArith(t, dest.value, src.value));
      return Ok(Some(valueMap[dom.name]));
    }

    /** Set-up of one argument. */
    method GenArgument(v: Value, dropped: bool, r: Register) returns (ok: bool)
      requires Valid()
      modifies this, registers
      ensures ok == LowerArg(Fixed(), old(Contents()), v, dropped, r).Ok?
      ensures ok ==> Did(LowerArg(Fixed(), old(Contents()), v, dropped, r).value)
    {
      hide Storage.EmptyRegister, Storage.CopyToRegister, Appended;
      ghost var blocks := asmBlocks;
      var here := RegisterOf(Contents(), v);
      if v.size == Ptr && v.Lit? {
        return false;
      }
      if v.size == Ptr && v.name in valueMap && valueMap[v.name].Slot? {
        var node := NLea(OReg(r, Ptr), OMem(valueMap[v.name].below, Ptr));
        ok := EmptyRegister(r);
        if ok {
          AppendedTwice(blocks, Storage.EmptyRegister(globals, old(Contents()), r).value.nodes, [node]);
          AddAsmNode(node);
        }
      } else if !dropped && here == Some(r) {
        ok := EmptyRegister(r);
      } else {
        ok := CopyToRegister(v, r);
      }
    }

    method GenCall(callee: Name, size: Size, operands: seq<Value>, dropped: seq<bool>) returns (r: Result<Option<Loc>>)
      requires Valid()
      modifies this, registers
      ensures Refines(r, LowerCall(Fixed(), old(Contents()), callee, size, operands, dropped))
    {
      hide LowerArg, Storage.EmptyRegister, Appended;
      AppendedNothing(asmBlocks);
      ghost var blocks := asmBlocks;
      ghost var start := Contents();
      ghost var done: seq<Node> := [];
      PrependNothing(LowerArgs(Fixed(), start, operands, dropped, 0));
      for i := 0 to |operands|
        invariant Valid() && pendingDrop == old(pendingDrop) && asmBlocks == Appended(blocks, done)
        invariant LowerArgs(Fixed(), start, operands, dropped, 0) ==
                  Prepend(done, LowerArgs(Fixed(), Contents(), operands, dropped, i))
      {
        if i >= MAX_ARGS || i >= |dropped| {
          return Err(Rejected);
        }
        ghost var before := Contents();
        var ok := GenArgument(operands[i], dropped[i], ParamRegister(i));
        if !ok {
          return Err(Rejected);
        }
        ghost var e := LowerArg(Fixed(), before, operands[i], dropped[i], ParamRegister(i)).value;
        AppendedTwice(blocks, done, e.nodes);
        PrependTwice(done, e.nodes, LowerArgs(Fixed(), Contents(), operands, dropped, i + 1));
        done := done + e.nodes;
      }
      assert done + [] == done;
      assert LowerArgs(Fixed(), start, operands, dropped, 0) == Ok(Emit(Contents(), done));
      var ok := CallNow(callee, size);
      if !ok {
        return Err(Rejected);
      }
      ghost var nodes := Storage.EmptyRegister(globals, LowerArgs(Fixed(), start, operands, dropped, 0).value.st,
                                               RAX).value.nodes;
      ghost var last := [NMov(OReg(RAX, I64), OImm(0, I64)), NCall(callee)];
      AppendedTwice(blocks, done, nodes + last);
      assert done + (nodes + last) == done + nodes + last;
      return Ok(Some(InReg(RAX)));
    }

    /** The call itself, once arguments are loaded. */
    method CallNow(callee: Name, size: Size) returns (ok: bool)
      requires Valid()
      modifies this, registers
      ensures ok == Storage.EmptyRegister(globals, old(Contents()), RAX).Ok?
      ensures ok ==>
                var e := Storage.EmptyRegister(globals, old(Contents()), RAX).value;
                Did(Emit(Storage.GetRegister(e.st, RAX, size),
                         e.nodes + [NMov(OReg(RAX, I64), OImm(0, I64)), NCall(callee)]))
    {
      hide Storage.EmptyRegister, Storage.GetRegister, Appended;
      ghost var blocks := asmBlocks;
      ok := EmptyRegister(RAX);
      if !ok {
        return;
      }
      ghost var nodes := Storage.EmptyRegister(globals, old(Contents()), RAX).value.nodes;
      var clear := NMov(OReg(RAX, I64), OImm(0, I64));
      AddAsmNode(clear);
      AddAsmNode(NCall(callee));
      AppendedTwice(blocks, nodes, [clear]);
      AppendedTwice(blocks, nodes + [clear], [NCall(callee)]);
      assert nodes + [clear] + [NCall(callee)] == nodes + [clear, NCall(callee)];
      GetRegister(RAX, size);
    }

    method GenSelect(operands: seq<Value>) returns (r: Result<Option<Loc>>)
      requires Valid()
      modifies this, registers
      ensures Refines(r, LowerSelect(Fixed(), old(Contents()), operands))
    {
      hide Storage.ForceFindRegister, Appended;
      ghost var blocks := asmBlocks;
      if |operands| != 3 {
        return Err(Rejected);
      }
      var cond := ConditionOf(Fixed(), Contents(), operands[0]);
      var size1 := ValueSize(globals, Contents(), operands[1]);
      var size2 := ValueSize(globals, Contents(), operands[2]);
      if cond.Err? || size1.Err? || size2.Err? || size1.value != size2.value {
        return Err(Rejected);
      }
      if operands[1].Lit? && operands[2].Lit? {
        return Err(Unmodelled);
      }
      var found := ForceFindRegister(size1.value);
      if found.Err? {
        return Err(Rejected);
      }
      ghost var nodes := Storage.ForceFindRegister(globals, old(Contents()), size1.value).value.0.nodes;
      var src := ValueOperand(globals, Contents(), operands[2]);
      var alt := ValueOperand(globals, Contents(), operands[1]);
      if src.Err? || alt.Err? {
        return Err(Rejected);
      }
      var home := OReg(found.value, registers[found.value].size);
      AddAsmNode(NMov(home, src.value));
      AddAsmNode(NCmov(cond.value, home, alt.value));
      AppendedTwice(blocks, nodes, [NMov(home, src.value)]);
      AppendedTwice(blocks, nodes + [NMov(home, src.value)], [NCmov(cond.value, home, alt.value)]);
      assert nodes + [NMov(home, src.value)] + [NCmov(cond.value, home, alt.value)] == nodes +
             [NMov(home, src.value), NCmov(cond.value, home, alt.value)];
      return Ok(Some(InReg(found.value)));
    }

    /** Generation by the kind of instruction. */
    method GenInstruction(inst: Inst) returns (r: Result<Option<Loc>>)
      requires Valid()
      modifies this, registers
      ensures Refines(r, LowerOp(Fixed(), old(Contents()), inst))
    {
      hide LowerStore, LowerLoad, LowerIcmp, LowerBranch, LowerRet, LowerArith, LowerCall, LowerSelect, Appended;
      match inst.op {
        case Literal(s, n) => r := GenLiteral(s, n, inst.operands);
        case Allocate(n) => r := GenAllocate(n, inst.operands);
        case Store(s) => r := GenStore(s, inst.operands);
        case Load(s) => r := GenLoad(s, inst.operands);
        case Icmp(t) => r := GenIcmp(t, inst.operands);
        case Branch(t, f) => r := GenBranch(t, f, inst.operands);
        case Jmp(l) => r := GenJmp(l, inst.operands);
        case Arith(t) => r := GenArithmetic(t, inst.operands);
        case Ret => r := GenRet(inst.operands);
        case Call(g, s) => r := GenCall(g, s, inst.operands, inst.dropped);
        case Select => r := GenSelect(inst.operands);
        case _ => r := Err(Unmodelled);
      }
    }

    // Functions

    /** One turn of the inner loop: drop, generate, drop, erase, clean up, map the result. */
    method GenerateInstruction(inst: Inst) returns (ok: bool)
      requires Valid() && pendingDrop == []
      modifies this, registers
      ensures ok == LowerInst(Fixed(), old(Contents()), inst).Ok?
      ensures ok ==> Did(LowerInst(Fixed(), old(Contents()), inst).value)
    {
      hide LowerOp, DropAll, EraseAll, Storage.MapValue, CleanTemps, Appended;
      var ops, dropped := inst.operands, inst.dropped;
      if |dropped| != |ops| {
        return false;
      }
      for i := 0 to |dropped|
        invariant Valid() && Contents() == old(Contents()) && asmBlocks == old(asmBlocks)
        invariant pendingDrop + Pending(ops[i..], dropped[i..]) == Pending(ops, dropped)
      {
        assert ops[i..][0] == ops[i] && ops[i..][1..] == ops[i + 1..] && dropped[i..][0] == dropped[i] &&
               dropped[i..][1..] == dropped[i + 1..];
        if dropped[i] && ops[i].Var? {
          assert (pendingDrop + [ops[i].name]) + Pending(ops[i + 1..], dropped[i + 1..]) == pendingDrop +
                 ([ops[i].name] + Pending(ops[i + 1..], dropped[i + 1..]));
          pendingDrop := pendingDrop + [ops[i].name];
        } else {
          assert [] + Pending(ops[i + 1..], dropped[i + 1..]) == Pending(ops[i + 1..], dropped[i + 1..]);
        }
      }
      assert pendingDrop == Pending(ops, dropped);
      if AutoDrop(inst.op) {
        DropReassignable();
      }
      var info := GenInstruction(inst);
      if info.Err? {
        return false;
      }
      if !AutoDrop(inst.op) {
        DropReassignable();
      }
      EraseReassignable();
      CleanRegisters();
      if info.value.Some? && inst.result.Some? {
        MapValue(inst.result.value, info.value.value);
      }
      return true;
    }

    method PlaceParameters(params: seq<(Name, Size)>)
      requires Valid() && Contents() == FRESH && |params| <= MAX_ARGS && forall r: Register :: !registerIsParam[r]
      modifies this`valueMap, registers, registerIsParam
      ensures Contents() == PlaceParams(params)
      ensures forall r: Register :: registerIsParam[r] <==> r in ArgRegisters(|params|)
    {
      for i := 0 to |params|
        invariant Contents() == PlaceParams(params[..i])
        invariant forall r: Register :: registerIsParam[r] <==> r in ArgRegisters(i)
      {
        var r := ParamRegister(i);
        assert params[..i + 1][..i] == params[..i];
        GetRegister(r, params[i].1);
        valueMap := valueMap[params[i].0 := InReg(r)];
        registerIsParam[r] := true;
        assert ArgRegisters(i + 1) == ArgRegisters(i) + {r};
      }
      assert params[..|params|] == params;
    }

    /** One block: a label, and its instructions in order. */
    method GenerateBlock(block: Block) returns (ok: bool)
      requires Valid() && pendingDrop == []
      modifies this, registers
      ensures ok == LowerInsts(Fixed(), old(Contents()), block.insts).Ok?
      ensures ok ==>
                var e := LowerInsts(Fixed(), old(Contents()), block.insts).value;
                Valid() && pendingDrop == [] && Contents() == e.st &&
                  asmBlocks == old(asmBlocks) + [Label(block.name, e.nodes)]
    {
      hide LowerInst, Appended;
      asmBlocks := asmBlocks + [Label(block.name, [])];
      ghost var start, blocks, done := Contents(), asmBlocks, [];
      AppendedNothing(blocks);
      PrependNothing(LowerInsts(Fixed(), start, block.insts));
      for i := 0 to |block.insts|
        invariant Valid() && pendingDrop == [] && asmBlocks == Appended(blocks, done)
        invariant LowerInsts(Fixed(), start, block.insts) ==
                  Prepend(done, LowerInsts(Fixed(), Contents(), block.insts[i..]))
      {
        assert block.insts[i..][0] == block.insts[i] && block.insts[i..][1..] == block.insts[i + 1..];
        ghost var before := Contents();
        ok := GenerateInstruction(block.insts[i]);
        if !ok {
          return;
        }
        ghost var e := LowerInst(Fixed(), before, block.insts[i]).value;
        AppendedTwice(blocks, done, e.nodes);
        PrependTwice(done, e.nodes, LowerInsts(Fixed(), Contents(), block.insts[i + 1..]));
        done := done + e.nodes;
      }
      assert done + [] == done;
      AppendedLast(old(asmBlocks), block.name, done);
      return true;
    }

    method GenerateBlocks(blocks: seq<Block>) returns (ok: bool)
      requires Valid() && pendingDrop == []
      modifies this, registers
      ensures ok == LowerBlocks(Fixed(), old(Contents()), blocks).Ok?
      ensures ok ==>
                var (st, labels) := LowerBlocks(Fixed(), old(Contents()), blocks).value;
                Valid() && Contents() == st && asmBlocks == old(asmBlocks) + labels
    {
      hide LowerInsts;
      ghost var start, done := Contents(), [];
      LabelsNothing(LowerBlocks(Fixed(), start, blocks));
      for b := 0 to |blocks|
        invariant Valid() && pendingDrop == [] && asmBlocks == old(asmBlocks) + done
        invariant LowerBlocks(Fixed(), start, blocks) ==
                  PrependLabels(done, LowerBlocks(Fixed(), Contents(), blocks[b..]))
      {
        assert blocks[b..][0] == blocks[b] && blocks[b..][1..] == blocks[b + 1..];
        ghost var before := Contents();
        ok := GenerateBlock(blocks[b]);
        if !ok {
          return;
        }
        ghost var next := Label(blocks[b].name, LowerInsts(Fixed(), before, blocks[b].insts).value.nodes);
        LabelsTwice(done, [next], LowerBlocks(Fixed(), Contents(), blocks[b + 1..]));
        assert old(asmBlocks) + (done + [next]) == (old(asmBlocks) + done) + [next];
        done := done + [next];
      }
      assert done + [] == done;
      return true;
    }

    ghost function Parameters(): (r: set<nat>)
      requires registerIsParam.Length == REGISTERS
      reads registerIsParam
      ensures forall i: Register :: i in r <==> registerIsParam[i]
    {
      set i: Register | 0 <= i < REGISTERS && registerIsParam[i]
    }

    /** The registers that stack_save and ret print, from rbx on. */
    method SavedRegisters() returns (saved: seq<nat>)
      requires Valid()
      ensures saved == SavedFrom(Contents().cells, Parameters(), 1)
    {
      hide Parameters, SavedFrom;
      ghost var cells: Cells, params := Contents().cells, Parameters();
      saved := [];
      for i := 1 to REGISTERS
        invariant saved + SavedFrom(cells, params, i) == SavedFrom(cells, params, 1)
      {
        SavedStep(cells, params, i, saved);
        if registers[i].tampered && !registerIsParam[i] {
          saved := saved + [i];
        }
      }
      SavedEnd(cells, params, REGISTERS);
    }
  }

  lemma SavedEnd(cells: Cells, params: set<nat>, i: nat)
    requires i == REGISTERS
    ensures SavedFrom(cells, params, i) == []
  {
  }

  lemma SavedStep(cells: Cells, params: set<nat>, i: nat, saved: seq<nat>)
    requires i < REGISTERS
    ensures saved + SavedFrom(cells, params, i) ==
            (saved + if cells[i].tampered && i !in params then [i] else []) + SavedFrom(cells, params, i + 1)
  {
  }

  /** gen_function: what it prints is the compiled function. */
  method GenFunction(globals: set<Name>, f: Function) returns (r: Result<AsmFunction>)
    ensures r.Ok? == CompileFunction(globals, f).Ok?
    ensures r.Ok? ==> r == CompileFunction(globals, f)
  {
    hide LowerBlocks, PlaceParams, SavedFrom, ArgRegisters;
    if |f.params| > MAX_ARGS {
      return Err(Rejected);
    }
    var context := new FunctionContext(f.returnType, globals);
    context.AddAsmNode(NStackSave);
    AppendedLast([], STACKSAVE, [NStackSave]);
    assert [] + [Label(STACKSAVE, [])] == [Label(STACKSAVE, [])];
    assert context.asmBlocks == [Label(STACKSAVE, [NStackSave])];
    context.PlaceParameters(f.params);
    var ok := context.GenerateBlocks(f.blocks);
    if !ok {
      return Err(Rejected);
    }
    var saved := context.SavedRegisters();
    ArgumentRegisters(|f.params|);
    assert context.Parameters() == ArgRegisters(|f.params|);
    return Ok(AsmFunction(context.asmBlocks, context.currentStackSize, saved));
  }

  lemma ArgumentRegisters(n: nat)
    ensures forall r | r in ArgRegisters(n) :: r < REGISTERS
  {
  }

  lemma AppendedLast(blocks: seq<Label>, name: Name, nodes: seq<Node>)
    ensures Appended(blocks + [Label(name, [])], nodes) == blocks + [Label(name, nodes)]
  {
    assert [] + nodes == nodes;
    assert (blocks + [Label(name, [])])[..|blocks|] == blocks;
  }

  /** Labels in front of those of later blocks. */
  function PrependLabels(labels: seq<Label>, r: Result<(Store, seq<Label>)>): Result<(Store, seq<Label>)> {
    match r
    case Ok(p) => Ok((p.0, labels + p.1))
    case Err(_) => r
  }

  lemma LabelsNothing(r: Result<(Store, seq<Label>)>)
    ensures PrependLabels([], r) == r
  {
    if r.Ok? {
      assert [] + r.value.1 == r.value.1;
    }
  }

  lemma LabelsTwice(a: seq<Label>, b: seq<Label>, r: Result<(Store, seq<Label>)>)
    ensures PrependLabels(a, PrependLabels(b, r)) == PrependLabels(a + b, r)
  {
    if r.Ok? {
      assert a + (b + r.value.1) == (a + b) + r.value.1;
    }
  }

  lemma PrependNothing(r: Result<Emit>)
    ensures Prepend([], r) == r
  {
    if r.Ok? {
      assert [] + r.value.nodes == r.value.nodes;
    }
  }

  lemma PrependTwice(a: seq<Node>, b: seq<Node>, r: Result<Emit>)
    ensures Prepend(a, Prepend(b, r)) == Prepend(a + b, r)
  {
    if r.Ok? {
      assert a + (b + r.value.nodes) == (a + b) + r.value.nodes;
    }
  }
}
