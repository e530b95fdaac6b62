/** The two peepholes of printing, a mov between equal operands is not printed and a mov
    from 0 is printed as xor, and exactly which runs they preserve
    (src/backend/codegen/asmgen/asm_nodes.hpp, src/backend/codegen/asmgen/asm_nodes.cpp). */
module Peepholes {
  import opened Wrappers
  import opened Ir
  import opened Machine
  import Conditions

  /** A node as it was meant: mov always copies and leaves the flags alone. Between two
      places in memory there is no mov, but a cell may be copied to itself; and none of the
      address of a symbol to memory. */
  function Meant(node: Node, m: State): (r: Option<State>)
    requires m.Valid()
    ensures r.Some? ==> r.value.Valid()
  {
    if node.NMov? then
      match Read(m, node.src)
      case Some(w) =>
        if node.src.OMem? && node.dest.OMem? then if SameOperand(node.src, node.dest) then Some(m) else None
        else if node.src.OGlobal? && node.dest.OMem? then None
        else Assign(m, node.dest, w)
      case None => None
    else Step(node, m)
  }

  predicate ZeroMov(node: Node) {
    node.NMov? && node.src.OImm? && node.src.val == 0
  }

  /** Whether the printed code has the flags of a zero mov after a node, instead of those that
      are meant: a comparison sets its own, arithmetic leaves none. */
  function StaleAfter(node: Node, stale: bool): bool {
    ZeroMov(node) || (stale && !node.NCmp? && !node.NArith?)
  }

  /** A zero mov can be printed if it goes to a register. */
  predicate Printable(node: Node) {
    ZeroMov(node) ==> node.dest.OReg?
  }

  /** A condition that is read after a zero mov comes out as it is meant exactly if it does
      when the operands are equal. */
  predicate ReadRight(t: IcmpType, outcome: bool, stale: bool) {
    stale ==> outcome == Conditions.Encoding(t).2
  }

  // Runs as they are meant

  /** A finished run: the outcomes of the conditions that it read, calls included, whether
      printing keeps all of them, the address returned to, and the end. */
  datatype Course = Course(outcomes: seq<bool>, right: bool, back: Word, end: State, stale: bool)

  function Reading(outcome: bool, right: bool, rest: Option<Course>): Option<Course> {
    match rest
    case Some(o) => Some(o.(outcomes := [outcome] + o.outcomes, right := right && o.right))
    case None => None
  }

  function Following(first: Course, rest: Option<Course>): Option<Course> {
    match rest
    case Some(o) => Some(o.(outcomes := first.outcomes + o.outcomes, right := first.right && o.right))
    case None => None
  }

  predicate Outcome(t: IcmpType, m: State)
    requires m.flags.Some?
  {
    Conditions.Holds(Conditions.CondInst(t), m.flags.value)
  }

  function MeantRun(p: AsmProgram, f: AsmFunction, nodes: seq<Node>, b: nat, m: State, stale: bool,
                    fuel: nat): (r: Option<Course>)
    requires m.Valid() && b < |f.blocks|
    ensures r.Some? ==> r.value.end.Valid()
    decreases fuel, |f.blocks| - b, |nodes|
  {
    if nodes == [] then
      if b + 1 < |f.blocks| then MeantRun(p, f, f.blocks[b + 1].nodes, b + 1, m, stale, fuel) else None
    else
      match nodes[0]
      case NStackSave =>
        (match Prologue(f.frame, f.saved, m)
         case Some(m1) => MeantRun(p, f, nodes[1..], b, m1, stale && f.frame == 0, fuel)
         case None => None)
      case NRet =>
        (match Epilogue(f.frame, f.saved, m)
         case Some((w, m1)) => Some(Course([], true, w, m1, stale))
         case None => None)
      case NJmp(l) => MeantGoto(p, f, l, m, stale, fuel)
      case NCondJmp(t, l) =>
        if m.flags.None? then None
        else
          Reading(Outcome(t, m), ReadRight(t, Outcome(t, m), stale),
                  if Outcome(t, m) then MeantGoto(p, f, l, m, stale, fuel)
                  else MeantRun(p, f, nodes[1..], b, m, stale, fuel))
      case NCall(g) =>
        (match MeantInvoke(p, g, ReturnAddress(b, |nodes|), m, stale, fuel)
         case Some(o) => Following(o, MeantRun(p, f, nodes[1..], b, o.end, o.stale, fuel))
         case None => None)
      case NCmov(t, _, _) =>
        (match Meant(nodes[0], m)
         case Some(m1) =>
           if m.flags.None? then None
           else
             Reading(Outcome(t, m), ReadRight(t, Outcome(t, m), stale),
                     MeantRun(p, f, nodes[1..], b, m1, stale, fuel))
         case None => None)
      case _ =>
        (match Meant(nodes[0], m)
         case Some(m1) =>
           Following(Course([], Printable(nodes[0]), 0, m1, stale),
                     MeantRun(p, f, nodes[1..], b, m1, StaleAfter(nodes[0], stale), fuel))
         case None => None)
  }

  function MeantGoto(p: AsmProgram, f: AsmFunction, l: Name, m: State, stale: bool, fuel: nat): (r: Option<Course>)
    requires m.Valid()
    ensures r.Some? ==> r.value.end.Valid()
    decreases fuel, 0
  {
    if fuel == 0 then None
    else
      match FindLabel(f.blocks, l)
      case Some(t) => MeantRun(p, f, f.blocks[t].nodes, t, m, stale, fuel - 1)
      case None => None
  }

  function MeantInvoke(p: AsmProgram, g: Name, site: Word, m: State, stale: bool, fuel: nat): (r: Option<Course>)
    requires m.Valid()
    ensures r.Some? ==> r.value.end.Valid()
    decreases fuel, 0
  {
    if fuel == 0 || g !in p || p[g].blocks == [] then None
    else
      match Push(m, site)
      case Some(m1) =>
        (match MeantRun(p, p[g], p[g].blocks[0].nodes, 0, m1, stale, fuel - 1)
         case Some(o) => if o.back == site then Some(o) else None
         case None => None)
      case None => None
  }

  // Runs as they are printed, with the outcomes that they read

  datatype Trace = Trace(outcomes: seq<bool>, back: Word, end: State)

  function Preceded(outcomes: seq<bool>, rest: Option<Trace>): Option<Trace> {
    match rest
    case Some(o) => Some(o.(outcomes := outcomes + o.outcomes))
    case None => None
  }

  function PrintedRun(p: AsmProgram, f: AsmFunction, nodes: seq<Node>, b: nat, m: State, fuel: nat): (r: Option<Trace>)
    requires m.Valid() && b < |f.blocks|
    ensures r.Some? ==> r.value.end.Valid()
    decreases fuel, |f.blocks| - b, |nodes|
  {
    if nodes == [] then
      if b + 1 < |f.blocks| then PrintedRun(p, f, f.blocks[b + 1].nodes, b + 1, m, fuel) else None
    else
      match nodes[0]
      case NStackSave =>
        (match Prologue(f.frame, f.saved, m)
         case Some(m1) => PrintedRun(p, f, nodes[1..], b, m1, fuel)
         case None => None)
      case NRet =>
        (match Epilogue(f.frame, f.saved, m)
         case Some((w, m1)) => Some(Trace([], w, m1))
         case None => None)
      case NJmp(l) => PrintedGoto(p, f, l, m, fuel)
      case NCondJmp(t, l) =>
        if m.flags.None? then None
        else
          Preceded([Outcome(t, m)], if Outcome(t, m) then PrintedGoto(p, f, l, m, fuel)
                   else PrintedRun(p, f, nodes[1..], b, m, fuel))
      case NCall(g) =>
        (match PrintedInvoke(p, g, ReturnAddress(b, |nodes|), m, fuel)
         case Some(o) => Preceded(o.outcomes, PrintedRun(p, f, nodes[1..], b, o.end, fuel))
         case None => None)
      case NCmov(t, _, _) =>
        (match Step(nodes[0], m)
         case Some(m1) =>
           if m.flags.None? then None else Preceded([Outcome(t, m)], PrintedRun(p, f, nodes[1..], b, m1, fuel))
         case None => None)
      case _ =>
        (match Step(nodes[0], m)
         case Some(m1) => PrintedRun(p, f, nodes[1..], b, m1, fuel)
         case None => None)
  }

  function PrintedGoto(p: AsmProgram, f: AsmFunction, l: Name, m: State, fuel: nat): (r: Option<Trace>)
    requires m.Valid()
    ensures r.Some? ==> r.value.end.Valid()
    decreases fuel, 0
  {
    if fuel == 0 then None
    else
      match FindLabel(f.blocks, l)
      case Some(t) => PrintedRun(p, f, f.blocks[t].nodes, t, m, fuel - 1)
      case None => None
  }

  function PrintedInvoke(p: AsmProgram, g: Name, site: Word, m: State, fuel: nat): (r: Option<Trace>)
    requires m.Valid()
    ensures r.Some? ==> r.value.end.Valid()
    decreases fuel, 0
  {
    if fuel == 0 || g !in p || p[g].blocks == [] then None
    else
      match Push(m, site)
      case Some(m1) =>
        (match PrintedRun(p, p[g], p[g].blocks[0].nodes, 0, m1, fuel - 1)
         case Some(o) => if o.back == site then Some(o) else None
         case None => None)
      case None => None
  }

  ghost predicate Traced(o: Option<Trace>, r: Option<(Word, State)>) {
    (o.Some? <==> r.Some?) && (o.Some? ==> r.value == (o.value.back, o.value.end))
  }

  /** These are the runs of the machine. */
  lemma {:induction false} PrintedIsRun(p: AsmProgram, f: AsmFunction, nodes: seq<Node>, b: nat, m: State, fuel: nat)
    requires m.Valid() && b < |f.blocks|
    ensures Traced(PrintedRun(p, f, nodes, b, m, fuel), Machine.Run(p, f, nodes, b, m, fuel))
    decreases fuel, |f.blocks| - b, |nodes|
  {
    hide Step, Prologue, Epilogue, Conditions.Holds, Push, FindLabel;
    if nodes == [] {
      if b + 1 < |f.blocks| {
        PrintedIsRun(p, f, f.blocks[b + 1].nodes, b + 1, m, fuel);
      }
    } else {
      match nodes[0] {
        case NStackSave =>
          if Prologue(f.frame, f.saved, m).Some? {
            PrintedIsRun(p, f, nodes[1..], b, Prologue(f.frame, f.saved, m).value, fuel);
          }
        case NRet =>
        case NJmp(l) => PrintedIsGoto(p, f, l, m, fuel);
        case NCondJmp(_, l) =>
          PrintedIsGoto(p, f, l, m, fuel);
          PrintedIsRun(p, f, nodes[1..], b, m, fuel);
        case NCall(g) =>
          var site := ReturnAddress(b, |nodes|);
          PrintedIsInvoke(p, g, site, m, fuel);
          if Machine.Invoke(p, g, site, m, fuel).Some? {
            PrintedIsRun(p, f, nodes[1..], b, Machine.Invoke(p, g, site, m, fuel).value, fuel);
          }
        case _ =>
          CmovReads(nodes[0], m);
          if Step(nodes[0], m).Some? {
            PrintedIsRun(p, f, nodes[1..], b, Step(nodes[0], m).value, fuel);
          }
      }
    }
  }

  lemma CmovReads(node: Node, m: State)
    requires m.Valid()
    ensures node.NCmov? && Step(node, m).Some? ==> m.flags.Some?
  {
  }

  lemma {:induction false} PrintedIsGoto(p: AsmProgram, f: AsmFunction, l: Name, m: State, fuel: nat)
    requires m.Valid()
    ensures Traced(PrintedGoto(p, f, l, m, fuel), Machine.Goto(p, f, l, m, fuel))
    decreases fuel, 0
  {
    hide Machine.Run, PrintedRun;
    if fuel > 0 && FindLabel(f.blocks, l).Some? {
      var t := FindLabel(f.blocks, l).value;
      PrintedIsRun(p, f, f.blocks[t].nodes, t, m, fuel - 1);
    }
  }

  lemma {:induction false} PrintedIsInvoke(p: AsmProgram, g: Name, site: Word, m: State, fuel: nat)
    requires m.Valid()
    ensures var o, r := PrintedInvoke(p, g, site, m, fuel), Machine.Invoke(p, g, site, m, fuel);
            (o.Some? <==> r.Some?) && (o.Some? ==> r.value == o.value.end)
    decreases fuel, 0
  {
    hide Machine.Run, PrintedRun, Push;
    if fuel > 0 && g in p && p[g].blocks != [] && Push(m, site).Some? {
      PrintedIsRun(p, p[g], p[g].blocks[0].nodes, 0, Push(m, site).value, fuel - 1);
    }
  }

  // Printed runs against meant ones

  /** The state of the printed code: as meant, but with the flags of xor after a zero mov. */
  function Shown(m: State, stale: bool): State {
    if stale then m.(flags := Some(XOR_FLAGS)) else m
  }

  predicate Diverge(a: seq<bool>, b: seq<bool>) {
    exists k | 0 <= k < |a| && k < |b| :: a[k] != b[k]
  }

  /** The printed run reads what the meant one reads and ends alike, or, where that one is not
      right, gets stuck or reads something else. */
  ghost predicate Shows(o: Course, r: Option<Trace>) {
    if o.right then r == Some(Trace(o.outcomes, o.back, Shown(o.end, o.stale)))
    else r.Some? ==> Diverge(r.value.outcomes, o.outcomes)
  }

  lemma ReadingShows(t: IcmpType, x: bool, y: bool, stale: bool, rest: Option<Course>, r: Option<Trace>)
    requires rest.Some? && (x == y <==> ReadRight(t, x, stale)) && (x == y ==> Shows(rest.value, r))
    ensures Shows(Reading(x, ReadRight(t, x, stale), rest).value, Preceded([y], r))
  {
    if r.Some? {
      var a, b := [y] + r.value.outcomes, [x] + rest.value.outcomes;
      if x != y {
        assert a[0] != b[0];
      } else if !rest.value.right {
        var k :| 0 <= k < |r.value.outcomes| && k < |rest.value.outcomes| &&
                 r.value.outcomes[k] != rest.value.outcomes[k];
        assert a[k + 1] != b[k + 1];
      }
    }
  }

  lemma FollowingShows(first: Course, before: Trace, rest: Option<Course>, r: Option<Trace>)
    requires rest.Some? && Shows(first, Some(before)) && (first.right ==> Shows(rest.value, r))
    ensures Shows(Following(first, rest).value, Preceded(before.outcomes, r))
  {
    if r.Some? {
      var a, b := before.outcomes + r.value.outcomes, first.outcomes + rest.value.outcomes;
      if !first.right {
        var k :| 0 <= k < |before.outcomes| && k < |first.outcomes| && before.outcomes[k] != first.outcomes[k];
        assert a[k] != b[k];
      } else if !rest.value.right {
        var k :| 0 <= k < |r.value.outcomes| && k < |rest.value.outcomes| &&
                 r.value.outcomes[k] != rest.value.outcomes[k];
        assert a[|first.outcomes| + k] != b[|first.outcomes| + k];
      }
    }
  }

  /** A zero mov between a comparison and its reader changes the outcome exactly when the
      condition differs on the flags of xor: after a zero mov every reader sees equality, no
      sign, no carry and no overflow. */
  lemma ZeroMovMisleads(t: IcmpType, r: nat, size: Size, m: State)
    requires m.Valid() && m.flags.Some? && r < REGISTERS && EightBytes(size)
    ensures var node := NMov(OReg(r, size), OImm(0, I64));
            Meant(node, m).Some? && Step(node, m).Some? && Step(node, m).value.flags.Some? &&
            (Outcome(t, Step(node, m).value) == Outcome(t, Meant(node, m).value)
             <==> Outcome(t, m) == Conditions.Encoding(t).2)
  {
  }

  lemma StaleOutcome(t: IcmpType, m: State, stale: bool)
    requires m.flags.Some?
    ensures Outcome(t, m) == Outcome(t, Shown(m, stale)) <==> ReadRight(t, Outcome(t, m), stale)
  {
  }

  lemma SelfCopy(node: Node, m: State, m1: State)
    requires m.Valid() && node.NMov? && SameOperand(node.src, node.dest) && Meant(node, m) == Some(m1)
    ensures m1 == m
  {
    if node.dest.OReg? {
      assert m.regs[node.dest.reg := m.regs[node.dest.reg]] == m.regs;
    }
  }

  lemma ReadShown(m: State, stale: bool, o: Operand)
    requires m.Valid()
    ensures Shown(m, stale).Valid() && Read(Shown(m, stale), o) == Read(m, o)
  {
  }

  /** A node that reads no condition does what it was meant to. */
  lemma StepShown(node: Node, m: State, stale: bool)
    requires m.Valid() && !node.NCmov? && Meant(node, m).Some?
    ensures Shown(m, stale).Valid()
    ensures Step(node, Shown(m, stale)) ==
            if Printable(node) then Some(Shown(Meant(node, m).value, StaleAfter(node, stale))) else None
  {
    hide Conditions.CmpFlags, Arithmetic;
    match node {
      case NMov(d, s) =>
        ReadShown(m, stale, s);
        if SameOperand(s, d) {
          SelfCopy(node, m, Meant(node, m).value);
        }
      case NCmp(a, b) =>
        ReadShown(m, stale, a);
        ReadShown(m, stale, b);
      case NArith(_, d, s) =>
        ReadShown(m, stale, d);
        ReadShown(m, stale, s);
      case _ =>
    }
  }

  lemma CmovShown(node: Node, m: State, stale: bool)
    requires m.Valid() && node.NCmov? && Meant(node, m).Some?
    ensures m.flags.Some? && Shown(m, stale).Valid() && Shown(m, stale).flags.Some?
    ensures Step(node, Shown(m, stale)).Some?
    ensures Outcome(node.cond, m) == Outcome(node.cond, Shown(m, stale)) ==>
            Step(node, Shown(m, stale)).value == Shown(Meant(node, m).value, stale)
  {
    hide Conditions.Holds;
    ReadShown(m, stale, node.dest);
    ReadShown(m, stale, node.src);
  }

  lemma {:induction false} PushRegsShown(saved: seq<nat>, m: State, stale: bool)
    requires m.Valid() && PushRegs(saved, m).Some?
    ensures Shown(m, stale).Valid() &&
            PushRegs(saved, Shown(m, stale)) == Some(Shown(PushRegs(saved, m).value, stale))
  {
    if saved != [] {
      var m1 := Push(m, m.regs[saved[0]]).value;
      assert Push(Shown(m, stale), m.regs[saved[0]]) == Some(Shown(m1, stale));
      PushRegsShown(saved[1..], m1, stale);
    }
  }

  lemma {:induction false} PopRegsShown(saved: seq<nat>, m: State, stale: bool)
    requires m.Valid() && PopRegs(saved, m).Some?
    ensures Shown(m, stale).Valid() && PopRegs(saved, Shown(m, stale)) == Some(Shown(PopRegs(saved, m).value, stale))
  {
    if saved != [] {
      var last := |saved| - 1;
      var (w, m1) := Pop(m).value;
      assert Pop(Shown(m, stale)) == Some((w, Shown(m1, stale)));
      PopRegsShown(saved[..last], m1.(regs := m1.regs[saved[last] := w]), stale);
    }
  }

  /** A prologue that reserves a frame leaves no flags. */
  lemma PrologueShown(frame: nat, saved: seq<nat>, m: State, stale: bool)
    requires m.Valid() && Prologue(frame, saved, m).Some?
    ensures Shown(m, stale).Valid()
    ensures Prologue(frame, saved, Shown(m, stale)) == Some(Shown(Prologue(frame, saved, m).value, stale && frame == 0))
  {
    if frame == 0 {
      PushRegsShown(saved, m, stale);
    }
  }

  lemma EpilogueShown(frame: nat, saved: seq<nat>, m: State, stale: bool)
    requires m.Valid() && Epilogue(frame, saved, m).Some?
    ensures Shown(m, stale).Valid()
    ensures var (w, m1) := Epilogue(frame, saved, m).value;
            Epilogue(frame, saved, Shown(m, stale)) == Some((w, Shown(m1, stale)))
  {
    PopRegsShown(saved, m, stale);
  }

  lemma PushShown(m: State, stale: bool, w: Word)
    requires m.Valid() && Push(m, w).Some?
    ensures Shown(m, stale).Valid() && Push(Shown(m, stale), w) == Some(Shown(Push(m, w).value, stale))
  {
  }

  lemma {:induction false} RunShows(p: AsmProgram, f: AsmFunction, nodes: seq<Node>, b: nat, m: State, stale: bool,
                                    fuel: nat)
    requires m.Valid() && b < |f.blocks| && MeantRun(p, f, nodes, b, m, stale, fuel).Some?
    ensures Shown(m, stale).Valid() &&
            Shows(MeantRun(p, f, nodes, b, m, stale, fuel).value, PrintedRun(p, f, nodes, b, Shown(m, stale), fuel))
    decreases fuel, |f.blocks| - b, |nodes|
  {
    hide Step, Prologue, Epilogue, Conditions.Holds, Push, FindLabel, Meant, Shows, Reading, Following, Preceded,
         Outcome, ReadRight, Printable, StaleAfter;
    ValidShown(m, stale);
    if nodes == [] {
      RunShows(p, f, f.blocks[b + 1].nodes, b + 1, m, stale, fuel);
    } else {
      match nodes[0] {
        case NStackSave =>
          PrologueShown(f.frame, f.saved, m, stale);
          RunShows(p, f, nodes[1..], b, Prologue(f.frame, f.saved, m).value, stale && f.frame == 0, fuel);
        case NRet => RetShows(p, f, nodes, b, m, stale, fuel);
        case NJmp(l) => GotoShows(p, f, l, m, stale, fuel);
        case NCondJmp(_, _) => BranchShows(p, f, nodes, b, m, stale, fuel);
        case NCall(_) => CallShows(p, f, nodes, b, m, stale, fuel);
        case NCmov(_, _, _) => CmovShows(p, f, nodes, b, m, stale, fuel);
        case _ => PlainShows(p, f, nodes, b, m, stale, fuel);
      }
    }
  }

  lemma ValidShown(m: State, stale: bool)
    requires m.Valid()
    ensures Shown(m, stale).Valid()
  {
  }

  lemma RetShows(p: AsmProgram, f: AsmFunction, nodes: seq<Node>, b: nat, m: State, stale: bool, fuel: nat)
    requires m.Valid() && b < |f.blocks| && MeantRun(p, f, nodes, b, m, stale, fuel).Some?
    requires nodes != [] && nodes[0].NRet?
    ensures Shown(m, stale).Valid() &&
            Shows(MeantRun(p, f, nodes, b, m, stale, fuel).value, PrintedRun(p, f, nodes, b, Shown(m, stale), fuel))
  {
    hide Epilogue;
    EpilogueShown(f.frame, f.saved, m, stale);
  }

  lemma {:induction false} BranchShows(p: AsmProgram, f: AsmFunction, nodes: seq<Node>, b: nat, m: State, stale: bool,
                                       fuel: nat)
    requires m.Valid() && b < |f.blocks| && MeantRun(p, f, nodes, b, m, stale, fuel).Some?
    requires nodes != [] && nodes[0].NCondJmp?
    ensures Shown(m, stale).Valid() &&
            Shows(MeantRun(p, f, nodes, b, m, stale, fuel).value, PrintedRun(p, f, nodes, b, Shown(m, stale), fuel))
    decreases fuel, |f.blocks| - b, |nodes|, 0
  {
    hide Outcome, ReadRight, Shows, Preceded, MeantGoto, PrintedGoto;
    ValidShown(m, stale);
    var t, l, m1 := nodes[0].cond, nodes[0].target, Shown(m, stale);
    StaleOutcome(t, m, stale);
    var rest := if Outcome(t, m) then MeantGoto(p, f, l, m, stale, fuel)
    else MeantRun(p, f, nodes[1..], b, m, stale, fuel);
    var r := if Outcome(t, m1) then PrintedGoto(p, f, l, m1, fuel) else PrintedRun(p, f, nodes[1..], b, m1, fuel);
    if Outcome(t, m) == Outcome(t, m1) {
      if Outcome(t, m) {
        GotoShows(p, f, l, m, stale, fuel);
      } else {
        RunShows(p, f, nodes[1..], b, m, stale, fuel);
      }
    }
    ReadingShows(t, Outcome(t, m), Outcome(t, m1), stale, rest, r);
  }

  lemma {:induction false} CmovShows(p: AsmProgram, f: AsmFunction, nodes: seq<Node>, b: nat, m: State, stale: bool,
                                     fuel: nat)
    requires m.Valid() && b < |f.blocks| && MeantRun(p, f, nodes, b, m, stale, fuel).Some?
    requires nodes != [] && nodes[0].NCmov?
    ensures Shown(m, stale).Valid() &&
            Shows(MeantRun(p, f, nodes, b, m, stale, fuel).value, PrintedRun(p, f, nodes, b, Shown(m, stale), fuel))
    decreases fuel, |f.blocks| - b, |nodes|, 0
  {
    hide Outcome, ReadRight, Shows, Preceded, Meant, Step;
    var t, m1 := nodes[0].cond, Shown(m, stale);
    CmovShown(nodes[0], m, stale);
    StaleOutcome(t, m, stale);
    var rest := MeantRun(p, f, nodes[1..], b, Meant(nodes[0], m).value, stale, fuel);
    var r := PrintedRun(p, f, nodes[1..], b, Step(nodes[0], m1).value, fuel);
    if Outcome(t, m) == Outcome(t, m1) {
      RunShows(p, f, nodes[1..], b, Meant(nodes[0], m).value, stale, fuel);
    }
    ReadingShows(t, Outcome(t, m), Outcome(t, m1), stale, rest, r);
  }

  lemma {:induction false} PlainShows(p: AsmProgram, f: AsmFunction, nodes: seq<Node>, b: nat, m: State, stale: bool,
                                      fuel: nat)
    requires m.Valid() && b < |f.blocks| && MeantRun(p, f, nodes, b, m, stale, fuel).Some?
    requires nodes != [] && (nodes[0].NMov? || nodes[0].NLea? || nodes[0].NCmp? || nodes[0].NArith?)
    ensures Shown(m, stale).Valid() &&
            Shows(MeantRun(p, f, nodes, b, m, stale, fuel).value, PrintedRun(p, f, nodes, b, Shown(m, stale), fuel))
    decreases fuel, |f.blocks| - b, |nodes|, 0
  {
    hide Meant, Step, Printable, StaleAfter;
    StepShown(nodes[0], m, stale);
    var m1 := Meant(nodes[0], m).value;
    var rest := MeantRun(p, f, nodes[1..], b, m1, StaleAfter(nodes[0], stale), fuel);
    assert [] + rest.value.outcomes == rest.value.outcomes;
    if Printable(nodes[0]) {
      RunShows(p, f, nodes[1..], b, m1, StaleAfter(nodes[0], stale), fuel);
    }
  }

  lemma {:induction false} CallShows(p: AsmProgram, f: AsmFunction, nodes: seq<Node>, b: nat, m: State, stale: bool,
                                     fuel: nat)
    requires m.Valid() && b < |f.blocks| && MeantRun(p, f, nodes, b, m, stale, fuel).Some?
    requires nodes != [] && nodes[0].NCall?
    ensures Shown(m, stale).Valid() &&
            Shows(MeantRun(p, f, nodes, b, m, stale, fuel).value, PrintedRun(p, f, nodes, b, Shown(m, stale), fuel))
    decreases fuel, |f.blocks| - b, |nodes|, 0
  {
    hide MeantInvoke, PrintedInvoke, Preceded, Diverge;
    ValidShown(m, stale);
    var site := ReturnAddress(b, |nodes|);
    InvokeShows(p, nodes[0].callee, site, m, stale, fuel);
    var first := MeantInvoke(p, nodes[0].callee, site, m, stale, fuel).value;
    var before := PrintedInvoke(p, nodes[0].callee, site, Shown(m, stale), fuel);
    var rest := MeantRun(p, f, nodes[1..], b, first.end, first.stale, fuel);
    if before.Some? {
      if first.right {
        RunShows(p, f, nodes[1..], b, first.end, first.stale, fuel);
      }
      FollowingShows(first, before.value, rest, PrintedRun(p, f, nodes[1..], b, before.value.end, fuel));
    }
  }

  lemma {:induction false} GotoShows(p: AsmProgram, f: AsmFunction, l: Name, m: State, stale: bool, fuel: nat)
    requires m.Valid() && MeantGoto(p, f, l, m, stale, fuel).Some?
    ensures Shown(m, stale).Valid() &&
            Shows(MeantGoto(p, f, l, m, stale, fuel).value, PrintedGoto(p, f, l, Shown(m, stale), fuel))
    decreases fuel, 0
  {
    hide MeantRun, PrintedRun, Shows;
    var t := FindLabel(f.blocks, l).value;
    RunShows(p, f, f.blocks[t].nodes, t, m, stale, fuel - 1);
  }

  lemma {:induction false} InvokeShows(p: AsmProgram, g: Name, site: Word, m: State, stale: bool, fuel: nat)
    requires m.Valid() && MeantInvoke(p, g, site, m, stale, fuel).Some?
    ensures Shown(m, stale).Valid() &&
            Shows(MeantInvoke(p, g, site, m, stale, fuel).value, PrintedInvoke(p, g, site, Shown(m, stale), fuel))
    decreases fuel, 0
  {
    hide MeantRun, PrintedRun, Push, Diverge;
    PushShown(m, stale, site);
    RunShows(p, p[g], p[g].blocks[0].nodes, 0, Push(m, site).value, stale, fuel - 1);
  }

  // Exactly when printing preserves a run

  /** A call of printed code reads the same conditions as the call of the code that is meant,
      those of its callees included, exactly if no zero mov goes to memory on the way, and
      every condition that is read with the flags of a zero mov is meant to come out as it
      does for equal operands. Then it comes back with the same registers, stack pointers and
      memory. */
  lemma PrintingPreservesRunsExactly(p: AsmProgram, g: Name, site: Word, m: State, fuel: nat)
    requires m.Valid() && MeantInvoke(p, g, site, m, false, fuel).Some?
    ensures var o, r := MeantInvoke(p, g, site, m, false, fuel).value, PrintedInvoke(p, g, site, m, fuel);
            (r.Some? && r.value.outcomes == o.outcomes <==> o.right) &&
            (o.right ==> Machine.Invoke(p, g, site, m, fuel) == Some(Shown(o.end, o.stale)))
  {
    hide MeantInvoke, PrintedInvoke, Machine.Invoke;
    InvokeShows(p, g, site, m, false, fuel);
    PrintedIsInvoke(p, g, site, m, fuel);
  }

  // A condition on the code

  predicate ReadsFlags(node: Node) {
    node.NCondJmp? || node.NCmov?
  }

  /** Whether the flags after a node may be read: after a comparison, and until a zero mov, a
      call or the prologue of a function. */
  predicate SoundAfter(node: Node, sound: bool) {
    node.NCmp? || (sound && !ZeroMov(node) && !node.NCall? && !node.NStackSave?)
  }

  /** No zero mov lies between a cmp and a reader of its flags, on any path: at[b] says
      whether the flags may be read at the start of block b. */
  predicate FlagsKept(blocks: seq<Label>, at: seq<bool>, nodes: seq<Node>, b: nat, sound: bool)
    requires |at| == |blocks| && b < |blocks|
    decreases |nodes|
  {
    if nodes == [] then b + 1 < |blocks| && at[b + 1] ==> sound
    else
      var n := nodes[0];
      Printable(n) && (ReadsFlags(n) ==> sound) &&
      (n.NJmp? || n.NCondJmp? ==> FindLabel(blocks, n.target).Some? && at[FindLabel(blocks, n.target).value] ==>
       sound) &&
      FlagsKept(blocks, at, nodes[1..], b, SoundAfter(n, sound))
  }

  /** The same for a function, which may be entered with any flags. */
  predicate AllFlagsKept(f: AsmFunction, at: seq<bool>) {
    |at| == |f.blocks| && (at != [] ==> !at[0]) &&
    forall b | 0 <= b < |f.blocks| :: FlagsKept(f.blocks, at, f.blocks[b].nodes, b, at[b])
  }

  ghost predicate ProgramKeepsFlags(p: AsmProgram, at: map<Name, seq<bool>>) {
    forall g | g in p :: g in at && AllFlagsKept(p[g], at[g])
  }

  lemma SoundIsFresh(node: Node, stale: bool, sound: bool)
    requires sound ==> !stale
    ensures SoundAfter(node, sound) ==> !StaleAfter(node, stale)
  {
  }

  lemma {:induction false} KeptRunsRight(p: AsmProgram, all: map<Name, seq<bool>>, f: AsmFunction, at: seq<bool>,
                                         nodes: seq<Node>, b: nat, m: State, stale: bool, sound: bool, fuel: nat)
    requires ProgramKeepsFlags(p, all) && AllFlagsKept(f, at) && b < |f.blocks|
    requires FlagsKept(f.blocks, at, nodes, b, sound) && (sound ==> !stale)
    requires m.Valid() && MeantRun(p, f, nodes, b, m, stale, fuel).Some?
    ensures MeantRun(p, f, nodes, b, m, stale, fuel).value.right
    decreases fuel, |f.blocks| - b, |nodes|
  {
    hide Step, Prologue, Epilogue, Push, Meant, Outcome, Printable, ProgramKeepsFlags, ZeroMov, MeantInvoke,
         StaleAfter, FindLabel;
    if nodes == [] {
      KeptRunsRight(p, all, f, at, f.blocks[b + 1].nodes, b + 1, m, stale, at[b + 1], fuel);
    } else {
      match nodes[0] {
        case NStackSave =>
          KeptRunsRight(p, all, f, at, nodes[1..], b, Prologue(f.frame, f.saved, m).value, stale && f.frame == 0,
                        false, fuel);
        case NRet =>
        case NJmp(l) => KeptJumpsRight(p, all, f, at, l, m, stale, sound, fuel);
        case NCondJmp(c, l) =>
          if Outcome(c, m) {
            KeptJumpsRight(p, all, f, at, l, m, stale, sound, fuel);
          } else {
            KeptRunsRight(p, all, f, at, nodes[1..], b, m, stale, SoundAfter(nodes[0], sound), fuel);
          }
        case NCall(g) =>
          var o := MeantInvoke(p, g, ReturnAddress(b, |nodes|), m, stale, fuel).value;
          KeptCallsRight(p, all, g, ReturnAddress(b, |nodes|), m, stale, fuel);
          KeptRunsRight(p, all, f, at, nodes[1..], b, o.end, o.stale, false, fuel);
        case _ => KeptNodesRight(p, all, f, at, nodes, b, m, stale, sound, fuel);
      }
    }
  }

  lemma {:induction false} KeptNodesRight(p: AsmProgram, all: map<Name, seq<bool>>, f: AsmFunction, at: seq<bool>,
                                          nodes: seq<Node>, b: nat, m: State, stale: bool, sound: bool, fuel: nat)
    requires ProgramKeepsFlags(p, all) && AllFlagsKept(f, at) && b < |f.blocks|
    requires FlagsKept(f.blocks, at, nodes, b, sound) && (sound ==> !stale)
    requires m.Valid() && MeantRun(p, f, nodes, b, m, stale, fuel).Some?
    requires nodes != [] && (nodes[0].NMov? || nodes[0].NLea? || nodes[0].NCmp? || nodes[0].NArith? || nodes[0].NCmov?)
    ensures MeantRun(p, f, nodes, b, m, stale, fuel).value.right
    decreases fuel, |f.blocks| - b, |nodes|, 0
  {
    hide Meant, Outcome, Printable, ProgramKeepsFlags, AllFlagsKept, FindLabel, SoundAfter, StaleAfter;
    SoundIsFresh(nodes[0], stale, sound);
    var stale1 := if nodes[0].NCmov? then stale else StaleAfter(nodes[0], stale);
    CmovKeepsFlags(nodes[0], stale);
    KeptRunsRight(p, all, f, at, nodes[1..], b, Meant(nodes[0], m).value, stale1, SoundAfter(nodes[0], sound), fuel);
  }

  lemma CmovKeepsFlags(node: Node, stale: bool)
    ensures node.NCmov? ==> StaleAfter(node, stale) == stale
  {
  }

  lemma {:induction false} KeptJumpsRight(p: AsmProgram, all: map<Name, seq<bool>>, f: AsmFunction, at: seq<bool>,
                                          l: Name, m: State, stale: bool, sound: bool, fuel: nat)
    requires ProgramKeepsFlags(p, all) && AllFlagsKept(f, at) && (sound ==> !stale)
    requires FindLabel(f.blocks, l).Some? && at[FindLabel(f.blocks, l).value] ==> sound
    requires m.Valid() && MeantGoto(p, f, l, m, stale, fuel).Some?
    ensures MeantGoto(p, f, l, m, stale, fuel).value.right
    decreases fuel, 0
  {
    hide MeantRun, FlagsKept, ProgramKeepsFlags;
    var t := FindLabel(f.blocks, l).value;
    KeptRunsRight(p, all, f, at, f.blocks[t].nodes, t, m, stale, at[t], fuel - 1);
  }

  lemma {:induction false} KeptCallsRight(p: AsmProgram, all: map<Name, seq<bool>>, g: Name, site: Word, m: State,
                                          stale: bool, fuel: nat)
    requires ProgramKeepsFlags(p, all) && m.Valid() && MeantInvoke(p, g, site, m, stale, fuel).Some?
    ensures MeantInvoke(p, g, site, m, stale, fuel).value.right
    decreases fuel, 0
  {
    hide MeantRun, Push, FlagsKept;
    KeptRunsRight(p, all, p[g], all[g], p[g].blocks[0].nodes, 0, Push(m, site).value, stale, false, fuel - 1);
  }

  /** Printing preserves all calls of a program in which no zero mov lies between a comparison
      and a reader of its flags. */
  lemma PrintingPreservesRuns(p: AsmProgram, at: map<Name, seq<bool>>, g: Name, site: Word, m: State, fuel: nat)
    requires ProgramKeepsFlags(p, at) && m.Valid() && MeantInvoke(p, g, site, m, false, fuel).Some?
    ensures var o := MeantInvoke(p, g, site, m, false, fuel).value;
            Machine.Invoke(p, g, site, m, fuel) == Some(Shown(o.end, o.stale))
  {
    hide MeantInvoke, PrintedInvoke, Machine.Invoke, ProgramKeepsFlags;
    KeptCallsRight(p, at, g, site, m, false, fuel);
    PrintingPreservesRunsExactly(p, g, site, m, fuel);
  }
}
