/** The names whose value a run may still read. A run needs no other names. */
module Liveness {
  import opened Wrappers
  import opened Ir
  import opened Machine
  import opened IrSemantics
  import opened Lifetime
  import opened Reaching

  /** An environment that has the value and contents that another has, for a name. */
  predicate Keeps(env: Env, env1: Env, x: Name) {
    (x in env.vals ==> x in env1.vals && env1.vals[x] == env.vals[x]) &&
    (x in env.vals && env.vals[x].PtrV? && x in env.cells ==> x in env1.cells && env1.cells[x] == env.cells[x])
  }

  ghost predicate KeepsLive(blocks: seq<Block>, p: Place, env: Env, env1: Env) {
    forall x | Live(blocks, p, x) :: Keeps(env, env1, x)
  }

  lemma ReadsAlike(blocks: seq<Block>, p: Place, env: Env, env1: Env, v: Value)
    requires IsPlace(blocks, p) && v in At(blocks, p).operands && KeepsLive(blocks, p, env, env1)
    ensures IntOf(env, v).Some? ==> IntOf(env1, v) == IntOf(env, v)
    ensures BoolOf(env, v).Some? ==> BoolOf(env1, v) == BoolOf(env, v)
    ensures CellOf(env, v).Some? ==> CellOf(env1, v) == CellOf(env, v) && Keeps(env, env1, v.name)
  {
    hide Live;
    if v.Var? {
      ReadIsLive(blocks, p, v);
    }
  }

  lemma KeptOnward(blocks: seq<Block>, p: Place, q: Place, env: Env, env1: Env)
    requires q in Next(blocks, p) && KeepsLive(blocks, p, env, env1) &&
             (IsPlace(blocks, p) ==> IsTerminator(At(blocks, p).op))
    ensures KeepsLive(blocks, q, env, env1)
  {
    hide Live, Next;
    forall x | Live(blocks, q, x) ensures Keeps(env, env1, x) {
      LiveBefore(blocks, p, q, x);
    }
  }

  lemma BoundOnward(blocks: seq<Block>, p: Place, q: Place, env: Env, env1: Env, v: Val)
    requires IsPlace(blocks, p) && q in Next(blocks, p) && KeepsLive(blocks, p, env, env1) && !v.PtrV?
    ensures KeepsLive(blocks, q, Bind(env, At(blocks, p).result, v), Bind(env1, At(blocks, p).result, v))
  {
    hide Live, Next;
    var r := At(blocks, p).result;
    forall x | Live(blocks, q, x) ensures Keeps(Bind(env, r, v), Bind(env1, r, v), x) {
      if r != Some(x) {
        LiveBefore(blocks, p, q, x);
      }
    }
  }

  lemma AllocatedOnward(blocks: seq<Block>, p: Place, q: Place, env: Env, env1: Env, env2: Env)
    requires IsPlace(blocks, p) && q in Next(blocks, p) && KeepsLive(blocks, p, env, env1)
    requires At(blocks, p).op.Allocate? && Perform(At(blocks, p), env) == Some(env2)
    ensures Perform(At(blocks, p), env1).Some? && KeepsLive(blocks, q, env2, Perform(At(blocks, p), env1).value)
  {
    hide Live, Next;
    forall x | Live(blocks, q, x) ensures Keeps(env2, Perform(At(blocks, p), env1).value, x) {
      if At(blocks, p).result != Some(x) {
        LiveBefore(blocks, p, q, x);
      }
    }
  }

  lemma StoredOnward(blocks: seq<Block>, p: Place, q: Place, env: Env, env1: Env, env2: Env)
    requires IsPlace(blocks, p) && q in Next(blocks, p) && KeepsLive(blocks, p, env, env1)
    requires At(blocks, p).op.Store? && Perform(At(blocks, p), env) == Some(env2)
    ensures Perform(At(blocks, p), env1).Some? && KeepsLive(blocks, q, env2, Perform(At(blocks, p), env1).value)
  {
    hide Live, Next, IntOf, CellOf;
    var inst := At(blocks, p);
    ReadsAlike(blocks, p, env, env1, inst.operands[0]);
    ReadsAlike(blocks, p, env, env1, inst.operands[1]);
    forall x | Live(blocks, q, x) ensures Keeps(env2, Perform(inst, env1).value, x) {
      LiveBefore(blocks, p, q, x);
    }
  }

  /** An instruction computes the same from the live names alone. */
  lemma ComputesAlike(blocks: seq<Block>, p: Place, env: Env, env1: Env)
    requires IsPlace(blocks, p) && KeepsLive(blocks, p, env, env1) && Compute(At(blocks, p), env).Some?
    ensures Compute(At(blocks, p), env1) == Compute(At(blocks, p), env)
  {
    hide Live, KeepsLive, IntOf, BoolOf;
    var ops := At(blocks, p).operands;
    forall v | v in ops
      ensures IntOf(env, v).Some? ==> IntOf(env1, v) == IntOf(env, v)
      ensures BoolOf(env, v).Some? ==> BoolOf(env1, v) == BoolOf(env, v)
      ensures CellOf(env, v).Some? ==> CellOf(env1, v) == CellOf(env, v) && Keeps(env, env1, v.name)
    {
      ReadsAlike(blocks, p, env, env1, v);
    }
  }

  lemma PerformsAlike(blocks: seq<Block>, p: Place, env: Env, env1: Env, env2: Env)
    requires IsPlace(blocks, p) && KeepsLive(blocks, p, env, env1) && Perform(At(blocks, p), env) == Some(env2)
    ensures Perform(At(blocks, p), env1).Some?
    ensures KeepsLive(blocks, (p.0, p.1 + 1), env2, Perform(At(blocks, p), env1).value)
  {
    hide KeepsLive, Compute;
    var inst, q := At(blocks, p), (p.0, p.1 + 1);
    PerformsOn(inst, env);
    if inst.op.Store? {
      StoredOnward(blocks, p, q, env, env1, env2);
    } else if inst.op.Allocate? {
      AllocatedOnward(blocks, p, q, env, env1, env2);
    } else {
      ComputesAlike(blocks, p, env, env1);
      NoPointer(inst, env);
      BoundOnward(blocks, p, q, env, env1, Compute(inst, env).value);
    }
  }

  lemma PerformsOn(inst: Inst, env: Env)
    requires Perform(inst, env).Some?
    ensures Targets(inst.op) == [] && !inst.op.Ret?
    ensures !inst.op.Store? ==> Compute(inst, env).Some?
  {
  }

  lemma NoPointer(inst: Inst, env: Env)
    requires Compute(inst, env).Some? && !inst.op.Allocate?
    ensures !Compute(inst, env).value.PtrV?
  {
    hide IntOf, BoolOf, CellOf, Arithmetic;
  }

  lemma IntsAlike(blocks: seq<Block>, p: Place, env: Env, env1: Env)
    requires IsPlace(blocks, p) && KeepsLive(blocks, p, env, env1) && IntsOf(env, At(blocks, p).operands).Some?
    ensures IntsOf(env1, At(blocks, p).operands) == IntsOf(env, At(blocks, p).operands)
  {
    hide KeepsLive, IntOf;
    var ops := At(blocks, p).operands;
    forall i | 0 <= i < |ops| ensures IntOf(env1, ops[i]) == IntOf(env, ops[i]) {
      ReadsAlike(blocks, p, env, env1, ops[i]);
    }
    SameInts(env, env1, ops);
  }

  lemma {:induction false} SameInts(env: Env, env1: Env, ops: seq<Value>)
    requires forall i | 0 <= i < |ops| :: IntOf(env1, ops[i]) == IntOf(env, ops[i])
    ensures IntsOf(env1, ops) == IntsOf(env, ops)
  {
    hide IntOf;
    if ops != [] {
      assert forall i | 0 <= i < |ops| - 1 :: ops[1..][i] == ops[i + 1];
      SameInts(env, env1, ops[1..]);
    }
  }

  /** The rest of a block's instructions from place p on. */
  function From(f: Function, p: Place): seq<Inst>
    requires p.0 < |f.blocks| && p.1 <= |f.blocks[p.0].insts|
  {
    f.blocks[p.0].insts[p.1..]
  }

  lemma GotoKeeps(p: Program, f: Function, l: Name, env: Env, env1: Env, fuel: nat, calls: nat, v: Option<Word>)
    requires IrSemantics.Goto(p, f, l, env, fuel, calls) == Some(v)
    requires FindBlock(f.blocks, l).Some? ==> KeepsLive(f.blocks, (FindBlock(f.blocks, l).value, 0), env, env1)
    ensures IrSemantics.Goto(p, f, l, env1, fuel, calls) == Some(v)
    decreases fuel, 0, 0
  {
    hide KeepsLive, IrSemantics.Run, FindBlock;
    var t := FindBlock(f.blocks, l).value;
    assert From(f, (t, 0)) == f.blocks[t].insts;
    RunKeeps(p, f, (t, 0), env, env1, fuel - 1, calls, v);
  }

  /** A run needs the live names only: whatever else an environment holds, the function
      returns the same. */
  lemma {:induction false} RunKeeps(p: Program, f: Function, at: Place, env: Env, env1: Env, fuel: nat, calls: nat,
                                    v: Option<Word>)
    requires at.0 < |f.blocks| && at.1 <= |f.blocks[at.0].insts| && KeepsLive(f.blocks, at, env, env1)
    requires IrSemantics.Run(p, f, From(f, at), at.0, env, fuel, calls) == Some(v)
    ensures IrSemantics.Run(p, f, From(f, at), at.0, env1, fuel, calls) == Some(v)
    decreases fuel, |f.blocks| - at.0, |f.blocks[at.0].insts| - at.1
  {
    hide KeepsLive, IrSemantics.Goto, IrSemantics.Invoke, IntsOf, IntOf, BoolOf, Perform, FindBlock;
    var insts, b := From(f, at), at.0;
    if insts == [] {
      assert From(f, (b + 1, 0)) == f.blocks[b + 1].insts;
      KeptOnward(f.blocks, at, (b + 1, 0), env, env1);
      RunKeeps(p, f, (b + 1, 0), env, env1, fuel, calls, v);
    } else {
      var inst, next := insts[0], (b, at.1 + 1);
      assert inst == At(f.blocks, at) && insts[1..] == From(f, next);
      if inst.op.Ret? {
        RetAlike(f.blocks, at, env, env1);
      } else if inst.op.Jmp? {
        TransferKeeps(p, f, at, inst.op.target, env, env1, fuel, calls, v);
      } else if inst.op.Branch? {
        ReadsAlike(f.blocks, at, env, env1, inst.operands[0]);
        TransferKeeps(p, f, at, if BoolOf(env, inst.operands[0]).value then inst.op.onTrue else inst.op.onFalse, env,
                      env1, fuel, calls, v);
      } else if inst.op.Call? {
        IntsAlike(f.blocks, at, env, env1);
        var w := IrSemantics.Invoke(p, inst.op.callee, IntsOf(env, inst.operands).value, fuel, calls).value;
        if inst.result.None? {
          CallKeeps(f.blocks, at, env, env1);
          RunKeeps(p, f, next, env, env1, fuel, calls, v);
        } else {
          BoundOnward(f.blocks, at, next, env, env1, IntV(w.value));
          RunKeeps(p, f, next, Bind(env, inst.result, IntV(w.value)), Bind(env1, inst.result, IntV(w.value)), fuel,
                   calls, v);
        }
      } else {
        PerformsAlike(f.blocks, at, env, env1, Perform(inst, env).value);
        RunKeeps(p, f, next, Perform(inst, env).value, Perform(inst, env1).value, fuel, calls, v);
      }
    }
  }

  lemma RetAlike(blocks: seq<Block>, p: Place, env: Env, env1: Env)
    requires IsPlace(blocks, p) && KeepsLive(blocks, p, env, env1)
    ensures var ops := At(blocks, p).operands;
            |ops| == 1 && IntOf(env, ops[0]).Some? ==> IntOf(env1, ops[0]) == IntOf(env, ops[0])
  {
    hide KeepsLive, IntOf;
    var ops := At(blocks, p).operands;
    if |ops| == 1 {
      ReadsAlike(blocks, p, env, env1, ops[0]);
    }
  }

  lemma CallKeeps(blocks: seq<Block>, p: Place, env: Env, env1: Env)
    requires IsPlace(blocks, p) && At(blocks, p).op.Call? && At(blocks, p).result.None? &&
             KeepsLive(blocks, p, env, env1)
    ensures KeepsLive(blocks, (p.0, p.1 + 1), env, env1)
  {
    hide Live;
    forall x | Live(blocks, (p.0, p.1 + 1), x) ensures Keeps(env, env1, x) {
      LiveBefore(blocks, p, (p.0, p.1 + 1), x);
    }
  }

  lemma TransferKeeps(p: Program, f: Function, at: Place, l: Name, env: Env, env1: Env, fuel: nat, calls: nat,
                      v: Option<Word>)
    requires IsPlace(f.blocks, at) && l in Targets(At(f.blocks, at).op) && KeepsLive(f.blocks, at, env, env1)
    requires IrSemantics.Goto(p, f, l, env, fuel, calls) == Some(v)
    ensures IrSemantics.Goto(p, f, l, env1, fuel, calls) == Some(v)
    decreases fuel, 0, 1
  {
    hide KeepsLive, IrSemantics.Run, FindBlock;
    if FindBlock(f.blocks, l).Some? {
      KeptOnward(f.blocks, at, (FindBlock(f.blocks, l).value, 0), env, env1);
    }
    GotoKeeps(p, f, l, env, env1, fuel, calls, v);
  }

  /** The same from the start of a block. */
  lemma BlockRunKeeps(p: Program, f: Function, t: nat, env: Env, env1: Env, fuel: nat, calls: nat, v: Option<Word>)
    requires t < |f.blocks| && KeepsLive(f.blocks, (t, 0), env, env1)
    requires IrSemantics.Run(p, f, f.blocks[t].insts, t, env, fuel, calls) == Some(v)
    ensures IrSemantics.Run(p, f, f.blocks[t].insts, t, env1, fuel, calls) == Some(v)
  {
    assert From(f, (t, 0)) == f.blocks[t].insts;
    RunKeeps(p, f, (t, 0), env, env1, fuel, calls, v);
  }
}
