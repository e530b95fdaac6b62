/** Prologue and epilogue undo each other, and slots of a frame do not overlap. */
module Frames {
  import opened Wrappers
  import opened Ir
  import opened Machine

  /** Bytes a frame takes below the return address. */
  function Depth(frame: nat, saved: seq<nat>): nat {
    (if frame == 0 then 0 else 8 + frame) + 8 * |saved|
  }

  ghost predicate Registers(saved: seq<nat>) {
    (forall i | 0 <= i < |saved| :: saved[i] < REGISTERS) &&
    (forall i, j | 0 <= i < j < |saved| :: saved[i] != saved[j])
  }

  /** The i-th register pushed downwards from top is in its cell. */
  ghost predicate Pushed(mem: map<int, Word>, top: int, i: nat, w: Word) {
    top - 8 * (i + 1) in mem && mem[top - 8 * (i + 1)] == w
  }

  /** Register values were pushed downwards from top. */
  ghost predicate PushedAt(mem: map<int, Word>, top: int, saved: seq<nat>, regs: seq<Word>)
    requires |regs| == REGISTERS && Registers(saved)
  {
    forall i | 0 <= i < |saved| :: Pushed(mem, top, i, regs[saved[i]])
  }

  ghost predicate SameFrom(m0: map<int, Word>, m1: map<int, Word>, from: int) {
    forall a | from <= a :: SameCell(m0, m1, a)
  }

  lemma {:induction false} PushRegsPushes(saved: seq<nat>, m: State)
    requires m.Valid() && Registers(saved) && 8 * |saved| <= m.rsp
    ensures PushRegs(saved, m).Some?
    ensures var m1 := PushRegs(saved, m).value;
            m1 == m.(rsp := m.rsp - 8 * |saved|, mem := m1.mem) &&
            PushedAt(m1.mem, m.rsp, saved, m.regs) && SameFrom(m.mem, m1.mem, m.rsp)
  {
    if saved != [] {
      var m1 := Push(m, m.regs[saved[0]]).value;
      assert Registers(saved[1..]);
      PushRegsPushes(saved[1..], m1);
      var m2 := PushRegs(saved, m).value;
      forall a | m.rsp <= a ensures SameCell(m.mem, m2.mem, a) {
        WriteApart(m.mem, m.rsp - 8, m.regs[saved[0]], a);
        assert SameCell(m1.mem, m2.mem, a);
      }
      forall i | 0 <= i < |saved| ensures Pushed(m2.mem, m.rsp, i, m.regs[saved[i]]) {
        if i == 0 {
          assert SameCell(m1.mem, m2.mem, m.rsp - 8);
        } else {
          assert saved[1..][i - 1] == saved[i];
          assert Pushed(m2.mem, m1.rsp, i - 1, m.regs[saved[i]]);
        }
      }
    }
  }

  lemma PopLast(saved: seq<nat>, m: State, w: Word)
    requires m.Valid() && saved != [] && saved[|saved| - 1] < REGISTERS && m.rsp + 8 < WORD && m.rsp in m.mem &&
             m.mem[m.rsp] == w
    ensures PopRegs(saved, m) == PopRegs(saved[..|saved| - 1],
                                         m.(rsp := m.rsp + 8, regs := m.regs[saved[|saved| - 1] := w]))
  {
  }

  lemma RegistersRest(saved: seq<nat>)
    requires Registers(saved) && saved != []
    ensures Registers(saved[..|saved| - 1]) && saved[|saved| - 1] < REGISTERS &&
            saved[|saved| - 1] !in saved[..|saved| - 1]
    ensures forall r :: r in saved <==> r in saved[..|saved| - 1] || r == saved[|saved| - 1]
  {
    assert saved == saved[..|saved| - 1] + [saved[|saved| - 1]];
  }

  lemma PushedRest(mem: map<int, Word>, rsp: int, saved: seq<nat>, regs: seq<Word>)
    requires |regs| == REGISTERS && Registers(saved) && saved != [] && Registers(saved[..|saved| - 1])
    requires PushedAt(mem, rsp + 8 * |saved|, saved, regs)
    ensures rsp in mem && mem[rsp] == regs[saved[|saved| - 1]]
    ensures PushedAt(mem, rsp + 8 + 8 * (|saved| - 1), saved[..|saved| - 1], regs)
  {
    var rest := saved[..|saved| - 1];
    assert Pushed(mem, rsp + 8 * |saved|, |saved| - 1, regs[saved[|saved| - 1]]);
    forall i | 0 <= i < |rest| ensures Pushed(mem, rsp + 8 + 8 * |rest|, i, regs[rest[i]]) {
      assert Pushed(mem, rsp + 8 * |saved|, i, regs[saved[i]]);
    }
  }

  lemma {:induction false} PopRegsPops(saved: seq<nat>, m: State, regs: seq<Word>)
    requires m.Valid() && Registers(saved) && |regs| == REGISTERS && m.rsp + 8 * |saved| < WORD
    requires PushedAt(m.mem, m.rsp + 8 * |saved|, saved, regs)
    ensures PopRegs(saved, m).Some?
    ensures var m1 := PopRegs(saved, m).value;
            m1 == m.(rsp := m.rsp + 8 * |saved|, regs := m1.regs) &&
            forall r | 0 <= r < REGISTERS :: m1.regs[r] == if r in saved then regs[r] else m.regs[r]
    decreases |saved|
  {
    if saved != [] {
      hide PopRegs, PushedAt, Registers;
      var last := |saved| - 1;
      RegistersRest(saved);
      PushedRest(m.mem, m.rsp, saved, regs);
      var w := m.mem[m.rsp];
      var m1 := m.(rsp := m.rsp + 8, regs := m.regs[saved[last] := w]);
      PopLast(saved, m, w);
      PopRegsPops(saved[..last], m1, regs);
    }
  }

  /** The state when the prologue is done: where rsp and rbp are, and what is saved. */
  ghost predicate Entered(frame: nat, saved: seq<nat>, m0: State, m1: State)
    requires m0.Valid() && Registers(saved)
  {
    m1.Valid() && m1.regs == m0.regs && m1.rsp + Depth(frame, saved) == m0.rsp &&
    SameFrom(m0.mem, m1.mem, m0.rsp) &&
    PushedAt(m1.mem, m1.rsp + 8 * |saved|, saved, m0.regs) &&
    (frame == 0 ==> m1.rbp == m0.rbp) &&
    (frame != 0 ==> m1.rbp + 8 == m0.rsp && m1.rbp in m1.mem && m1.mem[m1.rbp] == m0.rbp)
  }

  lemma PrologueEnters(frame: nat, saved: seq<nat>, m: State)
    requires m.Valid() && Registers(saved) && Depth(frame, saved) <= m.rsp
    ensures Prologue(frame, saved, m).Some? && Entered(frame, saved, m, Prologue(frame, saved, m).value)
  {
    if frame == 0 {
      PushRegsPushes(saved, m);
    } else {
      var m1 := Push(m, m.rbp).value;
      var m2 := m1.(rbp := m1.rsp, rsp := m1.rsp - frame, flags := None);
      PushRegsPushes(saved, m2);
      var m3 := PushRegs(saved, m2).value;
      forall a | m.rsp <= a ensures SameCell(m.mem, m3.mem, a) {
        WriteApart(m.mem, m.rsp - 8, m.rbp, a);
        assert SameCell(m2.mem, m3.mem, a);
      }
      assert SameCell(m2.mem, m3.mem, m.rsp - 8);
    }
  }

  /** The cells a body must leave alone: the caller's, the saved rbp and the saved
      registers. What lies in the frame or below rsp is its own. */
  ghost predicate KeepsSaved(frame: nat, m1: State, m2: State) {
    m2.rsp == m1.rsp && m2.rbp == m1.rbp &&
    forall a | m1.rsp <= a && (frame == 0 || a + 8 <= m1.rbp - frame || m1.rbp <= a) :: SameCell(m1.mem, m2.mem, a)
  }

  /** Prologue and epilogue undo each other: after a body that keeps rsp, rbp and the
      saved cells, ret restores every saved register, rbp and rsp, leaves the caller's
      memory as it was, and returns to the address found on the stack. */
  lemma EpilogueUndoesPrologue(frame: nat, saved: seq<nat>, m0: State, m1: State, m2: State)
    requires m0.Valid() && m2.Valid() && Registers(saved) && Entered(frame, saved, m0, m1) && KeepsSaved(frame, m1, m2)
    requires m0.rsp in m0.mem && m0.rsp + 8 < WORD
    ensures Epilogue(frame, saved, m2).Some?
    ensures var (back, m3) := Epilogue(frame, saved, m2).value;
            back == m0.mem[m0.rsp] && m3.rsp == m0.rsp + 8 && m3.rbp == m0.rbp &&
            (forall r | 0 <= r < REGISTERS :: m3.regs[r] == if r in saved then m0.regs[r] else m2.regs[r]) &&
            SameFrom(m0.mem, m3.mem, m0.rsp)
  {
    var top := m1.rsp + 8 * |saved|;
    assert PushedAt(m2.mem, top, saved, m0.regs) by {
      forall i | 0 <= i < |saved| ensures Pushed(m2.mem, top, i, m0.regs[saved[i]]) {
        assert Pushed(m1.mem, top, i, m0.regs[saved[i]]);
        assert SameCell(m1.mem, m2.mem, top - 8 * (i + 1));
      }
    }
    PopRegsPops(saved, m2, m0.regs);
    assert SameCell(m0.mem, m1.mem, m0.rsp) && SameCell(m1.mem, m2.mem, m0.rsp);
    if frame != 0 {
      assert SameCell(m1.mem, m2.mem, m1.rbp);
    }
    var (_, m3) := Epilogue(frame, saved, m2).value;
    forall a | m0.rsp <= a ensures SameCell(m0.mem, m3.mem, a) {
      assert SameCell(m0.mem, m1.mem, a) && SameCell(m1.mem, m2.mem, a);
    }
  }
}
