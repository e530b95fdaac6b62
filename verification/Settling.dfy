/** Dropping, erasing, cleaning up and mapping the result keep the names still needed
    where they are. */
module Settling {
  import opened Wrappers
  import opened Ir
  import opened Machine
  import opened Storage
  import opened Lowering
  import opened Ownership
  import opened Tampering
  import opened Simulation

  /** No needed name shares a register with x. */
  ghost predicate Apart(st: Store, x: Name, need: set<Name>) {
    x !in need && (x in st.vmap && st.vmap[x].InReg? ==> Unneeded(st, need, st.vmap[x].reg))
  }

  ghost predicate AllApart(st: Store, xs: seq<Name>, need: set<Name>) {
    forall i | 0 <= i < |xs| :: Apart(st, xs[i], need)
  }

  /** Needed names are mapped as before; the frame is as before. */
  ghost predicate Steady(st: Store, st1: Store, need: set<Name>) {
    (forall x | x in need :: (x in st1.vmap <==> x in st.vmap) && (x in st.vmap ==> st1.vmap[x] == st.vmap[x])) &&
    st1.frame == st.frame && Tampered(st) <= Tampered(st1) &&
    (forall r: Register :: st1.cells[r].size == st.cells[r].size)
  }

  lemma SteadyThen(st: Store, st1: Store, st2: Store, need: set<Name>)
    requires Steady(st, st1, need) && Steady(st1, st2, need)
    ensures Steady(st, st2, need)
  {
  }

  lemma DropKeeps(st: Store, x: Name, need: set<Name>)
    requires Good(st, need) && Apart(st, x, need)
    ensures Good(DropOwnership(st, x), need) && Steady(st, DropOwnership(st, x), need)
    ensures DropOwnership(st, x).vmap == st.vmap
  {
    EraseValueSound(st, x);
  }

  lemma EraseKeeps(st: Store, x: Name, need: set<Name>)
    requires Good(st, need) && Apart(st, x, need)
    ensures Good(EraseValue(st, x), need) && Steady(st, EraseValue(st, x), need)
    ensures EraseValue(st, x).vmap == st.vmap - {x}
  {
    EraseValueSound(st, x);
  }

  lemma ApartSubset(st: Store, st1: Store, xs: seq<Name>, need: set<Name>)
    requires AllApart(st, xs, need) && (forall x | x in st1.vmap :: x in st.vmap && st1.vmap[x] == st.vmap[x])
    ensures AllApart(st1, xs, need)
  {
    forall i | 0 <= i < |xs| ensures Apart(st1, xs[i], need) {
      assert Apart(st, xs[i], need);
    }
  }

  lemma ApartTail(st: Store, xs: seq<Name>, need: set<Name>)
    requires AllApart(st, xs, need) && xs != []
    ensures Apart(st, xs[0], need) && AllApart(st, xs[1..], need)
  {
    forall i | 0 <= i < |xs| - 1 ensures Apart(st, xs[1..][i], need) {
      assert xs[1..][i] == xs[i + 1];
    }
  }

  lemma {:induction false} DropAllKeeps(st: Store, xs: seq<Name>, need: set<Name>)
    requires Good(st, need) && AllApart(st, xs, need)
    ensures Good(DropAll(st, xs), need) && Steady(st, DropAll(st, xs), need) && DropAll(st, xs).vmap == st.vmap
    decreases |xs|
  {
    hide Good, Apart, AllApart, Steady, DropOwnership;
    if xs != [] {
      ApartTail(st, xs, need);
      DropKeeps(st, xs[0], need);
      ApartSubset(st, DropOwnership(st, xs[0]), xs[1..], need);
      DropAllKeeps(DropOwnership(st, xs[0]), xs[1..], need);
      SteadyThen(st, DropOwnership(st, xs[0]), DropAll(st, xs), need);
    } else {
      SteadySame(st, need);
    }
  }

  lemma SteadySame(st: Store, need: set<Name>)
    ensures Steady(st, st, need)
  {
  }

  lemma {:induction false} EraseAllKeeps(st: Store, xs: seq<Name>, need: set<Name>)
    requires Good(st, need) && AllApart(st, xs, need)
    ensures Good(EraseAll(st, xs), need) && Steady(st, EraseAll(st, xs), need)
    ensures forall x :: x in EraseAll(st, xs).vmap ==> x in st.vmap && EraseAll(st, xs).vmap[x] == st.vmap[x]
    decreases |xs|
  {
    hide Good, Apart, AllApart, Steady, EraseValue;
    if xs != [] {
      ApartTail(st, xs, need);
      EraseKeeps(st, xs[0], need);
      ApartSubset(st, EraseValue(st, xs[0]), xs[1..], need);
      EraseAllKeeps(EraseValue(st, xs[0]), xs[1..], need);
      SteadyThen(st, EraseValue(st, xs[0]), EraseAll(st, xs), need);
    } else {
      SteadySame(st, need);
    }
  }

  ghost predicate UserNames(names: set<Name>) {
    forall x | x in names :: UserName(x)
  }

  lemma CleanTempsKeeps(st: Store, need: set<Name>)
    requires Good(st, need) && UserNames(need)
    ensures Good(CleanTemps(st), need) && Steady(st, CleanTemps(st), need) && CleanTemps(st).vmap == st.vmap
  {
    CleanTempsSound(st);
  }

  /** A location a result may get: no needed name's register, and clear of their slots. */
  ghost predicate Fits(st: Store, loc: Loc, need: set<Name>) {
    (loc.InReg? ==> EightBytes(st.cells[loc.reg].size) && Unneeded(st, need, loc.reg)) &&
    (loc.Slot? ==> 8 <= loc.below <= st.frame) &&
    (forall x | loc.Slot? && x in need && x in st.vmap && st.vmap[x].Slot? ::
       st.vmap[x].below + 8 <= loc.below || loc.below + 8 <= st.vmap[x].below)
  }

  lemma FitsSteady(st: Store, st1: Store, loc: Loc, need: set<Name>)
    requires Fits(st, loc, need) && Steady(st, st1, need)
    ensures Fits(st1, loc, need)
  {
  }

  lemma MapValueKeeps(st: Store, x: Name, loc: Loc, need: set<Name>)
    requires Good(st, need) && UserName(x) && x !in st.vmap && Fits(st, loc, need)
    ensures Good(MapValue(st, x, loc), need) && Steady(st, MapValue(st, x, loc), need - {x})
    ensures MapValue(st, x, loc).vmap == st.vmap[x := loc]
  {
    UserNamesSettled(st, x);
    MapValueSound(st, x, loc);
  }

  /** The end of an instruction keeps needed names in place and adds the result. */
  lemma SettleKeeps(st: Store, inst: Inst, pending: seq<Name>, dest: Option<Loc>, need: set<Name>)
    requires Good(st, need) && UserNames(need) && AllApart(st, pending, need)
    requires inst.result.Some? ==> UserName(inst.result.value) && inst.result.value !in st.vmap
    requires dest.Some? && inst.result.Some? ==> Fits(st, dest.value, need)
    ensures var st1 := Settle(st, inst, pending, dest);
            Good(st1, need) && st1.frame == st.frame && Tampered(st) <= Tampered(st1) &&
            (forall x | x in need && !(dest.Some? && inst.result == Some(x)) ::
               (x in st1.vmap <==> x in st.vmap) && (x in st.vmap ==> st1.vmap[x] == st.vmap[x])) &&
            (dest.Some? && inst.result.Some? ==>
               inst.result.value in st1.vmap && st1.vmap[inst.result.value] == dest.value)
  {
    hide Good, Apart, AllApart, EraseAll, DropAll, CleanTemps, MapValue, Fits;
    DropAllKeeps(st, pending, need);
    SteadySame(st, need);
    var st1 := if AutoDrop(inst.op) then st else DropAll(st, pending);
    ApartSubset(st, st1, pending, need);
    EraseAllKeeps(st1, pending, need);
    var st2 := EraseAll(st1, pending);
    CleanTempsKeeps(st2, need);
    var st3 := CleanTemps(st2);
    SteadyThen(st, st1, st2, need);
    SteadyThen(st, st2, st3, need);
    if dest.Some? && inst.result.Some? {
      FitsSteady(st, st3, dest.value, need);
      MapValueKeeps(st3, inst.result.value, dest.value, need);
    }
  }
}
