/** Where control can go in a function, and exactly when the drop flags of the lifetime
    analysis are sound (src/backend/ir_analyzer/scope_analyzer.cpp). */
module Reaching {
  import opened Wrappers
  import opened Ir
  import opened Lifetime

  /** Places, ends of blocks, and the point behind the last block. */
  predicate IsPoint(blocks: seq<Block>, p: Place) {
    (p.0 < |blocks| && p.1 <= |blocks[p.0].insts|) || p == (|blocks|, 0)
  }

  function Points(blocks: seq<Block>): (r: set<Place>)
    ensures forall p: Place :: p in r <==> IsPoint(blocks, p)
  {
    (set b: nat, i: nat | b < |blocks| && i <= |blocks[b].insts| :: (b, i)) + {(|blocks|, 0)}
  }

  /** The points one step of control can lead to: the next instruction, the blocks a
      terminator names, or the next block. */
  function Next(blocks: seq<Block>, p: Place): set<Place> {
    if p.0 >= |blocks| || p.1 > |blocks[p.0].insts| then {}
    else if p.1 == |blocks[p.0].insts| then {(p.0 + 1, 0)}
    else
      var op := At(blocks, p).op;
      if Targets(op) != [] then
        set l | l in Targets(op) && FindBlock(blocks, l).Some? :: (FindBlock(blocks, l).value, 0)
      else if op.Ret? then {}
      else {(p.0, p.1 + 1)}
  }

  lemma NextIsFollows(blocks: seq<Block>, p: Place, q: Place)
    ensures q in Next(blocks, p) <==> Follows(blocks, p, q)
    ensures q in Next(blocks, p) ==> IsPoint(blocks, q)
  {
  }

  /** One step from each of some points, but from none of the stops. */
  function Onward(blocks: seq<Block>, stops: set<Place>, s: set<Place>): set<Place> {
    set p, q | p in s && p !in stops && q in Next(blocks, p) :: q
  }

  /** The least set with the given points that no step leaves, except from a stop. */
  function Closure(blocks: seq<Block>, stops: set<Place>, s: set<Place>): (r: set<Place>)
    requires s <= Points(blocks)
    ensures s <= r <= Points(blocks) && Onward(blocks, stops, r) <= r
    decreases |Points(blocks) - s|
  {
    var more := Onward(blocks, stops, s) - s;
    OnwardPoints(blocks, stops, s);
    if more == {} then s
    else
      Shrinks(Points(blocks), s, more);
      Closure(blocks, stops, s + more)
  }

  lemma OnwardPoints(blocks: seq<Block>, stops: set<Place>, s: set<Place>)
    ensures Onward(blocks, stops, s) <= Points(blocks)
  {
    forall p, q | p in s && p !in stops && q in Next(blocks, p) ensures q in Points(blocks) {
      NextIsFollows(blocks, p, q);
    }
  }

  lemma Shrinks(all: set<Place>, s: set<Place>, more: set<Place>)
    requires more <= all && more !! s && more != {}
    ensures |all - (s + more)| < |all - s|
  {
    assert all - s == (all - (s + more)) + more;
  }

  /** The points control can get to in one or more steps from a point. */
  function Reach(blocks: seq<Block>, stops: set<Place>, p: Place): set<Place> {
    OnwardPoints(blocks, stops, {p});
    Closure(blocks, stops, Onward(blocks, stops, {p}))
  }

  /** A run that passes no stop before its end. */
  ghost predicate IsPath(blocks: seq<Block>, stops: set<Place>, run: seq<Place>) {
    IsRun(blocks, run) && forall k | 0 <= k < |run| - 1 :: run[k] !in stops
  }

  ghost predicate Arrives(blocks: seq<Block>, stops: set<Place>, p: Place, q: Place) {
    exists run: seq<Place> :: IsPath(blocks, stops, run) && |run| >= 2 && run[0] == p && run[|run| - 1] == q
  }

  lemma ArrivesFurther(blocks: seq<Block>, stops: set<Place>, p: Place, q: Place, r: Place)
    requires q !in stops && r in Next(blocks, q) && (q == p || Arrives(blocks, stops, p, q))
    ensures Arrives(blocks, stops, p, r)
  {
    NextIsFollows(blocks, q, r);
    var run := [p];
    if q != p {
      run :| IsPath(blocks, stops, run) && |run| >= 2 && run[0] == p && run[|run| - 1] == q;
    }
    var longer := run + [r];
    forall k | 0 <= k < |longer| - 1 ensures Follows(blocks, longer[k], longer[k + 1]) && longer[k] !in stops {
      if k < |run| - 1 {
        assert Follows(blocks, run[k], run[k + 1]);
      }
    }
    assert IsPath(blocks, stops, longer);
  }

  lemma {:induction false} ClosureArrives(blocks: seq<Block>, stops: set<Place>, p: Place, s: set<Place>)
    requires s <= Points(blocks) && forall q | q in s :: Arrives(blocks, stops, p, q)
    ensures forall q | q in Closure(blocks, stops, s) :: Arrives(blocks, stops, p, q)
    decreases |Points(blocks) - s|
  {
    hide Next, Arrives;
    var more := Onward(blocks, stops, s) - s;
    OnwardPoints(blocks, stops, s);
    if more != {} {
      forall r | r in more ensures Arrives(blocks, stops, p, r) {
        var q :| q in s && q !in stops && r in Next(blocks, q);
        ArrivesFurther(blocks, stops, p, q, r);
      }
      Shrinks(Points(blocks), s, more);
      ClosureArrives(blocks, stops, p, s + more);
    }
  }

  lemma {:induction false} PathInReach(blocks: seq<Block>, stops: set<Place>, run: seq<Place>, k: nat)
    requires IsPath(blocks, stops, run) && 0 < k < |run|
    ensures run[k] in Reach(blocks, stops, run[0])
    decreases k
  {
    hide Next, Closure;
    assert Follows(blocks, run[k - 1], run[k]);
    NextIsFollows(blocks, run[k - 1], run[k]);
    if k == 1 {
      assert run[k] in Onward(blocks, stops, {run[0]});
    } else {
      PathInReach(blocks, stops, run, k - 1);
      assert run[k] in Onward(blocks, stops, Reach(blocks, stops, run[0]));
    }
  }

  /** The computed set is reachability by runs. */
  lemma ReachIsArrival(blocks: seq<Block>, stops: set<Place>, p: Place, q: Place)
    ensures q in Reach(blocks, stops, p) <==> Arrives(blocks, stops, p, q)
  {
    hide Next, Closure;
    if Arrives(blocks, stops, p, q) {
      var run :| IsPath(blocks, stops, run) && |run| >= 2 && run[0] == p && run[|run| - 1] == q;
      PathInReach(blocks, stops, run, |run| - 1);
    }
    var first := Onward(blocks, stops, {p});
    OnwardPoints(blocks, stops, {p});
    forall r | r in first ensures Arrives(blocks, stops, p, r) {
      ArrivesFurther(blocks, stops, p, p, r);
    }
    ClosureArrives(blocks, stops, p, first);
  }

  // Drops

  /** The names that the flags of an instruction mark. */
  function DroppedNames(inst: Inst): set<Name> {
    set k | 0 <= k < |inst.operands| && k < |inst.dropped| && inst.operands[k].Var? && inst.dropped[k] ::
      inst.operands[k].name
  }

  /** The names that an instruction reads and that nothing below it mentions. */
  function LastUses(blocks: seq<Block>, p: Place): set<Name>
    requires IsPlace(blocks, p)
  {
    Uses(At(blocks, p)) - Later(blocks, p)
  }

  ghost predicate AllFlagged(blocks: seq<Block>) {
    forall p: Place | IsPlace(blocks, p) :: Flagged(At(blocks, p), Later(blocks, p))
  }

  lemma FlagsMarkLastUses(blocks: seq<Block>, p: Place)
    requires IsPlace(blocks, p) && Flagged(At(blocks, p), Later(blocks, p))
    ensures DroppedNames(At(blocks, p)) == LastUses(blocks, p)
  {
    hide Later;
    var inst := At(blocks, p);
    forall x | x in LastUses(blocks, p) ensures x in DroppedNames(inst) {
      var v :| v in inst.operands && v.Var? && v.name == x;
      var k :| 0 <= k < |inst.operands| && inst.operands[k] == v;
      assert inst.dropped[k];
    }
    forall x | x in DroppedNames(inst) ensures x in LastUses(blocks, p) {
      var k :| 0 <= k < |inst.operands| && inst.operands[k].Var? && inst.dropped[k] && inst.operands[k].name == x;
      assert inst.operands[k] in inst.operands;
    }
  }

  /** Step l of a run is after step k, and both are at instructions. */
  ghost predicate Passes(blocks: seq<Block>, run: seq<Place>, k: nat, l: nat) {
    IsRun(blocks, run) && k < l < |run| && IsPlace(blocks, run[k]) && IsPlace(blocks, run[l])
  }

  /** No run from one of some points mentions a name after an instruction that drops it. */
  ghost predicate DropsSound(blocks: seq<Block>, starts: set<Place>) {
    forall run: seq<Place>, k: nat, l: nat | Passes(blocks, run, k, l) && run[0] in starts ::
      DroppedNames(At(blocks, run[k])) !! Mentions(At(blocks, run[l]))
  }

  /** No instruction that control can get to from a name's last use mentions the name. */
  predicate LastUsesFinal(blocks: seq<Block>, points: set<Place>) {
    forall p, q | p in points && q in Reach(blocks, {}, p) && IsPlace(blocks, p) && IsPlace(blocks, q) ::
      LastUses(blocks, p) !! Mentions(At(blocks, q))
  }

  lemma SuffixIsRun(blocks: seq<Block>, run: seq<Place>, k: nat)
    requires IsRun(blocks, run) && k < |run|
    ensures IsRun(blocks, run[k..])
  {
    forall i | 0 <= i < |run| - k - 1 ensures Follows(blocks, run[k..][i], run[k..][i + 1]) {
      assert Follows(blocks, run[k + i], run[k + i + 1]);
    }
  }

  /** Later steps of a run are in the set computed from earlier ones. */
  lemma StepsInReach(blocks: seq<Block>, run: seq<Place>, k: nat, l: nat)
    requires IsRun(blocks, run) && k < l < |run|
    ensures run[l] in Reach(blocks, {}, run[k])
  {
    hide Reach;
    SuffixIsRun(blocks, run, k);
    PathInReach(blocks, {}, run[k..], l - k);
  }

  /** Steps of runs from some points are in their closure, and all of it is stepped on. */
  lemma {:induction false} RunInClosure(blocks: seq<Block>, run: seq<Place>, starts: set<Place>, k: nat)
    requires starts <= Points(blocks) && IsRun(blocks, run) && k < |run| && run[0] in starts
    ensures run[k] in Closure(blocks, {}, starts)
    decreases k
  {
    hide Next, Points;
    if k > 0 {
      RunInClosure(blocks, run, starts, k - 1);
      assert Follows(blocks, run[k - 1], run[k]);
      NextIsFollows(blocks, run[k - 1], run[k]);
      assert run[k] in Onward(blocks, {}, Closure(blocks, {}, starts));
    }
  }

  ghost predicate Comes(blocks: seq<Block>, starts: set<Place>, q: Place) {
    exists run: seq<Place> :: IsRun(blocks, run) && run != [] && run[0] in starts && run[|run| - 1] == q
  }

  lemma {:induction false} ClosureComes(blocks: seq<Block>, starts: set<Place>, s: set<Place>)
    requires s <= Points(blocks) && forall q | q in s :: Comes(blocks, starts, q)
    ensures forall q | q in Closure(blocks, {}, s) :: Comes(blocks, starts, q)
    decreases |Points(blocks) - s|
  {
    hide Next, Comes;
    var more := Onward(blocks, {}, s) - s;
    OnwardPoints(blocks, {}, s);
    if more != {} {
      forall r | r in more ensures Comes(blocks, starts, r) {
        var q :| q in s && r in Next(blocks, q);
        ComesFurther(blocks, starts, q, r);
      }
      Shrinks(Points(blocks), s, more);
      ClosureComes(blocks, starts, s + more);
    }
  }

  lemma ComesFurther(blocks: seq<Block>, starts: set<Place>, q: Place, r: Place)
    requires Comes(blocks, starts, q) && r in Next(blocks, q)
    ensures Comes(blocks, starts, r)
  {
    hide Next;
    NextIsFollows(blocks, q, r);
    var run :| IsRun(blocks, run) && run != [] && run[0] in starts && run[|run| - 1] == q;
    JoinRuns(blocks, run, [q, r]);
    assert (run + [r])[|run|] == r;
  }

  /** Runs that meet are one run. */
  lemma JoinRuns(blocks: seq<Block>, a: seq<Place>, b: seq<Place>)
    requires IsRun(blocks, a) && IsRun(blocks, b) && a != [] && b != [] && a[|a| - 1] == b[0]
    ensures IsRun(blocks, a + b[1..])
  {
    var run := a + b[1..];
    forall k | 0 <= k < |run| - 1 ensures Follows(blocks, run[k], run[k + 1]) {
      if k < |a| - 1 {
        assert Follows(blocks, a[k], a[k + 1]);
      } else {
        assert Follows(blocks, b[k + 1 - |a|], b[k + 2 - |a|]);
      }
    }
  }

  lemma PointsCome(blocks: seq<Block>, starts: set<Place>)
    requires starts <= Points(blocks)
    ensures forall q | q in Closure(blocks, {}, starts) :: Comes(blocks, starts, q)
  {
    forall q | q in starts ensures Comes(blocks, starts, q) {
      assert IsRun(blocks, [q]);
    }
    ClosureComes(blocks, starts, starts);
  }

  /** A run from a start to p, and on to q. */
  lemma RunThrough(blocks: seq<Block>, starts: set<Place>, stops: set<Place>, p: Place, q: Place)
      returns (run: seq<Place>, k: nat)
    requires Comes(blocks, starts, p) && Arrives(blocks, stops, p, q)
    ensures IsRun(blocks, run) && k < |run| - 1 && run[0] in starts && run[k] == p && run[|run| - 1] == q
    ensures forall j | k <= j < |run| - 1 :: run[j] !in stops
  {
    var a :| IsRun(blocks, a) && a != [] && a[0] in starts && a[|a| - 1] == p;
    var b :| IsPath(blocks, stops, b) && |b| >= 2 && b[0] == p && b[|b| - 1] == q;
    JoinRuns(blocks, a, b);
    run, k := a + b[1..], |a| - 1;
    forall j | k <= j < |run| - 1 ensures run[j] !in stops {
      assert run[j] == b[j - k];
    }
  }

  /** Exactly when drops are sound: with the flags that the analysis sets, no run from some
      points mentions a name after its drop if and only if, wherever those runs get to, no
      instruction that control can get to from a name's last use mentions the name. */
  lemma DropsAreSoundExactly(blocks: seq<Block>, starts: set<Place>)
    requires AllFlagged(blocks) && starts <= Points(blocks)
    ensures DropsSound(blocks, starts) <==> LastUsesFinal(blocks, Closure(blocks, {}, starts))
  {
    hide Reach, Closure, Mentions, LastUses, DroppedNames, Flagged, Later, Points;
    var points := Closure(blocks, {}, starts);
    if LastUsesFinal(blocks, points) {
      forall run: seq<Place>, k: nat, l: nat | Passes(blocks, run, k, l) && run[0] in starts
        ensures DroppedNames(At(blocks, run[k])) !! Mentions(At(blocks, run[l]))
      {
        RunInClosure(blocks, run, starts, k);
        StepsInReach(blocks, run, k, l);
        FlagsMarkLastUses(blocks, run[k]);
      }
    } else {
      var p, q :| p in points && q in Reach(blocks, {}, p) && IsPlace(blocks, p) && IsPlace(blocks, q) &&
                  !(LastUses(blocks, p) !! Mentions(At(blocks, q)));
      PointsCome(blocks, starts);
      ReachIsArrival(blocks, {}, p, q);
      var run, k := RunThrough(blocks, starts, {}, p, q);
      FlagsMarkLastUses(blocks, p);
      assert Passes(blocks, run, k, |run| - 1);
    }
  }

  /** The same for all runs, wherever they start. */
  lemma DropsAreSoundEverywhereExactly(blocks: seq<Block>)
    requires AllFlagged(blocks)
    ensures (forall run: seq<Place>, k: nat, l: nat | Passes(blocks, run, k, l) ::
               DroppedNames(At(blocks, run[k])) !! Mentions(At(blocks, run[l]))) <==>
            LastUsesFinal(blocks, Points(blocks))
  {
    hide Reach, Mentions, LastUses, DroppedNames, Flagged, Later, LastUsesFinal;
    DropsAreSoundExactly(blocks, Points(blocks));
    forall run: seq<Place>, k: nat, l: nat | Passes(blocks, run, k, l) ensures run[0] in Points(blocks) {
      assert Follows(blocks, run[0], run[1]);
    }
  }

  // Reads of dropped names

  /** The instruction gives x a value. */
  predicate Defines(inst: Inst, x: Name) {
    inst.result == Some(x) && !inst.op.Store? && !IsTerminator(inst.op)
  }

  function Definers(blocks: seq<Block>, x: Name): set<Place> {
    set p | p in Points(blocks) && IsPlace(blocks, p) && Defines(At(blocks, p), x)
  }

  /** Wherever a run from one of some points reads a name that it has dropped, it has given
      the name a new value since. */
  ghost predicate ReadsFresh(blocks: seq<Block>, starts: set<Place>) {
    forall run: seq<Place>, k: nat, l: nat, x |
      Passes(blocks, run, k, l) && run[0] in starts &&
      x in DroppedNames(At(blocks, run[k])) && x in Uses(At(blocks, run[l])) ::
      Redefined(blocks, run, k, l, x)
  }

  ghost predicate Redefined(blocks: seq<Block>, run: seq<Place>, k: nat, l: nat, x: Name)
    requires k < l < |run|
  {
    exists j | k <= j < l :: run[j] in Definers(blocks, x)
  }

  /** No instruction that control can get to from a name's last use, without passing one
      that gives it a value, reads the name. */
  predicate LastUsesNotRead(blocks: seq<Block>, points: set<Place>) {
    forall p, x | p in points && IsPlace(blocks, p) && x in LastUses(blocks, p) ::
      forall q | q in Reach(blocks, Definers(blocks, x), p) && IsPlace(blocks, q) :: x !in Uses(At(blocks, q))
  }

  lemma FreshPath(blocks: seq<Block>, run: seq<Place>, k: nat, l: nat, x: Name)
    requires IsRun(blocks, run) && k < l < |run| && !Redefined(blocks, run, k, l, x)
    ensures run[l] in Reach(blocks, Definers(blocks, x), run[k])
  {
    hide Reach, Definers;
    SuffixIsRun(blocks, run, k);
    var path := run[k..l + 1];
    forall i | 0 <= i < |path| - 1 ensures Follows(blocks, path[i], path[i + 1]) && path[i] !in Definers(blocks, x) {
      assert Follows(blocks, run[k..][i], run[k..][i + 1]);
      assert path[i] == run[k + i];
    }
    PathInReach(blocks, Definers(blocks, x), path, l - k);
  }

  /** Exactly when every value that a run reads is still kept: loops may drop a name in each
      round, if each round gives it its value before reading it. */
  lemma ReadsAreFreshExactly(blocks: seq<Block>, starts: set<Place>)
    requires AllFlagged(blocks) && starts <= Points(blocks)
    ensures ReadsFresh(blocks, starts) <==> LastUsesNotRead(blocks, Closure(blocks, {}, starts))
  {
    hide Reach, Closure, Uses, LastUses, DroppedNames, Flagged, Later, Points, Definers, Redefined;
    var points := Closure(blocks, {}, starts);
    if LastUsesNotRead(blocks, points) {
      forall run: seq<Place>, k: nat, l: nat, x |
        Passes(blocks, run, k, l) && run[0] in starts &&
        x in DroppedNames(At(blocks, run[k])) && x in Uses(At(blocks, run[l]))
        ensures Redefined(blocks, run, k, l, x)
      {
        RunInClosure(blocks, run, starts, k);
        FlagsMarkLastUses(blocks, run[k]);
        if !Redefined(blocks, run, k, l, x) {
          FreshPath(blocks, run, k, l, x);
        }
      }
    } else {
      var p, x :| p in points && IsPlace(blocks, p) && x in LastUses(blocks, p) &&
                  exists q | q in Reach(blocks, Definers(blocks, x), p) && IsPlace(blocks, q) ::
                    x in Uses(At(blocks, q));
      var q :| q in Reach(blocks, Definers(blocks, x), p) && IsPlace(blocks, q) && x in Uses(At(blocks, q));
      PointsCome(blocks, starts);
      ReachIsArrival(blocks, Definers(blocks, x), p, q);
      var run, k := RunThrough(blocks, starts, Definers(blocks, x), p, q);
      FlagsMarkLastUses(blocks, p);
      assert Passes(blocks, run, k, |run| - 1);
      assert !Redefined(blocks, run, k, |run| - 1, x) by { NotRedefined(blocks, run, k, x); }
    }
  }

  lemma NotRedefined(blocks: seq<Block>, run: seq<Place>, k: nat, x: Name)
    requires k < |run| - 1 && forall j | k <= j < |run| - 1 :: run[j] !in Definers(blocks, x)
    ensures !Redefined(blocks, run, k, |run| - 1, x)
  {
    hide Definers;
  }

  // Names still read

  /** Control can get from p to an instruction that reads x without passing one that
      gives x a value. */
  predicate Live(blocks: seq<Block>, p: Place, x: Name) {
    exists q | q in {p} + Reach(blocks, Definers(blocks, x), p) :: IsPlace(blocks, q) && x in Uses(At(blocks, q))
  }

  lemma ReadIsLive(blocks: seq<Block>, p: Place, v: Value)
    requires IsPlace(blocks, p) && v in At(blocks, p).operands && v.Var?
    ensures Live(blocks, p, v.name)
  {
    hide Reach;
    assert v.name in Uses(At(blocks, p));
  }

  lemma ArrivesBefore(blocks: seq<Block>, stops: set<Place>, p: Place, q: Place, r: Place)
    requires p !in stops && q in Next(blocks, p) && (r == q || Arrives(blocks, stops, q, r))
    ensures Arrives(blocks, stops, p, r)
  {
    hide Next;
    NextIsFollows(blocks, p, q);
    assert IsPath(blocks, stops, [p, q]);
    if r != q {
      var run :| IsPath(blocks, stops, run) && |run| >= 2 && run[0] == q && run[|run| - 1] == r;
      JoinRuns(blocks, [p, q], run);
      var longer := [p, q] + run[1..];
      forall k | 0 <= k < |longer| - 1 ensures longer[k] !in stops {
        assert k > 0 ==> longer[k] == run[k - 1];
      }
      assert IsPath(blocks, stops, longer);
    }
  }

  /** What is live after a step was live before it, unless the step gave it its value. */
  lemma LiveBefore(blocks: seq<Block>, p: Place, q: Place, x: Name)
    requires q in Next(blocks, p) && p !in Definers(blocks, x) && Live(blocks, q, x)
    ensures Live(blocks, p, x)
  {
    hide Next, Reach, Definers;
    var stops := Definers(blocks, x);
    var r :| r in {q} + Reach(blocks, stops, q) && IsPlace(blocks, r) && x in Uses(At(blocks, r));
    if r in Reach(blocks, stops, q) {
      ReachIsArrival(blocks, stops, q, r);
    }
    ArrivesBefore(blocks, stops, p, q, r);
    ReachIsArrival(blocks, stops, p, r);
  }

  /** A name is not read before it is given a value if it is not read within some places that
      only its definitions leave. */
  lemma NotLive(blocks: seq<Block>, p: Place, x: Name, within: set<Place>)
    requires p in within && within <= Points(blocks)
    requires forall q | q in within && IsPlace(blocks, q) :: x !in Uses(At(blocks, q))
    requires forall q | q in within && !(IsPlace(blocks, q) && Defines(At(blocks, q), x)) :: Next(blocks, q) <= within
    ensures !Live(blocks, p, x)
  {
    hide Next, Uses;
    var stops := Definers(blocks, x);
    OnwardPoints(blocks, stops, {p});
    ClosureWithin(blocks, stops, Onward(blocks, stops, {p}), within);
  }

  lemma {:induction false} ClosureWithin(blocks: seq<Block>, stops: set<Place>, s: set<Place>, within: set<Place>)
    requires s <= within <= Points(blocks) && Onward(blocks, stops, within) <= within
    ensures Closure(blocks, stops, s) <= within
    decreases |Points(blocks) - s|
  {
    hide Next;
    var more := Onward(blocks, stops, s) - s;
    OnwardPoints(blocks, stops, s);
    if more != {} {
      forall r | r in more ensures r in within {
        var q :| q in s && q !in stops && r in Next(blocks, q);
        assert r in Onward(blocks, stops, within);
      }
      Shrinks(Points(blocks), s, more);
      ClosureWithin(blocks, stops, s + more, within);
    }
  }
}
