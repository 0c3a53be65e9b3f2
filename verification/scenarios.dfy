/**
  Whole monadic functions run under ListMonad, worked through to their
  final value: a nondeterministic sum over two choices and a guarded
  branch.
 */
module Scenarios {
  import opened Wrappers
  import opened Values
  import opened Instances
  import opened Runner
  import opened DriveLaws
  import opened Combinators
  import opened CombinatorRuns

  /** `yield lift(v)` as the last statement of a body under ListMonad, with
      the frames governed by ListMonad: the single branch `[v]`. */
  lemma FinalLiftIsSingleton(frames: seq<Frame<Val>>, site: Site<Val>, v: Val)
    requires Governed(frames, ListMonad)
    ensures Drive(ListMonad, frames, site, Yield(Nested(None, Lift(v)), Done(), 2)) == Ok(VList([v]))
  {
    ListCongruent();
    FinalYield(ListMonad, frames, site, Nested(None, Lift(v)), 2);
    assert ResolveRequest(ListMonad, frames, site, Nested(None, Lift(v)), 2) == Invoke(None, frames, site, Lift(v));
    ListLiftRuns(frames, site, v);
    ListBindLift(VList([v]));
  }

  /** The loop of ListMonad.bind over two elements. */
  lemma BindElemsPair(x: Val, y: Val, h: Val -> Result<Val>, p: seq<Val>, q: seq<Val>)
    requires h(x) == Ok(VList(p)) && h(y) == Ok(VList(q))
    ensures BindElems([x, y], h) == Ok(p + q)
  {
    assert [x, y][1..] == [y];
    assert [y][1..] == [];
    assert BindElems([y][1..], h) == Ok([]);
    assert q + [] == q;
    assert BindElems([y], h) == Ok(q);
  }

  lemma ConcatDisplays(p: seq<Val>, q: seq<Val>)
    ensures |p| == 1 && |q| == 1 ==> p + q == [p[0], q[0]]
    ensures |p| == 2 && |q| == 2 ==> p + q == [p[0], p[1], q[0], q[1]]
  {
  }

  /** Branching over two elements under ListMonad. */
  lemma ListBranchesPair(frames: seq<Frame<Val>>, site: Site<Val>, x: Val, y: Val, k: Val -> Prog<Val>, b: nat, p: seq<Val>, q: seq<Val>)
    requires ContValid(k, b)
    ensures Resume(ListMonad, frames, site, k, b)(x) == Ok(VList(p)) &&
            Resume(ListMonad, frames, site, k, b)(y) == Ok(VList(q)) ==>
            ListBranches(frames, site, [x, y], k, b) == Ok(VList(p + q))
  {
    if Resume(ListMonad, frames, site, k, b)(x) == Ok(VList(p)) && Resume(ListMonad, frames, site, k, b)(y) == Ok(VList(q)) {
      BindElemsPair(x, y, Resume(ListMonad, frames, site, k, b), p, q);
      ListBranchesLoop(frames, site, [x, y], k, b);
    }
  }

  // ---------------------------------------------------------------------
  //   a = yield [1, 2]
  //   b = yield [10, 20]
  //   yield lift(a + b)
  // ---------------------------------------------------------------------

  /** `yield lift(a + b)`, or the TypeError `+` raises. */
  function SumStep(a: Val, b: Val): (p: Prog<Val>)
    ensures Valid(p) && p.Bound() < 3
  {
    YieldLift(Add(a, b))
  }

  function SumLast(a: Val): (k: Val -> Prog<Val>)
    ensures forall b :: k(b) == SumStep(a, b)
    ensures ContValid(k, 3)
  {
    b => SumStep(a, b)
  }

  /** `b = yield [10, 20]`, then the rest. */
  function SumMiddle(): (k: Val -> Prog<Val>)
    ensures forall a :: k(a) == Yield(Concrete(VList([VInt(10), VInt(20)])), SumLast(a), 3)
    ensures ContValid(k, 4)
  {
    a => Yield(Concrete(VList([VInt(10), VInt(20)])), SumLast(a), 3)
  }

  /** The whole body. */
  function Sums(): (p: Prog<Val>)
    ensures Valid(p)
  {
    Yield(Concrete(VList([VInt(1), VInt(2)])), SumMiddle(), 4)
  }

  /** The innermost branch for the choices `a` and `b`. */
  lemma SumBranch(frames: seq<Frame<Val>>, site: Site<Val>, a: int, b: int)
    requires Governed(frames, ListMonad)
    ensures Resume(ListMonad, frames, site, SumLast(VInt(a)), 3)(VInt(b)) == Ok(VList([VInt(a + b)]))
  {
    var k := SumLast(VInt(a));
    assert Add(VInt(a), VInt(b)) == Ok(VInt(a + b));
    assert k(VInt(b)) == Yield(Nested(None, Lift(VInt(a + b))), Done(), 2);
    ResumeIsFreshDrive(ListMonad, frames, site, k, 3, VInt(b));
    FinalLiftIsSingleton(frames, site, VInt(a + b));
  }

  /** The branches for a fixed first choice `a`: `[a + 10, a + 20]`. */
  lemma SumMiddleBranch(frames: seq<Frame<Val>>, site: Site<Val>, a: int)
    ensures Governed(frames, ListMonad) ==>
      Resume(ListMonad, frames, site, SumMiddle(), 4)(VInt(a)) == Ok(VList([VInt(a + 10), VInt(a + 20)]))
  {
    if Governed(frames, ListMonad) {
      ResumeBranches(frames, site, SumMiddle(), 4, VInt(a), [VInt(10), VInt(20)], SumLast(VInt(a)), 3);
      SumSecondChoice(frames, site, a);
    }
  }

  /** Under ListMonad, a resumption that next yields a list branches over
      its elements. */
  lemma ResumeBranches(frames: seq<Frame<Val>>, site: Site<Val>, k: Val -> Prog<Val>, b: nat, x: Val, s: seq<Val>, k': Val -> Prog<Val>, b': nat)
    requires ContValid(k, b) && ContValid(k', b') && k(x) == Yield(Concrete(VList(s)), k', b')
    ensures Resume(ListMonad, frames, site, k, b)(x) == ListBranches(frames, site, s, k', b')
  {
    assert Valid(k(x));
    ResumeIsFreshDrive(ListMonad, frames, site, k, b, x);
    assert ResumeFrames(ListMonad, frames, site) == frames;
  }

  lemma SumSecondChoice(frames: seq<Frame<Val>>, site: Site<Val>, a: int)
    requires Governed(frames, ListMonad)
    ensures ListBranches(frames, site, [VInt(10), VInt(20)], SumLast(VInt(a)), 3)
         == Ok(VList([VInt(a + 10), VInt(a + 20)]))
  {
    SumBranch(frames, site, a, 10);
    SumBranch(frames, site, a, 20);
    ListBranchesPair(frames, site, VInt(10), VInt(20), SumLast(VInt(a)), 3, [VInt(a + 10)], [VInt(a + 20)]);
    ConcatDisplays([VInt(a + 10)], [VInt(a + 20)]);
  }

  /** The nondeterministic sum: every choice of `a` is combined with every
      choice of `b`, the first choice varying slowest. */
  lemma SumsRun(callers: seq<Frame<Val>>, site: Site<Val>)
    ensures Invoke(Some(ListMonad), callers, site, Sums()) == Ok(VList([VInt(11), VInt(21), VInt(12), VInt(22)]))
  {
    var frames := [ContextFrame(ListMonad)] + callers;
    InsideDriveGoverned(ListMonad, callers);
    SumFirstChoice(frames, site);
    assert Invoke(Some(ListMonad), callers, site, Sums()) == ListBranches(frames, site, [VInt(1), VInt(2)], SumMiddle(), 4);
  }

  lemma SumFirstChoice(frames: seq<Frame<Val>>, site: Site<Val>)
    requires Governed(frames, ListMonad)
    ensures ListBranches(frames, site, [VInt(1), VInt(2)], SumMiddle(), 4)
         == Ok(VList([VInt(11), VInt(21), VInt(12), VInt(22)]))
  {
    SumMiddleBranch(frames, site, 1);
    SumMiddleBranch(frames, site, 2);
    ListBranchesPair(frames, site, VInt(1), VInt(2), SumMiddle(), 4,
      [VInt(11), VInt(21)], [VInt(12), VInt(22)]);
    ConcatDisplays([VInt(11), VInt(21)], [VInt(12), VInt(22)]);
  }

  // ---------------------------------------------------------------------
  //   yield guard(c)
  //   yield lift(1)
  // ---------------------------------------------------------------------

  /** `yield lift(1)`, whatever the guard resumed with. */
  function LiftOne(): (k: Val -> Prog<Val>)
    ensures forall x :: k(x) == Yield(Nested(None, Lift(VInt(1))), Done(), 2)
    ensures ContValid(k, 4)
  {
    _ => Yield(Nested(None, Lift(VInt(1))), Done(), 2)
  }

  function GuardedOne(c: Val): (p: Prog<Val>)
    ensures Valid(p)
  {
    Yield(Nested(None, Guard(c)), LiftOne(), 4)
  }

  /** A failed guard leaves no branch; a passed one lets `lift(1)` through. */
  lemma GuardedOneRuns(callers: seq<Frame<Val>>, site: Site<Val>, c: Val)
    ensures Invoke(Some(ListMonad), callers, site, GuardedOne(c))
         == Ok(VList(if Truthy(c) then [VInt(1)] else []))
  {
    var frames := [ContextFrame(ListMonad)] + callers;
    InsideDriveGoverned(ListMonad, callers);
    ListGuardPrunes(frames, site, c, LiftOne(), 4);
    if Truthy(c) {
      ResumeIsFreshDrive(ListMonad, frames, site, LiftOne(), 4, VUnit);
      FinalLiftIsSingleton(frames, site, VInt(1));
    }
  }

  // ---------------------------------------------------------------------
  // Failures of the driver
  // ---------------------------------------------------------------------

  /** A monadic function called outside every `monadic_context` without
      a monad raises before its body runs; one that never yields raises
      "must yield at least once". */
  lemma DriverFailures(callers: seq<Frame<Val>>, site: Site<Val>, v: Val)
    ensures Invoke(None, [], site, Sums()) == Err(UnresolvedContext)
    ensures Invoke(Some(ListMonad), callers, site, Return(v)) == Err(EmptySequence)
  {
    UnresolvedBeforeBody([], site, Sums());
  }
}
