/**
  The monadic combinators of guac/functions.py, each written as the body
  of its generator function, and what they compute when driven under the
  reference instances.

  Every combinator is decorated without a monad, so it runs under the
  monad inherited from its caller (or one passed explicitly): the lemmas
  below assume `Governed(callers, inst)`.  A combinator called where no
  monad can be found raises before its body runs (`UnresolvedBeforeBody`).
 */
module Combinators {
  import opened Wrappers
  import opened Values
  import opened Instances
  import opened Runner
  import opened Laws
  import opened DriveLaws

  // ---------------------------------------------------------------------
  // The bodies
  // ---------------------------------------------------------------------

  /** The rest of a body after its last yield: it falls off the end, which
      returns None. */
  function Done<M(!new)>(): (k: Val -> Prog<M>)
    ensures forall x :: k(x) == Return(VNone)
  {
    _ => Return(VNone)
  }

  /** The continuation `self.lift` that ends a branch. */
  function LiftK<M(!new)>(inst: Instance<M>): (f: Val -> Result<M>)
    ensures forall x :: f(x) == Ok(inst.lift(x))
  {
    x => Ok(inst.lift(x))
  }

  /** `lift(value)`: `yield Monad._Builtin(lambda m: m.lift(value))`, the
      value being asked of whichever monad governs the drive. */
  function Lift<M(!new)>(v: Val): (p: Prog<M>)
    ensures Valid(p) && p.Bound() == 1
    ensures p.Yield? && p.req.Deferred? && forall inst :: p.req.evaluate(inst) == Ok(inst.lift(v))
  {
    Yield(Deferred((inst: Instance<M>) => LiftIn(inst, v)), Done(), 1)
  }

  /** `empty()`: `yield Monad._Builtin(lambda m: m.empty())`. */
  function Empty<M(!new)>(): (p: Prog<M>)
    ensures Valid(p) && p.Bound() == 1
    ensures p.Yield? && p.req.Deferred? && forall inst :: p.req.evaluate(inst) == EmptyIn(inst)
  {
    Yield(Deferred((inst: Instance<M>) => EmptyIn(inst)), Done(), 1)
  }

  /** `concat(x, y)`: `yield Monad._Builtin(lambda m: m.concat(x, y))`. */
  function Concat<M(!new)>(x: M, y: M): (p: Prog<M>)
    ensures Valid(p) && p.Bound() == 1
    ensures p.Yield? && p.req.Deferred? && forall inst :: p.req.evaluate(inst) == ConcatIn(inst, x, y)
  {
    Yield(Deferred((inst: Instance<M>) => ConcatIn(inst, x, y)), Done(), 1)
  }

  /** `unit()`: `yield lift(())`, the nested call inheriting the monad. */
  function Unit<M(!new)>(): (p: Prog<M>)
    ensures Valid(p) && p.Bound() == 2
    ensures p.Yield? && p.req == Nested(None, Lift(VUnit))
  {
    Yield(Nested(None, Lift(VUnit)), Done(), 2)
  }

  /** `guard(condition)`: `yield unit()` if the condition is truthy, else
      `yield empty()`. */
  function Guard<M(!new)>(c: Val): (p: Prog<M>)
    ensures Valid(p) && p.Bound() == 3
    ensures p.Yield? && p.req == Nested(None, if Truthy(c) then Unit() else Empty())
  {
    Yield(Nested(None, if Truthy(c) then Unit() else Empty()), Done(), 3)
  }

  /** `yield lift(e)` as the last statement, where evaluating `e` gave `r`:
      an exception raised by `e` ends the body before the yield. */
  function YieldLift<M(!new)>(r: Result<Val>): (p: Prog<M>)
    ensures Valid(p) && p.Bound() < 3
  {
    match r
    case Ok(v) => Yield(Nested(None, Lift(v)), Done(), 2)
    case Err(e) => Raise(e)
  }

  /** `yield e` as the last statement, where evaluating `e` gave `r`. */
  function YieldLast<M(!new)>(r: Result<M>): (p: Prog<M>)
    ensures Valid(p) && p.Bound() < 2
  {
    match r
    case Ok(m) => Yield(Concrete(m), Done(), 1)
    case Err(e) => Raise(e)
  }

  /** The second half of `map`: `yield lift(f(x))`.  The callback `f` may
      raise; its exception passes through `send` and ends the run. */
  function MapRest<M(!new)>(f: Val -> Result<Val>): (k: Val -> Prog<M>)
    ensures forall x :: k(x) == YieldLift(f(x))
    ensures ContValid(k, 3)
  {
    x => YieldLift(f(x))
  }

  /** `map(f, m)`: `x = yield m; yield lift(f(x))`. */
  function Map<M(!new)>(f: Val -> Result<Val>, m: M): (p: Prog<M>)
    ensures Valid(p) && p.Bound() == 3
    ensures p.Yield? && p.req == Concrete(m) && forall x :: p.k(x) == YieldLift(f(x))
  {
    Yield(Concrete(m), MapRest(f), 3)
  }

  /** The second half of `join`: `yield x`. */
  function JoinRest(): (k: Val -> Prog<Val>)
    ensures forall x :: k(x) == Yield(Concrete(x), Done(), 1)
    ensures ContValid(k, 2)
  {
    x => Yield(Concrete(x), Done(), 1)
  }

  /** `join(m)`: `x = yield m; yield x`.  The unwrapped value is yielded
      again as a monadic value, so this is a body over plain values. */
  function Join(m: Val): (p: Prog<Val>)
    ensures Valid(p) && p.Bound() == 2
    ensures p.Yield? && p.req == Concrete(m) && forall x :: p.k(x) == Yield(Concrete(x), Done(), 1)
  {
    Yield(Concrete(m), JoinRest(), 2)
  }

  /** `bind(m, f)` as written: `yield f(m)`, with `f` applied to the monadic
      value itself, before anything is yielded. */
  function BindAsWritten<M(!new)>(m: M, f: M -> Result<M>): (p: Prog<M>)
    ensures Valid(p) && p.Bound() <= 1
    ensures f(m).Err? ==> p == Raise(f(m).error)
    ensures f(m).Ok? ==> p.Yield? && p.req == Concrete(f(m).value)
  {
    YieldLast(f(m))
  }

  /** The second half of the intended `bind`: `yield f(x)`. */
  function BindRest<M(!new)>(f: Val -> Result<M>): (k: Val -> Prog<M>)
    ensures forall x :: k(x) == YieldLast(f(x))
    ensures ContValid(k, 2)
  {
    x => YieldLast(f(x))
  }

  /** `bind(m, f)` as its documentation describes it: `x = yield m;
      yield f(x)`. */
  function BindIntended<M(!new)>(m: M, f: Val -> Result<M>): (p: Prog<M>)
    ensures Valid(p) && p.Bound() == 2
    ensures p.Yield? && p.req == Concrete(m) && forall x :: p.k(x) == YieldLast(f(x))
  {
    Yield(Concrete(m), BindRest(f), 2)
  }

  // ---------------------------------------------------------------------
  // Driving a last yield
  // ---------------------------------------------------------------------

  /** A last `yield` drives to the requested value bound to `lift`. */
  lemma FinalYield<M(!new)>(inst: Instance<M>, frames: seq<Frame<M>>, site: Site<M>, req: Req<M>, b: nat)
    requires Congruent(inst) && ReqValid(req, b) && b >= 1
    ensures ContValid(Done<M>(), b)
    ensures Drive(inst, frames, site, Yield(req, Done(), b))
         == BindResult(inst, ResolveRequest(inst, frames, site, req, b), LiftK(inst))
  {
    assert Drive(inst, frames, site, Yield(req, Done(), b)) == Step(inst, frames, site, req, Done(), b);
    var resume := Resume(inst, frames, site, Done(), b);
    assert Agree(resume, LiftK(inst)) by {
      forall x ensures resume(x) == LiftK(inst)(x) {
        ResumeIsFreshDrive(inst, frames, site, Done(), b, x);
      }
    }
  }

  /** `lift(v)` under a monad `inst`: `bind(inst.lift(v), inst.lift)`. */
  lemma LiftRuns<M(!new)>(inst: Instance<M>, callers: seq<Frame<M>>, site: Site<M>, v: Val)
    requires Governed(callers, inst) && Congruent(inst)
    ensures Invoke(None, callers, site, Lift(v)) == inst.bind(inst.lift(v), LiftK(inst))
  {
    FinalYield(inst, [ContextFrame(inst)] + callers, site, Lift<M>(v).req, 1);
  }

  /** `empty()` under a monad `inst`: `bind(inst.empty(), inst.lift)`, or
      AttributeError for a monad without `empty`. */
  lemma EmptyRuns<M(!new)>(inst: Instance<M>, callers: seq<Frame<M>>, site: Site<M>)
    requires Governed(callers, inst)
    ensures inst.empty.None? ==> Invoke(None, callers, site, Empty()) == Err(NotSupported)
    ensures inst.empty.Some? && Congruent(inst) ==>
      Invoke(None, callers, site, Empty()) == inst.bind(inst.empty.value, LiftK(inst))
  {
    var frames := [ContextFrame(inst)] + callers;
    var p := Empty<M>();
    assert Drive(inst, frames, site, p) == Step(inst, frames, site, p.req, Done(), 1);
    if inst.empty.Some? && Congruent(inst) {
      FinalYield(inst, frames, site, p.req, 1);
    }
  }

  /** `concat(x, y)` under a monad `inst`: `bind(inst.concat(x, y),
      inst.lift)`, or AttributeError for a monad without `concat`. */
  lemma ConcatRuns<M(!new)>(inst: Instance<M>, callers: seq<Frame<M>>, site: Site<M>, x: M, y: M)
    requires Governed(callers, inst)
    ensures inst.concat.None? ==> Invoke(None, callers, site, Concat(x, y)) == Err(NotSupported)
    ensures inst.concat.Some? && Congruent(inst) ==>
      Invoke(None, callers, site, Concat(x, y)) == BindResult(inst, inst.concat.value(x, y), LiftK(inst))
  {
    var frames := [ContextFrame(inst)] + callers;
    var p := Concat(x, y);
    assert Drive(inst, frames, site, p) == Step(inst, frames, site, p.req, Done(), 1);
    if inst.concat.Some? && Congruent(inst) {
      FinalYield(inst, frames, site, p.req, 1);
    }
  }

  /** What a last `yield lift(y)` gives under `inst`: the nested `lift`
      runs to `bind(inst.lift(y), lift)`, which is bound to `lift` again. */
  function FinalLift<M(!new)>(inst: Instance<M>, y: Val): Result<M> {
    BindResult(inst, inst.bind(inst.lift(y), LiftK(inst)), LiftK(inst))
  }

  /** What `unit()` and `lift(())` give under `inst`. */
  function UnitValue<M(!new)>(inst: Instance<M>): Result<M> {
    FinalLift(inst, VUnit)
  }

  /** `unit()` under a monad `inst`: its nested `lift(())` inherits `inst`,
      and the result is bound to `lift` once more. */
  lemma UnitRuns<M(!new)>(inst: Instance<M>, callers: seq<Frame<M>>, site: Site<M>)
    requires Governed(callers, inst) && Congruent(inst)
    ensures Invoke(None, callers, site, Unit()) == UnitValue(inst)
  {
    var frames := [ContextFrame(inst)] + callers;
    FinalYield(inst, frames, site, Unit<M>().req, 2);
    InsideDriveGoverned(inst, callers);
    LiftRuns(inst, frames, site, VUnit);
  }

  /** `guard(c)` under a monad `inst`: `unit()` bound to `lift` for a truthy
      `c`, else `empty()` bound to `lift`. */
  lemma GuardRuns<M(!new)>(inst: Instance<M>, callers: seq<Frame<M>>, site: Site<M>, c: Val)
    requires Governed(callers, inst) && Congruent(inst)
    ensures Truthy(c) ==> Invoke(None, callers, site, Guard(c)) == BindResult(inst, UnitValue(inst), LiftK(inst))
    ensures !Truthy(c) && inst.empty.None? ==> Invoke(None, callers, site, Guard(c)) == Err(NotSupported)
    ensures !Truthy(c) && inst.empty.Some? ==>
      Invoke(None, callers, site, Guard(c))
        == BindResult(inst, inst.bind(inst.empty.value, LiftK(inst)), LiftK(inst))
  {
    var frames := [ContextFrame(inst)] + callers;
    FinalYield(inst, frames, site, Guard<M>(c).req, 3);
    InsideDriveGoverned(inst, callers);
    if Truthy(c) {
      UnitRuns(inst, frames, site);
    } else {
      EmptyRuns(inst, frames, site);
    }
  }

  /** The continuation `map` amounts to: `x => bind(lift(f(x)), lift)`,
      or the exception `f(x)` raises. */
  function MapK<M(!new)>(inst: Instance<M>, f: Val -> Result<Val>): Val -> Result<M> {
    x => match f(x) case Err(e) => Err(e) case Ok(y) => FinalLift(inst, y)
  }

  /** `map(f, m)` under a monad `inst` whose resumptions run inside the
      drive: `bind(m, x => bind(lift(f(x)), lift))`. */
  lemma MapRuns<M(!new)>(inst: Instance<M>, callers: seq<Frame<M>>, site: Site<M>, f: Val -> Result<Val>, m: M)
    requires Governed(callers, inst) && Congruent(inst)
    requires !inst.defers || site.Captured?
    ensures Invoke(None, callers, site, Map(f, m)) == inst.bind(m, MapK(inst, f))
  {
    var frames := [ContextFrame(inst)] + callers;
    var k := MapRest<M>(f);
    ConcretePassesThrough(inst, frames, site, m, k, 3);
    InsideDriveGoverned(inst, callers);
    var resume := Resume(inst, frames, site, k, 3);
    assert Agree(resume, MapK(inst, f)) by {
      forall x ensures resume(x) == MapK(inst, f)(x) {
        ResumeIsFreshDrive(inst, frames, site, k, 3, x);
        assert ResumeFrames(inst, frames, site) == frames;
        if f(x).Ok? {
          FinalYield(inst, frames, site, Nested(None, Lift(f(x).value)), 2);
          LiftRuns(inst, frames, site, f(x).value);
        }
      }
    }
  }

  /** `MapRuns` with the continuation replaced by any `h` that computes
      the same values. */
  lemma MapRunsVia<M(!new)>(inst: Instance<M>, callers: seq<Frame<M>>, site: Site<M>, f: Val -> Result<Val>, m: M, h: Val -> Result<M>)
    requires Governed(callers, inst) && Congruent(inst)
    requires !inst.defers || site.Captured?
    requires forall x :: h(x) == MapK(inst, f)(x)
    ensures Invoke(None, callers, site, Map(f, m)) == inst.bind(m, h)
  {
    MapRuns(inst, callers, site, f, m);
    assert Agree(MapK(inst, f), h);
  }

  /** The continuation `join` amounts to: `x => bind(x, lift)`. */
  function JoinK(inst: Instance<Val>): Val -> Result<Val> {
    x => inst.bind(x, LiftK(inst))
  }

  /** `join(m)` under a monad `inst` over plain values:
      `bind(m, x => bind(x, lift))`. */
  lemma JoinRuns(inst: Instance<Val>, callers: seq<Frame<Val>>, site: Site<Val>, m: Val)
    requires Governed(callers, inst) && Congruent(inst)
    ensures Invoke(None, callers, site, Join(m)) == inst.bind(m, JoinK(inst))
  {
    var frames := [ContextFrame(inst)] + callers;
    var k := JoinRest();
    ConcretePassesThrough(inst, frames, site, m, k, 2);
    var resume := Resume(inst, frames, site, k, 2);
    assert Agree(resume, JoinK(inst)) by {
      forall x ensures resume(x) == JoinK(inst)(x) {
        ResumeIsFreshDrive(inst, frames, site, k, 2, x);
        FinalYield(inst, ResumeFrames(inst, frames, site), site, Concrete(x), 1);
      }
    }
  }

  /** The continuation the intended `bind` amounts to: `x => bind(f(x),
      lift)`, or the exception `f(x)` raises. */
  function BindK<M(!new)>(inst: Instance<M>, f: Val -> Result<M>): Val -> Result<M> {
    x => BindResult(inst, f(x), LiftK(inst))
  }

  /** The intended `bind(m, f)` under a monad `inst`:
      `bind(m, x => bind(f(x), lift))`. */
  lemma BindIntendedRuns<M(!new)>(inst: Instance<M>, callers: seq<Frame<M>>, site: Site<M>, m: M, f: Val -> Result<M>)
    requires Governed(callers, inst) && Congruent(inst)
    ensures Invoke(None, callers, site, BindIntended(m, f)) == inst.bind(m, BindK(inst, f))
  {
    var frames := [ContextFrame(inst)] + callers;
    var k := BindRest(f);
    ConcretePassesThrough(inst, frames, site, m, k, 2);
    var resume := Resume(inst, frames, site, k, 2);
    assert Agree(resume, BindK(inst, f)) by {
      forall x ensures resume(x) == BindK(inst, f)(x) {
        ResumeIsFreshDrive(inst, frames, site, k, 2, x);
        if f(x).Ok? {
          FinalYield(inst, ResumeFrames(inst, frames, site), site, Concrete(f(x).value), 1);
        }
      }
    }
  }

  /** `bind(m, f)` as written under a monad `inst`: `bind(f(m), lift)`, or
      the exception `f(m)` raises; the value `m` is never unwrapped. */
  lemma BindAsWrittenRuns<M(!new)>(inst: Instance<M>, callers: seq<Frame<M>>, site: Site<M>, m: M, f: M -> Result<M>)
    requires Governed(callers, inst) && Congruent(inst)
    ensures Invoke(None, callers, site, BindAsWritten(m, f)) == BindResult(inst, f(m), LiftK(inst))
  {
    if f(m).Ok? {
      FinalYield(inst, [ContextFrame(inst)] + callers, site, Concrete(f(m).value), 1);
    }
  }
}
