/**
  What each combinator of guac/functions.py computes under each reference
  instance of guac/instances.py, called with no monad from a place where
  the instance governs.
 */
module CombinatorRuns {
  import opened Wrappers
  import opened Values
  import opened Instances
  import opened Runner
  import opened Laws
  import opened DriveLaws
  import opened Combinators

  // ---------------------------------------------------------------------
  // ListMonad
  // ---------------------------------------------------------------------

  /** Binding to `lift` under ListMonad keeps a list, empties a tuple and
      rejects anything that is not iterable. */
  lemma ListBindLift(m: Val)
    ensures ListBind(m, LiftK(ListMonad))
         == if m.VList? then Ok(m) else if m.VUnit? then Ok(VList([])) else Err(TypeError)
  {
    ListRightIdentity(m);
    ListCongruent();
    assert Agree(LiftK(ListMonad), x => Ok(ListLift(x)));
    assert ListMonad.bind(m, LiftK(ListMonad)) == ListMonad.bind(m, x => Ok(ListLift(x)));
  }

  /** `lift(v)` and `unit()` under ListMonad are singletons. */
  lemma ListLiftRuns(callers: seq<Frame<Val>>, site: Site<Val>, v: Val)
    requires Governed(callers, ListMonad)
    ensures Invoke(None, callers, site, Lift(v)) == Ok(VList([v]))
    ensures Invoke(None, callers, site, Unit()) == Ok(VList([VUnit]))
  {
    ListCongruent();
    LiftRuns(ListMonad, callers, site, v);
    ListBindLift(VList([v]));
    UnitRuns(ListMonad, callers, site);
    ListBindLift(VList([VUnit]));
  }

  /** `empty()` under ListMonad is the empty list. */
  lemma ListEmptyRuns(callers: seq<Frame<Val>>, site: Site<Val>)
    requires Governed(callers, ListMonad)
    ensures Invoke(None, callers, site, Empty()) == Ok(VList([]))
  {
    ListCongruent();
    EmptyRuns(ListMonad, callers, site);
    ListBindLift(VList([]));
  }

  /** `concat(x, y)` under ListMonad is `x + y` for two lists; two tuples
      concatenate to a tuple that `lift`'s bind then iterates to `[]`;
      anything else raises TypeError, from `+` or from iterating a number. */
  lemma ListConcatRuns(callers: seq<Frame<Val>>, site: Site<Val>, x: Val, y: Val)
    requires Governed(callers, ListMonad)
    ensures Invoke(None, callers, site, Concat(x, y))
         == if x.VList? && y.VList? then Ok(VList(x.items + y.items))
            else if x.VUnit? && y.VUnit? then Ok(VList([]))
            else Err(TypeError)
  {
    ListCongruent();
    ConcatRuns(ListMonad, callers, site, x, y);
    match Add(x, y)
    case Err(_) =>
    case Ok(z) => ListBindLift(z);
  }

  /** `guard(c)` under ListMonad: one branch `[()]` for a truthy `c`, no
      branch `[]` otherwise. */
  lemma ListGuardRuns(callers: seq<Frame<Val>>, site: Site<Val>, c: Val)
    requires Governed(callers, ListMonad)
    ensures Invoke(None, callers, site, Guard(c)) == Ok(VList(if Truthy(c) then [VUnit] else []))
  {
    ListCongruent();
    GuardRuns(ListMonad, callers, site, c);
    ListBindLift(VList([VUnit]));
    ListBindLift(VList([]));
  }

  /** `yield guard(c)` inside a body under ListMonad trims the branch: a
      falsy `c` ends it with no results, a truthy one resumes the rest of
      the body once, with `()`. */
  lemma ListGuardPrunes(frames: seq<Frame<Val>>, site: Site<Val>, c: Val, k: Val -> Prog<Val>, b: nat)
    requires Governed(frames, ListMonad) && ContValid(k, b) && b > 3
    ensures !Truthy(c) ==> Drive(ListMonad, frames, site, Yield(Nested(None, Guard(c)), k, b)) == Ok(VList([]))
    ensures Truthy(c) ==>
      Drive(ListMonad, frames, site, Yield(Nested(None, Guard(c)), k, b)) == Resume(ListMonad, frames, site, k, b)(VUnit)
  {
    var req := Nested(None, Guard<Val>(c));
    var resume := Resume(ListMonad, frames, site, k, b);
    assert Drive(ListMonad, frames, site, Yield(req, k, b)) == Step(ListMonad, frames, site, req, k, b);
    assert ResolveRequest(ListMonad, frames, site, req, b) == Invoke(None, frames, site, Guard(c));
    ListGuardRuns(frames, site, c);
    assert Step(ListMonad, frames, site, req, k, b) == ListBind(VList(if Truthy(c) then [VUnit] else []), resume);
    if Truthy(c) {
      ListResumeGivesList(frames, site, k, b, VUnit);
      ListLeftIdentity(VUnit, resume);
      assert ListLift(VUnit) == VList([VUnit]);
    }
  }

  /** `map(f, m)` under ListMonad applies `f` to every element, in order;
      the first exception `f` raises ends the whole map. */
  lemma ListMapRuns(callers: seq<Frame<Val>>, site: Site<Val>, f: Val -> Result<Val>, s: seq<Val>)
    requires Governed(callers, ListMonad)
    ensures Apply(f, s).Ok? ==> Invoke(None, callers, site, Map(f, VList(s))) == Ok(VList(Apply(f, s).value))
    ensures Apply(f, s).Err? ==> Invoke(None, callers, site, Map(f, VList(s))) == Err(Apply(f, s).error)
  {
    ListMapIsBind(callers, site, f, VList(s));
    SingletonsBind(f, s);
  }

  /** `[f(x) for x in s]`, evaluated left to right. */
  function Apply(f: Val -> Result<Val>, s: seq<Val>): Result<seq<Val>> {
    if |s| == 0 then Ok([])
    else
      match f(s[0])
      case Err(e) => Err(e)
      case Ok(y) =>
        match Apply(f, s[1..])
        case Err(e) => Err(e)
        case Ok(rest) => Ok([y] + rest)
  }

  /** `Apply(f, s)` succeeds exactly when `f` succeeds on every element,
      and then holds `f` of each element at the same index; otherwise it
      is the exception of the first element on which `f` raises. */
  lemma {:induction false} ApplyPointwise(f: Val -> Result<Val>, s: seq<Val>)
    ensures Apply(f, s).Ok? <==> forall i :: 0 <= i < |s| ==> f(s[i]).Ok?
    ensures Apply(f, s).Ok? ==>
      |Apply(f, s).value| == |s| && forall i :: 0 <= i < |s| ==> Apply(f, s).value[i] == f(s[i]).value
    ensures Apply(f, s).Err? ==>
      exists i :: 0 <= i < |s| && f(s[i]) == Err(Apply(f, s).error) && forall j :: 0 <= j < i ==> f(s[j]).Ok?
  {
    if |s| > 0 {
      ApplyPointwise(f, s[1..]);
      assert forall i :: 0 < i < |s| ==> s[1..][i - 1] == s[i];
      if f(s[0]).Ok? {
        if Apply(f, s[1..]).Ok? {
          var rest := Apply(f, s[1..]).value;
          assert forall i :: 0 < i < |s| ==> Apply(f, s).value[i] == rest[i - 1];
        } else {
          var i :| 0 <= i < |s| - 1 && f(s[1..][i]) == Err(Apply(f, s[1..]).error)
            && forall j :: 0 <= j < i ==> f(s[1..][j]).Ok?;
          assert f(s[i + 1]) == Err(Apply(f, s).error);
          assert forall j :: 0 < j < i + 1 ==> f(s[j]).Ok? by {
            forall j | 0 < j < i + 1 ensures f(s[j]).Ok? {
              assert s[1..][j - 1] == s[j];
            }
          }
        }
      } else {
        assert f(s[0]) == Err(Apply(f, s).error);
      }
    }
  }

  /** `lambda x: [f(x)]`: what each branch of `map` contributes under
      ListMonad, or the exception `f(x)` raises. */
  function Singletons(f: Val -> Result<Val>): Val -> Result<Val> {
    x => match f(x) case Err(e) => Err(e) case Ok(y) => Ok(VList([y]))
  }

  lemma {:induction false} BindElemsSingletons(s: seq<Val>, h: Val -> Result<Val>, f: Val -> Result<Val>)
    requires forall x :: h(x) == Singletons(f)(x)
    ensures BindElems(s, h) == Apply(f, s)
  {
    if |s| > 0 {
      BindElemsSingletons(s[1..], h, f);
    }
  }

  /** Binding a list to singletons of `f` is applying `f` elementwise. */
  lemma SingletonsBind(f: Val -> Result<Val>, s: seq<Val>)
    ensures Apply(f, s).Ok? ==> ListBind(VList(s), Singletons(f)) == Ok(VList(Apply(f, s).value))
    ensures Apply(f, s).Err? ==> ListBind(VList(s), Singletons(f)) == Err(Apply(f, s).error)
  {
    BindElemsSingletons(s, Singletons(f), f);
  }

  /** One branch of `map` under ListMonad: `bind(lift(f(x)), lift)` is
      `[f(x)]`. */
  lemma ListMapStep(f: Val -> Result<Val>, x: Val)
    ensures MapK(ListMonad, f)(x) == Singletons(f)(x)
  {
    if f(x).Ok? {
      var y := f(x).value;
      ListBindLift(VList([y]));
      assert ListMonad.bind(ListMonad.lift(y), LiftK(ListMonad)) == Ok(VList([y]));
    }
  }

  lemma ListMapStepAll(f: Val -> Result<Val>)
    ensures forall x :: Singletons(f)(x) == MapK(ListMonad, f)(x)
  {
    forall x ensures Singletons(f)(x) == MapK(ListMonad, f)(x) {
      ListMapStep(f, x);
    }
  }

  /** `map(f, m)` under ListMonad is `bind(m, lambda x: [f(x)])`. */
  lemma ListMapIsBind(callers: seq<Frame<Val>>, site: Site<Val>, f: Val -> Result<Val>, m: Val)
    requires Governed(callers, ListMonad)
    ensures Invoke(None, callers, site, Map(f, m)) == ListBind(m, Singletons(f))
  {
    ListCongruent();
    ListMapStepAll(f);
    MapRunsVia(ListMonad, callers, site, f, m, Singletons(f));
  }

  /** `map(f, m)` under ListMonad raises TypeError for a value that is not
      iterable, before `f` is ever called. */
  lemma ListMapRejects(callers: seq<Frame<Val>>, site: Site<Val>, f: Val -> Result<Val>, m: Val)
    requires Governed(callers, ListMonad) && Elements(m).None?
    ensures Invoke(None, callers, site, Map(f, m)) == Err(TypeError)
  {
    ListMapIsBind(callers, site, f, m);
  }

  /** The items of a list value, nothing for anything else. */
  function Contents(v: Val): seq<Val> {
    if v.VList? then v.items else []
  }

  /** `join(m)` under ListMonad flattens a list of lists, in order; a `()`
      element contributes nothing. */
  lemma ListJoinRuns(callers: seq<Frame<Val>>, site: Site<Val>, s: seq<Val>)
    requires Governed(callers, ListMonad)
    requires forall e :: e in s ==> Elements(e).Some?
    ensures Invoke(None, callers, site, Join(VList(s))) == Ok(VList(FlatMap(s, Contents)))
  {
    ListCongruent();
    JoinRuns(ListMonad, callers, site, VList(s));
    forall e | e in s
      ensures JoinK(ListMonad)(e) == Ok(VList(Contents(e)))
    {
      ListBindLift(e);
    }
    BindElemsIsFlatMap(s, JoinK(ListMonad), Contents);
  }

  /** `join` of a list with an element that is not iterable raises
      TypeError, wherever that element is. */
  lemma {:induction false} ListJoinRejects(callers: seq<Frame<Val>>, site: Site<Val>, s: seq<Val>)
    requires Governed(callers, ListMonad)
    requires exists e :: e in s && Elements(e).None?
    ensures Invoke(None, callers, site, Join(VList(s))) == Err(TypeError)
  {
    ListCongruent();
    JoinRuns(ListMonad, callers, site, VList(s));
    JoinBindElemsRejects(s);
  }

  lemma {:induction false} JoinBindElemsRejects(s: seq<Val>)
    requires exists e :: e in s && Elements(e).None?
    ensures BindElems(s, JoinK(ListMonad)) == Err(TypeError)
  {
    ListBindLift(s[0]);
    if Elements(s[0]).Some? {
      var e :| e in s && Elements(e).None?;
      assert e in s[1..];
      JoinBindElemsRejects(s[1..]);
    }
  }

  /** The intended `bind(m, f)` under ListMonad is ListMonad.bind with `f`,
      whatever `f` returns: binding each result to `lift` again keeps a
      list, empties a tuple and raises where `+=` would. */
  lemma ListBindIntendedRuns(callers: seq<Frame<Val>>, site: Site<Val>, m: Val, f: Val -> Result<Val>)
    requires Governed(callers, ListMonad)
    ensures Invoke(None, callers, site, BindIntended(m, f)) == ListBind(m, f)
  {
    ListCongruent();
    BindIntendedRuns(ListMonad, callers, site, m, f);
    ListBindKAll(f);
    if Elements(m).Some? {
      BindElemsByContribution(Elements(m).value, BindK(ListMonad, f), f);
    }
  }

  /** What `result += r` adds to the list being built, or the exception it
      raises. */
  function Contribution(r: Result<Val>): Result<seq<Val>> {
    match r
    case Err(e) => Err(e)
    case Ok(v) =>
      match Elements(v)
      case None => Err(TypeError)
      case Some(es) => Ok(es)
  }

  /** The loop of ListMonad.bind sees its continuation only through what
      each call contributes. */
  lemma {:induction false} BindElemsByContribution(s: seq<Val>, h: Val -> Result<Val>, g: Val -> Result<Val>)
    requires forall x :: Contribution(h(x)) == Contribution(g(x))
    ensures BindElems(s, h) == BindElems(s, g)
  {
    if |s| > 0 {
      BindElemsByContribution(s[1..], h, g);
      assert Contribution(h(s[0])) == Contribution(g(s[0]));
    }
  }

  lemma ListBindKAll(f: Val -> Result<Val>)
    ensures forall x :: Contribution(BindK(ListMonad, f)(x)) == Contribution(f(x))
  {
    forall x ensures Contribution(BindK(ListMonad, f)(x)) == Contribution(f(x)) {
      var r := BindK(ListMonad, f)(x);
      if f(x).Ok? {
        ListBindLift(f(x).value);
      }
      assert r == BindResult(ListMonad, f(x), LiftK(ListMonad));
    }
  }

  /** `lambda x: [x]`. */
  function Wrap(x: Val): Result<Val> {
    Ok(VList([x]))
  }

  /** `bind([1, 2], lambda x: [x])` as written gives `[[1, 2]]`: the list
      itself is wrapped; the documented bind gives `[1, 2]`. */
  lemma ListBindAsWrittenWraps(callers: seq<Frame<Val>>, site: Site<Val>)
    requires Governed(callers, ListMonad)
    ensures var m := VList([VInt(1), VInt(2)]);
      && Invoke(None, callers, site, BindAsWritten(m, Wrap)) == Ok(VList([m]))
      && Invoke(None, callers, site, BindIntended(m, Wrap)) == Ok(m)
  {
    var m := VList([VInt(1), VInt(2)]);
    ListCongruent();
    BindAsWrittenRuns(ListMonad, callers, site, m, Wrap);
    ListBindLift(VList([m]));
    ListBindIntendedRuns(callers, site, m, Wrap);
    WrapEach();
  }

  /** `for elem in [1, 2]: result += [elem]` rebuilds `[1, 2]`. */
  lemma WrapEach()
    ensures BindElems([VInt(1), VInt(2)], Wrap) == Ok([VInt(1), VInt(2)])
  {
    assert [VInt(1), VInt(2)][1..] == [VInt(2)];
    assert [VInt(2)][1..] == [];
    assert BindElems([], Wrap) == Ok([]);
    assert [VInt(2)] + [] == [VInt(2)];
    assert BindElems([VInt(2)], Wrap) == Ok([VInt(2)]);
    assert [VInt(1)] + [VInt(2)] == [VInt(1), VInt(2)];
  }

  // ---------------------------------------------------------------------
  // NoneMonad
  // ---------------------------------------------------------------------

  lemma NoneBindLift(m: Val)
    ensures NoneBind(m, LiftK(NoneMonad)) == Ok(m)
  {
  }

  /** The value-building combinators under NoneMonad: `lift(v)` is `v`,
      `unit()` is `()`, `empty()` is None and `concat(x, y)` is `x or y`. */
  lemma NoneBuildersRun(callers: seq<Frame<Val>>, site: Site<Val>, v: Val, x: Val, y: Val)
    requires Governed(callers, NoneMonad)
    ensures Invoke(None, callers, site, Lift(v)) == Ok(v)
    ensures Invoke(None, callers, site, Unit()) == Ok(VUnit)
    ensures Invoke(None, callers, site, Empty()) == Ok(VNone)
    ensures Invoke(None, callers, site, Concat(x, y)) == Ok(if Truthy(x) then x else y)
  {
    NoneCongruent();
    LiftRuns(NoneMonad, callers, site, v);
    UnitRuns(NoneMonad, callers, site);
    EmptyRuns(NoneMonad, callers, site);
    ConcatRuns(NoneMonad, callers, site, x, y);
  }

  /** `guard(c)` under NoneMonad: `()` for a truthy `c`, else None, which
      ends the enclosing body. */
  lemma NoneGuardRuns(callers: seq<Frame<Val>>, site: Site<Val>, c: Val)
    requires Governed(callers, NoneMonad)
    ensures Invoke(None, callers, site, Guard(c)) == Ok(if Truthy(c) then VUnit else VNone)
  {
    NoneCongruent();
    GuardRuns(NoneMonad, callers, site, c);
  }

  /** `map(f, m)` under NoneMonad: None stays None, anything else is
      transformed, and an exception from `f` propagates. */
  lemma NoneMapRuns(callers: seq<Frame<Val>>, site: Site<Val>, f: Val -> Result<Val>, m: Val)
    requires Governed(callers, NoneMonad)
    ensures Invoke(None, callers, site, Map(f, m)) == if m.VNone? then Ok(VNone) else f(m)
  {
    NoneCongruent();
    MapRuns(NoneMonad, callers, site, f, m);
    if !m.VNone? {
      var r := MapK(NoneMonad, f)(m);
      NoneMapK(f, m);
      assert r == f(m);
    }
  }

  lemma NoneMapK(f: Val -> Result<Val>, x: Val)
    ensures MapK(NoneMonad, f)(x) == f(x)
  {
    if f(x).Ok? {
      assert NoneMonad.bind(NoneMonad.lift(f(x).value), LiftK(NoneMonad)) == f(x);
    }
  }

  /** `join(m)` under NoneMonad is `m`: the values of NoneMonad are flat. */
  lemma NoneJoinRuns(callers: seq<Frame<Val>>, site: Site<Val>, m: Val)
    requires Governed(callers, NoneMonad)
    ensures Invoke(None, callers, site, Join(m)) == Ok(m)
  {
    NoneCongruent();
    JoinRuns(NoneMonad, callers, site, m);
    assert JoinK(NoneMonad)(m) == NoneBind(m, LiftK(NoneMonad)) == Ok(m);
  }

  /** The intended `bind(m, f)` under NoneMonad: None stays None, anything
      else is handed to `f`. */
  lemma NoneBindIntendedRuns(callers: seq<Frame<Val>>, site: Site<Val>, f: Val -> Result<Val>, m: Val)
    requires Governed(callers, NoneMonad)
    ensures Invoke(None, callers, site, BindIntended(m, f)) == if m.VNone? then Ok(VNone) else f(m)
  {
    NoneCongruent();
    BindIntendedRuns(NoneMonad, callers, site, m, f);
  }

  /** `bind(None, f)` as written calls `f` on None; the documented bind
      short-circuits. */
  lemma NoneBindAsWrittenIgnoresNone(callers: seq<Frame<Val>>, site: Site<Val>, f: Val -> Result<Val>)
    requires Governed(callers, NoneMonad)
    ensures Invoke(None, callers, site, BindAsWritten(VNone, f)) == f(VNone)
    ensures Invoke(None, callers, site, BindIntended(VNone, f)) == Ok(VNone)
  {
    NoneCongruent();
    BindAsWrittenRuns(NoneMonad, callers, site, VNone, f);
    NoneBindIntendedRuns(callers, site, f, VNone);
  }

  // ---------------------------------------------------------------------
  // ExceptionMonad
  // ---------------------------------------------------------------------

  /** The value-building combinators under ExceptionMonad: `lift(v)` is
      `v`, `unit()` is `()`, `empty()` is an exception and `concat` keeps
      the first value that is not an exception. */
  lemma ExceptionBuildersRun(callers: seq<Frame<Val>>, site: Site<Val>, v: Val, x: Val, y: Val)
    requires Governed(callers, ExceptionMonad)
    ensures Invoke(None, callers, site, Lift(v)) == Ok(v)
    ensures Invoke(None, callers, site, Unit()) == Ok(VUnit)
    ensures Invoke(None, callers, site, Empty()) == Ok(VExc)
    ensures Invoke(None, callers, site, Concat(x, y)) == Ok(if x.VExc? then y else x)
  {
    ExceptionCongruent();
    LiftRuns(ExceptionMonad, callers, site, v);
    UnitRuns(ExceptionMonad, callers, site);
    EmptyRuns(ExceptionMonad, callers, site);
    ConcatRuns(ExceptionMonad, callers, site, x, y);
  }

  /** `guard(c)` under ExceptionMonad: `()` for a truthy `c`, else an
      exception. */
  lemma ExceptionGuardRuns(callers: seq<Frame<Val>>, site: Site<Val>, c: Val)
    requires Governed(callers, ExceptionMonad)
    ensures Invoke(None, callers, site, Guard(c)) == Ok(if Truthy(c) then VUnit else VExc)
  {
    ExceptionCongruent();
    GuardRuns(ExceptionMonad, callers, site, c);
  }

  /** `map(f, m)` under ExceptionMonad as written applies `f` to an
      exception too, because bind only stops at None. */
  lemma ExceptionMapRuns(callers: seq<Frame<Val>>, site: Site<Val>, f: Val -> Result<Val>, m: Val)
    requires Governed(callers, ExceptionMonad)
    ensures Invoke(None, callers, site, Map(f, m)) == if m.VNone? then Ok(VNone) else f(m)
  {
    ExceptionCongruent();
    MapRuns(ExceptionMonad, callers, site, f, m);
    assert Agree(MapK(ExceptionMonad, f), f) by {
      forall x ensures MapK(ExceptionMonad, f)(x) == f(x) {
        if f(x).Ok? {
          assert ExceptionMonad.bind(ExceptionMonad.lift(f(x).value), LiftK(ExceptionMonad)) == f(x);
        }
      }
    }
    assert ExceptionMonad.bind(m, MapK(ExceptionMonad, f)) == ExceptionMonad.bind(m, f);
  }
}
