/**
  The reference monad instances of guac/instances.py.

  A Python `Monad` subclass is a record of its static methods.  `bind`
  receives a continuation that may raise, so it takes and returns
  `Result`s; `empty` and `concat` are optional because only some instances
  define them.
 */
module Instances {
  import opened Wrappers
  import opened Values

  datatype Instance<!M> = Instance(
    lift: Val -> M,
    bind: (M, Val -> Result<M>) -> Result<M>,
    empty: Option<M>,
    concat: Option<(M, M) -> Result<M>>,
    defers: bool)
      // `defers`: bind returns a function that calls the continuation only
      // when it is applied, after bind (and the drive) have returned

  /** `m.lift(v)`, the body of the deferred request `lift` creates. */
  function LiftIn<M>(inst: Instance<M>, v: Val): Result<M> {
    Ok(inst.lift(v))
  }

  /** `m.empty()`: an instance without `empty` raises AttributeError. */
  function EmptyIn<M>(inst: Instance<M>): (r: Result<M>)
    ensures r.Err? <==> inst.empty.None?
    ensures r.Err? ==> r.error == NotSupported
    ensures inst.empty.Some? ==> r == Ok(inst.empty.value)
  {
    match inst.empty
    case Some(e) => Ok(e)
    case None => Err(NotSupported)
  }

  /** `m.concat(x, y)`: an instance without `concat` raises AttributeError. */
  function ConcatIn<M>(inst: Instance<M>, x: M, y: M): (r: Result<M>)
    ensures inst.concat.None? ==> r == Err(NotSupported)
    ensures inst.concat.Some? ==> r == inst.concat.value(x, y)
  {
    match inst.concat
    case Some(c) => c(x, y)
    case None => Err(NotSupported)
  }

  /** `inst.bind(r, g)` where evaluating `r` may already have raised:
      the nesting `bind(bind(m, f), g)` of the monad laws. */
  function BindResult<M>(inst: Instance<M>, r: Result<M>, g: Val -> Result<M>): Result<M> {
    match r
    case Err(e) => Err(e)
    case Ok(m) => inst.bind(m, g)
  }

  /** Two continuations that agree on every plain value. */
  ghost predicate Agree<M>(f: Val -> Result<M>, g: Val -> Result<M>) {
    forall x :: f(x) == g(x)
  }

  /** `bind` looks at its continuation only through the values it returns.
      Dafny has no extensionality for functions, so this is the fact that
      lets two differently written continuations be exchanged. */
  ghost predicate Congruent<M(!new)>(inst: Instance<M>) {
    forall m: M, f: Val -> Result<M>, g: Val -> Result<M> ::
      Agree(f, g) ==> inst.bind(m, f) == inst.bind(m, g)
  }

  // ---------------------------------------------------------------------
  // ListMonad: nondeterminism with lists
  // ---------------------------------------------------------------------

  function ListLift(x: Val): (r: Val)
    ensures Elements(r) == Some([x])
  {
    VList([x])
  }

  /** Every call of `f` on the elements of `s` returns something `+=` can
      iterate. */
  predicate AllIterable(s: seq<Val>, f: Val -> Result<Val>) {
    forall i :: 0 <= i < |s| ==> f(s[i]).Ok? && Elements(f(s[i]).value).Some?
  }

  /** The list `result` holds after `for elem in s: result += f(elem)`.
      The loop stops at the first exception, from `f` itself or from
      `+=` meeting something that is not iterable. */
  function BindElems(s: seq<Val>, f: Val -> Result<Val>): (r: Result<seq<Val>>)
    ensures r.Ok? <==> AllIterable(s, f)
  {
    if |s| == 0 then Ok([])
    else
      match f(s[0])
      case Err(e) => Err(e)
      case Ok(v) =>
        match Elements(v)
        case None => Err(TypeError)
        case Some(es) =>
          match BindElems(s[1..], f)
          case Err(e) => Err(e)
          case Ok(rest) => Ok(es + rest)
  }

  /** ListMonad.bind: flat-map over an iterable. */
  function ListBind(m: Val, f: Val -> Result<Val>): (r: Result<Val>)
    ensures Elements(m).None? ==> r == Err(TypeError)
    ensures r.Ok? ==> r.value.VList?
  {
    match Elements(m)
    case None => Err(TypeError)
    case Some(s) =>
      match BindElems(s, f)
      case Err(e) => Err(e)
      case Ok(items) => Ok(VList(items))
  }

  /** The loop of ListMonad.bind as written, element by element. */
  method ListBindLoop(m: Val, f: Val -> Result<Val>) returns (r: Result<Val>)
    ensures r == ListBind(m, f)
  {
    if Elements(m).None? {
      return Err(TypeError);
    }
    var s := Elements(m).value;
    var result: seq<Val> := [];
    var i := 0;
    while i < |s|
      invariant 0 <= i <= |s|
      invariant BindElems(s[..i], f) == Ok(result)
    {
      BindElemsSnoc(s, i, f);
      var v := f(s[i]);
      if v.Err? {
        BindElemsErrPrefix(s, i + 1, f);
        return Err(v.error);
      }
      var es := Elements(v.value);
      if es.None? {
        BindElemsErrPrefix(s, i + 1, f);
        return Err(TypeError);
      }
      assert [s[i]][1..] == [];
      assert es.value + [] == es.value;
      assert BindElems([s[i]], f) == Ok(es.value);
      result := result + es.value;
      i := i + 1;
    }
    assert s[..i] == s;
    return Ok(VList(result));
  }

  /** ListMonad.concat is Python's `x + y`. */
  function ListConcat(x: Val, y: Val): (r: Result<Val>)
    ensures x.VList? && y.VList? ==> r == Ok(VList(x.items + y.items))
  {
    Add(x, y)
  }

  const ListMonad: Instance<Val> := Instance(ListLift, ListBind, Some(VList([])), Some(ListConcat), false)

  /** Joins two loop results the way running one loop after the other does:
      the first exception wins. */
  function AppendResults(a: Result<seq<Val>>, b: Result<seq<Val>>): Result<seq<Val>> {
    match a
    case Err(e) => Err(e)
    case Ok(x) =>
      match b
      case Err(e) => Err(e)
      case Ok(y) => Ok(x + y)
  }

  /** Looping over `s1 + s2` is looping over `s1`, then over `s2`. */
  lemma {:induction false} BindElemsAppend(s1: seq<Val>, s2: seq<Val>, f: Val -> Result<Val>)
    ensures BindElems(s1 + s2, f) == AppendResults(BindElems(s1, f), BindElems(s2, f))
  {
    if |s1| == 0 {
      assert s1 + s2 == s2;
      if BindElems(s2, f).Ok? {
        assert [] + BindElems(s2, f).value == BindElems(s2, f).value;
      }
    } else {
      assert (s1 + s2)[0] == s1[0];
      assert (s1 + s2)[1..] == s1[1..] + s2;
      BindElemsAppend(s1[1..], s2, f);
      var head := f(s1[0]);
      if head.Ok? && Elements(head.value).Some? {
        var es := Elements(head.value).value;
        var tail1, tail2 := BindElems(s1[1..], f), BindElems(s2, f);
        if tail1.Ok? && tail2.Ok? {
          assert es + (tail1.value + tail2.value) == (es + tail1.value) + tail2.value;
        }
      }
    }
  }

  /** One more turn of the loop appends what `f` gives on the next element. */
  lemma BindElemsSnoc(s: seq<Val>, i: nat, f: Val -> Result<Val>)
    requires i < |s|
    ensures BindElems(s[..i + 1], f) == AppendResults(BindElems(s[..i], f), BindElems([s[i]], f))
  {
    assert s[..i + 1] == s[..i] + [s[i]];
    BindElemsAppend(s[..i], [s[i]], f);
  }

  /** Once the loop has raised, the remaining elements do not matter. */
  lemma BindElemsErrPrefix(s: seq<Val>, i: nat, f: Val -> Result<Val>)
    requires i <= |s|
    requires BindElems(s[..i], f).Err?
    ensures BindElems(s, f) == BindElems(s[..i], f)
  {
    assert s == s[..i] + s[i..];
    BindElemsAppend(s[..i], s[i..], f);
  }

  /** The loop calls `f` only on the elements of `s`. */
  lemma {:induction false} BindElemsCongruent(s: seq<Val>, f: Val -> Result<Val>, g: Val -> Result<Val>)
    requires forall e :: e in s ==> f(e) == g(e)
    ensures BindElems(s, f) == BindElems(s, g)
  {
    if |s| > 0 {
      assert s[0] in s;
      assert forall e :: e in s[1..] ==> e in s;
      BindElemsCongruent(s[1..], f, g);
    }
  }

  lemma ListCongruent()
    ensures Congruent(ListMonad)
  {
    forall m: Val, f: Val -> Result<Val>, g: Val -> Result<Val> | Agree(f, g)
      ensures ListBind(m, f) == ListBind(m, g)
    {
      if Elements(m).Some? {
        BindElemsCongruent(Elements(m).value, f, g);
      }
    }
  }

  /** The independent reference for list bind: an order-preserving flat-map
      with a continuation that always returns a list. */
  function FlatMap(s: seq<Val>, g: Val -> seq<Val>): seq<Val> {
    if |s| == 0 then [] else g(s[0]) + FlatMap(s[1..], g)
  }

  /** The sum of the lengths of the lists `g` returns on `s`. */
  function SumLengths(s: seq<Val>, g: Val -> seq<Val>): nat {
    if |s| == 0 then 0 else |g(s[0])| + SumLengths(s[1..], g)
  }

  // ---------------------------------------------------------------------
  // NoneMonad: failure with None
  // ---------------------------------------------------------------------

  /** NoneMonad.lift and ExceptionMonad.lift: the value itself. */
  function IdentityLift(x: Val): Val {
    x
  }

  /** NoneMonad.bind: `f(m)` unless `m is None`. */
  function NoneBind(m: Val, f: Val -> Result<Val>): (r: Result<Val>)
    ensures m.VNone? ==> r == Ok(VNone)
    ensures !m.VNone? ==> r == f(m)
  {
    if m.VNone? then Ok(VNone) else f(m)
  }

  /** NoneMonad.concat as written: `x or y`, Python truthiness. */
  function NoneConcat(x: Val, y: Val): (r: Result<Val>)
    ensures r.Ok?
    ensures Truthy(x) ==> r.value == x
    ensures !Truthy(x) ==> r.value == y
  {
    Ok(if Truthy(x) then x else y)
  }

  /** NoneMonad.concat as its documentation describes it: the first value
      that is not None. */
  function NoneConcatIntended(x: Val, y: Val): (r: Val)
    ensures r.VNone? <==> x.VNone? && y.VNone?
    ensures !x.VNone? ==> r == x
  {
    if x.VNone? then y else x
  }

  const NoneMonad: Instance<Val> := Instance(IdentityLift, NoneBind, Some(VNone), Some(NoneConcat), false)

  lemma NoneCongruent()
    ensures Congruent(NoneMonad)
  {
  }

  // ---------------------------------------------------------------------
  // ExceptionMonad: failure with an Exception marker
  // ---------------------------------------------------------------------

  /** ExceptionMonad.bind as written: it tests `m is not None`, exactly like
      NoneMonad.bind, so an Exception value is handed on to `f`. */
  function ExcBind(m: Val, f: Val -> Result<Val>): (r: Result<Val>)
    ensures m.VNone? ==> r == Ok(VNone)
    ensures !m.VNone? ==> r == f(m)
  {
    if m.VNone? then Ok(VNone) else f(m)
  }

  /** ExceptionMonad.bind as its documentation describes it: an Exception
      value stops the computation and `f` is not called. */
  function ExcBindIntended(m: Val, f: Val -> Result<Val>): (r: Result<Val>)
    ensures m.VExc? ==> r == Ok(VExc)
    ensures !m.VExc? ==> r == f(m)
  {
    if m.VExc? then Ok(VExc) else f(m)
  }

  /** ExceptionMonad.concat: `x` unless it is an Exception, else `y`. */
  function ExcConcat(x: Val, y: Val): (r: Result<Val>)
    ensures r.Ok?
    ensures r.value == x <==> !x.VExc? || y == x
    ensures r.value.VExc? <==> x.VExc? && y.VExc?
    ensures x.VExc? ==> r.value == y
  {
    Ok(if !x.VExc? then x else y)
  }

  const ExceptionMonad: Instance<Val> := Instance(IdentityLift, ExcBind, Some(VExc), Some(ExcConcat), false)

  lemma ExceptionCongruent()
    ensures Congruent(ExceptionMonad)
  {
  }

  // ---------------------------------------------------------------------
  // FunctionMonad: the reader monad
  // ---------------------------------------------------------------------

  /** A reader: a Python function of one argument, which may raise. */
  type Reader = Val -> Result<Val>

  /** FunctionMonad.lift: the constant function. */
  function ReaderLift(x: Val): (r: Reader)
    ensures forall env :: r(env) == Ok(x)
  {
    _ => Ok(x)
  }

  /** FunctionMonad.bind: `lambda x: f(m(x))(x)`.  Nothing runs until the
      returned function is applied, so bind itself never raises. */
  function ReaderBind(m: Reader, f: Val -> Result<Reader>): (r: Result<Reader>)
    ensures r.Ok?
    ensures forall env :: m(env).Err? ==> r.value(env) == Err(m(env).error)
    ensures forall env :: m(env).Ok? && f(m(env).value).Err? ==> r.value(env) == Err(f(m(env).value).error)
    ensures forall env :: m(env).Ok? && f(m(env).value).Ok? ==> r.value(env) == f(m(env).value).value(env)
  {
    Ok(env => m(env).AndThen(f).AndThen((g: Reader) => g(env)))
  }

  const FunctionMonad: Instance<Reader> := Instance(ReaderLift, ReaderBind, None, None, true)

  // ---------------------------------------------------------------------
  // StateMonad: state threading
  // ---------------------------------------------------------------------

  /** A stateful computation: from a state to a (result, new state) pair. */
  type Stateful = Val -> Result<(Val, Val)>

  /** StateMonad.lift: returns `x` and leaves the state alone. */
  function StateLift(x: Val): (r: Stateful)
    ensures forall s :: r(s) == Ok((x, s))
  {
    s => Ok((x, s))
  }

  /** StateMonad.bind: run `m`, feed its result to `f`, and run what `f`
      returns on the state `m` left behind. */
  function StateBind(m: Stateful, f: Val -> Result<Stateful>): (r: Result<Stateful>)
    ensures r.Ok?
    ensures forall s :: m(s).Err? ==> r.value(s) == Err(m(s).error)
    ensures forall s :: m(s).Ok? && f(m(s).value.0).Err? ==> r.value(s) == Err(f(m(s).value.0).error)
    ensures forall s :: m(s).Ok? && f(m(s).value.0).Ok? ==> r.value(s) == f(m(s).value.0).value(m(s).value.1)
  {
    Ok(s => m(s).AndThen((p: (Val, Val)) => f(p.0).AndThen((g: Stateful) => g(p.1))))
  }

  const StateMonad: Instance<Stateful> := Instance(StateLift, StateBind, None, None, true)
}
