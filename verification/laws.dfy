/**
  What the reference instances of guac/instances.py satisfy: the monad
  laws (left identity, right identity, associativity), the behaviour of
  `empty` and `concat`, and where the code departs from its documentation.

  Python exceptions make the laws sharper than the textbook ones: a law
  holds for an input only when both sides raise the same exception or
  return the same value.
 */
module Laws {
  import opened Wrappers
  import opened Values
  import opened Instances

  // ---------------------------------------------------------------------
  // ListMonad
  // ---------------------------------------------------------------------

  /** The loop over `s` agrees with the flat-map of `s` when every call of
      the continuation returns a list. */
  lemma {:induction false} BindElemsIsFlatMap(s: seq<Val>, f: Val -> Result<Val>, g: Val -> seq<Val>)
    requires forall e :: e in s ==> f(e) == Ok(VList(g(e)))
    ensures BindElems(s, f) == Ok(FlatMap(s, g))
  {
    if |s| > 0 {
      assert s[0] in s;
      assert forall e :: e in s[1..] ==> e in s;
      BindElemsIsFlatMap(s[1..], f, g);
    }
  }

  /** The flat-map keeps the order of `s`: it distributes over `+`. */
  lemma {:induction false} FlatMapAppend(s1: seq<Val>, s2: seq<Val>, g: Val -> seq<Val>)
    ensures FlatMap(s1 + s2, g) == FlatMap(s1, g) + FlatMap(s2, g)
  {
    if |s1| == 0 {
      assert s1 + s2 == s2;
    } else {
      assert (s1 + s2)[0] == s1[0];
      assert (s1 + s2)[1..] == s1[1..] + s2;
      FlatMapAppend(s1[1..], s2, g);
    }
  }

  /** The length of a flat-map is the sum of the lengths of its pieces. */
  lemma {:induction false} FlatMapLength(s: seq<Val>, g: Val -> seq<Val>)
    ensures |FlatMap(s, g)| == SumLengths(s, g)
  {
    if |s| > 0 {
      FlatMapLength(s[1..], g);
    }
  }

  /** A value is in the flat-map exactly when some element produced it. */
  lemma {:induction false} FlatMapMembership(s: seq<Val>, g: Val -> seq<Val>, x: Val)
    ensures x in FlatMap(s, g) <==> exists e :: e in s && x in g(e)
  {
    if |s| > 0 {
      FlatMapMembership(s[1..], g, x);
      if x in FlatMap(s, g) && x !in g(s[0]) {
        var e :| e in s[1..] && x in g(e);
        assert e in s;
      }
      if exists e :: e in s && x in g(e) {
        var e :| e in s && x in g(e);
        if e != s[0] {
          assert e in s[1..];
        }
      }
    }
  }

  /** A flat-map whose pieces are singletons is an element-wise map. */
  lemma {:induction false} FlatMapOfSingletons(s: seq<Val>, g: Val -> seq<Val>, h: Val -> Val)
    requires forall e :: e in s ==> g(e) == [h(e)]
    ensures |FlatMap(s, g)| == |s|
    ensures forall i :: 0 <= i < |s| ==> FlatMap(s, g)[i] == h(s[i])
  {
    if |s| > 0 {
      assert s[0] in s;
      assert forall e :: e in s[1..] ==> e in s;
      FlatMapOfSingletons(s[1..], g, h);
      forall i | 0 < i < |s|
        ensures FlatMap(s, g)[i] == h(s[i])
      {
        assert FlatMap(s, g)[i] == FlatMap(s[1..], g)[i - 1];
      }
    }
  }

  /** ListMonad.bind is an order-preserving flat-map: on a list whose
      elements all map to lists it returns `f(m[0]) + f(m[1]) + ...`, whose
      length is the sum of the pieces' lengths; on `[]` it returns `[]`
      without calling `f`. */
  lemma ListBindIsFlatMap(s: seq<Val>, f: Val -> Result<Val>, g: Val -> seq<Val>)
    requires forall e :: e in s ==> f(e) == Ok(VList(g(e)))
    ensures ListBind(VList(s), f) == Ok(VList(FlatMap(s, g)))
    ensures |FlatMap(s, g)| == SumLengths(s, g)
    ensures ListBind(VList([]), f) == Ok(VList([]))
  {
    BindElemsIsFlatMap(s, f, g);
    FlatMapLength(s, g);
  }

  /** Left identity: `bind([v], f) == f(v)` exactly when `f(v)` raises or
      returns a list; a tuple result is turned into a list and anything
      else that is not iterable raises TypeError. */
  lemma ListLeftIdentity(v: Val, f: Val -> Result<Val>)
    ensures ListBind(ListLift(v), f) == f(v) <==> f(v).Err? || f(v).value.VList?
    ensures f(v) == Ok(VUnit) ==> ListBind(ListLift(v), f) == Ok(VList([]))
    ensures f(v).Ok? && Elements(f(v).value).None? ==> ListBind(ListLift(v), f) == Err(TypeError)
  {
    var r := ListBind(ListLift(v), f);
    assert Elements(ListLift(v)) == Some([v]);
    assert [v][1..] == [];
    assert BindElems([v][1..], f) == Ok([]);
    match f(v)
    case Err(e) =>
      assert r == Err(e);
    case Ok(w) =>
      match Elements(w)
      case None =>
        assert r == Err(TypeError);
      case Some(es) =>
        assert es + [] == es;
        assert r == Ok(VList(es));
  }

  /** Right identity: `bind(m, lift) == m` for every list `m`; the empty
      tuple becomes `[]` and a non-iterable `m` raises TypeError. */
  lemma ListRightIdentity(m: Val)
    ensures m.VList? ==> ListBind(m, x => Ok(ListLift(x))) == Ok(m)
    ensures m.VUnit? ==> ListBind(m, x => Ok(ListLift(x))) == Ok(VList([]))
    ensures !m.VList? && !m.VUnit? ==> ListBind(m, x => Ok(ListLift(x))) == Err(TypeError)
  {
    if m.VList? {
      var g := (x: Val) => [x];
      var h := (x: Val) => x;
      BindElemsIsFlatMap(m.items, x => Ok(ListLift(x)), g);
      FlatMapOfSingletons(m.items, g, h);
      assert FlatMap(m.items, g) == m.items;
    }
  }

  /** The two sides of associativity, computed over the elements. */
  lemma {:induction false} BindElemsAssociative(s: seq<Val>, f: Val -> Result<Val>, g: Val -> Result<Val>, fg: Val -> Result<Val>)
    requires forall x :: fg(x) == BindResult(ListMonad, f(x), g)
    ensures var a := BindElems(s, f);
            (a.Ok? && BindElems(a.value, g).Ok?) <==> BindElems(s, fg).Ok?
    ensures var a := BindElems(s, f);
            a.Ok? && BindElems(a.value, g).Ok? ==> BindElems(a.value, g).value == BindElems(s, fg).value
  {
    if |s| > 0 {
      BindElemsAssociative(s[1..], f, g, fg);
      match f(s[0])
      case Err(e) =>
      case Ok(v) =>
        match Elements(v)
        case None =>
        case Some(es) =>
          var tail := BindElems(s[1..], f);
          if tail.Ok? {
            BindElemsAppend(es, tail.value, g);
          }
    }
  }

  /** Associativity: `bind(bind(m, f), g)` and `bind(m, x => bind(f(x), g))`
      either both succeed with the same list or both raise.  They can raise
      different exceptions, because the left side calls `f` on every
      element before it calls `g`, while the right side interleaves them. */
  lemma ListAssociativity(m: Val, f: Val -> Result<Val>, g: Val -> Result<Val>)
    ensures var lhs := BindResult(ListMonad, ListBind(m, f), g);
            var rhs := ListBind(m, x => BindResult(ListMonad, f(x), g));
            (lhs.Ok? <==> rhs.Ok?) && (lhs.Ok? ==> lhs == rhs)
  {
    if Elements(m).Some? {
      BindElemsAssociative(Elements(m).value, f, g, x => BindResult(ListMonad, f(x), g));
    }
  }

  /** Associativity is exact when neither continuation raises and both
      return lists. */
  lemma ListAssociativityTotal(m: Val, f: Val -> Result<Val>, g: Val -> Result<Val>)
    requires m.VList?
    requires forall x :: f(x).Ok? && f(x).value.VList?
    requires forall x :: g(x).Ok? && g(x).value.VList?
    ensures BindResult(ListMonad, ListBind(m, f), g) == ListBind(m, x => BindResult(ListMonad, f(x), g))
  {
    var fg := x => BindResult(ListMonad, f(x), g);
    ListAssociativity(m, f, g);
    ListBindIsFlatMap(m.items, f, x => f(x).value.items);
    var mid := FlatMap(m.items, x => f(x).value.items);
    ListBindIsFlatMap(mid, g, x => g(x).value.items);
    forall x | x in m.items
      ensures fg(x) == Ok(VList(FlatMap(f(x).value.items, y => g(y).value.items)))
    {
      ListBindIsFlatMap(f(x).value.items, g, y => g(y).value.items);
    }
    ListBindIsFlatMap(m.items, fg, x => FlatMap(f(x).value.items, y => g(y).value.items));
  }

  /** ListMonad's `empty()` is `[]`, `concat(x, y)` is `x + y`, and `[]` is
      a two-sided identity for `concat` on exactly the lists. */
  lemma ListEmptyConcat(x: Val, y: Val)
    ensures ListMonad.empty == Some(VList([]))
    ensures x.VList? && y.VList? ==> ListConcat(x, y) == Ok(VList(x.items + y.items))
    ensures ListConcat(VList([]), x) == Ok(x) <==> x.VList?
    ensures ListConcat(x, VList([])) == Ok(x) <==> x.VList?
  {
    if x.VList? {
      assert [] + x.items == x.items;
      assert x.items + [] == x.items;
    }
  }

  /** `bind(concat(x, y), f) == concat(bind(x, f), bind(y, f))` on lists,
      including which exception is raised: both sides meet the elements of
      `x` first. */
  lemma ListBindDistributesOverConcat(a: seq<Val>, b: seq<Val>, f: Val -> Result<Val>)
    ensures ListConcat(VList(a), VList(b)).AndThen(xy => ListBind(xy, f))
         == ListBind(VList(a), f).AndThen(x => ListBind(VList(b), f).AndThen(y => ListConcat(x, y)))
  {
    BindElemsAppend(a, b, f);
  }

  // ---------------------------------------------------------------------
  // NoneMonad
  // ---------------------------------------------------------------------

  /** Left identity holds for every value but None: `bind(None, f)` is None
      whatever `f` would have returned. */
  lemma NoneLeftIdentity(v: Val, f: Val -> Result<Val>)
    ensures NoneBind(IdentityLift(v), f) == f(v) <==> !v.VNone? || f(VNone) == Ok(VNone)
    ensures NoneBind(IdentityLift(VNone), f) == Ok(VNone)
  {
  }

  /** Right identity holds for every value, None included. */
  lemma NoneRightIdentity(m: Val)
    ensures NoneBind(m, x => Ok(IdentityLift(x))) == Ok(m)
  {
  }

  /** Associativity holds for every value and continuations, exceptions
      included. */
  lemma NoneAssociativity(m: Val, f: Val -> Result<Val>, g: Val -> Result<Val>)
    ensures BindResult(NoneMonad, NoneBind(m, f), g) == NoneBind(m, x => BindResult(NoneMonad, f(x), g))
  {
  }

  /** NoneMonad.concat as written returns `y` whenever `x` is falsy, so it
      differs from "the first value that is not None" exactly on a falsy
      `x` other than None: `concat(0, None)` is None, not 0. */
  lemma NoneConcatSkipsFalsy(x: Val, y: Val)
    ensures NoneConcat(x, y) != Ok(NoneConcatIntended(x, y)) <==> !Truthy(x) && !x.VNone? && x != y
    ensures NoneConcat(VInt(0), VNone) == Ok(VNone) && NoneConcatIntended(VInt(0), VNone) == VInt(0)
  {
  }

  /** With the documented `concat`, None (`empty()`) is a two-sided
      identity and `concat` is associative.  The code as written, `x or y`,
      stays associative and keeps the left identity; only the right
      identity fails, at the falsy values other than None. */
  lemma NoneConcatIntendedLaws(x: Val, y: Val, z: Val)
    ensures NoneConcatIntended(VNone, x) == x && NoneConcatIntended(x, VNone) == x
    ensures NoneConcatIntended(NoneConcatIntended(x, y), z) == NoneConcatIntended(x, NoneConcatIntended(y, z))
    ensures NoneConcat(VNone, x) == Ok(x)
    ensures NoneConcat(x, VNone) == Ok(x) <==> Truthy(x) || x.VNone?
    ensures NoneConcat(NoneConcat(x, y).value, z) == NoneConcat(x, NoneConcat(y, z).value)
  {
  }

  // ---------------------------------------------------------------------
  // ExceptionMonad
  // ---------------------------------------------------------------------

  /** ExceptionMonad.bind as written hands an Exception on to `f` and stops
      only at None: with `f = _ => 1`, `bind(Exception(), f)` is 1, where the
      documented bind returns the Exception. */
  lemma ExcBindResumesOnException(f: Val -> Result<Val>)
    ensures ExcBind(VExc, f) == f(VExc)
    ensures ExcBind(VNone, f) == Ok(VNone)
    ensures ExcBind(VExc, _ => Ok(VInt(1))) == Ok(VInt(1))
    ensures ExcBindIntended(VExc, _ => Ok(VInt(1))) == Ok(VExc)
  {
  }

  /** The monad laws of ExceptionMonad as written, whose bind stops at None:
      they are NoneMonad's laws, left identity failing only at None. */
  lemma ExcLaws(v: Val, m: Val, f: Val -> Result<Val>, g: Val -> Result<Val>)
    ensures ExcBind(IdentityLift(v), f) == f(v) <==> !v.VNone? || f(VNone) == Ok(VNone)
    ensures ExcBind(m, x => Ok(IdentityLift(x))) == Ok(m)
    ensures BindResult(ExceptionMonad, ExcBind(m, f), g) == ExcBind(m, x => BindResult(ExceptionMonad, f(x), g))
  {
  }

  /** `empty()` is the Exception marker and `concat(x, y)` returns `x`
      unless `x` is an Exception; the marker is a two-sided identity and
      `concat` is associative. */
  lemma ExcEmptyConcat(x: Val, y: Val, z: Val)
    ensures ExceptionMonad.empty == Some(VExc)
    ensures ExcConcat(x, y) == Ok(if x.VExc? then y else x)
    ensures ExcConcat(VExc, x) == Ok(x) && ExcConcat(x, VExc) == Ok(x)
    ensures ExcConcat(ExcConcat(x, y).value, z) == ExcConcat(x, ExcConcat(y, z).value)
  {
  }

  /** The documented ExceptionMonad.bind short-circuits on the Exception
      marker and satisfies the monad laws, left identity everywhere except
      at the marker itself. */
  lemma ExcBindIntendedLaws(v: Val, m: Val, f: Val -> Result<Val>, g: Val -> Result<Val>)
    ensures ExcBindIntended(VExc, f) == Ok(VExc)
    ensures ExcBindIntended(v, f) == f(v) <==> !v.VExc? || f(VExc) == Ok(VExc)
    ensures ExcBindIntended(m, x => Ok(IdentityLift(x))) == Ok(m)
    ensures ExcBindIntended(m, f).AndThen(n => ExcBindIntended(n, g))
         == ExcBindIntended(m, x => f(x).AndThen(n => ExcBindIntended(n, g)))
  {
  }

  // ---------------------------------------------------------------------
  // FunctionMonad, pointwise
  // ---------------------------------------------------------------------

  /** Left identity, at every argument: `bind(lift(v), f)(r) == f(v)(r)`. */
  lemma ReaderLeftIdentity(v: Val, f: Val -> Result<Reader>, env: Val)
    ensures ReaderBind(ReaderLift(v), f).value(env) == f(v).AndThen((g: Reader) => g(env))
  {
  }

  /** Right identity, at every argument: `bind(m, lift)(r) == m(r)`. */
  lemma ReaderRightIdentity(m: Reader, env: Val)
    ensures ReaderBind(m, x => Ok(ReaderLift(x))).value(env) == m(env)
  {
    match m(env)
    case Err(e) =>
    case Ok(x) =>
  }

  /** Associativity, at every argument, exceptions included. */
  lemma ReaderAssociativity(m: Reader, f: Val -> Result<Reader>, g: Val -> Result<Reader>, env: Val)
    ensures BindResult(FunctionMonad, ReaderBind(m, f), g).value(env)
         == ReaderBind(m, x => BindResult(FunctionMonad, f(x), g)).value(env)
  {
    var fg := x => BindResult(FunctionMonad, f(x), g);
    var mf := ReaderBind(m, f).value;
    assert BindResult(FunctionMonad, ReaderBind(m, f), g) == ReaderBind(mf, g);
    assert ReaderBind(mf, g).value(env) == mf(env).AndThen(g).AndThen((h: Reader) => h(env));
    assert mf(env) == m(env).AndThen(f).AndThen((h: Reader) => h(env));
    assert ReaderBind(m, fg).value(env) == m(env).AndThen(fg).AndThen((h: Reader) => h(env));
    match m(env)
    case Err(e) =>
    case Ok(x) =>
      match f(x)
      case Err(e) =>
        assert fg(x) == Err(e);
      case Ok(fx) =>
        assert fg(x) == ReaderBind(fx, g);
        assert ReaderBind(fx, g).value(env) == fx(env).AndThen(g).AndThen((h: Reader) => h(env));
  }

  // ---------------------------------------------------------------------
  // StateMonad, pointwise
  // ---------------------------------------------------------------------

  /** Left identity, at every state: `bind(lift(v), f)(s) == f(v)(s)`. */
  lemma StateLeftIdentity(v: Val, f: Val -> Result<Stateful>, s: Val)
    ensures StateBind(StateLift(v), f).value(s) == f(v).AndThen((g: Stateful) => g(s))
  {
  }

  /** Right identity, at every state: `bind(m, lift)(s) == m(s)`. */
  lemma StateRightIdentity(m: Stateful, s: Val)
    ensures StateBind(m, x => Ok(StateLift(x))).value(s) == m(s)
  {
    var lift := (x: Val) => Ok(StateLift(x));
    var r := StateBind(m, lift).value;
    assert r(s) == m(s).AndThen((p: (Val, Val)) => lift(p.0).AndThen((g: Stateful) => g(p.1)));
    match m(s)
    case Err(e) =>
    case Ok(p) =>
      assert lift(p.0).AndThen((g: Stateful) => g(p.1)) == StateLift(p.0)(p.1);
      assert StateLift(p.0)(p.1) == Ok((p.0, p.1));
      assert (p.0, p.1) == p;
  }

  /** Associativity, at every state, exceptions included. */
  lemma StateAssociativity(m: Stateful, f: Val -> Result<Stateful>, g: Val -> Result<Stateful>, s: Val)
    ensures BindResult(StateMonad, StateBind(m, f), g).value(s)
         == StateBind(m, x => BindResult(StateMonad, f(x), g)).value(s)
  {
    var fg := x => BindResult(StateMonad, f(x), g);
    var mf := StateBind(m, f).value;
    assert BindResult(StateMonad, StateBind(m, f), g) == StateBind(mf, g);
    match m(s)
    case Err(e) =>
      assert mf(s) == Err(e);
    case Ok(p) =>
      match f(p.0)
      case Err(e) =>
        assert mf(s) == Err(e);
        assert fg(p.0) == Err(e);
      case Ok(fx) =>
        assert mf(s) == fx(p.1);
        assert fg(p.0) == StateBind(fx, g);
  }
}
