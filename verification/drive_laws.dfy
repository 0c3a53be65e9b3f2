/**
  What driving a program promises (guac/monad.py, `Monad._run` and
  `monadic_context`): the nested-bind shape of a drive, the resolution of
  deferred requests, the end of a branch, branch isolation under
  ListMonad, the short-circuit of NoneMonad, and context inference.
 */
module DriveLaws {
  import opened Wrappers
  import opened Values
  import opened Instances
  import opened Runner
  import opened Laws

  // ---------------------------------------------------------------------
  // One resumption
  // ---------------------------------------------------------------------

  /** Each resumption with `x` is a fresh drive of the remaining program
      `k(x)`: its result depends on `k(x)` and nothing else, so sibling
      resumptions cannot see each other.  A remaining program that only
      returns ends the branch with `lift(x)`, or raises for a truthy return
      value; `None`, `0` and `[]` are all accepted. */
  lemma ResumeIsFreshDrive<M>(inst: Instance<M>, frames: seq<Frame<M>>, site: Site<M>, k: Val -> Prog<M>, b: nat, x: Val)
    requires ContValid(k, b)
    ensures k(x).Return? && Truthy(k(x).v) ==> Resume(inst, frames, site, k, b)(x) == Err(UnexpectedReturn)
    ensures k(x).Return? && !Truthy(k(x).v) ==> Resume(inst, frames, site, k, b)(x) == Ok(inst.lift(x))
    ensures !k(x).Return? ==> Resume(inst, frames, site, k, b)(x) == Drive(inst, ResumeFrames(inst, frames, site), site, k(x))
  {
    assert Valid(k(x));
    match k(x)
    case Return(_) =>
    case Raise(_) =>
    case Yield(req, k', b') =>
      assert Drive(inst, ResumeFrames(inst, frames, site), site, k(x)) == Step(inst, ResumeFrames(inst, frames, site), site, req, k', b');
  }

  /** A deferred request is replaced by its evaluation against the
      governing monad before anything is bound; if the evaluation raises,
      the drive raises the same exception and the body never resumes. */
  lemma DeferredResolvedFirst<M>(inst: Instance<M>, frames: seq<Frame<M>>, site: Site<M>, ev: Instance<M> -> Result<M>, k: Val -> Prog<M>, b: nat)
    requires ContValid(k, b)
    ensures ev(inst).Err? ==> Drive(inst, frames, site, Yield(Deferred(ev), k, b)) == Err(ev(inst).error)
    ensures ev(inst).Ok? ==>
      Drive(inst, frames, site, Yield(Deferred(ev), k, b)) == Drive(inst, frames, site, Yield(Concrete(ev(inst).value), k, b))
  {
    assert Drive(inst, frames, site, Yield(Deferred(ev), k, b)) == Step(inst, frames, site, Deferred(ev), k, b);
    assert ResolveRequest(inst, frames, site, Deferred(ev), b) == ev(inst);
    if ev(inst).Ok? {
      var m := ev(inst).value;
      assert Drive(inst, frames, site, Yield(Concrete(m), k, b)) == Step(inst, frames, site, Concrete(m), k, b);
      assert ResolveRequest(inst, frames, site, Concrete(m), b) == Ok(m);
    }
  }

  /** A concrete value is handed to `bind` unchanged, with the resumption
      of the body as the continuation. */
  lemma ConcretePassesThrough<M>(inst: Instance<M>, frames: seq<Frame<M>>, site: Site<M>, m: M, k: Val -> Prog<M>, b: nat)
    requires ContValid(k, b)
    ensures Drive(inst, frames, site, Yield(Concrete(m), k, b)) == inst.bind(m, Resume(inst, frames, site, k, b))
  {
    assert Drive(inst, frames, site, Yield(Concrete(m), k, b)) == Step(inst, frames, site, Concrete(m), k, b);
  }

  // ---------------------------------------------------------------------
  // The nested-bind denotation
  // ---------------------------------------------------------------------

  /** A body that yields the values `ms` in order, ignoring what it gets
      back, and then returns None. */
  function Chain<M>(ms: seq<M>): (p: Prog<M>)
    ensures Valid(p) && p.Bound() == |ms|
  {
    if |ms| == 0 then Return(VNone)
    else Yield(Concrete(ms[0]), _ => Chain(ms[1..]), |ms|)
  }

  /** `bind(m1, _ => bind(m2, ... bind(mn, lift)))`. */
  function NestedBind<M>(inst: Instance<M>, ms: seq<M>): Result<M>
    requires |ms| > 0
  {
    if |ms| == 1 then inst.bind(ms[0], x => Ok(inst.lift(x)))
    else inst.bind(ms[0], _ => NestedBind(inst, ms[1..]))
  }

  /** Driving a body that yields `m1 .. mn` is the nested bind
      `bind(m1, _ => ... bind(mn, lift))`; a body that never yields
      raises instead. */
  lemma {:induction false} DriveChain<M(!new)>(inst: Instance<M>, frames: seq<Frame<M>>, site: Site<M>, ms: seq<M>)
    requires Congruent(inst)
    ensures |ms| == 0 ==> Drive(inst, frames, site, Chain(ms)) == Err(EmptySequence)
    ensures |ms| > 0 ==> Drive(inst, frames, site, Chain(ms)) == NestedBind(inst, ms)
    decreases |ms|
  {
    if |ms| > 0 {
      var p := Chain(ms);
      var resume := Resume(inst, frames, site, p.k, p.bound);
      assert Drive(inst, frames, site, p) == Step(inst, frames, site, p.req, p.k, p.bound) == inst.bind(ms[0], resume);
      if |ms| == 1 {
        var lift := (x: Val) => Ok(inst.lift(x));
        assert ms[1..] == [];
        assert Agree(resume, lift) by {
          forall x ensures resume(x) == lift(x) {
            assert p.k(x) == Chain(ms[1..]) == Return(VNone);
          }
        }
        assert inst.bind(ms[0], resume) == inst.bind(ms[0], lift);
      } else {
        DriveChain(inst, ResumeFrames(inst, frames, site), site, ms[1..]);
        var rest := (_: Val) => NestedBind(inst, ms[1..]);
        assert Agree(resume, rest) by {
          forall x ensures resume(x) == rest(x) {
            assert p.k(x) == Chain(ms[1..]);
            ResumeIsFreshDrive(inst, frames, site, p.k, p.bound, x);
          }
        }
        assert inst.bind(ms[0], resume) == inst.bind(ms[0], rest);
      }
    }
  }

  /** The body `yield m; return v`. */
  function YieldThenReturn<M>(m: M, v: Val): (p: Prog<M>)
    ensures Valid(p) && p.Bound() == 1
    ensures p.Yield? && p.req == Concrete(m) && forall x :: p.k(x) == Return(v)
  {
    Yield(Concrete(m), _ => Return(v), 1)
  }

  /** A single `yield m` followed by a return drives to `bind(m, lift)`,
      or, for a truthy return value, to a bind whose every resumption
      raises. */
  lemma SingleYield<M(!new)>(inst: Instance<M>, frames: seq<Frame<M>>, site: Site<M>, m: M, v: Val)
    requires Congruent(inst)
    ensures !Truthy(v) ==>
      Drive(inst, frames, site, YieldThenReturn(m, v)) == inst.bind(m, x => Ok(inst.lift(x)))
    ensures Truthy(v) ==>
      Drive(inst, frames, site, YieldThenReturn(m, v)) == inst.bind(m, _ => Err(UnexpectedReturn))
  {
    var p := YieldThenReturn(m, v);
    var k := p.k;
    var resume := Resume(inst, frames, site, k, 1);
    assert Drive(inst, frames, site, p) == Step(inst, frames, site, p.req, k, 1) == inst.bind(m, resume);
    if Truthy(v) {
      var raise := (_: Val) => Err(UnexpectedReturn);
      assert Agree(resume, raise);
      assert inst.bind(m, resume) == inst.bind(m, raise);
    } else {
      var lift := (x: Val) => Ok(inst.lift(x));
      assert Agree(resume, lift);
      assert inst.bind(m, resume) == inst.bind(m, lift);
    }
  }

  // ---------------------------------------------------------------------
  // ListMonad: branches
  // ---------------------------------------------------------------------

  /** Under ListMonad a resumption that does not raise returns a list. */
  lemma ListResumeGivesList(frames: seq<Frame<Val>>, site: Site<Val>, k: Val -> Prog<Val>, b: nat, x: Val)
    requires ContValid(k, b)
    ensures Resume(ListMonad, frames, site, k, b)(x).Ok? ==> Resume(ListMonad, frames, site, k, b)(x).value.VList?
  {
    assert Valid(k(x));
    match k(x)
    case Return(_) =>
    case Raise(_) =>
    case Yield(req, k', b') =>
      assert Resume(ListMonad, frames, site, k, b)(x) == Step(ListMonad, frames, site, req, k', b');
  }

  /** A first yield of a list `s`, the rest of the body being `k`. */
  function ListBranches(frames: seq<Frame<Val>>, site: Site<Val>, s: seq<Val>, k: Val -> Prog<Val>, b: nat): Result<Val>
    requires ContValid(k, b)
  {
    Drive(ListMonad, frames, site, Yield(Concrete(VList(s)), k, b))
  }

  /** Under ListMonad a first yield of a list runs the loop of ListMonad.bind
      over its elements with the resumption as the continuation. */
  lemma ListBranchesLoop(frames: seq<Frame<Val>>, site: Site<Val>, s: seq<Val>, k: Val -> Prog<Val>, b: nat)
    requires ContValid(k, b)
    ensures ListBranches(frames, site, s, k, b)
         == match BindElems(s, Resume(ListMonad, frames, site, k, b))
            case Err(e) => Err(e)
            case Ok(items) => Ok(VList(items))
  {
    assert Drive(ListMonad, frames, site, Yield(Concrete(VList(s)), k, b)) == Step(ListMonad, frames, site, Concrete(VList(s)), k, b);
  }

  /** Branching over `s1 + s2` is branching over `s1`, then over `s2`, and
      concatenating: the branches of `s1` come first and the first
      exception, in that order, wins. */
  lemma ListBranchesAppend(frames: seq<Frame<Val>>, site: Site<Val>, s1: seq<Val>, s2: seq<Val>, k: Val -> Prog<Val>, b: nat)
    requires ContValid(k, b)
    ensures ListBranches(frames, site, s1 + s2, k, b)
         == ListBranches(frames, site, s1, k, b).AndThen(x => ListBranches(frames, site, s2, k, b).AndThen(y => ListConcat(x, y)))
  {
    BindElemsAppend(s1, s2, Resume(ListMonad, frames, site, k, b));
    ListBranchesLoop(frames, site, s1 + s2, k, b);
    ListBranchesLoop(frames, site, s1, k, b);
    ListBranchesLoop(frames, site, s2, k, b);
  }

  /** Branch isolation: when every element run alone succeeds, branching
      over `s` gives the concatenation, in element order, of the results of
      running each element alone. */
  lemma ListBranchesIndependent(frames: seq<Frame<Val>>, site: Site<Val>, s: seq<Val>, k: Val -> Prog<Val>, b: nat)
    requires ContValid(k, b)
    requires forall e :: e in s ==> ListBranches(frames, site, [e], k, b).Ok?
    ensures ListBranches(frames, site, s, k, b)
         == Ok(VList(FlatMap(s, e => ItemsOf(ListBranches(frames, site, [e], k, b)))))
  {
    var resume := Resume(ListMonad, frames, site, k, b);
    var alone := (e: Val) => ItemsOf(ListBranches(frames, site, [e], k, b));
    forall e | e in s
      ensures resume(e) == Ok(VList(alone(e)))
    {
      ListBranchAlone(frames, site, k, b, e);
    }
    BindElemsIsFlatMap(s, resume, alone);
    ListBranchesLoop(frames, site, s, k, b);
  }

  /** Branching over one element is resuming with it. */
  lemma ListBranchAlone(frames: seq<Frame<Val>>, site: Site<Val>, k: Val -> Prog<Val>, b: nat, e: Val)
    requires ContValid(k, b)
    requires ListBranches(frames, site, [e], k, b).Ok?
    ensures Resume(ListMonad, frames, site, k, b)(e) == Ok(VList(ItemsOf(ListBranches(frames, site, [e], k, b))))
  {
    var resume := Resume(ListMonad, frames, site, k, b);
    ListResumeGivesList(frames, site, k, b, e);
    ListBranchesLoop(frames, site, [e], k, b);
    assert [e][1..] == [];
    assert BindElems([e][1..], resume) == Ok([]);
    match resume(e)
    case Err(_) =>
    case Ok(v) =>
      assert v.items + [] == v.items;
  }

  /** The items of a successful list result. */
  function ItemsOf(r: Result<Val>): seq<Val> {
    if r.Ok? && r.value.VList? then r.value.items else []
  }

  /** A truthy return is checked per branch: it raises as soon as one
      branch finishes, but a body whose list is empty never resumes and so
      never reaches the check. */
  lemma ListReturnCheckedPerBranch(frames: seq<Frame<Val>>, site: Site<Val>, s: seq<Val>, v: Val)
    ensures Truthy(v) && |s| > 0 ==>
      Drive(ListMonad, frames, site, YieldThenReturn(VList(s), v)) == Err(UnexpectedReturn)
    ensures Drive(ListMonad, frames, site, YieldThenReturn(VList([]), v)) == Ok(VList([]))
  {
    var p := YieldThenReturn(VList(s), v);
    ListBranchesLoop(frames, site, s, p.k, 1);
    assert ListBranches(frames, site, s, p.k, 1) == Drive(ListMonad, frames, site, p);
    var q := YieldThenReturn(VList([]), v);
    ListBranchesLoop(frames, site, [], q.k, 1);
    assert ListBranches(frames, site, [], q.k, 1) == Drive(ListMonad, frames, site, q);
    if Truthy(v) && |s| > 0 {
      assert Resume(ListMonad, frames, site, p.k, 1)(s[0]) == Err(UnexpectedReturn);
    }
  }

  // ---------------------------------------------------------------------
  // NoneMonad: short-circuit
  // ---------------------------------------------------------------------

  /** Under NoneMonad a yielded None ends the drive with None: the rest of
      the body is never run, whatever it would do (raise included). */
  lemma NoneShortCircuit(frames: seq<Frame<Val>>, site: Site<Val>, k: Val -> Prog<Val>, b: nat)
    requires ContValid(k, b)
    ensures Drive(NoneMonad, frames, site, Yield(Concrete(VNone), k, b)) == Ok(VNone)
  {
    assert Drive(NoneMonad, frames, site, Yield(Concrete(VNone), k, b)) == Step(NoneMonad, frames, site, Concrete(VNone), k, b);
    assert NoneMonad.bind(VNone, Resume(NoneMonad, frames, site, k, b)) == Ok(VNone);
  }

  /** What is left to do once the body has been resumed with `x` and has
      reached `cur`. */
  function Continue(frames: seq<Frame<Val>>, site: Site<Val>, cur: Prog<Val>, x: Val): Result<Val>
    requires Valid(cur)
  {
    match cur
    case Return(v) => if Truthy(v) then Err(UnexpectedReturn) else Ok(x)
    case Raise(e) => Err(e)
    case Yield(req, k, b) => Step(NoneMonad, frames, site, req, k, b)
  }

  /** A first-order reading of a NoneMonad drive, with no continuation
      passed to `bind`: run the body step by step, stop at the first None
      or exception, and return the last value when the body returns. */
  method RunOptional(frames: seq<Frame<Val>>, site: Site<Val>, p: Prog<Val>) returns (r: Result<Val>)
    requires Valid(p)
    ensures r == Drive(NoneMonad, frames, site, p)
  {
    if p.Return? {
      return Err(EmptySequence);
    } else if p.Raise? {
      return Err(p.error);
    }
    var cur := p;
    var x := VNone;
    while cur.Yield?
      invariant Valid(cur)
      invariant Drive(NoneMonad, frames, site, p) == Continue(frames, site, cur, x)
      decreases cur.Bound()
    {
      var m := ResolveRequest(NoneMonad, frames, site, cur.req, cur.bound);
      if m.Err? {
        return Err(m.error);
      }
      if m.value.VNone? {
        return Ok(VNone);
      }
      x := m.value;
      assert Resume(NoneMonad, frames, site, cur.k, cur.bound)(x) == Continue(frames, site, cur.k(x), x);
      cur := cur.k(x);
    }
    match cur
    case Return(v) =>
      r := if Truthy(v) then Err(UnexpectedReturn) else Ok(x);
    case Raise(e) =>
      r := Err(e);
  }

  // ---------------------------------------------------------------------
  // Context inference
  // ---------------------------------------------------------------------

  /** A monadic function called with no monad and no enclosing
      `monadic_context` raises "unspecified monadic context" before its
      body runs: whatever the body is, even one that never yields. */
  lemma UnresolvedBeforeBody<M>(callers: seq<Frame<M>>, site: Site<M>, p: Prog<M>)
    requires Valid(p)
    requires forall i :: 0 <= i < |callers| ==> callers[i].OtherFrame?
    ensures Invoke(None, callers, site, p) == Err(UnresolvedContext)
  {
  }

  /** An explicit monad wins over every enclosing context. */
  lemma ExplicitMonadUsed<M>(inst: Instance<M>, callers: seq<Frame<M>>, site: Site<M>, p: Prog<M>)
    requires Valid(p)
    ensures Invoke(Some(inst), callers, site, p) == Drive(inst, [ContextFrame(inst)] + callers, site, p)
  {
  }

  /** Inside a drive, the innermost context is the drive's own monad. */
  lemma InsideDriveGoverned<M>(inst: Instance<M>, callers: seq<Frame<M>>)
    ensures Governed([ContextFrame(inst)] + callers, inst)
  {
  }

  /** A monadic function called with no monad from a body driven under
      `inst` inherits `inst`: it runs as a drive under `inst` with one more
      context frame, and its result is then bound like any other value. */
  lemma NestedInheritsMonad<M>(inst: Instance<M>, callers: seq<Frame<M>>, site: Site<M>, sub: Prog<M>, k: Val -> Prog<M>, b: nat)
    requires Valid(sub) && sub.Bound() < b && ContValid(k, b)
    ensures
      var outer := [ContextFrame(inst)] + callers;
      var inner := Drive(inst, [ContextFrame(inst)] + outer, site, sub);
      Invoke(Some(inst), callers, site, Yield(Nested(None, sub), k, b))
        == (if inner.Err? then Err(inner.error)
            else Invoke(Some(inst), callers, site, Yield(Concrete(inner.value), k, b)))
  {
    var outer := [ContextFrame(inst)] + callers;
    assert InferMonad(None, outer) == Ok(inst);
    assert Invoke(None, outer, site, sub) == Drive(inst, [ContextFrame(inst)] + outer, site, sub);
    assert Drive(inst, outer, site, Yield(Nested(None, sub), k, b)) == Step(inst, outer, site, Nested(None, sub), k, b);
    var inner := Drive(inst, [ContextFrame(inst)] + outer, site, sub);
    assert ResolveRequest(inst, outer, site, Nested(None, sub), b) == inner;
    if inner.Ok? {
      assert ResolveRequest(inst, outer, site, Concrete(inner.value), b) == inner;
      assert Drive(inst, outer, site, Yield(Concrete(inner.value), k, b)) == Step(inst, outer, site, Concrete(inner.value), k, b);
    }
  }
}
