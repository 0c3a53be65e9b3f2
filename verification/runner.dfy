/**
  The interpreter `Monad._run` and the context inference of `monadic`
  (guac/monad.py).

  A Python generator is modelled as a free-monad-style program: it either
  yields a request and waits for the unwrapped value, or stops by
  returning (or by raising).  The continuation `k` is a pure function, so
  each resumption sees its own copy of the remaining computation: what the
  source gets from `copy.deepcopy` of the live generator holds here by
  construction.

  Dafny cannot order `k(x)` below the program that holds `k`, so every
  `Yield` carries `bound`, an upper bound on the number of yields left on
  any path through it (its nested calls included); `Valid` checks it, and
  the interpreter's recursion decreases on it.
 */
module Runner {
  import opened Wrappers
  import opened Values
  import opened Instances

  /** The operand of a `yield`. */
  datatype Req<!M> =
    | Concrete(m: M)
      // an ordinary monadic value
    | Deferred(evaluate: Instance<M> -> Result<M>)
      // a `Monad._Builtin`: asks the governing monad for a value
    | Nested(explicit: Option<Instance<M>>, sub: Prog<M>)
      // the result of calling another monadic function at this point of the
      // body, with its own explicit monad if it has one

  /** A generator function's body, from the current suspension point on. */
  datatype Prog<!M> =
    | Yield(req: Req<M>, k: Val -> Prog<M>, bound: nat)
    | Return(v: Val)
    | Raise(error: Error)
  {
    function Bound(): nat {
      if Yield? then bound else 0
    }
  }

  /** A frame of the Python call stack, as far as context inference looks
      at it: the frame of a running `monadic_context` with its monad, or
      any other frame. */
  datatype Frame<!M> = ContextFrame(monad: Instance<M>) | OtherFrame

  /** Where the resumptions of a body run.  Under a monad whose bind defers
      its continuation, the body is resumed only when the function the drive
      returned is applied, so context inference inside a resumption sees the
      stack of that application: `AppliedAt(stack)`, which is what Python
      does.  `Captured` resumes every body with the frames of its own
      drive, as if the monad were handed along explicitly. */
  datatype Site<!M> = Captured | AppliedAt(stack: seq<Frame<M>>)

  /** The frames a resumed body sees. */
  function ResumeFrames<M>(inst: Instance<M>, frames: seq<Frame<M>>, site: Site<M>): seq<Frame<M>> {
    if inst.defers && site.AppliedAt? then site.stack else frames
  }

  ghost predicate Valid<M>(p: Prog<M>)
    decreases p.Bound(), 1
  {
    match p
    case Yield(r, k, b) => ReqValid(r, b) && ContValid(k, b)
    case Return(_) => true
    case Raise(_) => true
  }

  ghost predicate ReqValid<M>(r: Req<M>, b: nat)
    decreases b, 0
  {
    r.Nested? ==> r.sub.Bound() < b && Valid(r.sub)
  }

  ghost predicate ContValid<M>(k: Val -> Prog<M>, b: nat)
    decreases b, 0
  {
    forall x :: k(x).Bound() < b && Valid(k(x))
  }

  /** `frames[i]` is the innermost `monadic_context` frame of `frames`. */
  ghost predicate NearestContext<M>(frames: seq<Frame<M>>, i: int) {
    && 0 <= i < |frames|
    && frames[i].ContextFrame?
    && forall j :: 0 <= j < i ==> frames[j].OtherFrame?
  }

  /** Context inference in `monadic_context`: an explicit monad is used as
      it is; otherwise the caller frames are searched outward (innermost
      first) for the nearest `monadic_context` and its monad is inherited;
      with none, "unspecified monadic context" is raised. */
  function InferMonad<M>(explicit: Option<Instance<M>>, callers: seq<Frame<M>>): (r: Result<Instance<M>>)
    ensures explicit.Some? ==> r == Ok(explicit.value)
    ensures explicit.None? && r.Ok? ==>
      exists i :: NearestContext(callers, i) && r.value == callers[i].monad
    ensures explicit.None? && r.Err? ==>
      r.error == UnresolvedContext && forall i :: 0 <= i < |callers| ==> callers[i].OtherFrame?
  {
    if explicit.Some? then Ok(explicit.value)
    else if |callers| == 0 then Err(UnresolvedContext)
    else if callers[0].ContextFrame? then Ok(callers[0].monad)
    else
      var r := InferMonad(explicit, callers[1..]);
      if r.Ok? then
        ghost var i :| NearestContext(callers[1..], i) && r.value == callers[1..][i].monad;
        assert NearestContext(callers, i + 1);
        r
      else
        assert forall i :: 1 <= i < |callers| ==> callers[i] == callers[1..][i - 1];
        r
  }

  /** The innermost context of `frames` is `inst`. */
  ghost predicate Governed<M>(frames: seq<Frame<M>>, inst: Instance<M>) {
    InferMonad(None, frames) == Ok(inst)
  }

  /** Calling a decorated monadic function: infer the monad (before the
      body runs), push this call's `monadic_context` frame, drive the body. */
  function Invoke<M>(explicit: Option<Instance<M>>, callers: seq<Frame<M>>, site: Site<M>, p: Prog<M>): (r: Result<M>)
    requires Valid(p)
    ensures InferMonad(explicit, callers).Err? ==> r == Err(UnresolvedContext)
    ensures InferMonad(explicit, callers).Ok? ==>
      r == Drive(InferMonad(explicit, callers).value, [ContextFrame(InferMonad(explicit, callers).value)] + callers, site, p)
    decreases p.Bound(), 4
  {
    match InferMonad(explicit, callers)
    case Err(e) => Err(e)
    case Ok(inst) => Drive(inst, [ContextFrame(inst)] + callers, site, p)
  }

  /** `Monad._run`: start the generator; one that finishes before its first
      yield raises "monadic function must yield at least once", whatever it
      returned.  `frames` is the call stack the body sees. */
  function Drive<M>(inst: Instance<M>, frames: seq<Frame<M>>, site: Site<M>, p: Prog<M>): (r: Result<M>)
    requires Valid(p)
    ensures p.Return? ==> r == Err(EmptySequence)
    decreases p.Bound(), 3
  {
    match p
    case Return(_) => Err(EmptySequence)
    case Raise(e) => Err(e)
    case Yield(req, k, b) => Step(inst, frames, site, req, k, b)
  }

  /** The monadic value a request stands for: a deferred request is
      evaluated against the governing monad, a nested call is invoked
      with the current frames, a concrete value passes through. */
  function ResolveRequest<M>(inst: Instance<M>, frames: seq<Frame<M>>, site: Site<M>, req: Req<M>, b: nat): (r: Result<M>)
    requires ReqValid(req, b)
    ensures req.Concrete? ==> r == Ok(req.m)
    ensures req.Deferred? ==> r == req.evaluate(inst)
    ensures req.Nested? && req.explicit.Some? ==>
      r == Drive(req.explicit.value, [ContextFrame(req.explicit.value)] + frames, site, req.sub)
    ensures req.Nested? && req.explicit.None? && InferMonad(None, frames).Err? ==> r == Err(UnresolvedContext)
    ensures req.Nested? && req.explicit.None? && InferMonad(None, frames).Ok? ==>
      r == Drive(InferMonad(None, frames).value, [ContextFrame(InferMonad(None, frames).value)] + frames, site, req.sub)
    decreases b, 0
  {
    match req
    case Concrete(m) => Ok(m)
    case Deferred(evaluate) => evaluate(inst)
    case Nested(explicit, sub) => Invoke(explicit, frames, site, sub)
  }

  /** `step(monadic_value, continuation)`: bind the resolved request to
      the resumption of the rest of the body. */
  function Step<M>(inst: Instance<M>, frames: seq<Frame<M>>, site: Site<M>, req: Req<M>, k: Val -> Prog<M>, b: nat): (r: Result<M>)
    requires ReqValid(req, b) && ContValid(k, b)
    ensures ResolveRequest(inst, frames, site, req, b).Err? ==> r == Err(ResolveRequest(inst, frames, site, req, b).error)
    ensures ResolveRequest(inst, frames, site, req, b).Ok? ==>
      r == inst.bind(ResolveRequest(inst, frames, site, req, b).value, Resume(inst, frames, site, k, b))
    ensures req.Concrete? ==> r == inst.bind(req.m, Resume(inst, frames, site, k, b))
    ensures req.Deferred? ==> r == BindResult(inst, req.evaluate(inst), Resume(inst, frames, site, k, b))
    decreases b, 2
  {
    match ResolveRequest(inst, frames, site, req, b)
    case Err(e) => Err(e)
    case Ok(m) => inst.bind(m, Resume(inst, frames, site, k, b))
  }

  /** `proceed`, the continuation handed to `bind`. */
  function Resume<M>(inst: Instance<M>, frames: seq<Frame<M>>, site: Site<M>, k: Val -> Prog<M>, b: nat): (r: Val -> Result<M>)
    requires ContValid(k, b)
    ensures forall x :: r(x) == Proceed(inst, frames, site, k, b, x)
    decreases b, 1
  {
    x => Proceed(inst, frames, site, k, b, x)
  }

  /** `proceed(x)`: resume (a copy of) the body with `x`.  If it yields
      again, step on, with the frames of `site` when bind has deferred the
      call; if it returns, the branch ends with `lift(x)` of the last
      unwrapped value, unless the return value is truthy. */
  function Proceed<M>(inst: Instance<M>, frames: seq<Frame<M>>, site: Site<M>, k: Val -> Prog<M>, b: nat, x: Val): (r: Result<M>)
    requires ContValid(k, b)
    ensures k(x).Return? && Truthy(k(x).v) ==> r == Err(UnexpectedReturn)
    ensures k(x).Return? && !Truthy(k(x).v) ==> r == Ok(inst.lift(x))
    ensures k(x).Raise? ==> r == Err(k(x).error)
    ensures k(x).Yield? ==> r == Drive(inst, ResumeFrames(inst, frames, site), site, k(x))
    decreases b, 0
  {
    var q := k(x);
    assert Valid(q);
    match q
    case Return(v) => if Truthy(v) then Err(UnexpectedReturn) else Ok(inst.lift(x))
    case Raise(e) => Err(e)
    case Yield(req, k', b') => Step(inst, ResumeFrames(inst, frames, site), site, req, k', b')
  }
}
