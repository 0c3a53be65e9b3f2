/**
  The combinators under the two monads whose bind defers its continuation:
  FunctionMonad (the reader monad) and StateMonad (guac/instances.py).

  Their monadic values are functions, so Dafny cannot compare two of them;
  every fact below is stated pointwise, about the function that a run
  returns applied to an environment or a state.

  Because bind only builds a function, the rest of a body runs when the
  function is applied, and context inference for a nested monadic call
  made there looks at the call stack of the application.  `Captured`
  resumes with the frames of the drive instead; comparing the two sites
  shows where the source's behaviour departs from the documented one.
 */
module ReaderStateRuns {
  import opened Wrappers
  import opened Values
  import opened Instances
  import opened Runner
  import opened DriveLaws
  import opened Combinators

  /** The frames a run of a body governed by `inst` hands to its own
      body. */
  function Inside<M>(inst: Instance<M>, callers: seq<Frame<M>>): seq<Frame<M>> {
    [ContextFrame(inst)] + callers
  }

  // ---------------------------------------------------------------------
  // FunctionMonad
  // ---------------------------------------------------------------------

  /** `lift(v)` under FunctionMonad is the constant function of `v`. */
  lemma ReaderLiftRuns(explicit: Option<Instance<Reader>>, callers: seq<Frame<Reader>>, site: Site<Reader>, v: Val, env: Val)
    requires InferMonad(explicit, callers) == Ok(FunctionMonad)
    ensures Invoke(explicit, callers, site, Lift(v)).Ok?
    ensures Invoke(explicit, callers, site, Lift(v)).value(env) == Ok(v)
  {
    var frames := Inside(FunctionMonad, callers);
    var resume := Resume(FunctionMonad, frames, site, Done(), 1);
    ResumeIsFreshDrive(FunctionMonad, frames, site, Done(), 1, v);
    assert resume(v) == Ok(ReaderLift(v));
    assert Drive(FunctionMonad, frames, site, Lift(v)) == ReaderBind(ReaderLift(v), resume);
  }

  /** `empty()` and `concat(x, y)` raise under FunctionMonad, which has
      neither. */
  lemma ReaderBuildersUnsupported(callers: seq<Frame<Reader>>, site: Site<Reader>, x: Reader, y: Reader)
    requires Governed(callers, FunctionMonad)
    ensures Invoke(None, callers, site, Empty()) == Err(NotSupported)
    ensures Invoke(None, callers, site, Concat(x, y)) == Err(NotSupported)
  {
    EmptyRuns(FunctionMonad, callers, site);
    ConcatRuns(FunctionMonad, callers, site, x, y);
  }

  /** The second half of `map(f, m)` under FunctionMonad, once `m` has
      produced `x`: where the frames it resumes with are governed by
      FunctionMonad, it is the constant function of `f(x)`, or the
      exception `f(x)` raises. */
  lemma ReaderMapResumed(frames: seq<Frame<Reader>>, site: Site<Reader>, f: Val -> Result<Val>, x: Val, env: Val)
    requires Governed(ResumeFrames(FunctionMonad, frames, site), FunctionMonad)
    ensures f(x).Err? ==> Resume(FunctionMonad, frames, site, MapRest(f), 3)(x) == Err(f(x).error)
    ensures f(x).Ok? ==> Resume(FunctionMonad, frames, site, MapRest(f), 3)(x).Ok?
    ensures f(x).Ok? ==> Resume(FunctionMonad, frames, site, MapRest(f), 3)(x).value(env) == f(x)
  {
    ResumeIsFreshDrive(FunctionMonad, frames, site, MapRest(f), 3, x);
    if f(x).Ok? {
      ReaderFinalLift(ResumeFrames(FunctionMonad, frames, site), site, f(x).value, env);
    }
  }

  /** A body whose last act is `yield lift(v)`, under FunctionMonad with
      the frames governed by it: the constant function of `v`. */
  lemma ReaderFinalLift(frames: seq<Frame<Reader>>, site: Site<Reader>, v: Val, env: Val)
    requires Governed(frames, FunctionMonad)
    ensures Drive(FunctionMonad, frames, site, Yield(Nested(None, Lift(v)), Done(), 2)).Ok?
    ensures Drive(FunctionMonad, frames, site, Yield(Nested(None, Lift(v)), Done(), 2)).value(env) == Ok(v)
  {
    var inner := Invoke(None, frames, site, Lift(v));
    ReaderLiftRuns(None, frames, site, v, env);
    var resume := Resume(FunctionMonad, frames, site, Done(), 2);
    ResumeIsFreshDrive(FunctionMonad, frames, site, Done(), 2, v);
    assert resume(v) == Ok(ReaderLift(v));
    assert Drive(FunctionMonad, frames, site, Yield(Nested(None, Lift(v)), Done(), 2)) == ReaderBind(inner.value, resume);
  }

  /** The second half of `map(f, m)` under FunctionMonad resumed where no
      `monadic_context` is running: unless `f(x)` raises first, the nested
      `lift` cannot find a monad. */
  lemma ReaderMapResumedUnresolved(frames: seq<Frame<Reader>>, stack: seq<Frame<Reader>>, f: Val -> Result<Val>, x: Val)
    requires forall i :: 0 <= i < |stack| ==> stack[i].OtherFrame?
    ensures Resume(FunctionMonad, frames, AppliedAt(stack), MapRest(f), 3)(x)
         == if f(x).Err? then Err(f(x).error) else Err(UnresolvedContext)
  {
    ResumeIsFreshDrive(FunctionMonad, frames, AppliedAt(stack), MapRest(f), 3, x);
    if f(x).Ok? {
      UnresolvedBeforeBody(stack, AppliedAt(stack), Lift(f(x).value));
    }
  }

  /** The outer function a run of `map(f, m)` under FunctionMonad returns:
      apply `m`, then apply what the rest of the body gives for its
      value. */
  lemma ReaderMapShape(explicit: Option<Instance<Reader>>, callers: seq<Frame<Reader>>, site: Site<Reader>, f: Val -> Result<Val>, m: Reader, env: Val)
    requires InferMonad(explicit, callers) == Ok(FunctionMonad)
    ensures Invoke(explicit, callers, site, Map(f, m)).Ok?
    ensures Invoke(explicit, callers, site, Map(f, m)).value(env)
         == m(env).AndThen(Resume(FunctionMonad, Inside(FunctionMonad, callers), site, MapRest(f), 3)).AndThen((g: Reader) => g(env))
  {
    ConcretePassesThrough(FunctionMonad, Inside(FunctionMonad, callers), site, m, MapRest(f), 3);
  }

  /** Intended behaviour: with the monad carried along, `map(f, m)` under
      FunctionMonad is `f` after `m`, and an exception from `m` or from
      `f` passes through. */
  lemma ReaderMapComposes(explicit: Option<Instance<Reader>>, callers: seq<Frame<Reader>>, f: Val -> Result<Val>, m: Reader, env: Val)
    requires InferMonad(explicit, callers) == Ok(FunctionMonad)
    ensures Invoke(explicit, callers, Captured, Map(f, m)).Ok?
    ensures Invoke(explicit, callers, Captured, Map(f, m)).value(env)
         == m(env).AndThen(f)
  {
    ReaderMapShape(explicit, callers, Captured, f, m, env);
    if m(env).Ok? {
      InsideDriveGoverned(FunctionMonad, callers);
      ReaderMapResumed(Inside(FunctionMonad, callers), Captured, f, m(env).value, env);
    }
  }

  /** As written: the function a run of `map(f, m)` under FunctionMonad
      returns, applied where no `monadic_context` is running (at the top
      level of a program), raises "unspecified monadic context" whenever
      `m` and `f` succeed. */
  lemma ReaderMapAppliedAtTopLevel(explicit: Option<Instance<Reader>>, callers: seq<Frame<Reader>>, stack: seq<Frame<Reader>>, f: Val -> Result<Val>, m: Reader, env: Val)
    requires InferMonad(explicit, callers) == Ok(FunctionMonad)
    requires forall i :: 0 <= i < |stack| ==> stack[i].OtherFrame?
    ensures Invoke(explicit, callers, AppliedAt(stack), Map(f, m)).Ok?
    ensures Invoke(explicit, callers, AppliedAt(stack), Map(f, m)).value(env)
         == if m(env).Err? then m(env)
            else if f(m(env).value).Err? then f(m(env).value)
            else Err(UnresolvedContext)
  {
    ReaderMapShape(explicit, callers, AppliedAt(stack), f, m, env);
    if m(env).Ok? {
      ReaderMapResumedUnresolved(Inside(FunctionMonad, callers), stack, f, m(env).value);
    }
  }

  // ---------------------------------------------------------------------
  // StateMonad
  // ---------------------------------------------------------------------

  /** `lift(v)` under StateMonad returns `v` and leaves the state as it
      is. */
  lemma StateLiftRuns(explicit: Option<Instance<Stateful>>, callers: seq<Frame<Stateful>>, site: Site<Stateful>, v: Val, s: Val)
    requires InferMonad(explicit, callers) == Ok(StateMonad)
    ensures Invoke(explicit, callers, site, Lift(v)).Ok?
    ensures Invoke(explicit, callers, site, Lift(v)).value(s) == Ok((v, s))
  {
    var frames := Inside(StateMonad, callers);
    var resume := Resume(StateMonad, frames, site, Done(), 1);
    ResumeIsFreshDrive(StateMonad, frames, site, Done(), 1, v);
    assert resume(v) == Ok(StateLift(v));
    assert Drive(StateMonad, frames, site, Lift(v)) == StateBind(StateLift(v), resume);
  }

  /** `empty()` and `concat(x, y)` raise under StateMonad, which has
      neither. */
  lemma StateBuildersUnsupported(callers: seq<Frame<Stateful>>, site: Site<Stateful>, x: Stateful, y: Stateful)
    requires Governed(callers, StateMonad)
    ensures Invoke(None, callers, site, Empty()) == Err(NotSupported)
    ensures Invoke(None, callers, site, Concat(x, y)) == Err(NotSupported)
  {
    EmptyRuns(StateMonad, callers, site);
    ConcatRuns(StateMonad, callers, site, x, y);
  }

  /** The second half of `map(f, m)` under StateMonad, once `m` has
      produced `x`: where the frames it resumes with are governed by
      StateMonad, it returns `f(x)` and leaves the state alone, or raises
      what `f(x)` raises. */
  lemma StateMapResumed(frames: seq<Frame<Stateful>>, site: Site<Stateful>, f: Val -> Result<Val>, x: Val, s: Val)
    requires Governed(ResumeFrames(StateMonad, frames, site), StateMonad)
    ensures f(x).Err? ==> Resume(StateMonad, frames, site, MapRest(f), 3)(x) == Err(f(x).error)
    ensures f(x).Ok? ==> Resume(StateMonad, frames, site, MapRest(f), 3)(x).Ok?
    ensures f(x).Ok? ==> Resume(StateMonad, frames, site, MapRest(f), 3)(x).value(s) == Ok((f(x).value, s))
  {
    ResumeIsFreshDrive(StateMonad, frames, site, MapRest(f), 3, x);
    if f(x).Ok? {
      StateFinalLift(ResumeFrames(StateMonad, frames, site), site, f(x).value, s);
    }
  }

  /** A body whose last act is `yield lift(v)`, under StateMonad with the
      frames governed by it: returns `v` and keeps the state. */
  lemma StateFinalLift(frames: seq<Frame<Stateful>>, site: Site<Stateful>, v: Val, s: Val)
    requires Governed(frames, StateMonad)
    ensures Drive(StateMonad, frames, site, Yield(Nested(None, Lift(v)), Done(), 2)).Ok?
    ensures Drive(StateMonad, frames, site, Yield(Nested(None, Lift(v)), Done(), 2)).value(s) == Ok((v, s))
  {
    var inner := Invoke(None, frames, site, Lift(v));
    StateLiftRuns(None, frames, site, v, s);
    var resume := Resume(StateMonad, frames, site, Done(), 2);
    ResumeIsFreshDrive(StateMonad, frames, site, Done(), 2, v);
    assert resume(v) == Ok(StateLift(v));
    assert Drive(StateMonad, frames, site, Yield(Nested(None, Lift(v)), Done(), 2)) == StateBind(inner.value, resume);
  }

  /** The second half of `map(f, m)` under StateMonad resumed where no
      `monadic_context` is running: unless `f(x)` raises first, the nested
      `lift` cannot find a monad. */
  lemma StateMapResumedUnresolved(frames: seq<Frame<Stateful>>, stack: seq<Frame<Stateful>>, f: Val -> Result<Val>, x: Val)
    requires forall i :: 0 <= i < |stack| ==> stack[i].OtherFrame?
    ensures Resume(StateMonad, frames, AppliedAt(stack), MapRest(f), 3)(x)
         == if f(x).Err? then Err(f(x).error) else Err(UnresolvedContext)
  {
    ResumeIsFreshDrive(StateMonad, frames, AppliedAt(stack), MapRest(f), 3, x);
    if f(x).Ok? {
      UnresolvedBeforeBody(stack, AppliedAt(stack), Lift(f(x).value));
    }
  }

  /** The outer function a run of `map(f, m)` under StateMonad returns:
      run `m`, then run what the rest of the body gives for its value on
      the state `m` left. */
  lemma StateMapShape(explicit: Option<Instance<Stateful>>, callers: seq<Frame<Stateful>>, site: Site<Stateful>, f: Val -> Result<Val>, m: Stateful, s: Val)
    requires InferMonad(explicit, callers) == Ok(StateMonad)
    ensures Invoke(explicit, callers, site, Map(f, m)).Ok?
    ensures Invoke(explicit, callers, site, Map(f, m)).value(s)
         == m(s).AndThen((p: (Val, Val)) =>
              Resume(StateMonad, Inside(StateMonad, callers), site, MapRest(f), 3)(p.0).AndThen((g: Stateful) => g(p.1)))
  {
    ConcretePassesThrough(StateMonad, Inside(StateMonad, callers), site, m, MapRest(f), 3);
  }

  /** Intended behaviour: with the monad carried along, `map(f, m)` under
      StateMonad transforms the result of `m` and keeps the state `m`
      left; an exception from `m` or from `f` passes through. */
  lemma StateMapComposes(explicit: Option<Instance<Stateful>>, callers: seq<Frame<Stateful>>, f: Val -> Result<Val>, m: Stateful, s: Val)
    requires InferMonad(explicit, callers) == Ok(StateMonad)
    ensures Invoke(explicit, callers, Captured, Map(f, m)).Ok?
    ensures Invoke(explicit, callers, Captured, Map(f, m)).value(s)
         == if m(s).Err? then Err(m(s).error)
            else if f(m(s).value.0).Err? then Err(f(m(s).value.0).error)
            else Ok((f(m(s).value.0).value, m(s).value.1))
  {
    StateMapShape(explicit, callers, Captured, f, m, s);
    if m(s).Ok? {
      InsideDriveGoverned(StateMonad, callers);
      StateMapResumed(Inside(StateMonad, callers), Captured, f, m(s).value.0, m(s).value.1);
    }
  }

  /** As written: the function a run of `map(f, m)` under StateMonad
      returns, applied where no `monadic_context` is running, raises
      "unspecified monadic context" whenever `m` and `f` succeed. */
  lemma StateMapAppliedAtTopLevel(explicit: Option<Instance<Stateful>>, callers: seq<Frame<Stateful>>, stack: seq<Frame<Stateful>>, f: Val -> Result<Val>, m: Stateful, s: Val)
    requires InferMonad(explicit, callers) == Ok(StateMonad)
    requires forall i :: 0 <= i < |stack| ==> stack[i].OtherFrame?
    ensures Invoke(explicit, callers, AppliedAt(stack), Map(f, m)).Ok?
    ensures Invoke(explicit, callers, AppliedAt(stack), Map(f, m)).value(s)
         == if m(s).Err? then Err(m(s).error)
            else if f(m(s).value.0).Err? then Err(f(m(s).value.0).error)
            else Err(UnresolvedContext)
  {
    StateMapShape(explicit, callers, AppliedAt(stack), f, m, s);
    if m(s).Ok? {
      StateMapResumedUnresolved(Inside(StateMonad, callers), stack, f, m(s).value.0);
    }
  }
}
