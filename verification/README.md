# Guac, modelled in Dafny

Guac brings monadic programming to Python through generators. A monadic
function is a generator decorated with `@monadic`. Each `yield m` binds the
monadic value `m` and resumes the body with the unwrapped value.
`Monad._run` drives the generator: it hands every yielded value to the
monad's `bind`, with a continuation that resumes a copy of the generator.
A decorated function called without a monad inherits the monad of the
nearest enclosing `monadic_context` on the Python call stack.

The model covers three parts of the package.

- The five monad instances of `guac/instances.py`: ListMonad (lists,
  nondeterminism), NoneMonad (None as failure), ExceptionMonad (an exception
  object as failure), FunctionMonad (the reader monad) and StateMonad
  (state threading).
- The interpreter `_run` and the context inference of `monadic` in
  `guac/monad.py`.
- The combinators of `guac/functions.py`: `bind`, `lift`, `empty`,
  `concat`, `unit`, `guard`, `map` and `join`.

A generator body is a program `Prog`. At each point it either yields a
request (a concrete monadic value, a `Monad._Builtin` that asks the governing
monad for a value, or a nested call of another monadic function) together
with a continuation, or it returns, or it raises. Python exceptions become
`Err` values of `Wrappers.Result`. The call stack, as context inference
sees it, is a sequence of frames, innermost first.

Files:

- `wrappers.dfy`: `Option`, `Result` and the kinds of exception raised.
- `values.dfy`: the universe of plain Python values, truthiness, iteration
  and `+`.
- `instances.dfy`: the five instances.
- `laws.dfy`: the monad laws each instance does or does not satisfy.
- `runner.dfy`: context inference and the interpreter.
- `drive_laws.dfy`: how a drive treats each kind of request, branching
  under ListMonad, short-circuiting under NoneMonad, and inheritance of the
  monad.
- `combinators.dfy`: the combinators as programs, and what each one runs
  to under any monad whose bind looks only at the values of its
  continuation.
- `combinator_runs.dfy`: the combinators under ListMonad, NoneMonad and
  ExceptionMonad.
- `reader_state_runs.dfy`: the combinators under FunctionMonad and
  StateMonad, stated at a given environment or state.
- `scenarios.dfy`: whole monadic functions under ListMonad, worked through
  to their results.

## Model

| member | source | states |
|---|---|---|
| Values.FalsyValues | guac/instances.py:107 | The values `x or y` skips past are exactly None, 0, False, `()` and `[]`. |
| Values.Elements | guac/instances.py:31 | Iteration yields the items of a list and nothing for `()`. Anything else cannot be iterated. |
| Values.Add | guac/instances.py:53 | Python `+` concatenates two lists, rejects None or an exception with TypeError, and never mixes a list with a non-list. |
| Instances.EmptyIn | guac/functions.py:36 | Asking a monad for `empty` raises AttributeError exactly when the monad has no `empty`. Otherwise it gives the monad's own empty value. |
| Instances.ConcatIn | guac/functions.py:47 | Asking a monad for `concat` fails with AttributeError when the monad has none, and otherwise gives the monad's own concat. |
| Instances.ListLift | guac/instances.py:9-18 | ListMonad.lift gives a list whose only element is the lifted value. |
| Instances.ListBind | guac/instances.py:20-33 | Binding a non-iterable value raises TypeError. Every successful bind returns a list. |
| Instances.BindElems | guac/instances.py:30-33 | The loop `for elem in s: result += f(elem)` finishes without raising exactly when every call of `f` returns something `+=` can iterate. |
| Instances.ListBindLoop | guac/instances.py:30-33 | The accumulating `for` loop, with an invariant over the processed prefix, computes the same result as the element-wise definition, including the first exception raised. |
| Instances.ListConcat | guac/instances.py:43-53 | Concatenating two lists gives their items in order, the first list's items first. |
| Instances.BindElemsAppend | guac/instances.py:30-33 | The bind loop over `s1 + s2` is the loop over `s1`, then the loop over `s2`, with the results concatenated. An exception in `s1` wins. |
| Instances.ListCongruent | guac/instances.py:20-33 | ListMonad.bind depends only on the values its continuation returns. |
| Instances.NoneBind | guac/instances.py:74-87 | Binding None gives None without calling the continuation. Any other value is passed to the continuation unchanged. |
| Instances.NoneConcat | guac/instances.py:97-107 | Source as written: `x or y` returns `x` exactly when `x` is truthy and `y` otherwise. It never raises. |
| Instances.NoneConcatIntended | guac/instances.py:98-101 | Documented behaviour: the first value that is not None. The result is None only when both values are None. |
| Instances.NoneCongruent | guac/instances.py:74-87 | NoneMonad.bind depends only on the values its continuation returns. |
| Instances.ExcBind | guac/instances.py:128-142 | Source as written: bind stops only at None. An exception object is passed to the continuation. |
| Instances.ExcBindIntended | guac/instances.py:129-137 | Documented behaviour: bind stops at an exception object and passes every other value on. |
| Instances.ExcConcat | guac/instances.py:152-165 | Concat returns `x` unless `x` is an exception, in which case it returns `y`. The result is an exception only when both operands are. |
| Instances.ExceptionCongruent | guac/instances.py:128-142 | ExceptionMonad.bind depends only on the values its continuation returns. |
| Instances.ReaderLift | guac/instances.py:172-181 | FunctionMonad.lift gives the function that returns `x` for every argument. |
| Instances.ReaderBind | guac/instances.py:183-194 | FunctionMonad.bind never raises itself, because it only builds a function. Applied to an argument, that function raises what `m` raises, then what `f` raises. Otherwise it applies the function `f` returns to the same argument. |
| Instances.StateLift | guac/instances.py:204-209 | StateMonad.lift returns `x` and leaves every state unchanged. |
| Instances.StateBind | guac/instances.py:211-225 | StateMonad.bind never raises itself. Applied to a state, the function it builds raises what `m` raises, then what `f` raises. Otherwise it runs the function `f` returns on the state `m` left. |
| Laws.BindElemsIsFlatMap | guac/instances.py:30-33 | When every continuation call returns a list, the bind loop computes the flat-map of an independent reference definition. |
| Laws.FlatMapAppend | guac/instances.py:30-33 | Flat-map distributes over list concatenation. |
| Laws.FlatMapLength | guac/instances.py:30-33 | The length of a flat-map is the sum of the lengths of the per-element lists. |
| Laws.FlatMapMembership | guac/instances.py:30-33 | A value is in the flat-map exactly when it comes from some element's list. Both directions are proved. |
| Laws.FlatMapOfSingletons | guac/instances.py:30-33 | Flat-mapping singleton lists is an element-wise map: same length, position by position. |
| Laws.ListBindIsFlatMap | guac/instances.py:20-33 | ListMonad.bind over a list is the flat-map of its continuation's lists. Its length is the sum of theirs, and binding `[]` gives `[]`. |
| Laws.ListLeftIdentity | guac/instances.py:9-33 | `bind(lift(v), f) == f(v)` holds exactly when `f(v)` raises or returns a list. A `()` result becomes `[]`, and a non-iterable result raises TypeError. |
| Laws.ListRightIdentity | guac/instances.py:9-33 | `bind(m, lift)` gives back every list `m`. A `()` becomes `[]`, and anything else raises TypeError. |
| Laws.BindElemsAssociative | guac/instances.py:30-33 | The two nestings of the bind loop succeed together and then agree. |
| Laws.ListAssociativity | guac/instances.py:20-33 | `bind(bind(m, f), g)` and `bind(m, x => bind(f(x), g))` succeed together and then give the same list. |
| Laws.ListAssociativityTotal | guac/instances.py:20-33 | When every continuation returns a list, the two nestings of bind are equal. |
| Laws.ListEmptyConcat | guac/instances.py:35-53 | `[]` is the unit of concat on lists. On non-lists concat is not an identity. |
| Laws.ListBindDistributesOverConcat | guac/instances.py:20-53 | Binding a concatenation equals concatenating the two binds. Even the exception raised is the same. |
| Laws.NoneLeftIdentity | guac/instances.py:60-87 | Left identity fails for exactly one value, None, and only when `f(None)` is not None. |
| Laws.NoneRightIdentity | guac/instances.py:60-87 | `bind(m, lift)` gives back every value. |
| Laws.NoneAssociativity | guac/instances.py:74-87 | The two nestings of NoneMonad.bind are equal, exceptions included. |
| Laws.NoneConcatSkipsFalsy | guac/instances.py:97-107 | The code and its documentation disagree exactly on falsy values other than None that differ from `y`. Example: `concat(0, None)` gives None instead of 0. |
| Laws.NoneConcatIntendedLaws | guac/instances.py:89-107 | The documented concat is associative with unit None. The code's `x or y` is also associative and keeps `concat(None, x) == x`. Only the right identity fails: `concat(x, None) == x` holds exactly for truthy `x` or None. |
| Laws.ExcBindResumesOnException | guac/instances.py:128-142 | As written, bind resumes after an exception object and stops at None. The documented bind stops at the exception. |
| Laws.ExcEmptyConcat | guac/instances.py:144-165 | The empty value is an exception object, which is a two-sided unit of concat. Concat is associative. |
| Laws.ExcBindIntendedLaws | guac/instances.py:114-142 | The documented ExceptionMonad satisfies the monad laws, except that left identity fails exactly at the exception object. |
| Laws.ExcLaws | guac/instances.py:114-142 | As written, ExceptionMonad obeys right identity and associativity. Left identity fails exactly at None, when `f(None)` is not None. These are NoneMonad's laws, not those of an exception monad. |
| Laws.ReaderLeftIdentity | guac/instances.py:172-194 | At every argument, `bind(lift(v), f)` behaves as `f(v)`. |
| Laws.ReaderRightIdentity | guac/instances.py:172-194 | At every argument, `bind(m, lift)` behaves as `m`. |
| Laws.ReaderAssociativity | guac/instances.py:183-194 | At every argument, the two nestings of FunctionMonad.bind agree, exceptions included. |
| Laws.StateLeftIdentity | guac/instances.py:204-225 | At every state, `bind(lift(v), f)` behaves as `f(v)`. |
| Laws.StateRightIdentity | guac/instances.py:204-225 | At every state, `bind(m, lift)` behaves as `m`, result and new state alike. |
| Laws.StateAssociativity | guac/instances.py:211-225 | At every state, the two nestings of StateMonad.bind agree, exceptions included. |
| Runner.InferMonad | guac/monad.py:93-101 | An explicit monad wins. Otherwise the result is the monad of the innermost `monadic_context` frame, with no such frame nearer. Failing that, "unspecified monadic context" is raised exactly when the stack holds no such frame. |
| Runner.Invoke | guac/monad.py:92-102 | A failed inference raises before the body runs. Otherwise the body is driven under the inferred monad, with the call's own `monadic_context` frame pushed. |
| Runner.Drive | guac/monad.py:48-51 | A body that returns before its first yield raises "must yield at least once", whatever it returned. |
| Runner.ResolveRequest | guac/monad.py:37-38 | A concrete value is used unchanged and a `_Builtin` is evaluated against the governing monad. A nested monadic call runs as its own drive, under its explicit monad or else under the monad of the innermost `monadic_context` on the frames. With no such frame it raises "unspecified monadic context". |
| Runner.Step | guac/monad.py:36-47 | An exception raised while resolving the request ends the step before `bind` is called. Otherwise the resolved value, whether a concrete value, an evaluated `_Builtin` or a nested call's result, goes to `bind` with the resumption as the continuation. |
| Runner.Proceed | guac/monad.py:39-46 | Resuming with `x` has four outcomes. A truthy return raises "unexpected return value", and a falsy return ends the branch with `lift(x)`. An exception from the body propagates, and a further yield is driven as a new step. |
| DriveLaws.ResumeIsFreshDrive | guac/monad.py:39-46 | Resuming with `x` has three outcomes. A truthy return raises "unexpected return value". A falsy return ends the branch with `lift(x)`. A further yield drives the rest of the body as a new drive. |
| DriveLaws.DeferredResolvedFirst | guac/monad.py:37-38 | A `_Builtin` is evaluated against the governing monad before anything is bound. If that evaluation raises, the exception stops the drive. |
| DriveLaws.ConcretePassesThrough | guac/monad.py:36-47 | A yielded monadic value goes to `bind` unchanged, with the resumption as its continuation. |
| DriveLaws.DriveChain | guac/monad.py:34-51 | A body that yields `m1 … mn`, ignoring what it gets back, and then returns None runs to the right-nested binds `bind(m1, _ => … bind(mn, lift))`. A body with no yield raises. |
| DriveLaws.SingleYield | guac/monad.py:39-47 | `yield m; return v` runs to `bind(m, lift)` when `v` is falsy. When `v` is truthy, every resumption raises. |
| DriveLaws.ListResumeGivesList | guac/monad.py:39-46 | Under ListMonad every successful resumption returns a list. |
| DriveLaws.ListBranchesLoop | guac/monad.py:47 | Under ListMonad, yielding a list runs ListMonad's bind loop over its elements with the resumption. |
| DriveLaws.ListBranchesAppend | guac/monad.py:39-47 | Branching over `s1 + s2` is branching over `s1`, then over `s2`, with the results concatenated in that order. |
| DriveLaws.ListBranchesIndependent | guac/monad.py:40-42 | Each branch runs on its own copy of the body. When every branch succeeds alone, the result concatenates what each element would give alone. |
| DriveLaws.ListReturnCheckedPerBranch | guac/monad.py:43-46 | A truthy return raises once any branch finishes. With no branches the check is never reached and the result is `[]`. |
| DriveLaws.NoneShortCircuit | guac/monad.py:47 | Under NoneMonad a yielded None ends the drive with None, whatever the rest of the body would do. |
| DriveLaws.RunOptional | guac/monad.py:34-51 | An iterative drive under NoneMonad, one suspension at a time, computes the recursive drive. |
| DriveLaws.UnresolvedBeforeBody | guac/monad.py:94-101 | Calling a monadic function without a monad and with no `monadic_context` on the stack raises before its body runs. |
| DriveLaws.ExplicitMonadUsed | guac/monad.py:93-102 | An explicitly given monad governs the body, whatever the enclosing contexts. |
| DriveLaws.InsideDriveGoverned | guac/monad.py:93-102 | Inside a drive, the nearest context is the drive's own monad. |
| DriveLaws.NestedInheritsMonad | guac/monad.py:94-98 | A nested monadic call without a monad inherits the caller's monad. It runs as its own drive, and its result or exception is then yielded like a plain value. |
| Combinators.FinalYield | guac/monad.py:39-47 | A body whose last statement is `yield r` runs to `bind(r, lift)`. |
| Combinators.Lift | guac/functions.py:16-25 | `lift(v)` yields a single `_Builtin` and nothing after it. Evaluated against any monad, the `_Builtin` gives that monad's `lift(v)`. |
| Combinators.Empty | guac/functions.py:27-36 | `empty()` yields a single `_Builtin` whose evaluation asks the governing monad for `empty`, raising when it has none. |
| Combinators.Concat | guac/functions.py:38-47 | `concat(x, y)` yields a single `_Builtin` whose evaluation asks the governing monad for `concat(x, y)`, raising when it has none. |
| Combinators.Unit | guac/functions.py:49-55 | `unit()` yields the nested call `lift(())`, which carries no monad of its own. |
| Combinators.Guard | guac/functions.py:57-72 | `guard(c)` yields the nested call `unit()` when `c` is truthy and `empty()` otherwise. |
| Combinators.Map | guac/functions.py:74-85 | `map(f, m)` first yields `m`. Resumed with `x`, it yields the nested call `lift(f(x))`, or raises what `f(x)` raises. |
| Combinators.Join | guac/functions.py:87-97 | `join(m)` yields `m`, then yields the value it receives as a monadic value in its own right. |
| Combinators.BindAsWritten | guac/functions.py:3-14 | As written, `bind(m, f)` calls `f(m)` before yielding anything. If that raises, the body raises; otherwise it yields `f(m)`. |
| Combinators.BindIntended | guac/functions.py:3-14 | The documented `bind(m, f)` yields `m` first. Resumed with `x`, it yields `f(x)`, or raises what `f(x)` raises. |
| Combinators.LiftRuns | guac/functions.py:16-25 | Under ListMonad, NoneMonad and ExceptionMonad, `lift(v)` runs to `bind(m.lift(v), m.lift)`. These are the monads whose bind looks only at its continuation's values. FunctionMonad and StateMonad are covered by ReaderStateRuns.ReaderLiftRuns and ReaderStateRuns.StateLiftRuns. |
| Combinators.EmptyRuns | guac/functions.py:27-36 | `empty()` runs to `bind(m.empty(), m.lift)`, or raises AttributeError for a monad without `empty`. |
| Combinators.ConcatRuns | guac/functions.py:38-47 | `concat(x, y)` runs to `bind(m.concat(x, y), m.lift)`, or raises AttributeError for a monad without `concat`. |
| Combinators.UnitRuns | guac/functions.py:49-55 | `unit()` runs its nested `lift(())` under the inherited monad and binds the result to `lift` again. |
| Combinators.GuardRuns | guac/functions.py:57-72 | A truthy condition runs `unit()`. A falsy one runs `empty()`, or raises AttributeError when the monad has no `empty`. |
| Combinators.MapRuns | guac/functions.py:74-85 | Under any monad whose bind looks only at its continuation's values (ListMonad, NoneMonad, ExceptionMonad), `map(f, m)` binds `m` to a continuation. For each `x`, that continuation lifts `f(x)` and binds the result to `lift`, or raises what `f(x)` raises. |
| Combinators.MapRunsVia | guac/functions.py:74-85 | MapRuns holds for any continuation that agrees with map's own continuation on every value. |
| Combinators.JoinRuns | guac/functions.py:87-97 | `join(m)` binds `m` to a continuation that binds each inner value to `lift`. |
| Combinators.BindIntendedRuns | guac/functions.py:3-14 | The documented `bind(m, f)` binds `m` to a continuation that binds `f(x)` to `lift`, or raises what `f(x)` raises. |
| Combinators.BindAsWrittenRuns | guac/functions.py:3-14 | The code's `bind(m, f)` applies `f` to the monadic value itself and binds `f(m)` to `lift`, or raises what `f(m)` raises. |
| CombinatorRuns.ListLiftRuns | guac/functions.py:16-55 | Under ListMonad, `lift(v)` is `[v]` and `unit()` is `[()]`. |
| CombinatorRuns.ListEmptyRuns | guac/functions.py:27-36 | Under ListMonad, `empty()` is `[]`. |
| CombinatorRuns.ListConcatRuns | guac/functions.py:38-47 | Under ListMonad, `concat` of two lists is their concatenation. Two `()` give `[]`, and anything else raises TypeError. |
| CombinatorRuns.ListGuardRuns | guac/functions.py:57-72 | Under ListMonad, `guard(c)` is `[()]` when `c` is truthy and `[]` otherwise. |
| CombinatorRuns.ListGuardPrunes | guac/functions.py:57-72 | `yield guard(c)` ends a branch with no results when `c` is falsy. When `c` is truthy, the branch resumes once with `()`. |
| CombinatorRuns.ListMapRuns | guac/functions.py:74-85 | Under ListMonad, `map(f, [x1 … xn])` is `[f(x1) … f(xn)]`, checked against an independent element-wise map. If `f` raises, the exception of the first failing element in list order is raised. |
| CombinatorRuns.ApplyPointwise | guac/functions.py:74-85 | The reference map succeeds exactly when `f` succeeds on every element. It then keeps the length and applies `f` at every position. Otherwise it raises what `f` raises on the first element where it fails. |
| CombinatorRuns.ListMapIsBind | guac/functions.py:74-85 | Under ListMonad, `map` is a bind with a singleton-list continuation, for every input. |
| CombinatorRuns.ListMapRejects | guac/functions.py:74-85 | Under ListMonad, `map` over a non-iterable raises TypeError. |
| CombinatorRuns.ListJoinRuns | guac/functions.py:87-97 | Under ListMonad, `join` of a list whose elements are lists or `()` is their flattening, in order; a `()` contributes nothing. |
| CombinatorRuns.ListJoinRejects | guac/functions.py:87-97 | Under ListMonad, `join` raises TypeError when some element cannot be iterated. |
| CombinatorRuns.ListBindIntendedRuns | guac/functions.py:3-14 | Under ListMonad, the documented `bind(m, f)` is ListMonad.bind of `m` and `f`. This holds for every `f`, including one that raises or returns something other than a list. |
| CombinatorRuns.BindElemsByContribution | guac/instances.py:30-33 | The bind loop sees its continuation only through what `result += f(elem)` makes of each call: the list it adds or the exception it raises. |
| CombinatorRuns.ListBindAsWrittenWraps | guac/functions.py:3-14 | `bind([1, 2], lambda x: [x])` as written gives `[[1, 2]]`, where the documented bind gives `[1, 2]`. |
| CombinatorRuns.NoneBuildersRun | guac/functions.py:16-55 | Under NoneMonad, `lift(v)` is `v`, `unit()` is `()`, and `empty()` is None. `concat(x, y)` is `x or y`. |
| CombinatorRuns.NoneGuardRuns | guac/functions.py:57-72 | Under NoneMonad, `guard(c)` is `()` when `c` is truthy and None otherwise. |
| CombinatorRuns.NoneMapRuns | guac/functions.py:74-85 | Under NoneMonad, `map(f, m)` is None for None. Otherwise it is `f(m)`, including any exception `f` raises. |
| CombinatorRuns.NoneJoinRuns | guac/functions.py:87-97 | Under NoneMonad, `join(m)` is `m`. |
| CombinatorRuns.NoneBindIntendedRuns | guac/functions.py:3-14 | Under NoneMonad, the documented bind is None for None. Otherwise it is `f(m)`, including any exception `f` raises. |
| CombinatorRuns.NoneBindAsWrittenIgnoresNone | guac/functions.py:3-14 | As written, `bind(None, f)` calls `f(None)`. The documented bind gives None. |
| CombinatorRuns.ExceptionBuildersRun | guac/functions.py:16-55 | Under ExceptionMonad, `lift(v)` is `v`, `unit()` is `()`, and `empty()` is an exception object. `concat` skips an exception `x`. |
| CombinatorRuns.ExceptionGuardRuns | guac/functions.py:57-72 | Under ExceptionMonad, `guard(c)` is `()` when `c` is truthy and an exception object otherwise. |
| CombinatorRuns.ExceptionMapRuns | guac/functions.py:74-85 | Under ExceptionMonad, `map(f, m)` is None for None. Otherwise it is `f(m)`, exception objects and exceptions raised by `f` included. |
| ReaderStateRuns.ReaderLiftRuns | guac/functions.py:16-25 | Under FunctionMonad, `lift(v)` returns a function that gives `v` at every argument. |
| ReaderStateRuns.ReaderBuildersUnsupported | guac/functions.py:27-47 | FunctionMonad has no `empty` or `concat`: both raise AttributeError. |
| ReaderStateRuns.ReaderMapResumed | guac/functions.py:84-85 | Resuming map's body under FunctionMonad, with the monad in reach, gives the constant function `f(x)`, or raises what `f(x)` raises. |
| ReaderStateRuns.ReaderMapResumedUnresolved | guac/monad.py:94-101 | Resuming map's body where no `monadic_context` is on the stack raises "unspecified monadic context" at the nested `lift`, unless `f(x)` raises first. |
| ReaderStateRuns.ReaderMapShape | guac/instances.py:183-194 | The function `map(f, m)` returns applies `m` first, then applies the rest of the body's result to the same argument. |
| ReaderStateRuns.ReaderMapComposes | guac/functions.py:74-85 | Documented behaviour: under FunctionMonad, `map(f, m)` is `f` after `m`. An exception from `m` or from `f` passes through. |
| ReaderStateRuns.ReaderMapAppliedAtTopLevel | guac/monad.py:92-103 | As written: the function `map(f, m)` returns raises "unspecified monadic context" when applied outside every `monadic_context`, whenever `m` and `f` succeed. |
| ReaderStateRuns.StateLiftRuns | guac/functions.py:16-25 | Under StateMonad, `lift(v)` returns `v` and leaves the state unchanged. |
| ReaderStateRuns.StateBuildersUnsupported | guac/functions.py:27-47 | StateMonad has no `empty` or `concat`: both raise AttributeError. |
| ReaderStateRuns.StateMapResumed | guac/functions.py:84-85 | Resuming map's body under StateMonad, with the monad in reach, returns `f(x)` and leaves the state unchanged, or raises what `f(x)` raises. |
| ReaderStateRuns.StateMapResumedUnresolved | guac/monad.py:94-101 | Resuming map's body where no `monadic_context` is on the stack raises "unspecified monadic context", unless `f(x)` raises first. |
| ReaderStateRuns.StateMapShape | guac/instances.py:211-225 | The function `map(f, m)` returns runs `m`, then runs the rest of the body's result on the state `m` left. |
| ReaderStateRuns.StateMapComposes | guac/functions.py:74-85 | Documented behaviour: under StateMonad, `map(f, m)` maps `f` over `m`'s result and keeps `m`'s new state. An exception from `m` or from `f` passes through. |
| ReaderStateRuns.StateMapAppliedAtTopLevel | guac/monad.py:92-103 | As written: the function `map(f, m)` returns raises when applied outside every `monadic_context`, whenever `m` and `f` succeed. |
| Scenarios.SumsRun | guac/monad.py:34-51 | The body `a = yield [1, 2]; b = yield [10, 20]; yield lift(a + b)` under ListMonad gives `[11, 21, 12, 22]`: every pair of choices, the first choice varying slowest. |
| Scenarios.GuardedOneRuns | guac/functions.py:57-72 | The body `yield guard(c); yield lift(1)` under ListMonad gives `[1]` when `c` is truthy and `[]` otherwise. |
| Scenarios.DriverFailures | guac/monad.py:48-51 | The sum body called outside every context raises "unspecified monadic context". A body that returns before yielding raises "must yield at least once". |

## Left out

- `setup.py`: packaging only.
- The abstract `lift` and `bind` of `Monad` (guac/monad.py:6-28). They return NotImplemented and are only overridden; each instance is a record of its own functions.
- The decorator's argument dispatch (guac/monad.py:105-117). It rejects non-monads and non-generators when a function is decorated. The model starts from a well-formed decorated generator, either with an explicit monad or without one.
- `filter` (guac/functions.py:99-113). Its body refers to an undefined name `pred`, so every call that resumes past the first yield raises NameError. Its `guard` result is also never yielded.
- `inspect.stack()` and `inspect.getargvalues`. They are modelled as a list of frames, innermost first, each either a `monadic_context` carrying its monad or some other frame.
- `copy.deepcopy` of a live generator. The continuation is a pure function, so every resumption starts from its own copy by construction. On interpreters where generators cannot be copied this would raise, which is not modelled.
- The identity of exception objects. ExceptionMonad's values hold a single exception value, so "the last exception" returned by concat cannot be told apart from the first.
- Function extensionality. Dafny cannot compare two functions, so the FunctionMonad and StateMonad laws and combinator results are stated at a given argument or state.
- Monadic values that are Python functions inside the plain-value universe. As a result `join` is modelled only for monads whose values are plain values (ListMonad, NoneMonad, ExceptionMonad). The same holds for the combinator laws that need a generic `Congruent` instance.
- `guard`, `unit`, `join` and `bind` under FunctionMonad and StateMonad are not stated. `lift`, `empty`, `concat` and `map` are.
- AttributeError and the unpacking errors of StateMonad. A missing `empty`/`concat` is the `NotSupported` error. A StateMonad computation that returns something other than a pair cannot be expressed, because `Stateful` always returns a pair.
- The length of a body. Each `Yield` carries an upper bound on the yields left on any path, so that the interpreter terminates. A generator that can yield without bound, for example one that loops over an unbounded input, is outside the model.
- Nested monadic calls in any position other than a yield. A body can use a nested call only as the operand of a `yield`. A call whose monadic result is kept as a plain value, as in `x = lift(3)`, cannot be expressed.
- Mixing monads in one drive. Every program carries a single monadic-value type, so a FunctionMonad function applied inside a ListMonad drive cannot be expressed.
- Python's `+` is modelled on integers, booleans, tuples `()` and lists only; other operand types are not in the value universe.

## Findings

| source | as written | input that shows it | evidently intended | confidence | as-written member | corrected member |
|---|---|---|---|---|---|---|
| guac/instances.py:128-142 | ExceptionMonad.bind tests `m is not None`, so it stops at None and passes an exception object to the continuation | `bind(Exception(), lambda _: 1)` under ExceptionMonad gives 1 | stop at an exception object, as the docstring says, so the result is the exception | high, not executed | Laws.ExcBindResumesOnException | Laws.ExcBindIntendedLaws |
| guac/instances.py:97-107 | NoneMonad.concat is `x or y`, which skips every falsy value, not only None | `concat(0, None)` under NoneMonad gives None | the first value that is not None, here 0 | high, not executed | Laws.NoneConcatSkipsFalsy | Laws.NoneConcatIntendedLaws |
| guac/functions.py:3-14 | `bind(m, f)` yields `f(m)`: `f` is applied to the monadic value, not to the unwrapped one | `bind([1, 2], lambda x: [x])` under ListMonad gives `[[1, 2]]` | unwrap first (`x = yield m; yield f(x)`), giving `[1, 2]` | high, not executed | CombinatorRuns.ListBindAsWrittenWraps | CombinatorRuns.ListBindIntendedRuns |
| guac/monad.py:92-103 | under FunctionMonad and StateMonad, bind defers the rest of the body until the returned function is applied, and the nested `lift` inside `map` then searches the call stack of that application for a `monadic_context` | `map(lambda v: v + 1, lambda e: e, monad=FunctionMonad)` applied to 1 at the top level raises RuntimeError "unspecified monadic context" | the nested call inherits the monad of the `map` that contains it, giving 2 | medium, not executed | ReaderStateRuns.ReaderMapAppliedAtTopLevel | ReaderStateRuns.ReaderMapComposes |
