/**
  The universe of plain Python values the monads move around.

  Guac is dynamically typed: a list monad value is any Python object that
  happens to be a list, the None monad's values are arbitrary objects, and
  so on.  The model fixes one first-order universe that is rich enough for
  every behaviour of the core: integers, booleans, the empty tuple `()`,
  `None`, an exception object and lists.
 */
module Values {
  import opened Wrappers

  datatype Val =
    | VInt(i: int)
    | VBool(b: bool)
    | VUnit                 // the empty tuple `()`, which `unit()` lifts
    | VNone                 // Python's None
    | VExc                  // an `Exception()` instance; identity is not modelled
    | VList(items: seq<Val>)

  /** Python truthiness, as used by `if e.value:` and by `x or y`. */
  predicate Truthy(v: Val) {
    match v
    case VInt(i) => i != 0
    case VBool(b) => b
    case VUnit => false
    case VNone => false
    case VExc => true
    case VList(s) => |s| > 0
  }

  /** The falsy values of the universe are exactly None, 0, False, () and []. */
  lemma FalsyValues(v: Val)
    ensures !Truthy(v) <==>
      v == VNone || v == VInt(0) || v == VBool(false) || v == VUnit || v == VList([])
  {
  }

  /** What a Python `for` loop (or `list +=`) iterates over: the items of a
      list, nothing for the empty tuple, and a TypeError for everything else. */
  function Elements(v: Val): (r: Option<seq<Val>>)
    ensures r.Some? <==> v.VList? || v.VUnit?
    ensures v.VList? ==> r == Some(v.items)
    ensures v.VUnit? ==> r == Some([])
  {
    match v
    case VList(s) => Some(s)
    case VUnit => Some([])
    case _ => None
  }

  /** The integer a number stands for; Python's bool is a subclass of int. */
  function AsNumber(v: Val): Option<int> {
    match v
    case VInt(i) => Some(i)
    case VBool(b) => Some(if b then 1 else 0)
    case _ => None
  }

  /** Python's binary `+` on the universe: numbers add, lists and tuples
      concatenate, every other pairing raises TypeError. */
  function Add(x: Val, y: Val): (r: Result<Val>)
    ensures x.VList? && y.VList? ==> r == Ok(VList(x.items + y.items))
    ensures r.Ok? ==> (x.VList? <==> y.VList?)
    ensures (x.VNone? || y.VNone? || x.VExc? || y.VExc?) ==> r == Err(TypeError)
  {
    if x.VList? && y.VList? then Ok(VList(x.items + y.items))
    else if x.VUnit? && y.VUnit? then Ok(VUnit)
    else if AsNumber(x).Some? && AsNumber(y).Some? then Ok(VInt(AsNumber(x).value + AsNumber(y).value))
    else Err(TypeError)
  }
}
