/**
 * McCarthy's primitives over the value model: quote, atom, eq, car, cdr,
 * cons, the c...r selectors, list, and the helpers null, and, not and the
 * arithmetic add, sub and lt. Every operation that panics in the
 * interpreter returns `Err` with the fault that names it.
 */
module Primitives {
  import opened Wrappers
  import opened Values

  /** Any value other than `Nil` counts as true. */
  predicate IsTrue(v: Value): (b: bool)
    ensures b <==> !v.Nil?
  {
    v != Nil
  }

  function Quote(v: Value): (r: Value)
    ensures r == v
  {
    v
  }

  /** `t` for every variant except a pair, `Nil` for a pair. */
  function Atom(v: Value): (r: Value)
    ensures r == TRUE <==> !v.Pair?
    ensures r == Nil <==> v.Pair?
  {
    match v
    case Pair(_, _) => Nil
    case _ => TRUE
  }

  /**
   * The primitive identity test: true for two equal atoms (two `Nil`s
   * included) and false whenever either side is a pair, even for two
   * structurally equal pairs.
   */
  function Eq(x: Value, y: Value): (r: Value)
    ensures r == TRUE <==> !x.Pair? && !y.Pair? && x == y
    ensures r == Nil <==> !(!x.Pair? && !y.Pair? && x == y)
    ensures x.Pair? || y.Pair? ==> r == Nil
  {
    if x == Nil && y == Nil then TRUE
    else if IsTrue(Atom(x)) && IsTrue(Atom(y)) && x == y then TRUE
    else Nil
  }

  function Car(v: Value): (r: Result<Value, Fault>)
    ensures r.Ok? <==> v.Pair?
    ensures r.Ok? ==> r.value == v.a
    ensures r.Err? ==> r.error == CarOfAtom
  {
    match v
    case Pair(x, _) => Ok(x)
    case _ => Err(CarOfAtom)
  }

  function Cdr(v: Value): (r: Result<Value, Fault>)
    ensures r.Ok? <==> v.Pair?
    ensures r.Ok? ==> r.value == v.b
    ensures r.Err? ==> r.error == CdrOfAtom
  {
    match v
    case Pair(_, y) => Ok(y)
    case _ => Err(CdrOfAtom)
  }

  function Caar(v: Value): (r: Result<Value, Fault>)
    ensures r.Ok? <==> v.Pair? && v.a.Pair?
    ensures r.Ok? ==> r.value == v.a.a
    ensures r.Err? ==> r.error == CarOfAtom
  {
    var x :- Car(v);
    Car(x)
  }

  function Cadr(v: Value): (r: Result<Value, Fault>)
    ensures r.Ok? <==> v.Pair? && v.b.Pair?
    ensures r.Ok? ==> r.value == v.b.a
    ensures r.Err? ==> r.error == if v.Pair? then CarOfAtom else CdrOfAtom
  {
    var x :- Cdr(v);
    Car(x)
  }

  function Cadar(v: Value): (r: Result<Value, Fault>)
    ensures r.Ok? <==> v.Pair? && v.a.Pair? && v.a.b.Pair?
    ensures r.Ok? ==> r.value == v.a.b.a
    ensures r.Err? ==> r.error == if v.Pair? && !v.a.Pair? then CdrOfAtom else CarOfAtom
  {
    var x :- Car(v);
    var y :- Cdr(x);
    Car(y)
  }

  function Caddr(v: Value): (r: Result<Value, Fault>)
    ensures r.Ok? <==> v.Pair? && v.b.Pair? && v.b.b.Pair?
    ensures r.Ok? ==> r.value == v.b.b.a
    ensures r.Err? ==> r.error == if v.Pair? && v.b.Pair? then CarOfAtom else CdrOfAtom
  {
    var x :- Cdr(v);
    var y :- Cdr(x);
    Car(y)
  }

  function Caddar(v: Value): (r: Result<Value, Fault>)
    ensures r.Ok? <==> v.Pair? && v.a.Pair? && v.a.b.Pair? && v.a.b.b.Pair?
    ensures r.Ok? ==> r.value == v.a.b.b.a
    ensures r.Err? ==> r.error == if v.Pair? && (!v.a.Pair? || !v.a.b.Pair?) then CdrOfAtom else CarOfAtom
  {
    var x :- Car(v);
    var y :- Cdr(x);
    var z :- Cdr(y);
    Car(z)
  }

  /** A fresh pair; `car` and `cdr` give back its two components. */
  function Cons(x: Value, d: Value): (r: Value)
    ensures Car(r) == Ok(x) && Cdr(r) == Ok(d)
  {
    Pair(x, d)
  }

  /** Builds the list from the last element backwards, as the variadic `list` does. */
  method List(vs: seq<Value>) returns (ls: Value)
    ensures ls == ListOf(vs)
    ensures IsList(ls) && Elems(ls) == vs
    ensures vs == [] ==> ls == Nil
  {
    ls := Nil;
    var i := |vs|;
    while i > 0
      invariant 0 <= i <= |vs|
      invariant ls == ListOf(vs[i..])
    {
      i := i - 1;
      assert vs[i..][1..] == vs[i + 1..];
      ls := Cons(vs[i], ls);
    }
    ElemsOfListOf(vs);
  }

  /**
   * The selectors pick the positions their names spell, read right to left
   * ("cadr" is the car of the cdr: the second element).
   */
  lemma {:induction false} SelectorsOnLists(xs: seq<Value>, ys: seq<Value>)
    requires |xs| >= 3 && |ys| >= 3 && xs[0] == ListOf(ys)
    ensures Caar(ListOf(xs)) == Ok(ys[0])
    ensures Cadr(ListOf(xs)) == Ok(xs[1])
    ensures Cadar(ListOf(xs)) == Ok(ys[1])
    ensures Caddr(ListOf(xs)) == Ok(xs[2])
    ensures Caddar(ListOf(xs)) == Ok(ys[2])
  {
    ListOfFront(xs);
    ListOfFront(ys);
  }

  /** True exactly for `Nil`. */
  function Null(x: Value): (r: Value)
    ensures r == TRUE <==> x == Nil
    ensures r == Nil <==> x != Nil
  {
    Eq(x, Nil)
  }

  function And(x: Value, y: Value): (r: Value)
    ensures r == TRUE || r == Nil
    ensures IsTrue(r) <==> IsTrue(x) && IsTrue(y)
  {
    if IsTrue(x) then
      if IsTrue(y) then TRUE else Nil
    else Nil
  }

  function Not(x: Value): (r: Value)
    ensures r == TRUE || r == Nil
    ensures IsTrue(r) <==> !IsTrue(x)
  {
    if IsTrue(x) then Nil else TRUE
  }

  /** Sum of two numbers; machine-word wrap-around is not modelled. */
  function Add(x: Value, y: Value): (r: Result<Value, Fault>)
    ensures r.Ok? <==> x.Number? && y.Number?
    ensures r.Ok? ==> r.value == Number(x.n + y.n)
    ensures r.Err? ==> r.error == NotANumber("add")
  {
    if !x.Number? then Err(NotANumber("add"))
    else if !y.Number? then Err(NotANumber("add"))
    else Ok(Number(x.n + y.n))
  }

  /** Difference of two numbers; machine-word wrap-around is not modelled. */
  function Sub(x: Value, y: Value): (r: Result<Value, Fault>)
    ensures r.Ok? <==> x.Number? && y.Number?
    ensures r.Ok? ==> r.value == Number(x.n - y.n)
    ensures r.Err? ==> r.error == NotANumber("sub")
  {
    if !x.Number? then Err(NotANumber("sub"))
    else if !y.Number? then Err(NotANumber("sub"))
    else Ok(Number(x.n - y.n))
  }

  /** Numeric less-than, answering `t` or `Nil`. */
  function Lt(x: Value, y: Value): (r: Result<Value, Fault>)
    ensures r.Ok? <==> x.Number? && y.Number?
    ensures r.Ok? ==> (r.value == TRUE <==> x.n < y.n) && (r.value == Nil <==> x.n >= y.n)
    ensures r.Err? ==> r.error == NotANumber("lt")
  {
    if !x.Number? then Err(NotANumber("lt"))
    else if !y.Number? then Err(NotANumber("lt"))
    else if x.n < y.n then Ok(TRUE)
    else Ok(Nil)
  }
}
