/**
 * The evaluator: `Eval` of an expression in an association-list
 * environment, `Evcon` for the clauses of `cond` and `Evlis` for argument
 * lists. User programs may loop, so each of the three takes a `fuel`
 * bound: every `Eval` that goes on to a sub-evaluation, a `cond` or an
 * application spends one unit, and running out gives `Err(OutOfFuel)`.
 */
module Evaluator {
  import opened Wrappers
  import opened Values
  import opened Primitives
  import opened Bindings

  /**
   * The value of `e` in the environment `a`. A number is itself, any other
   * atom is looked up, a form headed by an atom is one of the primitive or
   * special forms (or a named function), and a form headed by a pair applies
   * a `label` or `lambda` form.
   */
  function Eval(e: Value, a: Value, fuel: nat): (r: Result<Value, Fault>)
    ensures fuel > 0 && e.Number? ==> r == Ok(e)
    decreases fuel, 0, e
  {
    if fuel == 0 then Err(OutOfFuel)
    else if IsTrue(Atom(e)) then
      if e.Number? then Ok(e) else Assoc(e, a)
    // e is a pair from here on, so its car cannot fail
    else if IsTrue(Atom(e.a)) then EvalForm(e, a, fuel - 1)
    else Apply(e, a, fuel - 1)
  }

  /** The value of the argument `(cadr e)`. */
  function EvalArg(e: Value, a: Value, fuel: nat): (r: Result<Value, Fault>)
    decreases fuel, 1, e
  {
    var x :- Cadr(e);
    Eval(x, a, fuel)
  }

  /** The values of the arguments `(cadr e)` and `(caddr e)`, evaluated in that order. */
  function EvalArgs(e: Value, a: Value, fuel: nat): (r: Result<(Value, Value), Fault>)
    decreases fuel, 1, e
  {
    var x :- Cadr(e);
    var v :- Eval(x, a, fuel);
    var y :- Caddr(e);
    var w :- Eval(y, a, fuel);
    Ok((v, w))
  }

  /** A form whose head is an atom: quote, a primitive, cond, or a function named by the head. */
  function EvalForm(e: Value, a: Value, fuel: nat): (r: Result<Value, Fault>)
    requires e.Pair? && !e.a.Pair?
    decreases fuel, 2, e
  {
    var head := e.a;
    // each test is (eq head 'name); by the contract of Eq that holds exactly when head is the symbol
    if head == Symbol("quote") then Cadr(e)
    else if head == Symbol("atom") then
      var v :- EvalArg(e, a, fuel);
      Ok(Atom(v))
    else if head == Symbol("eq") then
      var vw :- EvalArgs(e, a, fuel);
      Ok(Eq(vw.0, vw.1))
    else if head == Symbol("car") then
      var v :- EvalArg(e, a, fuel);
      Car(v)
    else if head == Symbol("cdr") then
      var v :- EvalArg(e, a, fuel);
      Cdr(v)
    else if head == Symbol("cons") then
      var vw :- EvalArgs(e, a, fuel);
      Ok(Cons(vw.0, vw.1))
    else if head == Symbol("cond") then
      // e is a pair, so its cdr cannot fail
      Evcon(e.b, a, fuel)
    else if head == Symbol("add") then
      var vw :- EvalArgs(e, a, fuel);
      Add(vw.0, vw.1)
    else if head == Symbol("sub") then
      var vw :- EvalArgs(e, a, fuel);
      Sub(vw.0, vw.1)
    else if head == Symbol("lt") then
      var vw :- EvalArgs(e, a, fuel);
      Lt(vw.0, vw.1)
    else
      // any other head is looked up and the form is evaluated again
      var f :- Assoc(head, a);
      Eval(Cons(f, e.b), a, fuel)
  }

  /** A form whose head is itself a form: a `label` or a `lambda` applied to arguments. */
  function Apply(e: Value, a: Value, fuel: nat): (r: Result<Value, Fault>)
    requires e.Pair? && e.a.Pair?
    decreases fuel, 2, e
  {
    var head := e.a;
    // the head is a pair, so caar(e) cannot fail; (eq (caar e) 'label) is equality with the symbol
    if head.a == Symbol("label") then
      // ((label name fn) args): bind name to the whole label form, apply fn
      var fn :- Caddar(e);
      // caddar succeeded, so cadar cannot fail
      var name := head.b.a;
      Eval(Cons(fn, e.b), Cons(ListOf([name, head]), a), fuel)
    else if head.a == Symbol("lambda") then
      // ((lambda params body) args): bind params to the values of args in front of a
      var body :- Caddar(e);
      var params := head.b.a;
      var args :- Evlis(e.b, a, fuel);
      // pair always yields a proper list, so append cannot fail
      var env := Append(PairUp(params, args), a).value;
      Eval(body, env, fuel)
    else Err(InvalidConstruct)
  }

  /** The body of the first clause whose predicate is not `Nil`; running out of clauses is a car of `Nil`. */
  function Evcon(c: Value, a: Value, fuel: nat): (r: Result<Value, Fault>)
    ensures c == Nil ==> r == Err(CarOfAtom)
    decreases fuel, 1, c
  {
    var p :- Caar(c);
    var v :- Eval(p, a, fuel);
    if IsTrue(Not(Null(v))) then
      var body :- Cadar(c);
      Eval(body, a, fuel)
    // caar succeeded, so c is a pair
    else Evcon(c.b, a, fuel)
  }

  /** The list of the values of the elements of `m`, evaluated left to right. */
  function Evlis(m: Value, a: Value, fuel: nat): (r: Result<Value, Fault>)
    ensures r.Ok? ==> IsList(m) && IsList(r.value) && |Elems(r.value)| == |Elems(m)|
    decreases fuel, 1, m
  {
    if IsTrue(Null(m)) then Ok(Nil)
    else
      var x :- Car(m);
      var v :- Eval(x, a, fuel);
      // car succeeded, so m is a pair
      var rest :- Evlis(m.b, a, fuel);
      Ok(Cons(v, rest))
  }

  /** A number evaluates to itself; any other atom is looked up in the environment. */
  lemma {:induction false} EvalAtom(e: Value, a: Value, fuel: nat)
    requires fuel > 0 && !e.Pair?
    ensures Eval(e, a, fuel) == if e.Number? then Ok(e) else Assoc(e, a)
  {
  }

  /** `(quote x)` is `x`, unevaluated. */
  lemma {:induction false} EvalQuote(x: Value, a: Value, fuel: nat)
    requires fuel > 0
    ensures Eval(ListOf([Symbol("quote"), x]), a, fuel) == Ok(x)
  {
    ShortLists(Symbol("quote"), x, x);
  }

  /** `(atom x)`, `(car x)` and `(cdr x)` apply their primitive to the value of `x`. */
  lemma {:induction false} EvalUnaryForms(x: Value, v: Value, a: Value, fuel: nat)
    requires Eval(x, a, fuel) == Ok(v)
    ensures Eval(ListOf([Symbol("atom"), x]), a, fuel + 1) == Ok(Atom(v))
    ensures Eval(ListOf([Symbol("car"), x]), a, fuel + 1) == Car(v)
    ensures Eval(ListOf([Symbol("cdr"), x]), a, fuel + 1) == Cdr(v)
  {
    ShortLists(Symbol("atom"), x, x);
    ShortLists(Symbol("car"), x, x);
    ShortLists(Symbol("cdr"), x, x);
    assert EvalArg(ListOf([Symbol("atom"), x]), a, fuel) == Ok(v);
    assert EvalArg(ListOf([Symbol("car"), x]), a, fuel) == Ok(v);
    assert EvalArg(ListOf([Symbol("cdr"), x]), a, fuel) == Ok(v);
  }

  /** `(eq x y)` and `(cons x y)` apply their primitive to the values of `x` and `y`. */
  lemma {:induction false} EvalEqCons(x: Value, y: Value, v: Value, w: Value, a: Value, fuel: nat)
    requires Eval(x, a, fuel) == Ok(v) && Eval(y, a, fuel) == Ok(w)
    ensures Eval(ListOf([Symbol("eq"), x, y]), a, fuel + 1) == Ok(Eq(v, w))
    ensures Eval(ListOf([Symbol("cons"), x, y]), a, fuel + 1) == Ok(Cons(v, w))
  {
    ShortLists(Symbol("eq"), x, y);
    assert EvalArgs(ListOf([Symbol("eq"), x, y]), a, fuel) == Ok((v, w));
    ShortLists(Symbol("cons"), x, y);
    assert EvalArgs(ListOf([Symbol("cons"), x, y]), a, fuel) == Ok((v, w));
  }

  /** `(add x y)` is the sum of the values of `x` and `y`, and fails unless both are numbers. */
  lemma {:induction false} EvalAdd(x: Value, y: Value, v: Value, w: Value, a: Value, fuel: nat)
    requires Eval(x, a, fuel) == Ok(v) && Eval(y, a, fuel) == Ok(w)
    ensures Eval(ListOf([Symbol("add"), x, y]), a, fuel + 1) == Add(v, w)
  {
    ShortLists(Symbol("add"), x, y);
    assert EvalArgs(ListOf([Symbol("add"), x, y]), a, fuel) == Ok((v, w));
  }

  /** `(sub x y)` is the difference of the values of `x` and `y`, and fails unless both are numbers. */
  lemma {:induction false} EvalSub(x: Value, y: Value, v: Value, w: Value, a: Value, fuel: nat)
    requires Eval(x, a, fuel) == Ok(v) && Eval(y, a, fuel) == Ok(w)
    ensures Eval(ListOf([Symbol("sub"), x, y]), a, fuel + 1) == Sub(v, w)
  {
    ShortLists(Symbol("sub"), x, y);
    assert EvalArgs(ListOf([Symbol("sub"), x, y]), a, fuel) == Ok((v, w));
  }

  /** `(lt x y)` compares the values of `x` and `y`, and fails unless both are numbers. */
  lemma {:induction false} EvalLt(x: Value, y: Value, v: Value, w: Value, a: Value, fuel: nat)
    requires Eval(x, a, fuel) == Ok(v) && Eval(y, a, fuel) == Ok(w)
    ensures Eval(ListOf([Symbol("lt"), x, y]), a, fuel + 1) == Lt(v, w)
  {
    ShortLists(Symbol("lt"), x, y);
    assert EvalArgs(ListOf([Symbol("lt"), x, y]), a, fuel) == Ok((v, w));
  }

  /** `cond` hands its clause list to `Evcon`. */
  lemma {:induction false} EvalCond(clauses: Value, a: Value, fuel: nat)
    ensures Eval(Pair(Symbol("cond"), clauses), a, fuel + 1) == Evcon(clauses, a, fuel)
  {
  }

  /** `cond` evaluates to the body of the first clause whose predicate is not `Nil`. */
  lemma {:induction false} EvconFirstTrue(cs: seq<(Value, Value)>, a: Value, fuel: nat, i: nat, v: Value)
    requires i < |cs|
    requires forall j :: 0 <= j < i ==> Eval(cs[j].0, a, fuel) == Ok(Nil)
    requires Eval(cs[i].0, a, fuel) == Ok(v) && v != Nil
    ensures Evcon(ListOf(Entries(cs)), a, fuel) == Eval(cs[i].1, a, fuel)
  {
    assert Entries(cs)[1..] == Entries(cs[1..]);
    if i > 0 {
      EvconFirstTrue(cs[1..], a, fuel, i - 1, v);
    }
  }

  /** When every predicate is `Nil`, `cond` runs off the end of its clauses and aborts on the car of `Nil`. */
  lemma {:induction false} EvconExhausted(cs: seq<(Value, Value)>, a: Value, fuel: nat)
    requires forall j :: 0 <= j < |cs| ==> Eval(cs[j].0, a, fuel) == Ok(Nil)
    ensures Evcon(ListOf(Entries(cs)), a, fuel) == Err(CarOfAtom)
  {
    if cs != [] {
      assert Entries(cs)[1..] == Entries(cs[1..]);
      EvconExhausted(cs[1..], a, fuel);
    }
  }

  /** `Evlis` of a list of argument expressions is the list of their values, in order. */
  lemma {:induction false} EvlisValues(xs: seq<Value>, vs: seq<Value>, a: Value, fuel: nat)
    requires |xs| == |vs|
    requires forall i :: 0 <= i < |xs| ==> Eval(xs[i], a, fuel) == Ok(vs[i])
    ensures Evlis(ListOf(xs), a, fuel) == Ok(ListOf(vs))
  {
    if xs != [] {
      EvlisValues(xs[1..], vs[1..], a, fuel);
    }
  }

  /** Applying `(lambda params body)` to arguments whose list of values is `vs`. */
  lemma {:induction false} EvalLambdaArgs(ps: seq<Value>, body: Value, args: Value, vs: seq<Value>, a: Value, fuel: nat)
    requires Evlis(args, a, fuel) == Ok(ListOf(vs))
    ensures Eval(Pair(ListOf([Symbol("lambda"), ListOf(ps), body]), args), a, fuel + 1)
         == Eval(body, PrependAll(Entries(Zip(ps, vs)), a), fuel)
  {
    ShortLists(Symbol("lambda"), ListOf(ps), body);
    PairUpZips(ps, vs);
    AppendList(Entries(Zip(ps, vs)), a);
  }

  /**
   * Applying `(lambda params body)` evaluates the body in the environment
   * that puts the bindings of the parameters to the values of the arguments
   * in front of the caller's environment.
   */
  lemma {:induction false} EvalLambda(ps: seq<Value>, body: Value, xs: seq<Value>, vs: seq<Value>, a: Value, fuel: nat)
    requires |xs| == |vs|
    requires forall i :: 0 <= i < |xs| ==> Eval(xs[i], a, fuel) == Ok(vs[i])
    ensures Eval(Pair(ListOf([Symbol("lambda"), ListOf(ps), body]), ListOf(xs)), a, fuel + 1)
         == Eval(body, PrependAll(Entries(Zip(ps, vs)), a), fuel)
  {
    EvlisValues(xs, vs, a, fuel);
    EvalLambdaArgs(ps, body, ListOf(xs), vs, a, fuel);
  }

  /** Inside a lambda body a parameter names its own argument, shadowing any outer binding. */
  lemma {:induction false} LambdaParameterShadows(ps: seq<Value>, vs: seq<Value>, a: Value, i: nat)
    requires i < |ps| && i < |vs| && !ps[i].Pair?
    requires forall j :: 0 <= j < i ==> ps[j] != ps[i]
    ensures Assoc(ps[i], PrependAll(Entries(Zip(ps, vs)), a)) == Ok(vs[i])
  {
    AssocFirstMatch(ps[i], Zip(ps, vs), a, i);
  }

  /** Inside a lambda body a name that is not a parameter keeps the caller's binding. */
  lemma {:induction false} LambdaKeepsOuterBindings(ps: seq<Value>, vs: seq<Value>, a: Value, k: Value)
    requires forall j :: 0 <= j < |ps| ==> ps[j] != k
    ensures Assoc(k, PrependAll(Entries(Zip(ps, vs)), a)) == Assoc(k, a)
  {
    AssocFallThrough(k, Zip(ps, vs), a);
  }

  /** `((label name fn) args)` applies `fn` with `name` bound to the whole label form. */
  lemma {:induction false} EvalLabel(name: Value, fn: Value, args: Value, a: Value, fuel: nat)
    ensures Eval(Pair(ListOf([Symbol("label"), name, fn]), args), a, fuel + 1)
         == Eval(Pair(fn, args), Pair(Binding(name, ListOf([Symbol("label"), name, fn])), a), fuel)
  {
    ShortLists(Symbol("label"), name, fn);
  }

  /** The names of the forms `Eval` handles itself when they head an expression. */
  predicate IsSpecialName(h: Value) {
    h in {Symbol("quote"), Symbol("atom"), Symbol("eq"), Symbol("car"), Symbol("cdr"),
          Symbol("cons"), Symbol("cond"), Symbol("add"), Symbol("sub"), Symbol("lt")}
  }

  /** Any other atom at the head is looked up, and the form is evaluated again with its value at the head. */
  lemma {:induction false} EvalNamedFunction(h: Value, args: Value, a: Value, fuel: nat)
    requires !h.Pair? && !IsSpecialName(h)
    ensures Eval(Pair(h, args), a, fuel + 1)
         == if Assoc(h, a).Ok? then Eval(Pair(Assoc(h, a).value, args), a, fuel) else Assoc(h, a)
  {
  }

  /** The form `(label name (lambda ps body))`. */
  function LabelForm(name: Value, ps: seq<Value>, body: Value): Value {
    ListOf([Symbol("label"), name, ListOf([Symbol("lambda"), ListOf(ps), body])])
  }

  /**
   * Applying a label form whose function is a lambda runs the body with the
   * parameters bound in front of the name's binding; in that environment the
   * name, when it is not a parameter, still resolves to the whole label form.
   */
  lemma {:induction false} LabelRecursion(name: Value, ps: seq<Value>, body: Value, xs: seq<Value>, vs: seq<Value>, a: Value, fuel: nat)
    requires !name.Pair? && forall j :: 0 <= j < |ps| ==> ps[j] != name
    requires |xs| == |vs|
    requires forall i :: 0 <= i < |xs| ==> Eval(xs[i], Pair(Binding(name, LabelForm(name, ps, body)), a), fuel) == Ok(vs[i])
    ensures var env := PrependAll(Entries(Zip(ps, vs)), Pair(Binding(name, LabelForm(name, ps, body)), a));
            && Eval(Pair(LabelForm(name, ps, body), ListOf(xs)), a, fuel + 2) == Eval(body, env, fuel)
            && Assoc(name, env) == Ok(LabelForm(name, ps, body))
  {
    var l := LabelForm(name, ps, body);
    var outer := Pair(Binding(name, l), a);
    EvalLabel(name, ListOf([Symbol("lambda"), ListOf(ps), body]), ListOf(xs), a, fuel + 1);
    EvalLambda(ps, body, xs, vs, outer, fuel);
    LambdaKeepsOuterBindings(ps, vs, outer, name);
    AssocPrepend(name, name, l, a);
  }

  /** Inside the body, a call by the label's name applies the label form again. */
  lemma {:induction false} LabelSelfCall(name: Value, l: Value, args: Value, env: Value, fuel: nat)
    requires !name.Pair? && !IsSpecialName(name) && Assoc(name, env) == Ok(l)
    ensures Eval(Pair(name, args), env, fuel + 1) == Eval(Pair(l, args), env, fuel)
  {
    EvalNamedFunction(name, args, env, fuel);
  }

  /** A head that is a pair but neither a label nor a lambda form cannot be evaluated. */
  lemma {:induction false} EvalInvalidConstruct(h: Value, args: Value, a: Value, fuel: nat)
    requires h.Pair? && h.a != Symbol("label") && h.a != Symbol("lambda")
    ensures Eval(Pair(h, args), a, fuel + 1) == Err(InvalidConstruct)
  {
  }

  /**
   * The fuel is only a bound: an evaluation that did not run out of fuel
   * gives the same result with more.
   */
  lemma {:induction false} EvalFuelMonotone(e: Value, a: Value, fuel: nat)
    ensures Eval(e, a, fuel) != Err(OutOfFuel) ==> Eval(e, a, fuel + 1) == Eval(e, a, fuel)
    decreases fuel, 0, e
  {
    if fuel > 0 && e.Pair? {
      if !e.a.Pair? {
        EvalFormFuelMonotone(e, a, fuel - 1);
      } else {
        ApplyFuelMonotone(e, a, fuel - 1);
      }
    }
  }

  lemma {:induction false} EvalArgFuelMonotone(e: Value, a: Value, fuel: nat)
    ensures EvalArg(e, a, fuel) != Err(OutOfFuel) ==> EvalArg(e, a, fuel + 1) == EvalArg(e, a, fuel)
    decreases fuel, 1, e
  {
    if Cadr(e).Ok? {
      EvalFuelMonotone(Cadr(e).value, a, fuel);
    }
  }

  lemma {:induction false} EvalArgsFuelMonotone(e: Value, a: Value, fuel: nat)
    ensures EvalArgs(e, a, fuel) != Err(OutOfFuel) ==> EvalArgs(e, a, fuel + 1) == EvalArgs(e, a, fuel)
    decreases fuel, 1, e
  {
    if Cadr(e).Ok? {
      EvalFuelMonotone(Cadr(e).value, a, fuel);
    }
    if Caddr(e).Ok? {
      EvalFuelMonotone(Caddr(e).value, a, fuel);
    }
  }

  lemma {:induction false} EvalFormFuelMonotone(e: Value, a: Value, fuel: nat)
    requires e.Pair? && !e.a.Pair?
    ensures EvalForm(e, a, fuel) != Err(OutOfFuel) ==> EvalForm(e, a, fuel + 1) == EvalForm(e, a, fuel)
    decreases fuel, 2, e
  {
    var head := e.a;
    if head in {Symbol("atom"), Symbol("car"), Symbol("cdr")} {
      EvalArgFuelMonotone(e, a, fuel);
    } else if head in {Symbol("eq"), Symbol("cons"), Symbol("add"), Symbol("sub"), Symbol("lt")} {
      EvalArgsFuelMonotone(e, a, fuel);
    } else if head == Symbol("cond") {
      EvconFuelMonotone(e.b, a, fuel);
    } else if head != Symbol("quote") && Assoc(head, a).Ok? {
      EvalFuelMonotone(Cons(Assoc(head, a).value, e.b), a, fuel);
    }
  }

  lemma {:induction false} ApplyFuelMonotone(e: Value, a: Value, fuel: nat)
    requires e.Pair? && e.a.Pair?
    ensures Apply(e, a, fuel) != Err(OutOfFuel) ==> Apply(e, a, fuel + 1) == Apply(e, a, fuel)
    decreases fuel, 2, e
  {
    var head := e.a;
    if Caddar(e).Ok? {
      var fn := Caddar(e).value;
      EvalFuelMonotone(Cons(fn, e.b), Cons(ListOf([head.b.a, head]), a), fuel);
      EvlisFuelMonotone(e.b, a, fuel);
      if Evlis(e.b, a, fuel).Ok? {
        EvalFuelMonotone(fn, Append(PairUp(head.b.a, Evlis(e.b, a, fuel).value), a).value, fuel);
      }
    }
  }

  lemma {:induction false} EvconFuelMonotone(c: Value, a: Value, fuel: nat)
    ensures Evcon(c, a, fuel) != Err(OutOfFuel) ==> Evcon(c, a, fuel + 1) == Evcon(c, a, fuel)
    decreases fuel, 1, c
  {
    if Caar(c).Ok? {
      EvalFuelMonotone(Caar(c).value, a, fuel);
      if Cadar(c).Ok? {
        EvalFuelMonotone(Cadar(c).value, a, fuel);
      }
      EvconFuelMonotone(c.b, a, fuel);
    }
  }

  lemma {:induction false} EvlisFuelMonotone(m: Value, a: Value, fuel: nat)
    ensures Evlis(m, a, fuel) != Err(OutOfFuel) ==> Evlis(m, a, fuel + 1) == Evlis(m, a, fuel)
    decreases fuel, 1, m
  {
    if m.Pair? {
      EvalFuelMonotone(m.a, a, fuel);
      EvlisFuelMonotone(m.b, a, fuel);
    }
  }

  /** More fuel never changes a result that did not run out of fuel. */
  lemma {:induction false} EvalMoreFuel(e: Value, a: Value, fuel: nat, more: nat)
    requires fuel <= more
    ensures Eval(e, a, fuel) != Err(OutOfFuel) ==> Eval(e, a, more) == Eval(e, a, fuel)
    decreases more - fuel
  {
    if fuel < more {
      EvalFuelMonotone(e, a, fuel);
      EvalMoreFuel(e, a, fuel + 1, more);
    }
  }
}
