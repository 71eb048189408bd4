/**
 * Small programs run through the evaluator: the arithmetic forms in the
 * environment `((a 3) (b 5))`, a failing lookup and a failing selector.
 */
module Programs {
  import opened Wrappers
  import opened Values
  import opened Primitives
  import opened Bindings
  import opened Evaluator

  /** The environment `((a 3) (b 5))`. */
  function SmallEnv(): Value {
    ListOf([Binding(Symbol("a"), Number(3)), Binding(Symbol("b"), Number(5))])
  }

  lemma {:induction false} SmallEnvLookups()
    ensures Assoc(Symbol("a"), SmallEnv()) == Ok(Number(3))
    ensures Assoc(Symbol("b"), SmallEnv()) == Ok(Number(5))
    ensures Assoc(Symbol("c"), SmallEnv()) == Err(Unbound)
  {
    var bs := [(Symbol("a"), Number(3)), (Symbol("b"), Number(5))];
    assert Entries(bs) == [Binding(Symbol("a"), Number(3)), Binding(Symbol("b"), Number(5))];
    AssocFirstMatch(Symbol("a"), bs, Nil, 0);
    AssocFirstMatch(Symbol("b"), bs, Nil, 1);
    AssocMiss(Symbol("c"), bs);
    PrependAllNil(Entries(bs));
  }

  /** `(add a b)` is 8, `(sub 3 5)` is -2 and `(lt 3 5)` is `t` in `((a 3) (b 5))`; `c` is unbound and `(car 3)` fails. */
  lemma {:induction false} SmallEnvScenarios()
    ensures Eval(ListOf([Symbol("add"), Symbol("a"), Symbol("b")]), SmallEnv(), 2) == Ok(Number(8))
    ensures Eval(ListOf([Symbol("sub"), Number(3), Number(5)]), SmallEnv(), 2) == Ok(Number(-2))
    ensures Eval(ListOf([Symbol("lt"), Number(3), Number(5)]), SmallEnv(), 2) == Ok(TRUE)
    ensures Eval(Symbol("c"), SmallEnv(), 1) == Err(Unbound)
    ensures Eval(ListOf([Symbol("car"), Number(3)]), SmallEnv(), 2) == Err(CarOfAtom)
  {
    var env := SmallEnv();
    SmallEnvLookups();
    EvalAdd(Symbol("a"), Symbol("b"), Number(3), Number(5), env, 1);
    EvalSub(Number(3), Number(5), Number(3), Number(5), env, 1);
    EvalLt(Number(3), Number(5), Number(3), Number(5), env, 1);
    EvalUnaryForms(Number(3), Number(3), env, 1);
  }
}
