/**
 * Association lists, the environment of the evaluator: `assoc` looks a key
 * up (first match wins), `append` puts one list in front of another and
 * `pair` zips a parameter list with an argument list into bindings.
 */
module Bindings {
  import opened Wrappers
  import opened Values
  import opened Primitives

  /** The two-element list `(k v)`: one binding of an association list. */
  function Binding(k: Value, v: Value): (r: Value)
    ensures r == Pair(k, Pair(v, Nil))
  {
    assert [k, v][1..] == [v] && [v][1..] == [];
    assert ListOf([v]) == Pair(v, ListOf([]));
    ListOf([k, v])
  }

  /** The bindings `bs`, each written `(k v)`, in order. */
  function Entries(bs: seq<(Value, Value)>): (es: seq<Value>)
    ensures |es| == |bs|
    ensures forall i :: 0 <= i < |bs| ==> es[i] == Binding(bs[i].0, bs[i].1)
  {
    seq(|bs|, i requires 0 <= i < |bs| => Binding(bs[i].0, bs[i].1))
  }

  /** The chain holding `xs` in order and then continuing with `tail`. */
  function PrependAll(xs: seq<Value>, tail: Value): Value {
    if xs == [] then tail else Pair(xs[0], PrependAll(xs[1..], tail))
  }

  lemma {:induction false} PrependAllNil(xs: seq<Value>)
    ensures PrependAll(xs, Nil) == ListOf(xs)
  {
    if xs != [] {
      PrependAllNil(xs[1..]);
    }
  }

  /**
   * McCarthy's assoc: the second element of the first binding whose key
   * `eq`s `k`. Aborts with `Unbound` at the end of the list, and with a
   * car/cdr fault on an entry that is not a list of two or more.
   */
  function Assoc(k: Value, ps: Value): (r: Result<Value, Fault>)
    ensures k.Pair? ==> r.Err?
    ensures r.Ok? ==> ps.Pair?
    decreases ps
  {
    if ps == Nil then Err(Unbound)
    else
      var key :- Caar(ps);
      if IsTrue(Eq(key, k)) then Cadar(ps)
      // caar succeeded, so ps is a pair and its cdr cannot fail
      else Assoc(k, ps.b)
  }

  /** Prepending one binding shadows every older binding of the same key and leaves the others visible. */
  lemma {:induction false} AssocPrepend(k: Value, key: Value, v: Value, al: Value)
    ensures Assoc(k, Pair(Binding(key, v), al)) == if IsTrue(Eq(key, k)) then Ok(v) else Assoc(k, al)
  {
  }

  /** Looking up a key finds the first binding whose key `eq`s it, whatever follows. */
  lemma {:induction false} AssocFirstMatch(k: Value, bs: seq<(Value, Value)>, tail: Value, i: nat)
    requires i < |bs|
    requires IsTrue(Eq(bs[i].0, k))
    requires forall j :: 0 <= j < i ==> !IsTrue(Eq(bs[j].0, k))
    ensures Assoc(k, PrependAll(Entries(bs), tail)) == Ok(bs[i].1)
  {
    assert Entries(bs)[1..] == Entries(bs[1..]);
    if i > 0 {
      AssocFirstMatch(k, bs[1..], tail, i - 1);
    }
  }

  /** Bindings none of whose keys `eq` the key are passed over. */
  lemma {:induction false} AssocFallThrough(k: Value, bs: seq<(Value, Value)>, tail: Value)
    requires forall j :: 0 <= j < |bs| ==> !IsTrue(Eq(bs[j].0, k))
    ensures Assoc(k, PrependAll(Entries(bs), tail)) == Assoc(k, tail)
  {
    if bs != [] {
      assert Entries(bs)[1..] == Entries(bs[1..]);
      AssocFallThrough(k, bs[1..], tail);
    }
  }

  /** On an association list with no matching key the lookup fails with `Unbound`. */
  lemma {:induction false} AssocMiss(k: Value, bs: seq<(Value, Value)>)
    requires forall j :: 0 <= j < |bs| ==> !IsTrue(Eq(bs[j].0, k))
    ensures Assoc(k, ListOf(Entries(bs))) == Err(Unbound)
  {
    AssocFallThrough(k, bs, Nil);
    PrependAllNil(Entries(bs));
  }

  /** `x`'s elements followed by `y`; aborts with `CarOfAtom` when `x` is not a proper list. */
  function Append(x: Value, y: Value): (r: Result<Value, Fault>)
    ensures r.Ok? <==> IsList(x)
    ensures r.Err? ==> r.error == CarOfAtom
    decreases x
  {
    if IsTrue(Null(x)) then Ok(y)
    else
      var h :- Car(x);
      // car succeeded, so x is a pair and its cdr cannot fail
      var rest :- Append(x.b, y);
      Ok(Cons(h, rest))
  }

  lemma {:induction false} AppendList(xs: seq<Value>, y: Value)
    ensures Append(ListOf(xs), y) == Ok(PrependAll(xs, y))
  {
    if xs != [] {
      AppendList(xs[1..], y);
    }
  }

  /** On two proper lists, `append` concatenates; `append(NIL, y)` is `y`. */
  lemma {:induction false} AppendLists(xs: seq<Value>, ys: seq<Value>)
    ensures Append(ListOf(xs), ListOf(ys)) == Ok(ListOf(xs + ys))
    ensures Append(Nil, ListOf(ys)) == Ok(ListOf(ys))
  {
    AppendList(xs, ListOf(ys));
    PrependAllConcat(xs, ys);
  }

  lemma {:induction false} PrependAllConcat(xs: seq<Value>, ys: seq<Value>)
    ensures PrependAll(xs, ListOf(ys)) == ListOf(xs + ys)
  {
    if xs == [] {
      assert xs + ys == ys;
    } else {
      PrependAllConcat(xs[1..], ys);
      assert (xs + ys)[1..] == xs[1..] + ys;
    }
  }

  function Min(m: nat, n: nat): nat {
    if m <= n then m else n
  }

  /** Positional pairs of `xs` and `ys`, as many as the shorter has. */
  function Zip(xs: seq<Value>, ys: seq<Value>): (zs: seq<(Value, Value)>)
    ensures |zs| == Min(|xs|, |ys|)
    ensures forall i :: 0 <= i < |zs| ==> zs[i] == (xs[i], ys[i])
  {
    seq(Min(|xs|, |ys|), i requires 0 <= i < Min(|xs|, |ys|) => (xs[i], ys[i]))
  }

  /**
   * McCarthy's pair: the list of two-element lists `(x_i y_i)`. It stops,
   * silently, as soon as either side is no longer a pair.
   */
  function PairUp(x: Value, y: Value): (r: Value)
    ensures IsList(r)
    decreases x
  {
    if IsTrue(And(Null(x), Null(y))) then Nil
    else if IsTrue(And(Not(Atom(x)), Not(Atom(y)))) then
      // both are pairs here, so neither car nor cdr can fail
      Cons(ListOf([x.a, y.a]), PairUp(x.b, y.b))
    else Nil
  }

  /** `pair` of two proper lists binds element to element and stops at the shorter list. */
  lemma {:induction false} PairUpZips(xs: seq<Value>, ys: seq<Value>)
    ensures PairUp(ListOf(xs), ListOf(ys)) == ListOf(Entries(Zip(xs, ys)))
  {
    if xs != [] && ys != [] {
      PairUpZips(xs[1..], ys[1..]);
      assert Entries(Zip(xs, ys))[1..] == Entries(Zip(xs[1..], ys[1..]));
    }
  }
}
