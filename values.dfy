/**
 * The value model of the interpreter: a closed sum of four variants, the
 * symbol `t` that stands for truth, the reasons evaluation or reading can
 * abort, and the correspondence between right-nested pair chains and
 * sequences that the rest of the model reasons with.
 */
module Values {
  import opened Wrappers

  /** `Nil`, a (unbounded) `Number`, a `Symbol` and a `Pair` with components `a` and `b`. */
  datatype Value =
    | Nil
    | Number(n: int)
    | Symbol(name: string)
    | Pair(a: Value, b: Value)

  /** The symbol that stands for truth. */
  const TRUE: Value := Symbol("t")

  /** Every way the interpreter can abort; each names the operation that panics. */
  datatype Fault =
    | CarOfAtom              // car of a non-pair
    | CdrOfAtom              // cdr of a non-pair
    | Unbound                // assoc ran off the end of the association list
    | NotANumber(op: string) // add, sub or lt given a non-number
    | InvalidConstruct       // Eval met a form whose head is a form other than label or lambda
    | ReadEOF                // Read found no expression before the end of input
    | ListEOF                // a list was still open at the end of input
    | NumberEOF              // readNum called at the end of input
    | InvalidDigit           // a number token holds a byte that is not a digit
    | NoDigits               // a number token holds no digit
    | OutOfFuel              // the evaluation bound of the model was reached

  /** The right-nested pair chain ending in `Nil` holding `vs` in order. */
  function ListOf(vs: seq<Value>): (r: Value)
    ensures vs == [] <==> r == Nil
  {
    if vs == [] then Nil else Pair(vs[0], ListOf(vs[1..]))
  }

  /** Short lists written out as pair chains. */
  lemma {:induction false} ShortLists(x: Value, y: Value, z: Value)
    ensures ListOf([x]) == Pair(x, Nil)
    ensures ListOf([x, y]) == Pair(x, Pair(y, Nil))
    ensures ListOf([x, y, z]) == Pair(x, Pair(y, Pair(z, Nil)))
  {
    assert [x, y, z][1..] == [y, z] && [y, z][1..] == [z] && [z][1..] == [];
    assert [x, y][1..] == [y] && [y][1..] == [] && [x][1..] == [];
    assert ListOf([z]) == Pair(z, Nil);
    assert ListOf([y, z]) == Pair(y, ListOf([z]));
  }

  /** The first three elements of a longer list, written out as pairs. */
  lemma {:induction false} ListOfFront(xs: seq<Value>)
    requires |xs| >= 3
    ensures ListOf(xs) == Pair(xs[0], Pair(xs[1], Pair(xs[2], ListOf(xs[3..]))))
  {
    assert xs[1..][1..] == xs[2..] && xs[2..][1..] == xs[3..];
    assert ListOf(xs[2..]) == Pair(xs[2], ListOf(xs[3..]));
    assert ListOf(xs[1..]) == Pair(xs[1], ListOf(xs[2..]));
  }

  /** A proper list: a pair chain that ends in `Nil`. */
  predicate IsList(v: Value) {
    match v
    case Nil => true
    case Pair(_, rest) => IsList(rest)
    case _ => false
  }

  /** The elements of a proper list, in order. */
  function Elems(v: Value): (vs: seq<Value>)
    requires IsList(v)
    ensures ListOf(vs) == v
  {
    match v
    case Nil => []
    case Pair(x, rest) => [x] + Elems(rest)
  }

  lemma {:induction false} ElemsOfListOf(vs: seq<Value>)
    ensures IsList(ListOf(vs)) && Elems(ListOf(vs)) == vs
  {
    if vs != [] {
      ElemsOfListOf(vs[1..]);
      assert [vs[0]] + vs[1..] == vs;
    }
  }

  /** `vs` in reverse order. */
  function Reversed(vs: seq<Value>): (r: seq<Value>)
    ensures |r| == |vs|
  {
    if vs == [] then [] else Reversed(vs[1..]) + [vs[0]]
  }

  lemma {:induction false} ReversedAppend(xs: seq<Value>, ys: seq<Value>)
    ensures Reversed(xs + ys) == Reversed(ys) + Reversed(xs)
  {
    if xs == [] {
      assert xs + ys == ys;
    } else {
      assert (xs + ys)[1..] == xs[1..] + ys;
      ReversedAppend(xs[1..], ys);
    }
  }

  lemma {:induction false} ReversedReversed(xs: seq<Value>)
    ensures Reversed(Reversed(xs)) == xs
  {
    if xs != [] {
      ReversedReversed(xs[1..]);
      ReversedAppend(Reversed(xs[1..]), [xs[0]]);
      assert Reversed([xs[0]]) == [xs[0]];
      assert [xs[0]] + xs[1..] == xs;
    }
  }
}
