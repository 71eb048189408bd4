/**
 * The early draft of the interpreter: values tagged by their type, pairs
 * built with `cons`, and a scoped environment made of a stack of symbol
 * tables. `Set` writes into table 0; `Lookup` searches from the last table
 * down, so a later table shadows an earlier one. `Eval` knows only numbers
 * and symbols.
 */
module Draft {
  import opened Wrappers

  /** The type tags, in the order of their integer codes. */
  datatype Type = NIL | NUMBER | SYMBOL | CONS

  datatype Value = Nil | Number(n: int) | Symbol(name: string) | Cons(car: Value, cdr: Value)

  /** Ways a draft operation can fail. */
  datatype Fault =
    | LookupFailed  // no table binds the symbol
    | TypeFailed    // Eval of a value that is neither a number nor a symbol
    | NoTable       // Set on an environment with no tables

  /** The integer code of a tag: the tags are numbered from 0 in declaration order. */
  function Code(t: Type): (c: nat)
    ensures c < 4
  {
    match t
    case NIL => 0
    case NUMBER => 1
    case SYMBOL => 2
    case CONS => 3
  }

  lemma {:induction false} CodesDistinct(t: Type, u: Type)
    ensures Code(t) == Code(u) <==> t == u
  {
  }

  /** The tag of a value. */
  function TypeOf(v: Value): (t: Type)
    ensures t == NIL <==> v.Nil?
    ensures t == NUMBER <==> v.Number?
    ensures t == SYMBOL <==> v.Symbol?
    ensures t == CONS <==> v.Cons?
  {
    match v
    case Nil => NIL
    case Number(_) => NUMBER
    case Symbol(_) => SYMBOL
    case Cons(_, _) => CONS
  }

  function MakeCons(a: Value, d: Value): (c: Value)
    ensures c.Cons? && Car(c) == a && Cdr(c) == d
  {
    Cons(a, d)
  }

  /** The first component; the argument is a pair by its static type. */
  function Car(c: Value): (a: Value)
    requires c.Cons?
    ensures c == Cons(a, c.cdr)
  {
    c.car
  }

  /** The second component; the argument is a pair by its static type. */
  function Cdr(c: Value): (d: Value)
    requires c.Cons?
    ensures c == Cons(c.car, d)
  {
    c.cdr
  }

  /** A pair is rebuilt from its two components. */
  lemma {:induction false} ConsOfParts(c: Value)
    requires c.Cons?
    ensures MakeCons(Car(c), Cdr(c)) == c
  {
  }

  /** A symbol table. */
  type SymTab = map<string, Value>

  /** The binding of `s` in the highest-indexed table of `ts` that has one. */
  function Resolve(ts: seq<SymTab>, s: string): (r: Option<Value>)
    ensures r.Some? ==> exists i :: 0 <= i < |ts| && s in ts[i] && r.value == ts[i][s]
  {
    if ts == [] then None
    else if s in ts[|ts| - 1] then Some(ts[|ts| - 1][s])
    else Resolve(ts[..|ts| - 1], s)
  }

  /** `s` is bound in table `i` and in no table after it. */
  predicate TopBinding(ts: seq<SymTab>, s: string, i: nat)
  {
    i < |ts| && s in ts[i] && forall j :: i < j < |ts| ==> s !in ts[j]
  }

  /** `Resolve` finds the value of the highest-indexed table that binds `s`, and nothing when none does. */
  lemma {:induction false} ResolveTop(ts: seq<SymTab>, s: string)
    ensures Resolve(ts, s).None? <==> forall i :: 0 <= i < |ts| ==> s !in ts[i]
    ensures forall i: nat :: TopBinding(ts, s, i) ==> Resolve(ts, s) == Some(ts[i][s])
    decreases |ts|
  {
    if ts != [] {
      var n := |ts| - 1;
      var front := ts[..n];
      ResolveTop(front, s);
      assert forall i :: 0 <= i < n ==> front[i] == ts[i];
      forall i: nat | TopBinding(ts, s, i)
        ensures Resolve(ts, s) == Some(ts[i][s])
      {
        if s in ts[n] {
          assert !(i < n);
        } else {
          assert TopBinding(front, s, i);
        }
      }
    }
  }

  /** A fresh environment binds nothing. */
  lemma {:induction false} NewEnvironmentEmpty(s: string)
    ensures Resolve([map[]], s) == None
  {
  }

  /** After `s := v` in table 0, `s` resolves to `v` unless a later table binds it; other symbols are unaffected. */
  lemma {:induction false} SetThenResolve(ts: seq<SymTab>, s: string, v: Value, r: string)
    requires ts != []
    ensures var us := ts[0 := ts[0][s := v]];
            && (r != s ==> Resolve(us, r) == Resolve(ts, r))
            && ((forall j :: 0 < j < |ts| ==> s !in ts[j]) ==> Resolve(us, s) == Some(v))
            && ((exists j :: 0 < j < |ts| && s in ts[j]) ==> Resolve(us, s) == Resolve(ts, s))
  {
    if r != s {
      SetOtherSymbol(ts, s, v, r);
    }
    if forall j :: 0 < j < |ts| ==> s !in ts[j] {
      SetVisible(ts, s, v);
    }
    if exists j :: 0 < j < |ts| && s in ts[j] {
      SetShadowed(ts, s, v);
    }
  }

  /** Setting `s` leaves the resolution of every other symbol as it was. */
  lemma {:induction false} SetOtherSymbol(ts: seq<SymTab>, s: string, v: Value, r: string)
    requires ts != [] && r != s
    ensures Resolve(ts[0 := ts[0][s := v]], r) == Resolve(ts, r)
  {
    var us := ts[0 := ts[0][s := v]];
    ResolveTop(ts, r);
    ResolveTop(us, r);
    if Resolve(ts, r).Some? {
      var i := TopIndex(ts, r);
      assert TopBinding(us, r, i);
    }
  }

  /** With no later table binding `s`, the value set in table 0 is the one found. */
  lemma {:induction false} SetVisible(ts: seq<SymTab>, s: string, v: Value)
    requires ts != [] && forall j :: 0 < j < |ts| ==> s !in ts[j]
    ensures Resolve(ts[0 := ts[0][s := v]], s) == Some(v)
  {
    var us := ts[0 := ts[0][s := v]];
    ResolveTop(us, s);
    assert TopBinding(us, s, 0);
  }

  /** A later table that binds `s` hides the value set in table 0. */
  lemma {:induction false} SetShadowed(ts: seq<SymTab>, s: string, v: Value)
    requires ts != [] && exists j :: 0 < j < |ts| && s in ts[j]
    ensures Resolve(ts[0 := ts[0][s := v]], s) == Resolve(ts, s)
  {
    var us := ts[0 := ts[0][s := v]];
    ResolveTop(ts, s);
    ResolveTop(us, s);
    var i := TopIndex(ts, s);
    assert i > 0 by {
      var j :| 0 < j < |ts| && s in ts[j];
      assert !(i < j);
    }
    assert TopBinding(us, s, i);
  }

  /** The index of the top table that binds `s`. */
  lemma {:induction false} TopIndex(ts: seq<SymTab>, s: string) returns (i: nat)
    requires exists j :: 0 <= j < |ts| && s in ts[j]
    ensures TopBinding(ts, s, i)
    decreases |ts|
  {
    var n := |ts| - 1;
    if s in ts[n] {
      i := n;
    } else {
      var front := ts[..n];
      var j :| 0 <= j < |ts| && s in ts[j];
      assert j < n && s in front[j];
      i := TopIndex(front, s);
      assert forall k :: 0 <= k < n ==> front[k] == ts[k];
    }
  }

  /** A stack of symbol tables; table 0 is the one `Set` writes. */
  class Environment {
    var tables: seq<SymTab>

    /** A single empty table. */
    constructor ()
      ensures tables == [map[]]
    {
      tables := [map[]];
    }

    /** Binds `s` to `v` in table 0, leaving every other table as it was; fails when there is no table. */
    method Set(s: string, v: Value) returns (r: Result<(), Fault>)
      modifies this
      ensures old(tables) == [] ==> r == Err(NoTable) && tables == old(tables)
      ensures old(tables) != [] ==> r == Ok(()) && tables == old(tables)[0 := old(tables)[0][s := v]]
      ensures |tables| == |old(tables)| && forall j :: 0 < j < |tables| ==> tables[j] == old(tables)[j]
    {
      if |tables| == 0 {
        return Err(NoTable);
      }
      tables := tables[0 := tables[0][s := v]];
      return Ok(());
    }

    /** The binding of `s` in the highest-indexed table that has one, searching downwards. */
    method Lookup(s: string) returns (r: Result<Value, Fault>)
      ensures Resolve(tables, s).Some? ==> r == Ok(Resolve(tables, s).value)
      ensures Resolve(tables, s).None? ==> r == Err(LookupFailed)
    {
      var i := |tables| - 1;
      assert tables[..i + 1] == tables;
      while i >= 0
        invariant -1 <= i < |tables|
        invariant Resolve(tables, s) == Resolve(tables[..i + 1], s)
        decreases i
      {
        if s in tables[i] {
          return Ok(tables[i][s]);
        }
        assert tables[..i + 1][..i] == tables[..i];
        i := i - 1;
      }
      return Err(LookupFailed);
    }

    /** A number evaluates to itself and a symbol to its binding; anything else is a type fault. */
    method Eval(val: Value) returns (r: Result<Value, Fault>)
      ensures val.Number? ==> r == Ok(val)
      ensures val.Symbol? && Resolve(tables, val.name).Some? ==> r == Ok(Resolve(tables, val.name).value)
      ensures val.Symbol? && Resolve(tables, val.name).None? ==> r == Err(LookupFailed)
      ensures (val.Nil? || val.Cons?) ==> r == Err(TypeFailed)
    {
      match TypeOf(val)
      case NUMBER =>
        return Ok(val);
      case SYMBOL =>
        r := Lookup(val.name);
      case _ =>
        return Err(TypeFailed);
    }
  }
}
