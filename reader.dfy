/**
 * The reader: text to values. The scanner the reader pulls bytes from is a
 * character sequence and a cursor index; reading a character advances the
 * index, and putting a character back is not advancing it.
 *
 * `ParseExpr`, `ParseElems`, `ParseNumber` and `ParseSymbol` say what a read
 * starting at an index yields and where it leaves the cursor; the methods
 * `Read`, `ReadList`, `ReadNum`, `ReadSym` and `Reverse` are the loops that
 * do it, each proved to agree with its specification.
 */
module Reader {
  import opened Wrappers
  import opened Values
  import opened Primitives

  predicate IsWhiteSpace(c: char): (b: bool)
    ensures b <==> c as int in {32, 10, 9}
  {
    c == ' ' || c == '\n' || c == '\t'
  }

  predicate IsDigit(c: char): (b: bool)
    ensures b <==> 48 <= c as int <= 57
  {
    '0' <= c <= '9'
  }

  /** The characters that end a number or symbol token. */
  predicate IsDelimiter(c: char) {
    IsWhiteSpace(c) || c == ')'
  }

  predicate AllDigits(ds: string) {
    forall k :: 0 <= k < |ds| ==> IsDigit(ds[k])
  }

  /** The index of the first delimiter at or after `k`, or the end of the text. */
  function TokenEnd(s: string, k: nat): (e: nat)
    requires k <= |s|
    ensures k <= e <= |s|
    ensures forall m :: k <= m < e ==> !IsDelimiter(s[m])
    ensures e == |s| || IsDelimiter(s[e])
    decreases |s| - k
  {
    if k == |s| || IsDelimiter(s[k]) then k else TokenEnd(s, k + 1)
  }

  /** The end of a token is the only index with a delimiter-free stretch before it and a delimiter or the end at it. */
  lemma {:induction false} TokenEndUnique(s: string, k: nat, e: nat)
    requires k <= e <= |s|
    requires forall m :: k <= m < e ==> !IsDelimiter(s[m])
    requires e == |s| || IsDelimiter(s[e])
    ensures TokenEnd(s, k) == e
  {
  }

  /** A whitespace delimiter is consumed with its token; a `)` is left for the caller. */
  function Skip(s: string, e: nat): nat
    requires e <= |s|
  {
    if e < |s| && IsWhiteSpace(s[e]) then e + 1 else e
  }

  function DigitValue(c: char): (d: nat)
    requires IsDigit(c)
    ensures d < 10
  {
    c as int - '0' as int
  }

  /** The decimal value of a digit string, most significant digit first. */
  function DecimalValue(ds: string): nat
    requires AllDigits(ds)
  {
    if ds == [] then 0 else DecimalValue(ds[..|ds| - 1]) * 10 + DigitValue(ds[|ds| - 1])
  }

  /**
   * A symbol: every character up to the next delimiter. The symbol is the
   * longest delimiter-free stretch from `i`, and may be empty.
   */
  function ParseSymbol(s: string, i: nat): (r: (Value, nat))
    requires i <= |s|
    ensures r.0.Symbol? && i + |r.0.name| <= |s| && s[i..i + |r.0.name|] == r.0.name
    ensures forall k :: 0 <= k < |r.0.name| ==> !IsDelimiter(r.0.name[k])
    ensures i + |r.0.name| == |s| || IsDelimiter(s[i + |r.0.name|])
    ensures r.1 == Skip(s, i + |r.0.name|)
  {
    var e := TokenEnd(s, i);
    (Symbol(s[i..e]), Skip(s, e))
  }

  /**
   * A number: an optional `-`, then digits up to the next delimiter. Any
   * other character in the token is an invalid digit, and a token without
   * digits is an error too.
   */
  function ParseNumber(s: string, i: nat): (r: Result<(Value, nat), Fault>)
    requires i <= |s|
    ensures r == Err(NumberEOF) <==> i == |s|
    ensures r.Ok? ==> r.value.0.Number? && i < r.value.1 <= |s|
  {
    if i == |s| then Err(NumberEOF)
    else
      var negative := s[i] == '-';
      var start := if negative then i + 1 else i;
      var e := TokenEnd(s, start);
      var ds := s[start..e];
      if !AllDigits(ds) then Err(InvalidDigit)
      else if ds == [] then Err(NoDigits)
      else
        var n: int := DecimalValue(ds);
        Ok((Number(if negative then -n else n), Skip(s, e)))
  }

  /**
   * One expression read from index `i`, and the index after it. Leading
   * whitespace is skipped; `(` starts a list, `'` quotes the expression that
   * follows, `-` or a digit starts a number, and anything else (a `)`
   * included) starts a symbol.
   */
  function ParseExpr(s: string, i: nat): (r: Result<(Value, nat), Fault>)
    requires i <= |s|
    ensures r.Ok? ==> i <= r.value.1 <= |s| && (r.value.1 == i ==> i < |s| && s[i] == ')')
    decreases |s| - i, 1
  {
    if i == |s| then Err(ReadEOF)
    else if s[i] == '(' then
      var q :- ParseElems(s, i + 1);
      Ok((ListOf(q.0), q.1))
    else if IsWhiteSpace(s[i]) then ParseExpr(s, i + 1)
    else if s[i] == '\'' then
      var q :- ParseExpr(s, i + 1);
      Ok((ListOf([Symbol("quote"), q.0]), q.1))
    else if s[i] == '-' || IsDigit(s[i]) then ParseNumber(s, i)
    else Ok(ParseSymbol(s, i))
  }

  /** The elements of a list up to and including its `)`, in source order. */
  function ParseElems(s: string, i: nat): (r: Result<(seq<Value>, nat), Fault>)
    requires i <= |s|
    ensures r.Ok? ==> i < r.value.1 <= |s|
    decreases |s| - i, 2
  {
    if i == |s| then Err(ListEOF)
    else if s[i] == ')' then Ok(([], i + 1))
    else if IsWhiteSpace(s[i]) then ParseElems(s, i + 1)
    else
      var p :- ParseExpr(s, i);
      var q :- ParseElems(s, p.1);
      Ok(([p.0] + q.0, q.1))
  }

  /** A list read that succeeds stops just after the `)` that closes it. */
  lemma {:induction false} ElemsEndAtClose(s: string, i: nat)
    requires i <= |s|
    ensures ParseElems(s, i).Ok? ==> s[ParseElems(s, i).value.1 - 1] == ')'
    decreases |s| - i
  {
    if i < |s| && s[i] != ')' {
      if IsWhiteSpace(s[i]) {
        ElemsEndAtClose(s, i + 1);
      } else if ParseExpr(s, i).Ok? {
        ElemsEndAtClose(s, ParseExpr(s, i).value.1);
      }
    }
  }

  /** What reading an expression at `i` yields. */
  function ExprRead(s: string, i: nat): Result<(Value, nat), Fault>
    requires i <= |s|
  {
    ParseExpr(s, i)
  }

  /** What reading list elements at `i` yields. */
  function ElemsRead(s: string, i: nat): Result<(seq<Value>, nat), Fault>
    requires i <= |s|
  {
    ParseElems(s, i)
  }

  /** Reading an expression at `i` gives `v` and stops at `j`. */
  predicate ExprAt(s: string, i: nat, v: Value, j: nat)
    requires i <= |s|
  {
    ExprRead(s, i) == Ok((v, j))
  }

  /** Reading list elements at `i` gives `vs` and stops after the `)`, at `j`. */
  predicate ElemsAt(s: string, i: nat, vs: seq<Value>, j: nat)
    requires i <= |s|
  {
    ElemsRead(s, i) == Ok((vs, j))
  }

  /** The value read from the start of `s`. */
  function Parse(s: string): Result<Value, Fault> {
    var q :- ParseExpr(s, 0);
    Ok(q.0)
  }

  /** `vs` in front of the elements of a successful read. */
  function Prefixed(vs: seq<Value>, r: Result<(seq<Value>, nat), Fault>): Result<(seq<Value>, nat), Fault> {
    if r.Ok? then Ok((vs + r.value.0, r.value.1)) else Err(r.error)
  }

  /** A read of list elements with the elements gathered into a list in reverse order, as the reading loop builds it. */
  function Backwards(r: Result<(seq<Value>, nat), Fault>): Result<(Value, nat), Fault> {
    if r.Ok? then Ok((ListOf(Reversed(r.value.0)), r.value.1)) else Err(r.error)
  }

  lemma {:induction false} ListOfCons(x: Value, ys: seq<Value>)
    ensures ListOf([x] + ys) == Pair(x, ListOf(ys))
  {
    assert ([x] + ys)[1..] == ys;
  }

  lemma {:induction false} ReversedSnoc(xs: seq<Value>, x: Value)
    ensures ListOf(Reversed(xs + [x])) == Pair(x, ListOf(Reversed(xs)))
  {
    ReversedAppend(xs, [x]);
    assert Reversed([x]) == [x];
    ListOfCons(x, Reversed(xs));
  }

  /** One step down a list: its first element moves from the rest to the part already walked. */
  lemma {:induction false} ElemsStep(l: Value, done: seq<Value>, rest: Value)
    requires rest.Pair? && (IsList(l) <==> IsList(rest))
    requires IsList(rest) ==> Elems(l) == done + Elems(rest)
    ensures IsList(l) <==> IsList(rest.b)
    ensures IsList(rest.b) ==> Elems(l) == (done + [rest.a]) + Elems(rest.b)
  {
    if IsList(rest.b) {
      assert Elems(rest) == [rest.a] + Elems(rest.b);
      assert done + ([rest.a] + Elems(rest.b)) == (done + [rest.a]) + Elems(rest.b);
    }
  }

  /** Characters up to the next delimiter; trailing whitespace is consumed, a `)` is put back. */
  method ReadSym(s: string, i: nat) returns (v: Value, j: nat)
    requires i <= |s|
    ensures (v, j) == ParseSymbol(s, i)
  {
    var b := "";
    j := i;
    while j < |s| && !IsDelimiter(s[j])
      invariant i <= j <= |s| && b == s[i..j]
      invariant forall m :: i <= m < j ==> !IsDelimiter(s[m])
    {
      b := b + [s[j]];
      j := j + 1;
    }
    TokenEndUnique(s, i, j);
    if j < |s| && IsWhiteSpace(s[j]) {
      j := j + 1;
    }
    v := Symbol(b);
  }

  /** One more digit: the value so far times ten plus the digit. */
  lemma {:induction false} DecimalStep(ds: string, c: char)
    requires AllDigits(ds) && IsDigit(c)
    ensures AllDigits(ds + [c]) && DecimalValue(ds + [c]) == DecimalValue(ds) * 10 + DigitValue(c)
  {
    assert (ds + [c])[..|ds|] == ds;
  }

  /** The characters of `s` from `start` up to `p` are all digits. */
  predicate DigitsAt(s: string, start: nat, p: nat)
    requires start <= p <= |s|
  {
    forall m :: start <= m < p ==> IsDigit(s[m])
  }

  /** The decimal value of the digits of `s` from `start` up to `p`, read in place. */
  function DecimalAt(s: string, start: nat, p: nat): nat
    requires start <= p <= |s| && DigitsAt(s, start, p)
    decreases p - start
  {
    if p == start then 0 else DecimalAt(s, start, p - 1) * 10 + DigitValue(s[p - 1])
  }

  /** Reading digits in place agrees with reading the slice that holds them. */
  lemma {:induction false} DecimalAtSlice(s: string, start: nat, p: nat)
    requires start <= p <= |s|
    ensures DigitsAt(s, start, p) <==> AllDigits(s[start..p])
    ensures DigitsAt(s, start, p) ==> DecimalAt(s, start, p) == DecimalValue(s[start..p])
    decreases p - start
  {
    assert forall k :: 0 <= k < p - start ==> s[start..p][k] == s[start + k];
    if p > start && DigitsAt(s, start, p) {
      DecimalAtSlice(s, start, p - 1);
      assert s[start..p][..p - 1 - start] == s[start..p - 1];
    }
  }

  /** What a number read from `i` yields, by what its token after the optional `-` holds. */
  lemma {:induction false} NumberCases(s: string, i: nat, start: nat, e: nat)
    requires i < |s| && start == (if s[i] == '-' then i + 1 else i) && start <= |s| && e == TokenEnd(s, start)
    ensures !DigitsAt(s, start, e) ==> ParseNumber(s, i) == Err(InvalidDigit)
    ensures DigitsAt(s, start, e) && e == start ==> ParseNumber(s, i) == Err(NoDigits)
    ensures DigitsAt(s, start, e) && e > start ==>
      var n: int := DecimalAt(s, start, e);
      ParseNumber(s, i) == Ok((Number(if s[i] == '-' then -n else n), Skip(s, e)))
  {
    DecimalAtSlice(s, start, e);
  }

  /** An optional `-` and digits, accumulated most significant first. */
  method ReadNum(s: string, i: nat) returns (r: Result<(Value, nat), Fault>)
    requires i <= |s|
    ensures r == ParseNumber(s, i)
  {
    if i == |s| {
      return Err(NumberEOF);
    }
    var n := 0;
    var negative := false;
    var p := i;
    if s[p] == '-' {
      negative := true;
      p := p + 1;
    }
    ghost var start := p;
    ghost var e := TokenEnd(s, start);
    NumberCases(s, i, start, e);
    var ndig := 0;
    while p < |s| && !IsDelimiter(s[p])
      invariant start <= p <= e && ndig == p - start
      invariant DigitsAt(s, start, p) && n == DecimalAt(s, start, p)
    {
      if !IsDigit(s[p]) {
        return Err(InvalidDigit);
      }
      n := n * 10 + DigitValue(s[p]);
      ndig := ndig + 1;
      p := p + 1;
    }
    if p < |s| && IsWhiteSpace(s[p]) {
      p := p + 1;
    }
    if ndig == 0 {
      return Err(NoDigits);
    }
    r := Ok((Number(if negative then -n else n), p));
  }

  /** The list of the elements of `l` in reverse order; fails on the car of an atom when `l` is not a proper list. */
  method Reverse(l: Value) returns (r: Result<Value, Fault>)
    ensures r.Ok? <==> IsList(l)
    ensures r.Ok? ==> r.value == ListOf(Reversed(Elems(l)))
    ensures r.Err? ==> r.error == CarOfAtom
  {
    var acc := Nil;
    var rest := l;
    ghost var done: seq<Value> := [];
    while rest != Nil
      invariant acc == ListOf(Reversed(done))
      invariant IsList(l) <==> IsList(rest)
      invariant IsList(rest) ==> Elems(l) == done + Elems(rest)
      decreases rest
    {
      var h := Car(rest);
      if h.Err? {
        return Err(h.error);
      }
      ReversedSnoc(done, h.value);
      ElemsStep(l, done, rest);
      acc := Cons(h.value, acc);
      done := done + [h.value];
      // car succeeded, so the cdr cannot fail
      rest := rest.b;
    }
    assert done + [] == done;
    return Ok(acc);
  }

  /** With `vs` already read in front of index `p`: where the list ends, or a blank is skipped. */
  lemma {:induction false} ListEnds(s: string, i: nat, p: nat, vs: seq<Value>)
    requires i <= p <= |s| && ParseElems(s, i) == Prefixed(vs, ParseElems(s, p))
    ensures p == |s| ==> Backwards(ParseElems(s, i)) == Err(ListEOF)
    ensures p < |s| && s[p] == ')' ==> Backwards(ParseElems(s, i)) == Ok((ListOf(Reversed(vs)), p + 1))
    ensures p < |s| && IsWhiteSpace(s[p]) ==> ParseElems(s, i) == Prefixed(vs, ParseElems(s, p + 1))
  {
    assert vs + [] == vs;
  }

  /** With `vs` already read in front of index `p`, where an element starts: the element joins `vs`, or its failure ends the list. */
  lemma {:induction false} ListElement(s: string, i: nat, p: nat, vs: seq<Value>)
    requires i <= p < |s| && s[p] != ')' && !IsWhiteSpace(s[p])
    requires ParseElems(s, i) == Prefixed(vs, ParseElems(s, p))
    ensures ParseExpr(s, p).Err? ==> Backwards(ParseElems(s, i)) == Err(ParseExpr(s, p).error)
    ensures ParseExpr(s, p).Ok? ==>
      var (v, q) := ParseExpr(s, p).value;
      ParseElems(s, i) == Prefixed(vs + [v], ParseElems(s, q))
  {
    if ParseExpr(s, p).Ok? {
      var (v, q) := ParseExpr(s, p).value;
      var rest := ParseElems(s, q);
      assert ParseElems(s, p) == Prefixed([v], rest);
      assert rest.Ok? ==> vs + ([v] + rest.value.0) == (vs + [v]) + rest.value.0;
    }
  }

  /** The elements of a list up to its `)`, gathered in reverse order. */
  method ReadList(s: string, i: nat) returns (r: Result<(Value, nat), Fault>)
    requires i <= |s|
    ensures r == Backwards(ParseElems(s, i))
    decreases |s| - i, 2
  {
    var acc := Nil;
    ghost var vs: seq<Value> := [];
    var p := i;
    assert ParseElems(s, i).Ok? ==> [] + ParseElems(s, i).value.0 == ParseElems(s, i).value.0;
    while true
      invariant i <= p <= |s|
      invariant acc == ListOf(Reversed(vs))
      invariant ParseElems(s, i) == Prefixed(vs, ParseElems(s, p))
      decreases |s| - p
    {
      ListEnds(s, i, p, vs);
      if p == |s| {
        return Err(ListEOF);
      }
      if s[p] == ')' {
        return Ok((acc, p + 1));
      }
      if IsWhiteSpace(s[p]) {
        p := p + 1;
        continue;
      }
      ListElement(s, i, p, vs);
      var x := Read(s, p);
      if x.Err? {
        return Err(x.error);
      }
      var v := x.value.0;
      ReversedSnoc(vs, v);
      acc := Cons(v, acc);
      vs := vs + [v];
      p := x.value.1;
    }
  }

  /** The elements after `(`, gathered in reverse order and then reversed, are the list read at `p`. */
  lemma {:induction false} ListInReverse(s: string, p: nat)
    requires p < |s| && s[p] == '('
    ensures var b := Backwards(ParseElems(s, p + 1));
            b.Ok? ==> IsList(b.value.0) && ParseExpr(s, p) == Ok((ListOf(Reversed(Elems(b.value.0))), b.value.1))
  {
    var e := ParseElems(s, p + 1);
    if e.Ok? {
      ElemsOfListOf(Reversed(e.value.0));
      ReversedReversed(e.value.0);
    }
  }

  /** One expression: skip whitespace, then dispatch on the first character. */
  method Read(s: string, i: nat) returns (r: Result<(Value, nat), Fault>)
    requires i <= |s|
    ensures r == ParseExpr(s, i)
    decreases |s| - i, 1
  {
    var p := i;
    while p < |s| && IsWhiteSpace(s[p])
      invariant i <= p <= |s|
      invariant ParseExpr(s, i) == ParseExpr(s, p)
    {
      p := p + 1;
    }
    if p == |s| {
      return Err(ReadEOF);
    }
    var c := s[p];
    if c == '(' {
      var l := ReadList(s, p + 1);
      if l.Err? {
        return Err(l.error);
      }
      ListInReverse(s, p);
      var rev := Reverse(l.value.0);
      // the reading loop only builds proper lists, so reversing cannot fail
      r := Ok((rev.value, l.value.1));
    } else if c == '\'' {
      var q := Read(s, p + 1);
      if q.Err? {
        return Err(q.error);
      }
      var v := List([Symbol("quote"), q.value.0]);
      r := Ok((v, q.value.1));
    } else if c == '-' || IsDigit(c) {
      r := ReadNum(s, p);
    } else {
      var v, j := ReadSym(s, p);
      r := Ok((v, j));
    }
  }

  /** The value read from the start of the text. */
  method ReadStr(s: string) returns (r: Result<Value, Fault>)
    ensures r == Parse(s)
  {
    var q := Read(s, 0);
    if q.Err? {
      return Err(q.error);
    }
    return Ok(q.value.0);
  }

  /** A stretch `ds` free of delimiters, followed by a delimiter or the end, is the token at `start`. */
  lemma {:induction false} TokenIs(s: string, start: nat, ds: string)
    requires start + |ds| <= |s| && s[start..start + |ds|] == ds
    requires forall k :: 0 <= k < |ds| ==> !IsDelimiter(ds[k])
    requires start + |ds| == |s| || IsDelimiter(s[start + |ds|])
    ensures TokenEnd(s, start) == start + |ds| && s[start..TokenEnd(s, start)] == ds
  {
    forall m | start <= m < start + |ds|
      ensures !IsDelimiter(s[m])
    {
      assert s[m] == ds[m - start];
    }
    TokenEndUnique(s, start, start + |ds|);
  }

  /** The digits `ds`, not after a `-` and followed by a delimiter or the end, read as their decimal value. */
  lemma {:induction false} ReadsNatural(s: string, i: nat, ds: string)
    requires i + |ds| <= |s| && s[i..i + |ds|] == ds
    requires ds != [] && AllDigits(ds)
    requires i + |ds| == |s| || IsDelimiter(s[i + |ds|])
    ensures ParseNumber(s, i) == Ok((Number(DecimalValue(ds)), Skip(s, i + |ds|)))
  {
    assert s[i] == ds[0];
    TokenIs(s, i, ds);
  }

  /** `-` and the digits `ds`, followed by a delimiter or the end, read as the negated decimal value. */
  lemma {:induction false} ReadsNegative(s: string, i: nat, ds: string)
    requires i + 1 + |ds| <= |s| && s[i] == '-' && s[i + 1..i + 1 + |ds|] == ds
    requires ds != [] && AllDigits(ds)
    requires i + 1 + |ds| == |s| || IsDelimiter(s[i + 1 + |ds|])
    ensures ParseNumber(s, i) == Ok((Number(-(DecimalValue(ds) as int)), Skip(s, i + 1 + |ds|)))
  {
    TokenIs(s, i + 1, ds);
  }

  /** A number token with no digits, or with a character that is not a digit, is an error. */
  lemma {:induction false} NumberErrors(s: string, i: nat)
    requires i < |s|
    ensures var start := if s[i] == '-' then i + 1 else i;
            var ds := s[start..TokenEnd(s, start)];
            && (ParseNumber(s, i) == Err(InvalidDigit) <==> exists k :: 0 <= k < |ds| && !IsDigit(ds[k]))
            && (ParseNumber(s, i) == Err(NoDigits) <==> ds == [])
  {
  }

  /** Text with no `)` after index `i` cannot finish a list. */
  lemma {:induction false} UnterminatedList(s: string, i: nat)
    requires i <= |s|
    requires forall k :: i <= k < |s| ==> s[k] != ')'
    ensures ParseElems(s, i).Err?
    decreases |s| - i
  {
    if i < |s| {
      if IsWhiteSpace(s[i]) {
        UnterminatedList(s, i + 1);
      } else if ParseExpr(s, i).Ok? {
        UnterminatedList(s, ParseExpr(s, i).value.1);
      }
    }
  }

  /** Text that is empty or only whitespace from `i` on holds no expression. */
  lemma {:induction false} NothingToRead(s: string, i: nat)
    requires i <= |s|
    requires forall k :: i <= k < |s| ==> IsWhiteSpace(s[k])
    ensures ParseExpr(s, i) == Err(ReadEOF)
    decreases |s| - i
  {
    if i < |s| {
      NothingToRead(s, i + 1);
    }
  }

  /** `'x` is `(quote x)`: the quote reads the expression after it. */
  lemma {:induction false} ReadsQuote(s: string, i: nat)
    requires i < |s| && s[i] == '\''
    ensures ParseExpr(s, i).Ok? <==> ParseExpr(s, i + 1).Ok?
    ensures ParseExpr(s, i + 1).Ok? ==>
              ParseExpr(s, i) == Ok((ListOf([Symbol("quote"), ParseExpr(s, i + 1).value.0]), ParseExpr(s, i + 1).value.1))
  {
  }
}
