/**
 * Reading back what the writer wrote. A value whose text cannot be taken
 * for another token reads back as itself: numbers, symbols whose names do
 * not look like a number, a list or a quote and hold no delimiter, and
 * proper lists of such values, nested to any depth. `Nil` is the exception:
 * it is written `'()` and reads back as `(quote ())`.
 */
module RoundTrip {
  import opened Wrappers
  import opened Values
  import opened Reader
  import opened Writer

  /** A symbol name that reads back as a symbol of the same name. */
  predicate PlainName(name: string) {
    && name != []
    && (forall k :: 0 <= k < |name| ==> !IsDelimiter(name[k]))
    && name[0] != '-' && !IsDigit(name[0]) && name[0] != '(' && name[0] != '\''
  }

  /** The values whose text reads back as themselves. */
  predicate Printable(v: Value)
    decreases v, 1
  {
    match v
    case Nil => false
    case Number(_) => true
    case Symbol(name) => PlainName(name)
    case Pair(_, _) => PrintableList(v)
  }

  /** A non-empty proper list of printable values. */
  predicate PrintableList(p: Value)
    decreases p, 0
  {
    p.Pair? && Printable(p.a) && (p.b == Nil || PrintableList(p.b))
  }

  lemma {:induction false} PrintableListIsList(p: Value)
    requires PrintableList(p)
    ensures IsList(p)
    decreases p
  {
    if p.b != Nil {
      PrintableListIsList(p.b);
    }
  }

  lemma {:induction false} PrintableIsWritable(v: Value)
    requires Printable(v)
    ensures Writable(v)
    decreases v, 1
  {
    if v.Pair? {
      PrintableListIsWritable(v);
    }
  }

  lemma {:induction false} PrintableListIsWritable(p: Value)
    requires PrintableList(p)
    ensures WritableList(p)
    decreases p, 0
  {
    PrintableIsWritable(p.a);
    if p.b != Nil {
      PrintableListIsWritable(p.b);
    }
  }

  lemma {:induction false} DigitCharValue(d: nat)
    requires d < 10
    ensures IsDigit(DigitChar(d)) && DigitValue(DigitChar(d)) == d
  {
  }

  /** The digits the writer prints read back as the number. */
  lemma {:induction false} DigitsReadBack(n: nat)
    ensures AllDigits(DigitsText(n)) && DecimalValue(DigitsText(n)) == n
    decreases n
  {
    if n < 10 {
      DigitCharValue(n);
      assert DigitsText(n) == [] + [DigitChar(n)];
      DecimalStep([], DigitChar(n));
    } else {
      DigitsReadBack(n / 10);
      DigitCharValue(n % 10);
      DecimalStep(DigitsText(n / 10), DigitChar(n % 10));
    }
  }

  /** The text of a printable value is complete, non-empty, and its first character says what kind of value it is. */
  lemma {:induction false} TextStart(v: Value)
    requires Printable(v)
    ensures Render(v).complete && |Render(v).text| > 0
    ensures var c := Render(v).text[0];
            && !IsDelimiter(c)
            && (v.Pair? <==> c == '(')
            && (v.Number? <==> c == '-' || IsDigit(c))
            && (v.Symbol? ==> c != '\'' && Render(v).text == v.name)
  {
    PrintableIsWritable(v);
    RenderComplete(v);
  }

  /** Slices of a slice. */
  lemma {:induction false} SliceOfSlice(s: string, i: nat, t: string, k: nat, m: nat)
    requires i + |t| <= |s| && s[i..i + |t|] == t && k <= m <= |t|
    ensures s[i + k..i + m] == t[k..m]
  {
    forall j | 0 <= j < m - k
      ensures s[i + k..i + m][j] == t[k..m][j]
    {
      assert s[i + k + j] == s[i..i + |t|][k + j];
    }
  }

  /** A text embedded at `i` that starts with `c` has `c` at `i` and the rest after it. */
  lemma {:induction false} SplitFirst(s: string, i: nat, c: char, rest: string)
    requires i + 1 + |rest| <= |s| && s[i..i + 1 + |rest|] == [c] + rest
    ensures s[i] == c && s[i + 1..i + 1 + |rest|] == rest
  {
    assert s[i] == s[i..i + 1 + |rest|][0];
    SliceOfSlice(s, i, [c] + rest, 1, 1 + |rest|);
    assert ([c] + rest)[1..] == rest;
  }

  /** The digits `t` of a non-negative number, followed by a delimiter or the end, read back as the number. */
  lemma {:induction false} ReadBackNatural(n: nat, s: string, i: nat, t: string)
    requires t == DigitsText(n) && TextAt(s, i, t) && Delimited(s, i + |t|)
    ensures ParseNumber(s, i) == Ok((Number(n), Skip(s, i + |t|)))
  {
    DigitsReadBack(n);
    ReadsNatural(s, i, t);
  }

  /** `-` and the digits `ds` of a positive number, followed by a delimiter or the end, read back as its negation. */
  lemma {:induction false} ReadBackNegative(m: nat, s: string, i: nat, ds: string)
    requires m > 0 && ds == DigitsText(m) && TextAt(s, i, "-" + ds) && Delimited(s, i + 1 + |ds|)
    ensures ParseNumber(s, i) == Ok((Number(-(m as int)), Skip(s, i + 1 + |ds|)))
  {
    SplitFirst(s, i, '-', ds);
    DigitsReadBack(m);
    ReadsNegative(s, i, ds);
  }

  /** A number's text `t`, followed by a delimiter or the end, reads back as the number. */
  lemma {:induction false} ReadBackNumber(n: int, s: string, i: nat, t: string)
    requires t == NumberText(n) && TextAt(s, i, t) && Delimited(s, i + |t|)
    ensures ParseNumber(s, i) == Ok((Number(n), Skip(s, i + |t|)))
  {
    if n < 0 {
      ReadBackNegative(-n, s, i, DigitsText(-n));
    } else {
      ReadBackNatural(n, s, i, t);
    }
  }

  /** A plain symbol name, followed by a delimiter or the end, reads back as the symbol. */
  lemma {:induction false} ReadBackSymbol(name: string, s: string, i: nat)
    requires PlainName(name) && TextAt(s, i, name) && Delimited(s, i + |name|)
    ensures ParseSymbol(s, i) == (Symbol(name), Skip(s, i + |name|))
  {
    forall m | i <= m < i + |name|
      ensures !IsDelimiter(s[m])
    {
      assert s[m] == name[m - i];
    }
    TokenEndUnique(s, i, i + |name|);
  }

  /** A text embedded at `i` that is `x` followed by `y` has `x` at `i` and `y` after it. */
  lemma {:induction false} SplitText(s: string, i: nat, x: string, y: string)
    requires i + |x| + |y| <= |s| && s[i..i + |x| + |y|] == x + y
    ensures s[i..i + |x|] == x && s[i + |x|..i + |x| + |y|] == y
  {
    SliceOfSlice(s, i, x + y, 0, |x|);
    SliceOfSlice(s, i, x + y, |x|, |x| + |y|);
    assert (x + y)[..|x|] == x;
    assert (x + y)[|x|..] == y;
  }

  /** The text `t` sits in `s` at `i`. */
  predicate TextAt(s: string, i: nat, t: string) {
    i + |t| <= |s| && s[i..i + |t|] == t
  }

  /** Index `e` of `s` ends a token: it is the end of the text or holds a delimiter. */
  predicate Delimited(s: string, e: nat) {
    e <= |s| && (e == |s| || IsDelimiter(s[e]))
  }

  /** The text of a list's first element, then a space and the rest or nothing, then `)`, split into its parts. */
  lemma {:induction false} ElemsText(s: string, i: nat, ht: string, more: bool, rt: string)
    requires |ht| > 0 && (!more ==> rt == "")
    requires TextAt(s, i, ht + (if more then " " else "") + rt + ")")
    ensures TextAt(s, i, ht) && s[i] == ht[0]
    ensures i + |ht| < |s| && Delimited(s, i + |ht|)
    ensures !more ==> s[i + |ht|] == ')'
    ensures more ==> s[i + |ht|] == ' ' && TextAt(s, i + |ht| + 1, rt + ")")
  {
    var c := if more then ' ' else ')';
    var rest := if more then rt + ")" else "";
    assert ht + (if more then " " else "") + rt + ")" == ht + ([c] + rest);
    SplitText(s, i, ht, [c] + rest);
    SplitFirst(s, i + |ht|, c, rest);
    assert s[i] == s[i..i + |ht|][0];
  }

  /** Where reading a value that ends at the delimiter `e` stops: a list at its `)`, an atom after one whitespace character. */
  function ReadEnd(v: Value, s: string, e: nat): nat
    requires e <= |s|
  {
    if v.Pair? then e else Skip(s, e)
  }

  /** An element that reads up to the `)` at `e` is the last of the elements read from `i`. */
  lemma {:induction false} ElemsLast(s: string, i: nat, h: Value, e: nat)
    requires i < |s| && s[i] != ')' && !IsWhiteSpace(s[i])
    requires e < |s| && s[e] == ')'
    requires ExprAt(s, i, h, ReadEnd(h, s, e))
    ensures ElemsAt(s, i, [h], e + 1)
  {
    assert ParseElems(s, e) == Ok(([], e + 1));
    assert [h] + [] == [h];
  }

  /** An element that reads up to the space at `e`, with elements after the space that read up to `k`, makes the elements read from `i`. */
  lemma {:induction false} ElemsNext(s: string, i: nat, h: Value, e: nat, tail: seq<Value>, k: nat)
    requires i < |s| && s[i] != ')' && !IsWhiteSpace(s[i])
    requires e < |s| && s[e] == ' '
    requires ExprAt(s, i, h, ReadEnd(h, s, e))
    requires ElemsAt(s, e + 1, tail, k)
    ensures ElemsAt(s, i, [h] + tail, k)
  {
    assert ParseElems(s, e) == ParseElems(s, e + 1);
  }

  /** `(` followed by elements that read up to `k` makes a list that reads up to `k`. */
  lemma {:induction false} ExprList(s: string, i: nat, vs: seq<Value>, k: nat)
    requires i < |s| && s[i] == '(' && ElemsAt(s, i + 1, vs, k)
    ensures ExprAt(s, i, ListOf(vs), k)
  {
  }

  /** The text `t` of a printable number or symbol, followed by a delimiter or the end, reads back as it. */
  lemma {:induction false} ReadBackAtom(v: Value, s: string, i: nat, t: string)
    requires !v.Pair? && Printable(v) && t == Render(v).text && TextAt(s, i, t) && Delimited(s, i + |t|)
    ensures ExprAt(s, i, v, ReadEnd(v, s, i + |t|))
  {
    TextStart(v);
    assert s[i] == t[0] by {
      assert s[i] == s[i..i + |t|][0];
    }
    if v.Number? {
      assert ParseExpr(s, i) == ParseNumber(s, i);
      ReadBackNumber(v.n, s, i, t);
    } else {
      assert ParseExpr(s, i) == Ok(ParseSymbol(s, i));
      ReadBackSymbol(v.name, s, i);
    }
  }

  /**
   * The text `t` of a printable value, embedded in a larger text at `i` and
   * followed by a delimiter or the end, reads back as the value. A list
   * stops after its `)`; a number or symbol also consumes a whitespace
   * delimiter after it.
   */
  lemma {:induction false} ReadBack(v: Value, s: string, i: nat, t: string)
    requires Printable(v) && t == Render(v).text && TextAt(s, i, t) && Delimited(s, i + |t|)
    ensures ExprAt(s, i, v, ReadEnd(v, s, i + |t|))
    decreases v, 4
  {
    if v.Pair? {
      ReadBackList(v, s, i, t);
    } else {
      ReadBackAtom(v, s, i, t);
    }
  }

  /** The text `t` of a printable list, embedded in a larger text at `i`, reads back as the list and stops after its `)`. */
  lemma {:induction false} ReadBackList(v: Value, s: string, i: nat, t: string)
    requires v.Pair? && Printable(v) && t == Render(v).text && TextAt(s, i, t)
    ensures ExprAt(s, i, v, i + |t|)
    decreases v, 3
  {
    TextStart(v);
    var lt := RenderList(v).text;
    assert t == ['('] + (lt + ")");
    SplitFirst(s, i, '(', lt + ")");
    ReadBackElems(v, s, i + 1, lt);
    ExprList(s, i, Elems(v), i + 1 + |lt| + 1);
    assert ListOf(Elems(v)) == v;
  }

  /** A list whose first element writes completely is written as that element, a space if more follow, and the rest. */
  lemma {:induction false} RenderListParts(p: Value)
    requires p.Pair? && Render(p.a).complete
    ensures RenderList(p).text == Render(p.a).text + (if p.b != Nil then " " else "") + RenderList(p.b).text
    ensures p.b == Nil ==> RenderList(p.b).text == ""
  {
  }

  /**
   * The text `t` of a printable list's elements followed by `)`, split at
   * its first element `ht`: that text ends at a `)` when it is the last
   * element and at a space followed by the rest's text `rt` and `)` otherwise.
   */
  lemma {:induction false} ElemsTextParts(p: Value, s: string, i: nat, t: string, ht: string, rt: string)
    requires PrintableList(p) && t == RenderList(p).text && ht == Render(p.a).text && rt == RenderList(p.b).text
    requires TextAt(s, i, t + ")")
    ensures Printable(p.a) && TextAt(s, i, ht) && Delimited(s, i + |ht|)
    ensures i < |s| && s[i] != ')' && !IsWhiteSpace(s[i]) && i + |ht| < |s|
    ensures p.b == Nil ==> s[i + |ht|] == ')' && |t| == |ht|
    ensures p.b != Nil ==> s[i + |ht|] == ' ' && PrintableList(p.b) && TextAt(s, i + |ht| + 1, rt + ")")
    ensures p.b != Nil ==> |t| == |ht| + 1 + |rt|
  {
    TextStart(p.a);
    RenderListParts(p);
    ElemsText(s, i, ht, p.b != Nil, rt);
  }

  /** The text `t` of a printable list's elements, followed by `)`, reads back as the elements. */
  lemma {:induction false} ReadBackElems(p: Value, s: string, i: nat, t: string)
    requires PrintableList(p) && t == RenderList(p).text && TextAt(s, i, t + ")")
    ensures IsList(p) && ElemsAt(s, i, Elems(p), i + |t| + 1)
    decreases p, 2
  {
    if p.b == Nil {
      ReadBackLast(p, s, i, t);
    } else {
      ReadBackNext(p, s, i, t);
    }
  }

  /** The text of a one-element list's element, followed by `)`, reads back as that element. */
  lemma {:induction false} ReadBackLast(p: Value, s: string, i: nat, t: string)
    requires PrintableList(p) && p.b == Nil && t == RenderList(p).text && TextAt(s, i, t + ")")
    ensures IsList(p) && ElemsAt(s, i, Elems(p), i + |t| + 1)
    decreases p, 1
  {
    PrintableListIsList(p);
    var h := p.a;
    assert Elems(p) == [h];
    var ht := Render(h).text;
    ElemsTextParts(p, s, i, t, ht, "");
    ReadBack(h, s, i, ht);
    ElemsLast(s, i, h, i + |ht|);
  }

  /** The first element of a longer list reads back from its text, up to the space at `e` that starts the rest's text. */
  lemma {:induction false} ReadBackHead(p: Value, s: string, i: nat, t: string) returns (e: nat)
    requires PrintableList(p) && p.b != Nil && t == RenderList(p).text && TextAt(s, i, t + ")")
    ensures i < |s| && s[i] != ')' && !IsWhiteSpace(s[i])
    ensures e < |s| && s[e] == ' ' && ExprAt(s, i, p.a, ReadEnd(p.a, s, e))
    ensures IsList(p.b) && ElemsAt(s, e + 1, Elems(p.b), i + |t| + 1)
    decreases p, 0
  {
    var ht, rt := Render(p.a).text, RenderList(p.b).text;
    ElemsTextParts(p, s, i, t, ht, rt);
    ReadBack(p.a, s, i, ht);
    e := i + |ht|;
    ReadBackElems(p.b, s, e + 1, rt);
  }

  /** The text of a longer list's first element, a space, and the rest's elements and `)` reads back as the elements. */
  lemma {:induction false} ReadBackNext(p: Value, s: string, i: nat, t: string)
    requires PrintableList(p) && p.b != Nil && t == RenderList(p).text && TextAt(s, i, t + ")")
    ensures IsList(p) && ElemsAt(s, i, Elems(p), i + |t| + 1)
    decreases p, 1
  {
    PrintableListIsList(p);
    var e := ReadBackHead(p, s, i, t);
    var h, tail := p.a, Elems(p.b);
    assert Elems(p) == [h] + tail;
    ElemsNext(s, i, h, e, tail, i + |t| + 1);
  }

  /** Writing a printable value and reading the text back gives the value. */
  lemma {:induction false} RoundTrip(v: Value)
    requires Printable(v)
    ensures Writable(v) && Parse(Render(v).text) == Ok(v)
  {
    PrintableIsWritable(v);
    var t := Render(v).text;
    assert t[0..|t|] == t;
    ReadBack(v, t, 0, t);
  }

  /** `Nil` is written `'()`, which reads back as `(quote ())`. */
  lemma {:induction false} NilReadsAsQuote()
    ensures Render(Nil).text == "'()"
    ensures Parse(Render(Nil).text) == Ok(ListOf([Symbol("quote"), Nil]))
  {
    var s := "'()";
    assert ParseElems(s, 2) == Ok(([], 3));
    assert ParseExpr(s, 1) == Ok((Nil, 3));
    ShortLists(Symbol("quote"), Nil, Nil);
  }

  /** `(a b c)` reads as its elements in source order. */
  lemma {:induction false} ReadsInSourceOrder()
    ensures Parse("(a b c)") == Ok(ListOf([Symbol("a"), Symbol("b"), Symbol("c")]))
  {
    var vs := [Symbol("a"), Symbol("b"), Symbol("c")];
    var v := ListOf(vs);
    ShortLists(vs[0], vs[1], vs[2]);
    assert PlainName("a") && PlainName("b") && PlainName("c");
    assert Printable(v);
    RenderProperList(vs);
    assert vs[1..][1..] == [Symbol("c")];
    assert Joined(vs[1..][1..]) == "c";
    assert Joined(vs[1..]) == "b c";
    assert Joined(vs) == "a b c";
    var t := Render(v).text;
    assert t == "(a b c)";
    RoundTrip(v);
    assert Parse(t) == Ok(v);
  }

  /** `'x` reads as `(quote x)`. */
  lemma {:induction false} ReadsQuotedSymbol()
    ensures Parse("'x") == Ok(ListOf([Symbol("quote"), Symbol("x")]))
  {
    ReadsQuote("'x", 0);
    ReadBackSymbol("x", "'x", 1);
  }

  /** `-42` reads as the number -42. */
  lemma {:induction false} ReadsNegativeNumber()
    ensures Parse("-42") == Ok(Number(-42))
  {
    assert AllDigits("42");
    assert DecimalValue("42") == 42 by {
      assert "42"[..1] == "4";
      assert "4"[..0] == "";
    }
    ReadsNegative("-42", 0, "42");
  }

  /** Empty text, blank text and an unterminated list do not read. */
  lemma {:induction false} ReadFailures()
    ensures Parse("") == Err(ReadEOF)
    ensures Parse("   ").Err?
    ensures Parse("(a b").Err?
  {
    NothingToRead("", 0);
    NothingToRead("   ", 0);
    UnterminatedList("(a b", 1);
  }

  /** A `)` that ends a token is left for the enclosing list; a `)` alone reads as the empty symbol. */
  lemma {:induction false} TerminatorLeft()
    ensures ParseExpr(")", 0) == Ok((Symbol(""), 0))
    ensures ParseExpr("ab)", 0) == Ok((Symbol("ab"), 2))
    ensures ParseExpr("12)", 0) == Ok((Number(12), 2))
  {
    TokenIs("ab)", 0, "ab");
    ReadsNatural("12)", 0, "12");
    assert DecimalValue("12") == 12 by {
      assert "12"[..1] == "1";
    }
  }

  /** `-` alone has no digits and `12x` has a character that is not a digit. */
  lemma {:induction false} NumberFailures()
    ensures Parse("-") == Err(NoDigits)
    ensures Parse("12x") == Err(InvalidDigit)
  {
    NumberErrors("-", 0);
    NumberErrors("12x", 0);
    assert TokenEnd("12x", 0) == 3;
    assert !IsDigit("12x"[0..3][2]);
  }
}
