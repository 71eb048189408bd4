/**
 * The writer: values to text. `Render` says what a write emits and whether
 * it finishes; a write of an improper chain aborts on the car of an atom
 * after part of the text is out. The methods `Write`, `WriteList` and
 * `WriteStr` emit the text piece by piece onto an output string.
 */
module Writer {
  import opened Wrappers
  import opened Values
  import opened Primitives

  /** The text a write emits before it stops, and whether it ran to completion. */
  datatype Emission = Emission(text: string, complete: bool)

  function DigitChar(d: nat): char
    requires d < 10
  {
    ('0' as int + d) as char
  }

  /** The decimal digits of `n`, most significant first, without leading zeros. */
  function DigitsText(n: nat): (t: string)
    ensures |t| >= 1 && ('1' <= t[0] <= '9' || t == "0")
    ensures forall k :: 0 <= k < |t| ==> '0' <= t[k] <= '9'
  {
    if n < 10 then [DigitChar(n)] else DigitsText(n / 10) + [DigitChar(n % 10)]
  }

  /** A number in decimal, with a leading `-` when it is negative. */
  function NumberText(n: int): string {
    if n < 0 then "-" + DigitsText(-n) else DigitsText(n)
  }

  /**
   * A pair as `(`, its list, `)`; `Nil` as `'()`; numbers in decimal and
   * symbols as their names.
   */
  function Render(v: Value): (e: Emission)
    ensures !v.Pair? ==> e.complete
    ensures v.Pair? ==> |e.text| >= 1 && e.text[0] == '(' && (e.complete ==> e.text[|e.text| - 1] == ')')
    decreases v, 1
  {
    match v
    case Nil => Emission("'()", true)
    case Number(n) => Emission(NumberText(n), true)
    case Symbol(name) => Emission(name, true)
    case Pair(_, _) =>
      var l := RenderList(v);
      if l.complete then Emission("(" + l.text + ")", true) else Emission("(" + l.text, false)
  }

  /** The elements of a chain separated by single spaces; a chain that ends in an atom other than `Nil` aborts there. */
  function RenderList(p: Value): (e: Emission)
    ensures e.complete ==> IsList(p)
    decreases p, 0
  {
    if p == Nil then Emission("", true)
    else if !p.Pair? then Emission("", false)
    else
      var h := Render(p.a);
      if !h.complete then h
      else
        var sep := if p.b != Nil then " " else "";
        var t := RenderList(p.b);
        Emission(h.text + sep + t.text, t.complete)
  }

  /** Every pair chain inside `v` ends in `Nil`. */
  predicate Writable(v: Value)
    decreases v, 1
  {
    !v.Pair? || WritableList(v)
  }

  predicate WritableList(p: Value)
    decreases p, 0
  {
    p == Nil || (p.Pair? && Writable(p.a) && WritableList(p.b))
  }

  /** A write runs to completion exactly when every chain in the value is a proper list. */
  lemma {:induction false} RenderComplete(v: Value)
    ensures Render(v).complete <==> Writable(v)
    decreases v, 1
  {
    if v.Pair? {
      RenderListComplete(v);
    }
  }

  lemma {:induction false} RenderListComplete(p: Value)
    ensures RenderList(p).complete <==> WritableList(p)
    decreases p, 0
  {
    if p.Pair? {
      RenderComplete(p.a);
      RenderListComplete(p.b);
    }
  }

  /** The texts of `vs` joined by single spaces. */
  function Joined(vs: seq<Value>): string {
    if vs == [] then ""
    else if |vs| == 1 then Render(vs[0]).text
    else Render(vs[0]).text + " " + Joined(vs[1..])
  }

  /** A proper list of writable elements is written as `(`, the elements separated by single spaces, `)`. */
  lemma {:induction false} RenderProperList(vs: seq<Value>)
    requires forall k :: 0 <= k < |vs| ==> Writable(vs[k])
    ensures RenderList(ListOf(vs)) == Emission(Joined(vs), true)
    ensures vs != [] ==> Render(ListOf(vs)) == Emission("(" + Joined(vs) + ")", true)
  {
    if vs != [] {
      RenderProperList(vs[1..]);
      RenderComplete(vs[0]);
      if |vs| == 1 {
        assert vs[1..] == [];
      }
    }
  }

  /** Writes `v` after `out`; `ok` is false when the write aborted part way. */
  method Write(out: string, v: Value) returns (o: string, ok: bool)
    ensures o == out + Render(v).text && ok == Render(v).complete
    decreases v, 1
  {
    match v
    case Pair(_, _) =>
      o, ok := WriteList(out + "(", v);
      if ok {
        o := o + ")";
      }
    case Number(n) =>
      o, ok := out + NumberText(n), true;
    case Symbol(name) =>
      o, ok := out + name, true;
    case Nil =>
      o, ok := out + "'()", true;
  }

  /** Writes the elements of the chain `p` after `out`, separated by single spaces. */
  method WriteList(out: string, p: Value) returns (o: string, ok: bool)
    ensures o == out + RenderList(p).text && ok == RenderList(p).complete
    decreases p, 0
  {
    if p == Nil {
      return out, true;
    }
    var h := Car(p);
    if h.Err? {
      return out, false;
    }
    o, ok := Write(out, h.value);
    if !ok {
      return;
    }
    // car succeeded, so p is a pair and its cdr cannot fail
    if p.b != Nil {
      o := o + " ";
    }
    o, ok := WriteList(o, p.b);
    assert o == out + Render(p.a).text + (if p.b != Nil then " " else "") + RenderList(p.b).text;
  }

  /** The text of `v`, or the car fault when `v` holds an improper chain. */
  method WriteStr(v: Value) returns (r: Result<string, Fault>)
    ensures Writable(v) ==> r == Ok(Render(v).text)
    ensures !Writable(v) ==> r == Err(CarOfAtom)
  {
    RenderComplete(v);
    var text, ok := Write("", v);
    assert "" + Render(v).text == Render(v).text;
    if !ok {
      return Err(CarOfAtom);
    }
    return Ok(text);
  }
}
