# golisp in Dafny

A model of golisp, a small McCarthy-style Lisp interpreter, and proofs about it. It covers three pieces of the repository.

- **`lisp/lisp.go`, the interpreter.**
  - Values: `Nil`, `Number`, `Symbol` and `Pair`, with the symbol `t` standing for truth.
  - McCarthy's primitives.
  - The association-list environment: `assoc`, `append`, `pair`.
  - The arithmetic primitives.
  - The evaluator: `Eval`, `evcon` and `evlis`.
  - The reader: `Read`, `readList`, `readNum`, `readSym`, `reverse`, `ReadStr`.
  - The writer: `Write`, `writeList`, `WriteStr`.
- **`lisp.go`, an earlier draft.** Values are tagged by type, and the environment is a stack of symbol tables. `Set` writes table 0 and `Lookup` searches from the last table down.
- **`arith.py`.** Ripple-carry binary addition on little-endian bit lists, with the conversions to and from integers.

## How it is modelled

- **Panics.** Every `panic` of the interpreter is an `Err` of the `Fault` datatype. The fault names the operation that aborts.
- **Pure code.** The pure Go functions are Dafny functions: the primitives, `assoc`, `append`, `pair`, `Eval`, `evcon` and `evlis`.
- **Loops.** Go code that loops or emits text incrementally is a Dafny method, proved against a specification function:
  - `list` and `reverse`;
  - the reader methods over a character sequence and a cursor index, where `UnreadByte` becomes "do not advance";
  - the writer methods, which append to an output string.

  These are the specification functions:
  - `ParseExpr`, `ParseElems`, `ParseNumber` and `ParseSymbol` for the reader;
  - `Render` and `RenderList` for the writer. `Render` gives the text emitted and whether the write ran to completion. A write of an improper chain emits part of its text before `car` panics.
- **The draft's environment** is a class whose field is a sequence of maps. `Set` reassigns table 0 of that field, and `Lookup` is the downward index loop.
- **`arith.py`:**
  - `add_nums` and `to_integer` are loops over bit sequences.
  - `to_binary` is a function returning `Option`.
  - Bits are the integers 0 and 1.

Where the code and the design description differ, the model follows the code:

- **`cond` with no true clause.** The code does not raise a dedicated "no matching clause" fault. It takes `car` of the exhausted clause list, so the fault is `CarOfAtom` (`lisp/lisp.go:250-256`).
- **Writing `Nil`.** `Nil` is written as `'()`, and the reader reads that text as `(quote ())`, not as `Nil` (`lisp/lisp.go:379-380, 419-420`). So the write/read round trip holds for values without `Nil`, and `NilReadsAsQuote` states what happens to `Nil`.
- **A lone `)`.** At the top level it reads as the empty symbol and is not consumed. The reason is that `readSym` unreads the `)` (`lisp/lisp.go:277-279, 384-386`).
- **Comparing symbols.** The evaluator compares every form head with the special-form names using `eq`. For an atom this is plain equality, so `Eval` compares heads directly.

## Model

| member | source | states |
|---|---|---|
| Values.ListOf | lisp/lisp.go:103-109 | the `Nil`-terminated chain of a sequence is `Nil` exactly for the empty sequence |
| Values.ShortLists | lisp/lisp.go:103-109 | lists of one, two and three values are the right-nested pairs ending in `Nil` |
| Values.ListOfFront | lisp/lisp.go:103-109 | a list of three or more values begins with its first three elements in order |
| Values.Elems | lisp/lisp.go:19-22 | the elements of a proper list rebuild that list |
| Values.ElemsOfListOf | lisp/lisp.go:103-109 | building a list then taking its elements gives back the sequence, and the result is a proper list |
| Values.ReversedAppend | lisp/lisp.go:358-365 | reversal turns a concatenation around |
| Values.ReversedReversed | lisp/lisp.go:358-365 | reversing twice gives back the sequence |
| Primitives.Quote | lisp/lisp.go:46-48 | quote returns its argument |
| Primitives.IsTrue | lisp/lisp.go:59-61 | a value counts as true exactly when it is not `Nil` |
| Primitives.Atom | lisp/lisp.go:50-57 | `t` exactly for a non-pair and `Nil` exactly for a pair |
| Primitives.Eq | lisp/lisp.go:63-71 | `t` exactly when both are atoms and equal (two `Nil`s included); any pair argument gives `Nil` |
| Primitives.Car | lisp/lisp.go:73-80 | succeeds exactly on a pair, giving its first component; fails with the car fault on every other value, `Nil` and numbers included |
| Primitives.Cdr | lisp/lisp.go:82-89 | succeeds exactly on a pair, giving its second component; fails with the cdr fault otherwise |
| Primitives.Caar | lisp/lisp.go:92 | succeeds exactly when the value and its car are pairs, giving the car of the car; otherwise the fault of the failing selector |
| Primitives.Cadr | lisp/lisp.go:93 | succeeds exactly when the value and its cdr are pairs, giving the second element; otherwise the fault of the failing selector |
| Primitives.Cadar | lisp/lisp.go:94 | succeeds exactly when the path car, cdr exists and ends in a pair, giving its car; otherwise the fault of the failing selector |
| Primitives.Caddr | lisp/lisp.go:95 | succeeds exactly when the path cdr, cdr exists and ends in a pair, giving the third element; otherwise the fault of the failing selector |
| Primitives.Caddar | lisp/lisp.go:96 | succeeds exactly when the path car, cdr, cdr exists and ends in a pair, giving its car; otherwise the fault of the failing selector |
| Primitives.Cons | lisp/lisp.go:98-100 | car of the result is the first argument and cdr of it the second |
| Primitives.List | lisp/lisp.go:103-109 | the loop builds the right-nested list of its arguments in order, a proper list whose elements are the arguments; no arguments gives `Nil` |
| Primitives.SelectorsOnLists | lisp/lisp.go:92-96 | on a list whose first element is a list, each c…r helper selects the position its name says |
| Primitives.Null | lisp/lisp.go:124-126 | `t` exactly for `Nil`, `Nil` otherwise |
| Primitives.And | lisp/lisp.go:128-138 | the result is `t` or `Nil`, and is true exactly when both arguments are |
| Primitives.Not | lisp/lisp.go:140-146 | the result is `t` or `Nil`, and is true exactly when the argument is `Nil` |
| Primitives.Add | lisp/lisp.go:148-158 | succeeds exactly on two numbers, with their sum; otherwise the add fault |
| Primitives.Sub | lisp/lisp.go:159-169 | succeeds exactly on two numbers, with their difference; otherwise the sub fault |
| Primitives.Lt | lisp/lisp.go:170-184 | succeeds exactly on two numbers, giving `t` when the first is smaller and `Nil` otherwise; otherwise the lt fault |
| Bindings.Binding | lisp/lisp.go:198 | a binding is the two-element list of key and value |
| Bindings.Entries | lisp/lisp.go:194-202 | one binding per key/value pair, position by position |
| Bindings.PrependAllNil | lisp/lisp.go:103-109 | prepending elements to `Nil` builds their list |
| Bindings.Assoc | lisp/lisp.go:112-121 | a pair key never succeeds (`eq` is never true on a pair), and a success needs a non-empty list |
| Bindings.AssocPrepend | lisp/lisp.go:112-121 | with a binding in front, lookup gives its value when its key `eq`s the key and otherwise looks up the rest |
| Bindings.AssocFirstMatch | lisp/lisp.go:112-121 | lookup gives the value of the first binding whose key `eq`s the key, whatever follows |
| Bindings.AssocFallThrough | lisp/lisp.go:112-121 | bindings whose keys do not match are passed over; removing a shadowing binding restores the older value |
| Bindings.AssocMiss | lisp/lisp.go:113-115 | a list with no matching key fails with the unbound fault |
| Bindings.Append | lisp/lisp.go:186-192 | succeeds exactly when the first argument is a proper list; otherwise the car fault |
| Bindings.AppendList | lisp/lisp.go:186-192 | the elements of the first list are put in front of the second argument |
| Bindings.AppendLists | lisp/lisp.go:186-192 | two lists append to the list of their concatenation, and `Nil` in front leaves the second list unchanged |
| Bindings.PrependAllConcat | lisp/lisp.go:186-192 | putting elements in front of a list gives the list of the concatenation |
| Bindings.Zip | lisp/lisp.go:194-202 | as many pairs as the shorter sequence has, each pair taken at the same position |
| Bindings.PairUp | lisp/lisp.go:194-202 | the result is always a proper list |
| Bindings.PairUpZips | lisp/lisp.go:194-202 | pairing two lists gives the two-element lists of their positional pairs, stopping silently at the shorter one |
| Evaluator.Eval | lisp/lisp.go:210-214 | a number evaluates to itself |
| Evaluator.Evcon | lisp/lisp.go:250-256 | an exhausted clause list fails with the car fault |
| Evaluator.Evlis | lisp/lisp.go:258-264 | a successful evaluation produces a proper list as long as the argument list |
| Evaluator.EvalAtom | lisp/lisp.go:210-216 | a number is its own value, and any other atom is looked up in the association list |
| Evaluator.EvalQuote | lisp/lisp.go:218-219 | `(quote x)` gives `x` unevaluated |
| Evaluator.EvalUnaryForms | lisp/lisp.go:220-227 | `atom`, `car` and `cdr` apply the primitive to the value of their argument |
| Evaluator.EvalEqCons | lisp/lisp.go:222-229 | `eq` and `cons` apply the primitive to the values of their two arguments |
| Evaluator.EvalAdd | lisp/lisp.go:232-233 | `add` applies the primitive to the values of its arguments |
| Evaluator.EvalSub | lisp/lisp.go:234-235 | `sub` applies the primitive to the values of its arguments |
| Evaluator.EvalLt | lisp/lisp.go:236-237 | `lt` applies the primitive to the values of its arguments |
| Evaluator.EvalCond | lisp/lisp.go:230-231 | `cond` hands its clauses to `evcon` |
| Evaluator.EvconFirstTrue | lisp/lisp.go:250-256 | the value is the body of the first clause whose test is not `Nil` |
| Evaluator.EvconExhausted | lisp/lisp.go:250-256 | when every test gives `Nil`, the car fault |
| Evaluator.EvlisValues | lisp/lisp.go:258-264 | arguments that evaluate to values give the list of those values in order |
| Evaluator.EvalLambdaArgs | lisp/lisp.go:244-245 | a lambda application evaluates its body with the parameter bindings of the argument values in front of the environment |
| Evaluator.EvalLambda | lisp/lisp.go:244-245 | the same, starting from argument expressions whose values are known |
| Evaluator.LambdaParameterShadows | lisp/lisp.go:244-245 | a parameter resolves to its own argument value, hiding any outer binding of the same name |
| Evaluator.LambdaKeepsOuterBindings | lisp/lisp.go:244-245 | a name that is not a parameter resolves as it did in the caller's environment |
| Evaluator.EvalLabel | lisp/lisp.go:241-243 | `label` binds its name to the whole label form and applies the function |
| Evaluator.LabelRecursion | lisp/lisp.go:241-245 | applying `(label name (lambda ps body))` runs the body with the parameters bound in front of the name's binding, and there the name, when it is not a parameter, resolves to the whole label form |
| Evaluator.LabelSelfCall | lisp/lisp.go:238-240 | where the name resolves to the label form, a call by that name applies the label form again, so the body re-enters itself |
| Evaluator.EvalNamedFunction | lisp/lisp.go:238-240 | any other atom at the head is looked up, and the form is evaluated again with its value as the head |
| Evaluator.EvalInvalidConstruct | lisp/lisp.go:241-247 | a head that is a form other than `label` or `lambda` is an invalid construct |
| Evaluator.EvalFuelMonotone | lisp/lisp.go:206-248 | an evaluation that does not run out of fuel gives the same result with one more unit |
| Evaluator.EvalArgFuelMonotone | lisp/lisp.go:206-248 | the same for the evaluation of one argument position |
| Evaluator.EvalArgsFuelMonotone | lisp/lisp.go:206-248 | the same for the evaluation of two argument positions |
| Evaluator.EvalFormFuelMonotone | lisp/lisp.go:217-240 | the same for a form whose head is an atom |
| Evaluator.ApplyFuelMonotone | lisp/lisp.go:241-247 | the same for a form whose head is a form |
| Evaluator.EvconFuelMonotone | lisp/lisp.go:250-256 | the same for `evcon` |
| Evaluator.EvlisFuelMonotone | lisp/lisp.go:258-264 | the same for `evlis` |
| Evaluator.EvalMoreFuel | lisp/lisp.go:206-248 | a result reached within some fuel stays the same with any larger fuel |
| Programs.SmallEnvLookups | lisp/lisp.go:112-121 | in `((a 3) (b 5))`, `a` is 3, `b` is 5, and `c` is unbound |
| Programs.SmallEnvScenarios | lisp/lisp.go:206-237 | in `((a 3) (b 5))`, `(add a b)` is 8, `(sub 3 5)` is -2 and `(lt 3 5)` is `t`; `c` is unbound and `(car 3)` fails |
| Reader.TokenEnd | lisp/lisp.go:268-280 | the first delimiter (whitespace or `)`) at or after the start, or the end of the text |
| Reader.TokenEndUnique | lisp/lisp.go:268-280 | any index with no delimiter before it and a delimiter or the end at it is the token end |
| Reader.IsWhiteSpace | lisp/lisp.go:286-288 | exactly the bytes 32, 10 and 9: space, newline and tab |
| Reader.IsDigit | lisp/lisp.go:334-336 | exactly the bytes 48 to 57 |
| Reader.DigitValue | lisp/lisp.go:321 | a digit's value is below ten |
| Reader.ParseSymbol | lisp/lisp.go:266-284 | a symbol is the text up to the next delimiter and holds no delimiter; whitespace after it is consumed and a `)` is not |
| Reader.ParseNumber | lisp/lisp.go:290-296 | fails with the end-of-input fault exactly at the end of the text; a number ends after its start |
| Reader.ParseExpr | lisp/lisp.go:368-389 | a read ends within the text, and consumes nothing only at a `)` |
| Reader.ParseElems | lisp/lisp.go:338-356 | a successful read of list elements ends after its start and within the text |
| Reader.ElemsEndAtClose | lisp/lisp.go:346-348 | a successful read of list elements stops just after the `)` that closes the list |
| Reader.ReadSym | lisp/lisp.go:266-284 | the loop reads the symbol and leaves the cursor as `ParseSymbol` says |
| Reader.DecimalStep | lisp/lisp.go:320-321 | one more digit multiplies the value so far by ten and adds the digit |
| Reader.DecimalAtSlice | lisp/lisp.go:304-323 | the digits seen in place are the digits of the slice, with the same decimal value |
| Reader.NumberCases | lisp/lisp.go:290-332 | a non-digit in the token is the invalid-digit fault, an empty token the no-digits fault, otherwise the decimal value, negated after `-` |
| Reader.ReadNum | lisp/lisp.go:290-332 | the loop computes the number, or the fault, that `ParseNumber` gives |
| Reader.Reverse | lisp/lisp.go:358-365 | succeeds exactly on a proper list, giving the list of its elements reversed; otherwise the car fault |
| Reader.ListEnds | lisp/lisp.go:341-351 | end of input inside a list is the list fault, `)` closes it, and whitespace is skipped |
| Reader.ListElement | lisp/lisp.go:352-354 | an element read that fails makes the list fail; one that succeeds is added to the elements |
| Reader.ReadList | lisp/lisp.go:338-356 | the loop gives the elements of the list in reverse order, as `ParseElems` gives them reversed |
| Reader.ListInReverse | lisp/lisp.go:375-376 | reversing the accumulated list gives the elements in source order |
| Reader.Read | lisp/lisp.go:368-389 | the loop dispatches as `ParseExpr` does and gives its result |
| Reader.ReadStr | lisp/lisp.go:392-394 | reads one expression from the start of the text |
| Reader.TokenIs | lisp/lisp.go:268-280 | a run of non-delimiters followed by a delimiter or the end is a whole token |
| Reader.ReadsNatural | lisp/lisp.go:290-332 | digits up to a delimiter read as their decimal value |
| Reader.ReadsNegative | lisp/lisp.go:297-331 | `-` and digits read as the negated decimal value |
| Reader.NumberErrors | lisp/lisp.go:317-326 | the invalid-digit fault exactly when the token holds a non-digit, the no-digits fault exactly when it is empty |
| Reader.UnterminatedList | lisp/lisp.go:341-345 | a list with no `)` after it does not read |
| Reader.NothingToRead | lisp/lisp.go:369-378 | text holding only whitespace does not read |
| Reader.ReadsQuote | lisp/lisp.go:379-380 | `'` followed by an expression reads as `(quote` expression `)`, and fails exactly when the expression does |
| Writer.DigitsText | lisp/lisp.go:415-416 | decimal text is at least one digit, with no leading zero except for `0` itself |
| Writer.Render | lisp/lisp.go:409-422 | an atom is always written completely; a pair's text starts with `(` and, when the write completes, ends with `)` |
| Writer.RenderList | lisp/lisp.go:396-406 | a chain whose write completes is a proper list |
| Writer.RenderComplete | lisp/lisp.go:396-422 | a write runs to completion exactly when every chain in the value ends in `Nil` |
| Writer.RenderListComplete | lisp/lisp.go:396-406 | the same for the elements of a chain |
| Writer.RenderProperList | lisp/lisp.go:396-414 | a proper list of writable values is written as `(`, the elements separated by single spaces, `)` |
| Writer.Write | lisp/lisp.go:409-422 | appends the value's text and reports whether the write completed |
| Writer.WriteList | lisp/lisp.go:396-406 | appends the chain's elements with single spaces between them, and reports whether it completed |
| Writer.WriteStr | lisp/lisp.go:425-429 | the text of a writable value, and the car fault when a chain in it is improper |
| RoundTrip.PrintableIsWritable | lisp/lisp.go:396-422 | a value of the round-trip class is writable |
| RoundTrip.DigitsReadBack | lisp/lisp.go:320-321 | the decimal text of a natural number reads back as that number |
| RoundTrip.ReadBackNumber | lisp/lisp.go:290-332 | a written number followed by a delimiter reads back as the same number |
| RoundTrip.ReadBackSymbol | lisp/lisp.go:266-284 | a plain symbol name followed by a delimiter reads back as the same symbol |
| RoundTrip.ReadBack | lisp/lisp.go:368-389 | the written text of a value of the round-trip class, followed by a delimiter or the end of the text, reads back as that value |
| RoundTrip.RoundTrip | lisp/lisp.go:392-429 | reading what is written gives back a `Nil`-free value whose symbols cannot be taken for another token |
| RoundTrip.NilReadsAsQuote | lisp/lisp.go:419-420 | `Nil` is written as `'()`, which reads back as `(quote ())` |
| RoundTrip.ReadsInSourceOrder | lisp/lisp.go:338-389 | `(a b c)` reads with its elements in source order |
| RoundTrip.ReadsQuotedSymbol | lisp/lisp.go:379-380 | `'x` reads as `(quote x)` |
| RoundTrip.ReadsNegativeNumber | lisp/lisp.go:290-332 | `-42` reads as the number -42 |
| RoundTrip.ReadFailures | lisp/lisp.go:341-374 | empty text, blank text and the unterminated list `(a b` fail |
| RoundTrip.TerminatorLeft | lisp/lisp.go:277-316 | a `)` after a symbol or number is not consumed, and a lone `)` reads as the empty symbol |
| RoundTrip.NumberFailures | lisp/lisp.go:317-326 | `-` has no digits and `12x` has a non-digit |
| Draft.Code | lisp.go:12-17 | the four tags have codes below four |
| Draft.CodesDistinct | lisp.go:12-17 | two tags have the same code exactly when they are the same tag |
| Draft.TypeOf | lisp.go:27-30 | each variant's tag is its own: `NIL`, `NUMBER`, `SYMBOL`, `CONS` exactly for `Nil`, numbers, symbols and pairs |
| Draft.MakeCons | lisp.go:32-42 | `car` of the pair built is its first argument and `cdr` its second |
| Draft.ConsOfParts | lisp.go:32-42 | a pair is rebuilt from its `car` and `cdr` |
| Draft.Car | lisp.go:36-38 | the pair is its result consed onto its second component |
| Draft.Cdr | lisp.go:40-42 | the pair is its first component consed onto the result |
| Draft.Resolve | lisp.go:56-63 | a symbol that resolves is bound, to the value found, in some table |
| Draft.ResolveTop | lisp.go:56-63 | lookup gives the binding of the highest-indexed table that has the symbol, and nothing exactly when no table has it |
| Draft.NewEnvironmentEmpty | lisp.go:47-50 | a fresh environment binds nothing |
| Draft.SetThenResolve | lisp.go:52-63 | after a set, the symbol resolves to the new value unless a later table binds it; other symbols resolve as before |
| Draft.SetOtherSymbol | lisp.go:52-54 | setting a symbol leaves the resolution of every other symbol as it was |
| Draft.SetVisible | lisp.go:52-63 | with no later table binding the symbol, lookup finds the value just set |
| Draft.SetShadowed | lisp.go:52-63 | a later table binding the symbol hides the value set in table 0 |
| Draft.TopIndex | lisp.go:56-63 | a symbol bound in some table has a highest table binding it |
| Draft.Environment.constructor | lisp.go:47-50 | a single empty table |
| Draft.Environment.Set | lisp.go:52-54 | table 0 gets the binding, every other table is unchanged, and an environment without tables fails |
| Draft.Environment.Lookup | lisp.go:56-63 | the downward loop gives the binding of the highest table having the symbol, and the lookup fault when none has it |
| Draft.Environment.Eval | lisp.go:65-74 | a number is itself, a symbol is its lookup, and `Nil` or a pair is the type fault |
| Arith.HalfAdderTable | arith.py:2-8 | the half adder's four asserted rows |
| Arith.HalfAdderAdds | arith.py:2-3 | sum plus twice carry is the sum of the two bits |
| Arith.HalfAdder | arith.py:2-3 | the sum bit is the two bits' total modulo 2 and the carry its half |
| Arith.FullAdderTable | arith.py:10-22 | the full adder's eight asserted rows |
| Arith.FullAdderAdds | arith.py:10-13 | sum plus twice carry is the sum of the three bits |
| Arith.FullAdder | arith.py:10-13 | the sum bit is the three bits' total modulo 2 and the carry its half |
| Arith.ValueSnoc | arith.py:52-57 | a bit added at the top is worth its power of two |
| Arith.ValueBound | arith.py:52-57 | a bit list's value is below two to the power of its length |
| Arith.ToBinary | arith.py:49-50 | the conversion fails exactly for a negative integer |
| Arith.BinaryValue | arith.py:49-50 | the bits of a natural number have that value and no leading zero |
| Arith.CanonicalUnique | arith.py:49-50 | a bit list without leading zeros is the conversion of its own value |
| Arith.CanonicalValue | arith.py:49-50 | a bit list has no leading zero exactly when it has one bit or its value reaches its top power of two |
| Arith.SumCanonical | arith.py:24-34 | a sum of the right value and length, of inputs without leading zeros, is the conversion of the sum |
| Arith.RippleStep | arith.py:27-31 | one full-adder step extends the correct low part of the sum by one position |
| Arith.FinalCarry | arith.py:32-33 | appending a final carry of 1 completes the sum and gives the stated length |
| Arith.AddNums | arith.py:24-34 | the loop's bits have the sum of the values; the length is the longer input's, plus one exactly when the sum needs it; on inputs without leading zeros the result is the conversion of the sum |
| Arith.ToInteger | arith.py:52-57 | the loop computes the value of the bit list |
| Arith.ToIntegerOfToBinary | arith.py:49-61 | every natural number converts to bits and back to itself |
| Arith.ToBinaryOfToInteger | arith.py:49-57 | a bit list without leading zeros converts to its value and back to itself |
| Arith.BinaryOfThirtyFour | arith.py:60 | the bits of 34 are `[0, 1, 0, 0, 0, 1]` |
| Arith.AddInBinary | arith.py:38-47 | adding two naturals through their bits gives their sum |
| Arith.AddTenAndTwentyFour | arith.py:60 | 10 plus 24 in binary gives the bits of 34, `[0, 1, 0, 0, 0, 1]` |

## Left out

- The `debug` flag and its trace output (`lisp/lisp.go:33-37, 207-209`). They only print.
- `cmd/golisp/main.go`, which parses flags, reads files and prints. It is input and output around `ReadStr`, `Eval` and `WriteStr`.
- The benchmarks in `equal_bench_test.go`. They measure the cost of Go interface equality, which is not behaviour.
- `io.ByteScanner`, `io.Writer`, `fmt` and `strings.Builder`. The reader works on a string and a cursor index. The writer appends to a string.
- Reading bytes versus characters. The model's text is a sequence of characters, and the reader compares them with the same ASCII bytes as the source.
- Primitives.Add: Go `int` wrap-around is not modelled (`lisp/lisp.go:157`). Numbers are unbounded integers.
- Primitives.Sub: Go `int` wrap-around is not modelled (`lisp/lisp.go:168`).
- Reader.ReadNum: overflow of the accumulated number is not modelled (`lisp/lisp.go:320-321`).
- Panic message texts. Each panic is the fault of the operation that raises it.
- Evaluator.Eval: termination of user programs is not modelled. `Eval`, `Evcon` and `Evlis` take a fuel bound, and running out gives `OutOfFuel`, a fault the source does not have. The fuel lemmas show that a result reached within some fuel never changes with more fuel.
- Evaluator.Eval: its own contract only covers numbers. The other forms are stated by the `Eval…` lemmas beside it.
- Bindings.Assoc: its own contract states only when a lookup cannot succeed. First-match lookup is stated by `AssocPrepend`, `AssocFirstMatch`, `AssocFallThrough` and `AssocMiss`.
- RoundTrip.RoundTrip: values containing `Nil` are excluded, because the source writes `Nil` as `'()`, which reads back as `(quote ())`. Symbols that could be taken for another token are excluded too.
- Draft.Environment.Set: `Set` on an environment with no tables panics in Go (an index out of range). The model fails with `NoTable` instead.
- Draft.Environment: the Go `Environment` is a slice header whose maps are shared between copies. The model keeps the tables in one object and does not model that aliasing.
- Arith: bit lists hold only 0 and 1. Python would also accept other integers in `add_nums`.
- Arith.ToBinary: a negative integer gives `None`. Python would produce a `ValueError` from `int('b')`.
- Arith.AddInBinary: the `random`-driven loop of `test_add` (`arith.py:38-47`) is replaced by a method that holds for all naturals. Randomness is left out.
- The `lisp_test.go` tests themselves. They are evidence for the contracts above, and not part of the model.
