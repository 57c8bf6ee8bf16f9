# Winter core in Dafny

Winter is a small, dynamically typed scripting language interpreter written
in C. This project models its core: source text is scanned into tokens,
parsed into an abstract syntax tree with first-class error nodes, and
walked against a hash table of variables, using tagged runtime objects and
their arithmetic. The repository holds two generations of this pipeline,
and both are modelled.

**The newest interpreter**

- `src/wtype.h`: the truncating C integer operations, the character classes
  and the `winter_strtoi` digit loop. These are modules `CInt`, `CharClass`
  and `StrToI`.
- The djb2 string hash. This is module `Djb2`.
- `src/wstring.c`: the string with its lazily cached hash. This is module
  `WStrings`.
- `src/object.c`: the object model, with literal decoding and arithmetic.
  This is module `Objects`.
- `src/parser.h`: the tag tables. This is module `Tags`.
- `src/table.c`: the chained hash table. This is class `Tables.Table`, over
  an array of bucket heads and a linked list of `Bucket`s; its shape is
  module `TableShape`.
- `src/lexer.c`: the scanner. This is module `Lexer`.
- `src/parser.c`: the precedence-climbing parser (module `Parser`) and
  `walkTree` (module `Evaluator`). Their properties are in `ParserFacts`,
  `ParserCases`, `EvalFacts` and `EvalCases`.

**The older snapshot**

- `src/wobject.c`: objects and arithmetic. This is module `WObjects`.
- `src/wtable.c`: the one-entry-per-bucket table. This is module `WTables`.
- `src/wparse.c` and `src/wparser.c`: the two shunting-yard expression
  parsers with their executors. These are modules `WParse` and `WParser`,
  with `WParseFacts` and `WParserFacts`.
- `src/wlex.c`: the scanner. This is module `WLex`, with `WLexFacts`.

**How the model is built**

- Loops of the source are methods with `while` loops. Each method is proved
  to compute a specification function, and the properties are lemmas about
  that function.
- The shunting-yard stacks are arrays.
- The newest table is a class over an array and linked nodes.
- The string is a class with a mutable hash cache.
- Trees are datatype values; pointer surgery becomes subtree replacement.
- C's 64-bit signed integers are unbounded integers, with overflow excluded
  where C leaves it undefined and wrap-around written out where C defines
  it.
- Where the code reads out of bounds or fails an `assert`, the model
  returns an explicit outcome such as `OutOfBounds`, `Aborted` or `None`.
  It does not exclude the input.

## Model

| member | source | states |
|---|---|---|
| CInt.TRem | src/object.c:142-144 | C's `%` on `winterInt_t`: the remainder is smaller in magnitude than the divisor and, when non-zero, has the dividend's sign |
| CInt.TDiv | src/object.c:127-129 | C's `/` on `winterInt_t`: the quotient's magnitude is the quotient of the magnitudes, and a non-zero quotient is negative exactly when the signs differ (truncation toward zero) |
| CInt.DivisionIdentity | src/object.c:127-144 | the truncating quotient and remainder used for `/=` and `%=` satisfy `(a/b)*b + a%b == a` |
| CInt.TDivInRange | src/object.c:127-129 | `a /= b` on two 64-bit values stays in range except for `INT64_MIN / -1` |
| CInt.ToInt64 | include/winter.h:15 | the two's-complement truncation into `int64_t` leaves in-range values alone and differs from its input by a multiple of 2^64 |
| CInt.ToInt64Congruent | include/winter.h:15 | values congruent modulo 2^64 truncate to the same `int64_t` |
| CharClass.DigitClasses | src/wtype.h:22-28 | `isNumber`, `isHex`, `isOctal` and `isBinary` accept exactly the digit sets their names say |
| CharClass.CPrefix | src/wstring.c:27-29 | the C string a buffer holds is the longest NUL-free prefix, followed by NUL or the end |
| CharClass.CPrefixOfTerminated | src/wstring.c:22-23 | bytes copied and then NUL-terminated read back as exactly the copied bytes, whatever follows |
| StrToI.BitOrShiftedBit | src/wtype.h:36-37 | `out <<= 1; out \|= d` with a single bit `d` is `2*out + d` |
| StrToI.RunEnd | src/wtype.h:35-50 | each base's loop stops at the first character outside its digit class; every character before it is in the class |
| StrToI.WinterStrToI | src/wtype.h:31-63 | `winter_strtoi` returns the fold of the leading run for bases 2, 8, 10 and 16, and 0 for an empty run or any other base |
| StrToI.StrToISpec | src/wtype.h:31-63 | what `winter_strtoi` returns, the reference WinterStrToI is proved against: 0 for an unsupported base or a string not starting with a digit of the base |
| StrToI.BinaryRun | src/wtype.h:34-40 | the base-2 loop shifts and or-s every decimal digit of the run and stops at the first non-digit |
| StrToI.DecimalRun | src/wtype.h:41-48 | the shared base-8/base-10 loop computes `out*base + digit` over the run of decimal digits |
| StrToI.HexRun | src/wtype.h:49-60 | the base-16 loop maps `a-f` and `A-F` to 10-15 and folds the run of hex digits |
| StrToI.AccumulateIsPositional | src/wtype.h:34-60 | on proper digits of its base the loop computes the positional value: shift-and-or is the binary value, and hex digits are case-insensitive |
| StrToI.StopsAtFirstNonDigit | src/wtype.h:35-50 | nothing after the first character outside the run affects the result |
| StrToI.OctalTakesEightAndNine | src/wtype.h:41-48 | base 8 also accepts the digits 8 and 9: "19" decodes to 17 |
| Djb2.CharWord | src/object.c:7-8 | a character read into `hash_t` is its byte, sign-extended when 128 or more, and fits in 64 bits |
| Djb2.Hash | src/object.c:7-10 | the djb2 value of a string is a 64-bit word |
| Djb2.HashStepIsTimes33 | src/object.c:9 | `((out << 5) + out) + c` is `out*33 + c` modulo 2^64 |
| Djb2.HashLoop | src/object.c:7-10 | the loop starts at 5381 and folds exactly the characters before the NUL terminator |
| Djb2.HashCStr | src/object.c:6-17 | `_winter_hashCStr` returns djb2 of the C string, never 0, remapping 0 to 1 |
| Djb2.HashString | src/wtable.c:14-22 | `hashString` returns djb2 of the C string with no zero remap |
| Djb2.NonZeroHash | src/object.c:12-14 | the reserved-value rule: the result is non-zero and equals djb2 unless that was 0, in which case it is 1 |
| Djb2.HashIgnoresTail | src/object.c:8 | bytes after the terminator never change the hash |
| Djb2.HashOfA | src/object.c:7-9 | djb2 of "a" is 5381*33 + 97 |
| WStrings.WString.Alloc | src/wstring.c:11-19 | a new string has hash 0, length 0, refcount 0 and capacity equal to the requested size |
| WStrings.WString.Hash | src/wstring.c:4-9 | the hash is computed only while the cache is 0; afterwards the cached value is returned unchanged, and it is the never-zero djb2 of the contents |
| WStrings.WString.CachedHash | src/wstring.c:4-9 | with a cached hash, the call changes nothing and returns the cache |
| WStrings.CreateSize | src/wstring.c:20-26 | exactly `size` bytes are copied, a NUL is written at `data[size]`, length is `size`, capacity `size + 1` |
| WStrings.Create | src/wstring.c:27-29 | the new string holds the C string of the argument, up to its first NUL |
| WStrings.Dup | src/wstring.c:45-48 | the copy has the same length and bytes as the original |
| WStrings.Cat | src/wstring.c:50-58 | the result has length `a.length + b.length`, holds `a`'s bytes then `b`'s, and is NUL-terminated |
| WStrings.Compare | src/wstring.c:34-43 | true for the same string, and otherwise exactly when the contents agree; cached hashes are kept |
| WStrings.CompareHashed | src/wstring.c:35-41 | differing hashes or lengths give false; equal ones compare the bytes up to the length |
| WStrings.EmptyCompareOverreads | src/wstring.c:38-39 | for two distinct empty strings `length - 1` wraps, the exit test never fires and the loop reads past the terminator |
| WStrings.CompareLoopNonEmpty | src/wstring.c:38-40 | for non-empty strings the loop as written decides equality of the contents |
| WStrings.CompareLoopAsWritten | src/wstring.c:38-40 | the byte loop as written, with `length - 1` wrapped in `size_t`: it answers true only when both buffers agree on every byte up to that index |
| Objects.Tag | src/test.c:17-23 | every object has one of nine type tags: UNKNOWN < ERROR < NULL < REFERENCE < INT < FLOAT < STRING in the order src/test.c uses, then TABLE < FUNCTION as src/object.h:17-18 declares them |
| Objects.TokenValue | src/object.c:19-45 | BINARY, OCTAL, DECIMAL and HEX literals become Int, FLOAT literals Float, and every other token the all-zero object (UNKNOWN) |
| Objects.TokenToObject | src/object.c:19-45 | the procedure decodes each literal kind with `winter_strtoi` after skipping 2, 1, 0 or 2 prefix characters, as TokenValue says |
| Objects.DecimalLiteral | src/object.c:28-30 | a decimal literal of digits denotes its positional value |
| Objects.HexLiteral | src/object.c:31-33 | `0x` followed by hex digits denotes their value, either letter case |
| Objects.BinaryLiteral | src/object.c:22-24 | `0b` followed by binary digits denotes their value |
| Objects.OctalLiteral | src/object.c:25-27 | `0` followed by octal digits denotes their value |
| Objects.CastInt | src/object.c:47-57 | an Int casts to its integer and every non-number to 0 |
| Objects.Add | src/object.c:71-88 | OK exactly for operands above NULL and up to STRING that are a String, a Float or two Ints; Int+Int stores the sum into `a`; a String operand leaves `a` unchanged; an error leaves `a` unchanged |
| Objects.Sub | src/object.c:89-103 | OK exactly for numeric pairs (String rejected too); Int-Int stores the difference into `a`; errors leave `a` unchanged |
| Objects.Mul | src/object.c:104-118 | OK exactly for numeric pairs; Int*Int stores the product into `a` |
| Objects.Div | src/object.c:119-133 | OK exactly for numeric pairs; Int/Int stores C's truncated quotient |
| Objects.Mod | src/object.c:134-148 | OK exactly for numeric pairs; Int%Int stores C's remainder; a Float operand gives Float |
| Objects.Negate | src/object.c:150-160 | OK exactly for numbers; an Int is flipped; anything else is a type error that leaves it unchanged |
| Objects.NumbersCommute | src/object.c:71-118 | Add and Mul of numbers do not depend on operand order |
| Objects.SubUndoesAdd | src/object.c:82-99 | integer subtraction undoes integer addition |
| Objects.DivModIdentity | src/object.c:127-144 | Div and Mod on integers satisfy `(x/y)*y + x%y == x` |
| Objects.NegateInvolution | src/object.c:150-160 | negating twice gives back the number |
| Objects.ReferenceOperands | src/object.c:72-87 | a Reference is never dereferenced: with an Int it is a type error, with a Float it adds as 0.0 |
| Objects.TagAsWritten | src/object.c:71-148 | as written, the float branches of Add, Sub, Mul, Div and Mod keep `a`'s own tag; on every other path the tag is the corrected operation's |
| Objects.MixedArithKeepsTag | src/object.c:79-140 | as written no arithmetic operation changes `a`'s type: Int with Float stays INT and Reference with Float stays REFERENCE, while every corrected operation tags both results FLOAT |
| Tags.Precedence | src/parser.c:115-122 | tags below the operators get 999, so primaries bind tightest; every operator's precedence comes from its table row, between 1 and 6 |
| Tags.Associativity | src/parser.c:123-125 | exactly `**`, `=` and the compound assignments are "left"-tagged |
| Tags.Function | src/parser.c:126-128 | the only operations the table names are Pow, Assign, Add, Sub, Mul, Div, Mod and Negate, each on its own tag |
| Tags.TagClassification | src/parser.h:9-24 | every operator but PASS has a table row; the unary node types are operators; IDENT and VALUE are expressions, PASS is an operator and not an expression; no expression tag is an operator |
| Tags.ArithmeticRows | src/parser.c:99-112 | `+ -` have precedence 2, `* / %` 3, `=` 1, `**` 5, unary minus 6; `+` and `*` are "right"-tagged, `=` and `**` "left"-tagged |
| Tables.StoredValue | src/table.c:67-71 | the stored value is the given one, or NULL when none is given |
| Tables.NewBucket | src/table.c:48-52 | a new entry holds NULL and takes one reference on its name |
| Tables.SpliceAfter | src/table.c:61-64 | the new entry is linked right after the bucket's first entry; no other entry's successor changes |
| Tables.Table.Alloc | src/table.c:4-13 | a new table has every bucket null, a null head, size 0, `numBuckets` equal to the capacity and no contents |
| Tables.Table.GetBucket | src/table.c:32-43 | getBucket finds the entry whose name has the same contents, and returns null exactly when no entry has them |
| Tables.Table.ScanBucket | src/table.c:33-42 | the lookup starts at `buckets[hash % numBuckets]`; an empty bucket means not found |
| Tables.Table.NotInRun | src/table.c:37-39 | a key can only sit in its own bucket's run, so leaving the run without a match means it is absent |
| Tables.Table.GetObject | src/table.c:77-84 | returns the entry holding the value stored under the name, and null exactly for absent names |
| Tables.Table.Insert | src/table.c:45-75 | the contents become the old contents with the name mapped to the value (NULL when none is given); `size` grows on every call; only a new name gains a reference; the table invariant holds after |
| Tables.Table.Entry | src/table.c:46-66 | an existing entry is reused; otherwise a new one is created; either way the name's entry is the one the store then overwrites |
| Tables.Table.NewEntry | src/table.c:47-65 | a missing name gets a new NULL entry in the bucket of its hash, keeping the invariant |
| Tables.Table.LinkFirst | src/table.c:49-60 | the new entry of an empty bucket becomes the bucket's head and the head of the global list |
| Tables.Table.PushFront | src/table.c:57-60 | the slot and `head` both point at the new entry, whose successor is the old head |
| Tables.Table.FirstLinked | src/table.c:57-60 | after the front link every bucket is still a contiguous run and the bucket array still points at each run's first entry |
| Tables.Table.LinkAfter | src/table.c:61-64 | the new entry of an occupied bucket is linked right after the slot's head |
| Tables.Table.AfterLinked | src/table.c:61-64 | linking after the slot's head keeps each bucket's entries a contiguous run of the global list |
| Tables.Table.Store | src/table.c:67-72 | the value overwrites the entry in place, the keys stay, and `size` is incremented |
| Tables.Table.Stored | src/table.c:67-72 | overwriting one entry's value keeps the table invariant |
| Tables.Table.Free | src/table.c:14-30 | walking from `head`, each entry's name loses exactly the one reference the entry took |
| Tables.Table.Release | src/table.c:15-25 | the release loop visits each list entry once and ends with a null head |
| TableShape.SlotOf | src/table.c:33 | a name's bucket is its hash modulo `numBuckets`, always a valid index |
| TableShape.RunsAreContiguous | src/table.c:57-64 | the entries of a bucket sit next to each other in the global list |
| TableShape.PrependKeepsRuns | src/table.c:57-60 | putting the first entry of an empty bucket at the front of the list keeps every bucket a run |
| TableShape.InsertAfterKeepsRuns | src/table.c:61-64 | linking an entry right after its bucket's first entry keeps every bucket a run |
| TableShape.DistinctInsert | src/table.c:46-47 | a new entry is only created for a name not yet present, so names stay distinct |
| TableShape.MapOfPut | src/table.c:67-71 | storing into the name's entry maps the name to the value and leaves every other name as it was |
| TableShape.Bucket.constructor | src/table.c:49-52 | a new entry has the given name and successor and holds NULL |
| TableShape.ScanRun | src/table.c:34-42 | the scan stops at the entry whose name compares equal, and reports not-found as soon as the next entry hashes to another bucket |
| TableShape.ChainedPrepend | src/table.c:59-60 | a new head whose successor is the old head keeps the list chained |
| TableShape.ChainedInsertAfter | src/table.c:62-63 | an entry spliced in after another keeps the list chained |
| Parser.Look | src/lexer.h:47-49 | the lookahead is the token at the cursor, and TK_EOF once the stream is exhausted |
| Parser.Leaf | src/parser.c:24-38 | an identifier or literal token becomes a childless IDENT or VALUE node |
| Parser.OpNode | src/parser.c:40-45 | an operator node gets one empty operand slot for the unary types (NOT, NEGATE) and two for all others |
| Parser.Prec | src/parser.c:115-122 | a node's precedence is 999 unless it is an operator with a table row |
| Parser.LastKid | src/parser.c:229-233 | `children[numNodes - 1]` is the last child, or NULL when there is none |
| Parser.ExprSpec | src/parser.c:130-248 | parseExpression never moves the lookahead backwards or past the end |
| Parser.Climbing | src/parser.c:141-245 | each turn of the loop consumes tokens and never moves past the end |
| Parser.LetSpec | src/parser.c:250-299 | parseLet only moves the lookahead forwards |
| Parser.Declaring | src/parser.c:256-296 | the declaration loop only moves the lookahead forwards |
| Parser.StmtSpec | src/parser.c:301-326 | a statement that is not an ERROR consumes at least its `;`, so parseBlock always progresses |
| Parser.Blocking | src/parser.c:331-345 | the block loop only moves the lookahead forwards |
| Parser.GraftOperator | src/parser.c:213-238 | an operator after an operand joins the tree as Graft says, and an operand is expected next |
| Parser.Graft | src/parser.c:213-238 | the corrected graft: a leaf or a parenthesised operand at the root becomes the new operator's first operand with the second slot open, and every graft leaves a tail and expects an operand |
| Parser.GraftAsWritten | src/parser.c:213-238 | as written, only a leaf at the root is taken as the operand; for every tree not rooted at a PASS node it agrees with Graft |
| Parser.ParseExpression | src/parser.c:130-248 | the procedure, with its tree, tail and expect variables, computes ExprSpec |
| Parser.ParseLet | src/parser.c:250-299 | the procedure computes LetSpec |
| Parser.ParseStatement | src/parser.c:301-326 | the procedure computes StmtSpec |
| Parser.ParseBlock | src/parser.c:328-346 | the procedure computes Blocking from an empty block |
| Parser.GenerateTree | src/parser.c:348-352 | the whole stream is parsed as one block ending at TK_EOF |
| ParserFacts.FillCompletes | src/parser.c:178-182 | an operand put in the open slot completes the tree |
| ParserFacts.FillOpens | src/parser.c:190-196 | a prefix operator put in the open slot moves the open slot one step down, into the operator |
| ParserFacts.InsertOpens | src/parser.c:233-235 | an operator inserted on the spine takes the complete subtree there as its first operand and leaves its second slot open |
| ParserFacts.WalkOpens | src/parser.c:229-231 | the walk down the right spine stops on a node of the complete tree |
| ParserFacts.GraftShaped | src/parser.c:213-238 | an operator after an operand keeps the tree well shaped, and is placed whenever it has a table row |
| ParserFacts.ExprShape | src/parser.c:130-248 | a parsed expression is complete unless the stream ended inside it, and parsing is defined whenever no token carries the PASS tag |
| ParserFacts.ClimbingShape | src/parser.c:141-245 | the same for the loop, from any well-shaped state |
| ParserFacts.OperandShape | src/parser.c:144-209 | the same for a turn where an operand is expected |
| ParserFacts.ParenShape | src/parser.c:150-176 | the same for a parenthesised operand |
| ParserFacts.ExprNull | src/parser.c:140 | parseExpression returns NULL without consuming anything exactly when the lookahead cannot start an expression; otherwise it returns a node |
| ParserFacts.KeepsTree | src/parser.c:178-183 | once the tree holds a node, the loop never returns NULL |
| ParserFacts.StepLeaf | src/parser.c:146-183 | an identifier or literal goes into the open slot and an operator is expected next |
| ParserFacts.StepOperator | src/parser.c:213-238 | an operator after an operand is grafted and an operand is expected next |
| ParserFacts.StepUnary | src/parser.c:184-197 | `-` in operand position becomes a one-child NEGATE node, and an operand is still expected |
| ParserFacts.StepParen | src/parser.c:150-183 | a parenthesised expression closed by `)` is hung under a PASS node and placed like an operand |
| ParserFacts.RootedBinary | src/parser.c:219-220 | the new root takes the old tree as its first child and leaves the second open |
| ParserFacts.FirstGroup | src/parser.c:213-221 | `x o1 y` builds `o1(x, y)` with the lookahead on the fourth token |
| ParserFacts.SecondOperator | src/parser.c:218-235 | a "right"-tagged second operator whose precedence is at most the root's becomes the new root over the first group; otherwise it takes the right operand `y` |
| ParserFacts.ThreeOperands | src/parser.c:218-235 | `x o1 y o2 z` groups as `(x o1 y) o2 z` exactly when `o2` is "right"-tagged and binds no tighter than `o1`, else as `x o1 (y o2 z)` |
| ParserFacts.NegatedOperand | src/parser.c:187-197 | `x o - y` parses as `o(x, NEGATE(y))` |
| ParserFacts.ParenThenAssign | src/parser.c:218-226 | `( x ) = y`: as written, the "left"-tagged `=` goes to the NULL tail; the corrected graft makes it the root over the PASS node |
| ParserFacts.DeclaringShape | src/parser.c:256-296 | every declaration in the list is a complete tree, and the loop is defined without PASS-tagged tokens |
| ParserFacts.StmtShape | src/parser.c:301-326 | a statement is NULL or complete, and is defined without PASS-tagged tokens |
| ParserFacts.BlockShape | src/parser.c:328-346 | every statement of a block is complete, and the loop is defined without PASS-tagged tokens |
| ParserFacts.GenerateTreeSound | src/parser.c:348-352 | `_winter_generateTree` on a stream without a PASS-tagged token returns a tree, never undefined behaviour |
| ParserCases.MissingOperand | src/parser.c:199-208 | a non-expression after an operator gives ERROR "expected an expression" and discards the tree |
| ParserCases.UnclosedParen | src/parser.c:166-172 | an unclosed `(` gives ERROR "expected closing parenthesis" in place of the partial tree |
| ParserCases.MissingSemicolon | src/parser.c:317-323 | a statement not followed by `;` becomes ERROR "expected a semicolon" |
| ParserCases.ErrorAbortsBlock | src/parser.c:333-337 | the first ERROR statement is returned in place of the block, which is discarded; `let` before a non-identifier is ERROR "expected an identifier" |
| ParserCases.SubtractionGroupsLeft | src/parser.c:218-221 | `10 - 3 - 2` parses as `(10 - 3) - 2` |
| ParserCases.PowerGroupsRight | src/parser.c:225-235 | `2 ** 3 ** 2` parses as `2 ** (3 ** 2)` |
| Evaluator.Apply | src/parser.c:393-406 | the PASS node hands its operand on; an operator whose table row has no function is a type error; the table keeps its names, and only an assignment to a reference into it changes a binding |
| Evaluator.Call | src/parser.c:401-405 | a call is defined exactly when C's arithmetic on the operands is (no signed overflow, no division by zero); every operation but the assignment leaves the table as it was |
| Evaluator.Assign | src/parser.c:99 | the AST_ASSIGN row: a reference to a bound slot gets the right operand stored in that slot and stays the node's value, every other binding kept; any other target is a type error leaving the table as it was |
| Evaluator.ApplyAsWritten | src/parser.c:396-405 | as written, the call agrees with Apply on every tag with a table row |
| Evaluator.Settle | src/parser.c:408-418 | a failed call turns the node into a childless "incompatible type" ERROR, a successful one into a childless VALUE holding the result; the table is the one the call left |
| Evaluator.LetKeyAsWritten | src/parser.c:434-448 | as written, `name = value` declarations take the identifier as key, like the corrected LetKey |
| Evaluator.Eval | src/parser.c:355-481 | walkTree as a function of the tree and the table, the reference the procedure is proved against: a walk never removes a name |
| Evaluator.WalkTree | src/parser.c:355-481 | the procedure computes Eval, the node and the table after the walk, assignments' writes included |
| EvalFacts.EvalKeeps | src/parser.c:355-481 | a walk never removes a name; it rebinds one only through an assignment node and adds one only through a declaration, so a tree with neither leaves the table as it was |
| EvalFacts.BlockKeeps | src/parser.c:356-365 | the same for the statements of a block: names only grow, bindings change only when a statement assigns, names are added only when one declares |
| EvalFacts.LetKeeps | src/parser.c:429-463 | a declaration never removes a name, and changes an earlier binding only when one of its initialisers assigns |
| EvalFacts.DeclareKeeps | src/parser.c:449-459 | binding a new name keeps every name, and every earlier binding unless a later initialiser assigns |
| EvalFacts.AssignWrites | src/parser.c:464-477 | `name = e` with `name` bound stores e's value in the slot of `name` through the reference the identifier evaluates to; the node holds that reference |
| EvalFacts.AssignToValue | src/parser.c:99 | assigning to a value that is not a reference is "incompatible type" and leaves the table as it was |
| EvalFacts.DeclareThenAssign | src/parser.c:355-481 | `let name = v; name = w;` ends with `name` bound to `w` and the block's value the reference to it |
| EvalFacts.StatementResult | src/parser.c:355-481 | a statement that does not run into undefined behaviour evaluates to a VALUE or an ERROR node |
| EvalFacts.LetResult | src/parser.c:429-463 | a declaration ends in a VALUE holding NULL, or in the error that stopped it |
| EvalFacts.BlockResult | src/parser.c:356-365 | a block evaluates to its last statement's value or its first error |
| EvalFacts.DeclareName | src/parser.c:449-463 | `let name;` binds the name to NULL, or is a "mutiple declarations" error leaving the table as it was |
| EvalFacts.DeclareWithValue | src/parser.c:434-457 | `let name = e;` binds the name to the value of `e`, evaluated first |
| EvalFacts.DeclareTwice | src/parser.c:450-455 | `let name, name;` binds the name once and then fails on the second, keeping the first binding |
| EvalFacts.ParenTransparent | src/parser.c:425-428 | parentheses hand on the value or the error of what they enclose |
| EvalFacts.PassAsWritten | src/parser.c:396-398 | as written, PASS reaches the operator branch and `function(AST_PASS)` reads below the table; the corrected call hands the operand on |
| EvalFacts.LetKeyWritten | src/parser.c:446-448 | as written, `let name;` takes the LET node's unset value as key; the corrected key is the name |
| EvalFacts.ReferenceArithmetic | src/parser.c:464-478 | an identifier evaluates to a reference, which the arithmetic rejects: `let n = v; n + w;` is "incompatible type" |
| EvalFacts.ParsedArithmetic | src/parser.c:355-417 | `x + y * z` on integer literals parses and evaluates to `x + y*z` |
| EvalFacts.SumOfProduct | src/parser.c:218-235 | `x + y * z` parses as a sum whose right operand is the product |
| EvalFacts.EvalSumOfProduct | src/parser.c:366-417 | the sum over a product evaluates to the integer it denotes |
| EvalFacts.LiteralValue | src/parser.c:479-480 | a literal leaf evaluates to its own value |
| EvalFacts.EvalBinary | src/parser.c:366-417 | `+` and `*` over two integer values store the sum or product in a VALUE node |
| EvalCases.LeftErrorPropagates | src/parser.c:372-377 | an ERROR from the first operand is returned as the operator's result |
| EvalCases.RightErrorPropagates | src/parser.c:379-388 | an ERROR from the second operand is returned as the result |
| EvalCases.MissingFunction | src/parser.c:398-413 | an operator with a NULL function gives ERROR "incompatible type" |
| EvalCases.IdentifierLookup | src/parser.c:464-478 | a bound identifier becomes a VALUE Reference to its slot; an unbound one gives ERROR "undeclared identifier" |
| EvalCases.BlockStopsAtError | src/parser.c:356-365 | a block stops at its first ERROR and returns it |
| Lexer.Span | src/lexer.c:133-143 | the run of one character class from `i`: every character in it belongs to the class, the one after it does not, and a non-empty run stays inside the source |
| Lexer.SymbolTables | src/lexer.c:58-66 | every three-character symbol has three characters and every two-character one two, none holding the terminator |
| Lexer.SpelledInside | src/lexer.c:69-83 | a non-empty word without a terminator that the source spells at `pos` ends inside the source |
| Lexer.Advance | src/lexer.c:30-36 | one whitespace step: the offset moves by one; a newline bumps the line and resets the column, any other character bumps the column |
| Lexer.SpaceRun | src/lexer.c:30-37 | the whitespace loop stops at a non-space character and never leaves the source |
| Lexer.LineRest | src/lexer.c:17-20 | the rest of a `//` comment ends at a newline or the terminator, on the same line, inside the source |
| Lexer.Comment | src/lexer.c:14-27 | skipComments skips exactly when the cursor is at `//`, moving at least two characters and staying on the line |
| Lexer.Skip | src/lexer.c:28-39 | skipWhitespace ends where neither whitespace nor a comment starts, at or after the cursor and inside the source |
| Lexer.KeywordIn | src/lexer.c:46-56 | a keyword among the first `n` found at `pos` is at least two characters long and ends inside the source |
| Lexer.KeywordScan | src/lexer.c:46-56 | lexKeyword: a keyword found is at least two characters long and ends inside the source |
| Lexer.IdentScan | src/lexer.c:133-144 | lexIdent succeeds exactly at a letter or `_`, and the identifier ends inside the source |
| Lexer.NumberScan | src/lexer.c:96-118 | lexNumber succeeds exactly at a digit, and the number ends inside the source |
| Lexer.StringEnd | src/lexer.c:120-131 | the corrected literal scan stops at the terminator or just after an unescaped closing quote |
| Lexer.StringScan | src/lexer.c:120-131 | lexString succeeds exactly at `"`, and the literal ends inside the source |
| Lexer.FirstAt | src/lexer.c:69-83 | the first table entry spelled at `pos`: it is spelled there and no earlier entry is |
| Lexer.SymbolScan | src/lexer.c:68-94 | lexSymbol: a symbol found before the terminator ends inside the source |
| Lexer.Classify | src/lexer.c:146-165 | the lookahead is EOF with length 0 exactly at the terminator; otherwise it has at least one character and ends inside the source |
| Lexer.Lexer.constructor | src/lexer.h:40-45 | a fresh scanner state over the source: cursor, current and lookahead all zero |
| Lexer.Lexer.SkipComments | src/lexer.c:14-27 | reports a comment exactly when Comment does and leaves the cursor where Comment says |
| Lexer.Lexer.SkipWhitespace | src/lexer.c:28-39 | the loops leave the cursor at Skip of the old cursor |
| Lexer.Lexer.LexNext | src/lexer.c:146-167 | the old lookahead becomes current and its length is returned; the new lookahead is Classify at the skipped cursor, which then moves past it |
| Lexer.LexKeyword | src/lexer.c:46-56 | the keyword loop computes KeywordScan |
| Lexer.RunFrom | src/lexer.c:137-139 | the character loop computes Span |
| Lexer.LexIdent | src/lexer.c:133-144 | the identifier loop computes IdentScan |
| Lexer.LexNumber | src/lexer.c:96-118 | the digit loops compute NumberScan |
| Lexer.LexString | src/lexer.c:120-131 | the literal loop computes StringScan, with the escape handled |
| Lexer.FindAt | src/lexer.c:69-83 | the table loop computes FirstAt |
| Lexer.LexSymbol | src/lexer.c:68-94 | the three symbol loops compute SymbolScan |
| Lexer.IsSymbol | src/lexer.c:85-91 | the single-character loop finds `c` exactly when it is in the symbol array, terminator included |
| Lexer.LineAsWritten | src/lexer.c:17-20 | the as-written `//` loop, where it stops at all, stops where the corrected one does |
| Lexer.CommentAsWritten | src/lexer.c:14-27 | skipComments as written reports a comment for any `/`; at `//` it moves where the corrected Comment does, and elsewhere it does not move |
| Lexer.WhitespaceTurnAsWritten | src/lexer.c:28-39 | one turn of the as-written do-while never moves backwards, and it ends the loop only on a character that is neither whitespace nor `/` |
| Lexer.StringEndAsWritten | src/lexer.c:120-131 | the as-written literal scan stops at the terminator or just after a quote, never before its start |
| LexerFacts.KeywordFound | src/lexer.c:46-56 | lexKeyword finds a keyword exactly when one is spelled at `pos` followed by a non-identifier character, and then finds that one |
| LexerFacts.KeywordsFrom | src/lexer.c:46-56 | the same for the first `n` keywords, by induction on `n` |
| LexerFacts.LongestSymbol | src/lexer.c:68-94 | a shorter symbol is lexed only where no longer one starts |
| LexerFacts.NextInside | src/lexer.c:146-165 | the lookahead starts after whitespace and comments, ends inside the source, and is empty exactly when it is EOF |
| LexerFacts.NewlinesConcat | src/lexer.c:33-35 | line breaks add up over concatenation |
| LexerFacts.SpaceRunLines | src/lexer.c:30-37 | the whitespace loop adds to the line number exactly the line breaks it passes |
| LexerFacts.LineRestLines | src/lexer.c:17-20 | a `//` comment passes no line break |
| LexerFacts.SkipLines | src/lexer.c:28-39 | skipWhitespace adds to the line number exactly the line breaks it passes |
| LexerFacts.LoneSlash | src/lexer.c:15-24 | as written, a `/` without a second `/` reports a comment without moving; corrected, nothing is skipped and `/` is lexed as a symbol |
| LexerFacts.TrailingComment | src/lexer.c:17-20 | as written, a `//` comment running to the end reads past the terminator; corrected, it ends at the end of the source |
| LexerFacts.EscapedQuote | src/lexer.c:124-125 | as written, `"a\"b"` ends at the escaped quote; corrected, it is lexed whole |
| LexerFacts.KeywordOrIdent | src/lexer.c:154 | `if` before a space is the keyword, but `iffy` is one identifier |
| LexerFacts.SpanIsRun | src/lexer.c:104-108 | each `while` loop of lexNumber stops at the first character outside its class, whichever run it scans |
| LexerFacts.NumberMaximal | src/lexer.c:96-118 | for every input starting with a digit, the number is maximal: after `0x` and a hex digit, the whole hex run, which no hex digit follows; otherwise the whole digit run, then, if a `.` follows it, the `.` and the whole digit run after it as a float; an integer ends exactly where its digits do |
| LexerFacts.StringEndCloses | src/lexer.c:120-131 | the corrected literal scan stops just past a `"` that closes a well-formed body (escapes paired, no unescaped `"`), or at the terminator after such a body, possibly with one lone backslash before it |
| LexerFacts.StringEndAtQuote | src/lexer.c:123-126 | the first `"` after a well-formed body closes the literal there |
| LexerFacts.StringEndAtNul | src/lexer.c:123 | a well-formed body that runs into the terminator ends the literal at the terminator |
| LexerFacts.StringMaximal | src/lexer.c:120-131 | for every input starting with `"`, lexString gives a TK_STRING that ends just after the first unescaped `"`, or at the terminator when there is none |
| LexerFacts.NumberForms | src/lexer.c:103-113 | `0x1F` is one hex integer, `0x` without a digit stops after the `0`, and `12.5` is a float |
| WObjects.Arith | src/wobject.c:39-108 | Add, Sub, Mul and Div succeed exactly for two numbers: two integers give the integer result with C's truncating division, any other pair a float |
| WObjects.ToInt | src/wobject.c:13-26 | the conversion succeeds exactly for a number and then gives an INT-tagged object |
| WObjects.ToIntAsWritten | src/wobject.c:13-26 | as written the conversion succeeds exactly for a number and keeps the operand's own tag |
| WObjects.Negate | src/wobject.c:125-137 | negation succeeds exactly for a number |
| WObjects.Not | src/wobject.c:139-147 | logical not succeeds exactly for a number |
| WObjects.Step | src/wobject.c:161-187 | pre-increment and pre-decrement succeed exactly for a number |
| WObjects.ObjectToInt | src/wobject.c:13-26 | returns 1 exactly when ToInt succeeds, and then `dest` holds its result; otherwise `dest` is untouched |
| WObjects.ObjectArith | src/wobject.c:39-108 | returns 1 exactly when Arith succeeds, and then `dest` holds its result; otherwise `dest` is untouched |
| WObjects.ObjectMod | src/wobject.c:111-123 | returns 1 exactly when Modulo succeeds, and then `dest` holds its result; otherwise `dest` is untouched |
| WObjects.Modulo | src/wobject.c:111-123 | defined for two integers or when either operand is a float; an integer remainder is smaller than the divisor, and a float operand gives float 0 |
| WObjects.ObjectNegate | src/wobject.c:125-137 | returns 1 exactly when Negate succeeds, and then `dest` holds its result; otherwise `dest` is untouched |
| WObjects.ObjectNot | src/wobject.c:139-147 | returns 1 exactly when Not succeeds, and then `dest` holds its result; otherwise `dest` is untouched |
| WObjects.ObjectEqual | src/wobject.c:149-153 | always returns 1 with `dest` holding Equal of the operands |
| WObjects.Equal | src/wobject.c:149-153 | an INT holding 1 exactly when the unions' integers agree and 0 otherwise |
| WObjects.ObjectAssign | src/wobject.c:155-159 | always returns 1 with both `a` and `dest` holding `b` |
| WObjects.ObjectStep | src/wobject.c:161-187 | returns 1 exactly when Step succeeds, and then `a` and `dest` both hold the new value; otherwise both are untouched |
| WObjects.Double | src/wobject.c:39-55 | with `a` passed as every operand, `a = a + a` doubles an integer and leaves a non-number as it was |
| WObjects.SubUndoesAdd | src/wobject.c:39-72 | two integers add to their sum, and subtracting the second gives the first back |
| WObjects.DivMod | src/wobject.c:93-123 | integer Div and Mod satisfy C's identity `(x / y) * y + x % y == x` |
| WObjects.FloatOperands | src/wobject.c:39-123 | a float operand makes every number pair a float and every non-number pair a failure; Mod gives float 0 |
| WObjects.NegateTwice | src/wobject.c:125-137 | negating an integer twice gives it back |
| WObjects.NotTwice | src/wobject.c:139-147 | Not is 1 exactly for zero, and Not twice normalises to 0 or 1 |
| WObjects.EqualBits | src/wobject.c:149-153 | Equal is reflexive and symmetric and is 1 exactly when the unions agree |
| WObjects.DecUndoesInc | src/wobject.c:161-187 | pre-decrement undoes pre-increment |
| WObjects.FloatToInt | src/wobject.c:19-22 | as written, a converted float keeps the FLOAT tag; corrected, it is INT-tagged |
| WTables.SlotOf | src/wtable.c:32-34 | the bucket index is below the bucket count |
| WTables.WTable.Alloc | src/wtable.c:24-30 | a new table has `initial` empty buckets and size 0 |
| WTables.WTable.GetBucket | src/wtable.c:32-40 | getBucket returns the slot of the name's hash modulo the bucket count, whoever holds it |
| WTables.WTable.InsertInt | src/wtable.c:42-48 | the buckets become Insert of the old buckets |
| WTables.WTable.ToInt | src/wtable.c:50-64 | the result is Lookup of the buckets |
| WTables.Insert | src/wtable.c:42-48 | the bucket count is kept and the name's bucket holds the integer afterwards |
| WTables.Lookup | src/wtable.c:50-64 | a value exactly when the name's bucket holds an integer |
| WTables.ReadAfterInsert | src/wtable.c:42-60 | a value inserted under a name reads back under that name |
| WTables.InsertFrame | src/wtable.c:42-48 | an insert keeps the bucket count, every name, and every bucket of a different slot |
| WTables.Collision | src/wtable.c:32-40 | two names in one slot share a bucket: the later insert overwrites the earlier |
| WTables.SingleBucket | src/wtable.c:32-40 | with one bucket, "b" overwrites "a" |
| WTables.FreshTable | src/wtable.c:50-60 | reading from a fresh table fails the assert |
| WTokens.AstAlignment | src/wparser.h:11-25 | the arithmetic tokens map to the node types of the same names, and `(` lies below every node type the parser builds |
| WParse.Precedence | src/wparse.c:17-35 | every operator has precedence -1, 0 or 1 |
| WParse.Kinds | src/wparse.c:84-130 | one token type per token |
| WParse.Combine | src/wparse.c:89-98 | one reduction pops one operator and leaves one expression fewer, keeping the stacks' well-formedness |
| WParse.ReduceAbove | src/wparse.c:88-99 | the reductions before a push leave one expression more than operators, keep a prefix of the operators, and stop where the top operator binds less tightly than `p` |
| WParse.ReduceAll | src/wparse.c:103-114 | with one expression more than operators everything reduces to one expression; with as many it pops an empty stack |
| WParse.RisingBound | src/wparse.c:88-100 | operators of precedence at most `hi` stack at most `hi + 2` deep |
| WParse.StacksBounded | src/wparse.c:73-77 | the operator stack never holds more than 3 entries and the expression stack more than 4, far below 8 and 16 |
| WParse.PushOperator | src/wparse.c:100-101 | pushing an operator after the reductions keeps the stacks good |
| WParse.PushLeaf | src/wparse.c:120-122 | pushing a leaf in expression position keeps the stacks good |
| WParse.Reduce | src/wparse.c:89-98 | the array reduction is Combine of the stacks |
| WParse.ReduceAllInPlace | src/wparse.c:131-142 | the reduce-everything loop succeeds exactly when ReduceAll does and leaves its stacks |
| WParse.ReduceAboveInPlace | src/wparse.c:88-99 | the array loop leaves ReduceAbove of the stacks |
| WParse.Push | src/wparse.c:100 | the stack grows by exactly `x` on top |
| WParse.RunEnds | src/wparse.c:102-116 | at the end of input, or at a non-operator where an operator is expected, the parse finishes with the stacks it has |
| WParse.RunOperator | src/wparse.c:87-101 | an operator in operator position reduces, is pushed, and the loop goes on expecting an expression |
| WParse.RunExpression | src/wparse.c:119-122 | an expression in expression position is pushed as a leaf and the loop goes on expecting an operator |
| WParse.OperatorInPlace | src/wparse.c:87-101 | the array step leaves ReduceAbove followed by the push, and the stacks stay good |
| WParse.ExpressionInPlace | src/wparse.c:120-122 | the array step pushes the leaf and the stacks stay good |
| WParse.FinishInPlace | src/wparse.c:103-115 | the array finish returns Finish of the stacks |
| WParse.ParseExpression | src/wparse.c:67-146 | the array parser returns Parse of its token stream |
| WParse.Parse | src/wparse.c:67-146 | parseExpression as a function of the tokens, the reference the array parser is proved against: NULL exactly for no tokens, and an abort when the first token is not an expression |
| WParse.Compute | src/wparse.c:160-174 | corrected, `%` gives C's remainder where it is defined |
| WParse.ComputeAsWritten | src/wparse.c:160-174 | as written every operator but `%` computes as corrected, and `%` leaves the node's own value |
| WParse.Execute | src/wparse.c:156-180 | a leaf executes to itself; an operator node becomes an INT leaf |
| WParseFacts.KindsPrefix | src/wparse.c:84-130 | the types of a prefix are a prefix of the types |
| WParseFacts.KindsStep | src/wparse.c:84-130 | one token more adds its type |
| WParseFacts.CombineYield | src/wparse.c:89-98 | a reduction does not change what the stacks have read |
| WParseFacts.ReduceAboveYield | src/wparse.c:88-99 | nor do the reductions before a push |
| WParseFacts.ReduceAllYield | src/wparse.c:131-142 | the tree of a full reduction reads what the stacks read |
| WParseFacts.PushLeafYield | src/wparse.c:120-122 | pushing a leaf reads one more token |
| WParseFacts.PushOperatorYield | src/wparse.c:100 | pushing an operator reads one more token |
| WParseFacts.FinishYield | src/wparse.c:103-115 | a finished parse returns a well-formed tree reading what the stacks read |
| WParseFacts.RunYield | src/wparse.c:84-143 | the loop keeps the stacks' reading equal to the tokens consumed |
| WParseFacts.ParseReadsInput | src/wparse.c:67-146 | a parsed tree is well formed and, read left to right, is a prefix of the input's token types |
| WParseFacts.ThreeOperandsPrefix | src/wparse.c:84-130 | `x o1 y` goes onto the stacks as it comes |
| WParseFacts.LastOperand | src/wparse.c:119-143 | an operand as the last token ends the parse with a full reduction |
| WParseFacts.LeftGroupsFirst | src/wparse.c:88-99 | when `o1` binds at least as tightly as `o2`, `x o1 y o2 z` is `(x o1 y) o2 z` |
| WParseFacts.ReduceFirst | src/wparse.c:88-99 | an operator binding at least as tightly as the next is reduced before the push |
| WParseFacts.ReduceOne | src/wparse.c:131-142 | one pending operator reduces over two expressions |
| WParseFacts.ReduceTwo | src/wparse.c:131-142 | two pending operators nest the later on the right |
| WParseFacts.RightGroupsFirst | src/wparse.c:88-100 | when `o2` binds more tightly, `x o1 y o2 z` is `x o1 (y o2 z)` |
| WParseFacts.ThreeOperands | src/wparse.c:84-143 | the two groupings of three operands, by precedence |
| WParseFacts.ErrorPaths | src/wparse.c:71-145 | no token gives NULL, a leading operator fails the assert, and a trailing operator pops an empty expression stack |
| WParseFacts.StopsEarly | src/wparse.c:102-115 | a non-operator after an operand ends the parse with that operand; later tokens are never read |
| WParseFacts.IntLeaf | src/wparse.c:45-65 | an INT token's node is a well-formed leaf holding its value |
| WParseFacts.SumTree | src/wparse.c:88-100 | the tree of `x + y * z` is well formed |
| WParseFacts.DifferenceTree | src/wparse.c:88-100 | the tree of `x - y - z` is well formed |
| WParseFacts.SumOfProduct | src/wparse.c:67-180 | `x + y * z` parses with the product below the sum and executes to `x + y * z` |
| WParseFacts.DifferenceGroupsLeft | src/wparse.c:67-180 | `x - y - z` groups to the left and executes to `x - y - z` |
| WParseFacts.ModTree | src/wparse.c:89-98 | the tree of `x % y` is well formed |
| WParseFacts.Remainder | src/wparse.c:160-174 | as written `x % y` executes to an INT node without a value; corrected, to C's remainder |
| WParser.PrecedenceTable | src/wparser.c:25-51 | the precedence table gives 2 to `+ -`, 3 to `* / %` and 0 to every other entry, and it covers `(` and every operator |
| WParser.Combine | src/wparser.c:78-87 | one reduction succeeds exactly when two expressions are stacked, pops one operator and leaves one expression fewer |
| WParser.ReduceAbove | src/wparser.c:75-89 | the reductions before a push keep a prefix of the operators and stop where the top one binds less tightly than `p` |
| WParser.CloseParen | src/wparser.c:93-107 | a `)` pops operators down to the nearest `(` and drops it |
| WParser.ReduceAll | src/wparser.c:111-122 | the final loop empties the operator stack, and succeeds exactly when there are more expressions than operators or no operators |
| WParser.PushOp | src/wparser.c:65 | a push succeeds exactly while the operator array has room |
| WParser.Step | src/wparser.c:64-108 | one token keeps both stacks within their twenty entries |
| WParser.Reduce | src/wparser.c:78-87 | the array reduction is Combine of the stacks |
| WParser.ReduceAboveStep | src/wparser.c:77-88 | one pass of the reduce loop, for a stack that reduces |
| WParser.CloseParenStep | src/wparser.c:94-105 | one pass of the `)` loop, for a top that is not `(` |
| WParser.ReduceAboveInPlace | src/wparser.c:75-89 | the array loop succeeds exactly when ReduceAbove does and leaves its stacks |
| WParser.CloseParenInPlace | src/wparser.c:93-107 | the array loop succeeds exactly when CloseParen does and leaves its stacks |
| WParser.ReduceAllInPlace | src/wparser.c:111-122 | the final array loop succeeds exactly when ReduceAll does and leaves its stacks |
| WParser.OperatorInPlace | src/wparser.c:74-91 | an operator on the arrays is ReduceAbove followed by the push |
| WParser.StepInPlace | src/wparser.c:64-108 | one token on the arrays succeeds exactly when Step does and leaves its stacks |
| WParser.FinishInPlace | src/wparser.c:111-124 | the end of the array parse returns Finish of the stacks |
| WParser.RunStep | src/wparser.c:63-109 | one pass of the token loop: the step, then the rest of the tokens |
| WParser.ParseExpression | src/wparser.c:53-125 | the array parser returns Parse of its token stream |
| WParser.Parse | src/wparser.c:53-125 | parseExpression as a function of the tokens, the reference the array parser is proved against: an empty stream reads below the expression stack |
| WParser.Apply | src/wparser.c:131-146 | `+ - * /` give the INT leaf of the C result where it is defined; `%` aborts as written and gives the INT leaf of C's remainder when corrected; any other node type aborts |
| WParser.Execute | src/wparser.c:127-152 | an AST_INT node executes to itself, and any result is an AST_INT leaf with a value |
| WParserFacts.CombineValid | src/wparser.c:78-87 | a reduction keeps the stacks valid |
| WParserFacts.ReduceAboveValid | src/wparser.c:75-89 | the reductions before a push keep the stacks valid |
| WParserFacts.CloseParenValid | src/wparser.c:93-107 | a `)` keeps the stacks valid |
| WParserFacts.ReduceAllValid | src/wparser.c:111-122 | the final loop keeps the stacks valid |
| WParserFacts.StepValid | src/wparser.c:64-108 | one token keeps the stacks valid |
| WParserFacts.RunValid | src/wparser.c:63-124 | a tree the loop returns from valid stacks is well formed |
| WParserFacts.ParseWellFormed | src/wparser.c:53-152 | every tree the parser returns can be walked by `_winter_executeAST` |
| WParserFacts.Relevant | src/wparser.c:64-108 | the tokens the loop acts on are no more than the input |
| WParserFacts.RunSuffix | src/wparser.c:63 | the loop from token `i` reads only the tokens from `i` on |
| WParserFacts.SkipsUnknown | src/wparser.c:64-108 | tokens of no handled type are skipped: the parse is that of the handled tokens alone |
| WParserFacts.EmptyInput | src/wparser.c:124 | no token reads `expressions[-1]` |
| WParserFacts.UnmatchedClose | src/wparser.c:94 | a `)` with no `(` below it reads `operators[-1]` |
| WParserFacts.MissingOperand | src/wparser.c:111-114 | an operator with one operand pops below the expression stack |
| WParserFacts.Nesting | src/wparser.c:56-65 | `(` after `(` fills the operator array and the next one overruns it |
| WParserFacts.DeepNesting | src/wparser.c:56-65 | twenty-one `(` in a row write past the end of `operators` |
| WParserFacts.Advance | src/wparser.c:63-109 | a step that succeeds moves the loop one token on |
| WParserFacts.StepInt | src/wparser.c:67-72 | an INT token pushes its leaf |
| WParserFacts.StepPush | src/wparser.c:74-91 | an operator over a looser one, or none, is pushed as it is |
| WParserFacts.CombineTop | src/wparser.c:78-87 | one reduction joins the top two expressions under the top operator |
| WParserFacts.SingleCombine | src/wparser.c:78-87 | the same on a single operator |
| WParserFacts.StepReduceOnce | src/wparser.c:75-91 | an operator over a tighter-or-equal one reduces it first |
| WParserFacts.StepClose | src/wparser.c:93-107 | a `)` over `( l o r` leaves their node |
| WParserFacts.FinishOne | src/wparser.c:111-124 | the end of input over one pending operator returns its node |
| WParserFacts.FinishTwo | src/wparser.c:111-124 | the end of input over two pending operators nests the later on the right |
| WParserFacts.ParenthesesGroup | src/wparser.c:53-125 | `(x + y) * z` makes the sum the left operand of the product |
| WParserFacts.ProductBindsTighter | src/wparser.c:53-125 | `x + y * z` makes the product the right operand of the sum |
| WParserFacts.DifferenceGroupsLeft | src/wparser.c:53-125 | `x - y - z` groups to the left |
| WParserFacts.ExecuteGrouped | src/wparser.c:127-152 | the tree of `(x + y) * z` executes to `(x + y) * z` |
| WParserFacts.Remainder | src/wparser.c:131-145 | as written `x % y` fails the `assert(0)` of the default case; corrected, it gives C's remainder |
| WParserFacts.OtherOperatorsAbort | src/wparser.c:145 | `=` and the other operators without a case abort |
| WLex.SpaceEnd | src/wlex.c:23-25 | skipWhitespaces stops at a non-space character, inside the source |
| WLex.LineEnd | src/wlex.c:32-34 | a line comment ends at the newline or the terminator, inside the source |
| WLex.BlockEnd | src/wlex.c:36-38 | a block comment ends where no more of it lies inside, inside the source |
| WLex.CommentLength | src/wlex.c:28-42 | a comment is found exactly at `//` or `/*`, is at least two characters long and ends inside the source |
| WLex.Skip | src/wlex.c:104-109 | the skip loop stops where neither a blank nor a comment starts, at or after `pos` |
| WLex.SkipStep | src/wlex.c:104-109 | a pass that finds a comment goes on past it |
| WLex.KeywordFrom | src/wlex.c:45-57 | the keyword found from entry `i` on is one that fits at `pos` |
| WLex.KeywordSpelling | src/wlex.c:12-14 | every keyword has at least two characters and no terminator |
| WLex.KeywordFromStep | src/wlex.c:47-55 | one entry of the table: a fitting keyword is the answer, otherwise the search goes on |
| WLex.KeywordScan | src/wlex.c:45-57 | a keyword found ends inside the source |
| WLex.IdentLength | src/wlex.c:70-78 | an identifier is found exactly at a letter or `_`, ends inside the source and is followed by a character that cannot continue it |
| WLex.NumberScan | src/wlex.c:81-98 | a number is found exactly at a digit, is an INT or a FLOAT and ends inside the source; no number leaves the type unset |
| WLex.DecimalScan | src/wlex.c:89-97 | digits, and a point with more digits, make a non-empty INT or FLOAT inside the source |
| WLex.TokenAt | src/wlex.c:111-125 | a token is empty exactly at the terminator, and otherwise ends inside the source |
| WLex.Next | src/wlex.c:100-138 | nextToken starts its token after the blanks and comments, returns 0 exactly at the terminator, and the token ends inside the source |
| WLex.SkipWhitespaces | src/wlex.c:23-25 | the loop computes SpaceEnd |
| WLex.SkipComments | src/wlex.c:28-42 | the comment loops compute CommentLength |
| WLex.IsKeyword | src/wlex.c:45-57 | the table loop computes KeywordScan |
| WLex.IsSymbol | src/wlex.c:60-67 | returns 1 exactly for a character of `symbols` and 0 otherwise |
| WLex.IsIdentifier | src/wlex.c:70-78 | the loop computes IdentLength |
| WLex.IsNumber | src/wlex.c:81-98 | the loops compute NumberScan |
| WLex.IsDecimal | src/wlex.c:89-97 | the decimal loops compute DecimalScan |
| WLex.SkipBlanks | src/wlex.c:104-109 | the do-while loop computes Skip |
| WLex.Dispatch | src/wlex.c:111-125 | the dispatch computes TokenAt |
| WLex.NextToken | src/wlex.c:100-130 | returns the length and type of Next, and stores its end through `endPtr` |
| WLex.TokensEnd | src/wlex.c:140-144 | main's loop stops where nextToken returns 0 |
| WLex.TokensNext | src/wlex.c:140-144 | one pass of main's loop: the token found, then the tokens from its end |
| WLex.TokensStep | src/wlex.c:140-144 | the same pass after the tokens already printed |
| WLex.ScanAll | src/wlex.c:140-144 | the loop over a whole source yields Tokens from 0 |
| WLex.Tokens | src/wlex.c:140-144 | the tokens main prints: each non-empty, inside the source and at or after the start |
| WLexFacts.FitsFirstLetter | src/wlex.c:47-49 | a keyword that fits starts with its own first letter, one of `fdwbier` |
| WLexFacts.FirstLettersDiffer | src/wlex.c:12-14 | the seven keywords start with seven different letters |
| WLexFacts.AtMostOneFits | src/wlex.c:44-57 | at most one keyword fits at a position |
| WLexFacts.KeywordsFrom | src/wlex.c:44-57 | the search from entry `i` answers the entry that fits, and nothing when none from `i` on does |
| WLexFacts.KeywordFound | src/wlex.c:44-57 | isKeyword answers keyword `k` exactly when `k` fits, and 0 exactly when none does |
| WLexFacts.KeywordSpelled | src/wlex.c:44-57 | a keyword token is the keyword's own spelling and no word character follows it |
| WLexFacts.KeywordEndsWord | src/wlex.c:49 | corrected, the character after a keyword token cannot continue an identifier |
| WLexFacts.IdentifierIsNoKeyword | src/wlex.c:111-118 | an identifier token stands where no keyword fits, and no word character follows it |
| WLexFacts.NoKeywordStartsWith | src/wlex.c:44-57 | no keyword starts with a letter outside `fdwbier` |
| WLexFacts.KeywordSplitsWord | src/wlex.c:49 | as written, `for1` splits into the keyword `for` and the number 1 |
| WLexFacts.WordStaysWhole | src/wlex.c:49 | corrected, `for1` is one identifier |
| WLexFacts.HexConsumed | src/wlex.c:85-87 | corrected, `0x` and a hex digit make one integer that takes in every hex digit |
| WLexFacts.HexSplits | src/wlex.c:85 | as written, `0xA` splits into the number 0 and the identifier `xA` |
| WLexFacts.HexWhole | src/wlex.c:85-87 | corrected, `0xA` is one integer |
| WLexFacts.FloatLiteral | src/wlex.c:89-97 | `1.5` is one float token |
| WLexFacts.BlockBody | src/wlex.c:36-38 | everything up to the block end lies inside the comment |
| WLexFacts.BlockComment | src/wlex.c:36-38 | a block comment runs to its first star-slash, which it takes in, or to the end of an unclosed input |
| WLexFacts.LineBody | src/wlex.c:32-34 | everything up to the line end belongs to the line |
| WLexFacts.LineComment | src/wlex.c:32-34 | a line comment runs up to the newline, which it leaves in place |
| WLexFacts.UnclosedComment | src/wlex.c:36-38 | an unclosed block comment swallows the rest of the input |
| WLexFacts.CommentsSkipped | src/wlex.c:104-109 | a line comment, a blank and a block comment are all skipped |
| WLexFacts.OneCharacter | src/wlex.c:118-124 | a token that starts with no letter, `_` or digit is one character long |
| WLexFacts.TokensInOrder | src/wlex.c:140-144 | main's tokens are non-empty, lie inside the source from `pos` on, and follow one another |

## Left out

- Floating point: `winter_strtof` (src/wtype.h:64-83), `castFloat`, `toFloat` and every float payload. A Float object carries its tag only, and float results are checked by tag. The corrected Add, Sub, Mul, Div and Mod tag a float result FLOAT. As written they keep `a`'s tag, which Objects.TagAsWritten models (see Findings).
- `_winter_objectPow` of the newest interpreter is not part of this model. The evaluator takes it as a parameter.
- Evaluator.Assign: src/object.c and src/object.h neither define nor declare `_winter_objectAssign`, which the AST_ASSIGN row names (src/parser.c:99). The model writes the right operand into the slot the left operand refers to, and makes any other target a type error. The right operand is stored as walkTree passes it: a reference on the right is not followed. The reference counts the assignment would adjust are not modelled.
- Evaluator.Call: src/parser.c:390-404 calls the table's functions through the casts `binary` and `unary`, passing `state` first, but src/object.c:71-150 defines them without that parameter (`(object_t *a, object_t *b)` and `(object_t *a)`). A call through a mismatched function type is undefined in C. The model reads the call as applying the function to the two operands, and EvalFacts.EvalBinary, EvalFacts.ParsedArithmetic, EvalFacts.ReferenceArithmetic and EvalCases.MissingFunction rest on that reading.
- Reference counting, `REFCOUNT`, `_winter_objectAddRef`, `_winter_objectDelRef`, `isManaged` and `_winter_objectNewError` are not part of this model. Objects are values, and a Reference names the table slot it points at.
- Memory: allocation is fresh allocation; allocation failure, `free`, and the use-after-free and double-free paths through walkTree are not modelled. Executed children are dropped from the tree value.
- Parser.Leaf: an identifier node carries its name, `Str(name)`, and the evaluator uses that name as the table key. In C, createEprNode (src/parser.c:24-36) stores `_winter_tokenToObject`'s result, which for an identifier token is the zero object (src/object.c:40-42, Objects.TokenValue). walkTree then passes that `object_t *` where `_winter_tableGetObject` and `_winter_tableInsert` take a `wstring_t *` (src/table.h:27-28). Its error messages read the name through `value.string->data` (src/parser.c:451 and :469), so the model takes the name as the key. A lookup keyed on the zero object is not modelled. EvalCases.IdentifierLookup, the EvalFacts declaration lemmas and the Findings row for src/parser.c:446-448 rest on this reading.
- `_winter_nextToken`, used by src/wparse.c and src/wparser.c, is not part of this model. Those parsers read an input sequence of tokens.
- Token numbering: src/lexer.h declares the token tags only up to TK_EQ. TK_LET, TK_INT, TK_ADD and the other tags that src/lexer.c and src/parser.c use are declared nowhere. Tags numbers them after TK_EQ in the order of the operator table. The lemmas depend on this placement, not only on the tags being distinct:
  - every operator tag lies inside TK_LSHIFTEQ..TK_BITNOT, the isOperator range of src/parser.h:9, and indexes its own `opinfo` row;
  - TK_LET and TK_INT lie outside TK_IDENT..TK_STRING, the isExpression range of src/parser.h:15.
- WTokens: src/wparse.c and src/wparser.c use tags that src/wlex.h, the header they include, does not declare. It declares TK_UNKNOWN..TK_STRING only, with no TK_COLON and no operator tags, and it numbers TK_LPAREN 10, TK_RPAREN 11, TK_IDENT 16, TK_INT 17 and TK_FLOAT 18. The table at src/wparser.c:39-51 is indexed by `type - TK_COMMA` over the list in the comment at src/wparser.c:25-37, which puts TK_COLON after TK_SEMICOLON and the operators after TK_RCURLY. No numbering agrees with both, so the model keeps src/wlex.h's numbers up to TK_COMMA (8), then follows that comment's list: TK_LPAREN 11, TK_RPAREN 12, TK_INC 17 through TK_NOT 38. TK_IDENT, TK_INT and TK_FLOAT, which the comment does not list, follow as 39, 40 and 41. `isTKOperator`, which src/wparser.c:74 calls, is declared nowhere; the model reads it as `isOperator` of src/wparse.c:15, WTokens.IsOperator. Results that rest on this numbering:
  - WParser.PrecedenceTable and WTokens.AstAlignment;
  - the ranges of WTokens.IsOperator (TK_INC..TK_NOT) and WTokens.IsExpression (TK_IDENT, TK_INT, TK_FLOAT), which leave `(` and `)` out of both and keep IDENT, INT and FLOAT out of the operator range, and on which the WParse and WParser parses branch.
- The Lexer and Parser models are not connected, because the source itself does not connect them:
  - the lexer gives single-character symbols such as `+` their ASCII codes (src/lexer.c:85-91, src/lexer.h:8), while the parser's table expects TK_ADD and the other operator tags;
  - the lexer tags every number TK_INT (src/lexer.c:99), while the parser and `_winter_tokenToObject` expect TK_DECIMAL, TK_HEX, TK_BINARY or TK_OCTAL;
  - the lexer has no `let` keyword.
  The parser therefore reads an abstract token sequence, and nothing states that lexer output parses.
- The object type order: src/object.h:11-19 declares seven types, without the ERROR and REFERENCE that src/object.c, src/parser.c and src/test.c use. The model takes the order of src/test.c:17-23 and puts TABLE and FUNCTION after STRING, as src/object.h declares them.
- Debug and console output: src/parser.c:282 and :399, src/wparse.c:125, the token printing and its 128-byte buffer in src/wlex.c:131-136, and the REPL in src/test.c.
- State construction in src/winter.c and src/wstate.c, and error-message formatting, are not modelled. An error node carries its message as a value.
- The width of `hash_t` is not shown. Both hashes are taken as unsigned 64-bit values that wrap around.
- StrToI.WinterStrToI: the accumulator `out` is a signed `winterInt_t` (src/wtype.h:32, include/winter.h:15), so overflow in winter_strtoi is undefined in C. The model accumulates without bound and then truncates with CInt.ToInt64.
- WTables.WTable.GetBucket: the NULL branch of getBucket cannot be taken, and the model requires at least one bucket, as the modulo does.
- Tables.Table.ScanBucket: table lookups compare names with the corrected WStrings.CompareHashed. The empty-name over-read of src/wstring.c:38-39 (see Findings) is therefore not reproduced through a table lookup.
- Tables.Table.GetBucket: requires at least one bucket, because `hash % numBuckets` is undefined for zero buckets.
- The TOKEN_* type numbers of src/wlex.c are declared nowhere in that snapshot. The model names them as the constructors of a datatype.
- WObjects.Arith: integer overflow and division by zero are undefined in C, so they are excluded by the `Defined` requirement rather than given a result.
- WLex: the `int comment` of nextToken, which narrows a `size_t`, is taken as the comment length. No comment in a source of modelled size overflows it.
- WLex: the `operators[]` table of src/wlex.c is never read, and is left out.
- The `main` of src/wlex.c is modelled as the loop WLex.ScanAll over a given source, not over its fixed string.

## Findings

| source | as written | input that shows it | evidently intended | confidence | as-written member | corrected member |
|---|---|---|---|---|---|---|
| src/wstring.c:38-39 | the exit test `i == a->length - 1` never fires for empty strings | two distinct empty strings | compare the contents, so two empty strings are equal | not executed | WStrings.EmptyCompareOverreads | WStrings.Compare |
| src/object.c:79-81 | Int + Float stores a double but keeps the INT tag | `1 + 2.5` | the result is tagged FLOAT | not executed | Objects.MixedArithKeepsTag | Objects.Add |
| src/object.c:94-95 | Int - Float stores a double but keeps the INT tag | `1 - 2.5` | the result is tagged FLOAT | not executed | Objects.MixedArithKeepsTag | Objects.Sub |
| src/object.c:109-110 | Int * Float stores a double but keeps the INT tag | `2 * 2.5` | the result is tagged FLOAT | not executed | Objects.MixedArithKeepsTag | Objects.Mul |
| src/object.c:124-125 | Int / Float stores a double but keeps the INT tag | `1 / 2.5` | the result is tagged FLOAT | not executed | Objects.MixedArithKeepsTag | Objects.Div |
| src/object.c:139-140 | Int % Float stores float 0 but keeps the INT tag | `1 % 2.5` | the result is tagged FLOAT | not executed | Objects.MixedArithKeepsTag | Objects.Mod |
| src/parser.c:396-398 | the PASS node of a parenthesised operand reaches the operator branch, and `function(AST_PASS)` reads `opinfo` below the table | `(1);` | PASS hands its operand on | not executed | EvalFacts.PassAsWritten | Evaluator.Apply |
| src/parser.c:446-448 | `let name;` takes the LET node's unset value as the key | `let x;` | the key is the identifier `x` | not executed | EvalFacts.LetKeyWritten | EvalFacts.DeclareName |
| src/parser.c:218-226 | after `( x )` the tail is NULL, and a "left"-tagged operator is attached to it | `(x) = y` | the operator becomes the root over the parenthesised operand | not executed | ParserFacts.ParenThenAssign | Parser.GraftOperator |
| src/lexer.c:15-24 | a `/` not followed by `/` reports a comment without moving, so skipWhitespace loops for ever | `a / b` | nothing is skipped, and `/` is lexed as a symbol | not executed | LexerFacts.LoneSlash | Lexer.Comment |
| src/lexer.c:17-20 | a `//` comment at the end of the source is read past its terminator | `x // end` | the comment ends at the terminator | not executed | LexerFacts.TrailingComment | Lexer.LineRest |
| src/lexer.c:124-125 | the escape test looks at the character after the one taken, so an escaped quote ends the literal | `"a\"b"` | the literal runs to the unescaped closing quote | not executed | LexerFacts.EscapedQuote | Lexer.StringEnd |
| src/wobject.c:19-22 | a converted float keeps the FLOAT tag | `2.5` converted | the result is tagged INT | not executed | WObjects.FloatToInt | WObjects.ToInt |
| src/wparse.c:160-174 | `%` has no case, so the node keeps a value nothing wrote | `7 % 2` | C's remainder | not executed | WParse.ComputeAsWritten | WParse.Compute |
| src/wparser.c:131-145 | `%` has no case and fails the `assert(0)` of the default | `7 % 2` | C's remainder | not executed | WParserFacts.Remainder | WParser.Apply |
| src/wlex.c:49 | a keyword followed by a digit is split off, since only letters and `_` continue it | `for1` | one identifier | not executed | WLexFacts.KeywordSplitsWord | WLexFacts.WordStaysWhole |
| src/wlex.c:85 | a hex literal needs a decimal digit after `0x` | `0xA` | one integer | not executed | WLexFacts.HexSplits | WLexFacts.HexWhole |
