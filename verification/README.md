# Header transformation, verified

The transformation filter rewrites HTTP headers with templates. Each template is a text with
`{{ expressions }}`, `{% if %}` and `{% for %}` tags, `## line statements` and `{# comments #}`.
A scanner turns the text into tokens, a recursive-descent parser turns the tokens straight into flat
bytecode, and a stack machine runs the bytecode against a request. This project models that pipeline,
the loop that applies it to headers, and two pieces of arithmetic beside it: the calendar conversion of
the AWS signer and the response-flag printer of the metrics filter.

## What is proved

**The pipeline as a whole.** `EndToEnd.WrittenTextRenders`: when a text's tokens write out a template
tree, parsing and rendering the text gives exactly what a structural interpreter (`Syntax.Exec`) says
of the tree, or throws exactly when the interpreter fails. The interpreter knows nothing of bytecode,
jumps, merged arguments or stacks. `Writing.TreeTextRenders` needs no such text to be given: it says
the same of `Writing.TextOf` of the tree, for every tree whose names and literals the scanner reads
as such. The theorem is put together from four:

1. `Lexers.Lexer` is an imperative scanner, proved equal to the scan functions of `Lexing`;
   `Scanning` and `Openings` prove what those functions mean (order, coverage, progress, the fast
   search for openings against a naive one, where string literals end).
2. `Parsers.Parser` is the imperative parser, with its one-token look-ahead, its template under
   construction and its two stacks. Every one of its methods agrees, on *every* token sequence, with
   the grammar functions of `Grammar` and the emissions of `Assembler`; all of them terminate.
   `RoundTrip` and `RoundTripBlocks` then prove the grammar functions faithful: a written tree is
   consumed exactly and its own emissions come out.
3. `Assembly` proves that emitting in one pass, merging pushes and patching jumps, builds the code
   that `Compiler` lays out with known addresses.
4. `Correctness` proves that the laid-out code runs as the interpreter says, leaves all stacks as it
   found them, and is never undefined. `Renderers.Renderer` is the imperative renderer; it is proved
   to do what the machine's run does.

**What the definitions mean.** The theorems above carry over to templates what the interpreter says, and
speak of written templates through functions that write them. Both ends are pinned down without those
functions. `Laws` says when a value is true, false or neither, what the operators, names, calls, blocks,
conditions and loops come to, with the loop record written out. `Wording` says how each construct is
written, delimiter by delimiter and word by word, `Characters` what single tokens are. `Registry` lists
the table of built-ins. `Callbacks` says what `header`, `extraction` and `context` answer, and follows
`{{ header("k") }}` from the configuration to the host's headers (`Callbacks.CopyHeader`).
`FilterTrees.FilterTreeRenders` is the end-to-end theorem for the filter's own delimiters and built-ins,
and `Examples` takes three templates from text to output.

**What holds beyond trees.** The parser accepts templates in which ifs and loops overlap, because it
keeps them on two unrelated stacks.

- `Patching` proves the back-patching invariant at every point of every run of emissions in which no
  swap meets a jump, overlapping or not: the jumps without a target are exactly the held ones.
- Swaps do meet jumps. `{% if x %}{{ default(1, context()) }}{% endif %}` merges the literal and the
  call into one bytecode, so that the swap for `default` takes the condition's jump for the other
  argument; `endif` then sets the wrong bytecode, and the rendering throws whatever `x` is
  (`LostConditions`, and as a text `Texts.LostTextIsAccepted`).
- `Targets.AcceptedIsAllSet` is exact: for every accepted template, with functions registered under
  their own arity, all jumps are set if and only if the emissions nowhere have a literal, a call without arguments and the swap directly behind code
  that ends in a jump or a loop instruction (`Displacement.Displaces`). Then a rendering never leaves
  the code.
- `Undefinedness.UndefinedExactly`: a parse is undefined if and only if it comes to a second `else`, or
  the template's first emissions are such a literal, call and swap.
- `Overlaps` shows what is lost without nesting: an accepted template of ten tags whose rendering never
  ends on small data. `Corners` has further inputs just outside the trees.

**default(a, b)**, for all arguments that are themselves compiled as meant, is `Defaults` (but for a
literal `a` and a `b` that starts with a call without arguments, which is the case above). The code is the intended one if and only if `a` is
a literal or a name and `b` has nothing but copies of `a`'s push before its last bytecode
(`Assembly.DefaultExact`). Otherwise the code is that of another expression, `Defaults.ReadAs`, or it
never comes to its end (`Defaults.DefaultMeans`). With any other `a`, the fallback is never used
(`Defaults.FallbackIsNotUsed`), and `default(f(x), g(y))` silently computes `y`
(`Defaults.DefaultGoesWrong`). The other expression may have the right value all the same
(`Defaults.RightByAccident`), so the exact condition is one on the code.

**Side conditions.** They come from the code and are predicates of `Compiler` and `Syntax`:

- `Safe`: no call without arguments right behind a literal (`append_callback` merges it anyway; the
  condition is exact, `Assembly.NullaryExact`), and `default(a, b)` only with an `a` that is a literal
  or a name and a `b` whose code the two-bytecode swap handles (exact on the code,
  `Assembly.DefaultExact`).
- `Fits`: at most 16 loops inside each other, since `m_data` points into a vector reserved for 16.
- Code below 2^30 bytecodes, since `args` has 30 bits.
- `Printable`: what the grammar can express, such as registered built-ins with their own arity.

**Where the code and its comments or documentation differ**, the model follows the code:

- `transformation.cc:114` says that a context that is no object is replaced by an empty object. The
  expression `{}` makes a JSON null (`Transformers.RootData`).
- `gmtime.cc:71` announces a month of 0 to 11. On the last day of 2000, 2400, ... it is 12
  (`Gmtime.ThirteenthMonth`). The weekday and the day of the year are never set.
- `gmtime.cc:64` takes the leap years of the month loop from a year counted from 1900. The exact
  consequences are `Gmtime.RightExactlyWhen`.
- The metrics counters compare the printed flags with one code, so a request with a second flag is not
  counted (`ResponseFlags.CountersSeeSingleFlags`).

**Arithmetic.** `Gmtime` measures the conversion against "Seconds Since the Epoch", section 4.16 of the
Base Definitions of IEEE Std 1003.1-2017. `Openings` measures string literals against section 7 of
RFC 8259.

Foreign code enters as parameters: the JSON library (`parseJson`, `lookup`, `dump`), the built-in
functions whose result depends on their arguments alone (`builtin`), callbacks, and regular
expressions (`Extractor.value`). None of them is assumed to have any property, except in the examples,
which say what their lookups find and which literals are read.

## Model

| member | source | states |
|---|---|---|
| Lexers.Lexer.Start | extensions/transformation/inja.hpp:1997-2002 | a scanner that has been used starts afresh: position and mode are those of a new source |
| Lexers.Lexer.Scan | extensions/transformation/inja.hpp:2004-2092 | returns exactly the token, and leaves exactly the position and mode, that the scan function gives for the old position and mode; the text is untouched |
| Lexers.Lexer.ScanTextMode | extensions/transformation/inja.hpp:2012-2049 | either the text before the next opening is the token, or there is none and the opening itself is what the scan must return |
| Lexers.Lexer.FindOpening | extensions/transformation/inja.hpp:2012-2040 | the loop over opening characters ends where the search function does, with the mode of the opening found there |
| Lexers.Lexer.ClearFinalLineIfWhitespace | extensions/transformation/inja.hpp:2247-2260 | the loop over trailing blanks ends where the specification does |
| Lexers.Lexer.ScanBodyMode | extensions/transformation/inja.hpp:2095-2183 | skips blanks, then tries the closing sequence, then line feeds, and otherwise scans one token of the expression or statement |
| Lexers.Lexer.ScanString | extensions/transformation/inja.hpp:2214-2228 | the loop with its escape flag ends where the specification does |
| Openings.UpdateOpenChars | extensions/transformation/inja.hpp:1574-1588 | open_chars becomes exactly the set of first characters of the openings, each once, so every opening is covered |
| Openings.DefaultCovers | extensions/transformation/inja.hpp:1561-1572 | the configuration the filter uses has no empty delimiter and covers every opening |
| Openings.FastIsNaive | extensions/transformation/inja.hpp:2012-2040 | jumping from opening character to opening character stops exactly where trying every opening at every position would |
| Openings.OpenerOrder | extensions/transformation/inja.hpp:2022-2034 | expressions are tried before statements, statements before comments, and lines last and at the start of a line only |
| Openings.TextHasNoOpening | extensions/transformation/inja.hpp:2012-2049 | no opening starts anywhere inside a text token |
| Openings.PlainSource | extensions/transformation/inja.hpp:2012-2020 | a source in which nothing opens is one text token holding all of it |
| Openings.StringEndExact | extensions/transformation/inja.hpp:2214-2228 | a string literal ends behind the first later quote without a backslash directly before it, or with the source |
| Openings.StringEndAgrees | extensions/transformation/inja.hpp:2214-2228 | the end is that of RFC 8259 exactly when no backslash stands before the string's closing quote, or the quote is the source's last character |
| Characters.ClassesExactly | extensions/transformation/inja.hpp:2100-2212 | which characters are blanks and which continue names and numbers, by ASCII code |
| Characters.WordKinds | extensions/transformation/inja.hpp:2122-2183 | names, numbers and strings are told by their first character |
| Characters.SingleKinds | extensions/transformation/inja.hpp:2123-2139 | brackets, braces, parentheses, comma and colon are one character each |
| Characters.ComparisonKinds | extensions/transformation/inja.hpp:2140-2163 | the six comparisons, the longer symbol wherever it stands |
| Characters.WordsAreMaximal | extensions/transformation/inja.hpp:2185-2212 | a name or a number takes all the characters it can |
| Characters.TrimExactly | extensions/transformation/inja.hpp:2234-2245 | one line end is dropped behind a block |
| Characters.StripExactly | extensions/transformation/inja.hpp:2247-2260 | the white space of a line is dropped before a block if nothing else stands there |
| Scanning.ScanProgress | extensions/transformation/inja.hpp:2004-2092 | every token but the end is a piece of the source at or behind the position, with only white space skipped, and with non-empty delimiters the position moves forward |
| Scanning.EofAbsorbs | extensions/transformation/inja.hpp:2004-2008 | once the end is reported it is reported for ever |
| Scanning.LexOrdered | extensions/transformation/inja.hpp:2004-2245 | tokens are in bounds, in order and do not overlap, and each token's text is the source between its ends |
| Scanning.TokenizeCovers | extensions/transformation/inja.hpp:2004-2245 | every character of a source is in a token, is white space, or is in a comment that is never closed; none is read twice |
| Functions.FunctionStorage.GetOrNew | extensions/transformation/inja.hpp:1794-1802 | finds the entry of a name and argument count or adds an empty one, and changes no other entry |
| Functions.FunctionStorage.AddBuiltin | extensions/transformation/inja.hpp:1763-1766 | the last registration of a name and argument count wins, other argument counts of the name stay, and a callback of the same key stays |
| Functions.FunctionStorage.AddCallback | extensions/transformation/inja.hpp:1768-1771 | the same for callbacks |
| Functions.FunctionStorage.FindBuiltin | extensions/transformation/inja.hpp:1773-1778 | answers with the operation registered for the name and the argument count, if any |
| Functions.FunctionStorage.FindCallback | extensions/transformation/inja.hpp:1780-1785 | answers with the callback registered for the name and the argument count, if any |
| Functions.ParserStatic | extensions/transformation/inja.hpp:2309-2337 | after the 26 registrations the storage answers exactly by the table of built-ins, which the Registry rows spell out, and holds no callback |
| Registry.TableExactly | extensions/transformation/inja.hpp:2309-2336 | a name and a number of arguments are in the table, with an operation, if and only if that operation is written as a call by that name and takes so many; no two operations share a name |
| Registry.EntriesAtToFloat | extensions/transformation/inja.hpp:2309-2314 | the first six entries: name, number of arguments and operation |
| Registry.EntriesIntToMin | extensions/transformation/inja.hpp:2315-2320 | the next six, `max` and `min` among them |
| Registry.EntriesOddToExists | extensions/transformation/inja.hpp:2321-2326 | the next six |
| Registry.EntriesExistsInToIsString | extensions/transformation/inja.hpp:2327-2334 | the last eight |
| Registry.OperatorNames | extensions/transformation/inja.hpp:2356-2420 | the ten operators and the words or symbols they are written by |
| Functions.BuiltinsByArity | extensions/transformation/inja.hpp:2310-2336 | every built-in is registered with the number of arguments its operation uses |
| Functions.TableIsUnique | extensions/transformation/inja.hpp:1773-1778 | what a storage answers determines the table of built-ins the parser works with |
| Parsers.Parser.constructor | extensions/transformation/inja.hpp:2354 | a new parser is idle: empty stacks, no token held |
| Parsers.Parser.GetNextToken | extensions/transformation/inja.hpp:2829-2836 | the held token or a new scan is the next token of the source's token sequence; the end repeats |
| Parsers.Parser.GetPeekToken | extensions/transformation/inja.hpp:2838-2843 | one token of look-ahead, without moving |
| Parsers.Parser.ParseExpression | extensions/transformation/inja.hpp:2356-2363 | on every token sequence returns, refuses or throws as the grammar says, at the position it says, after the emissions it says; so do all parse methods below it, and all terminate |
| Parsers.Parser.ParseExpressionAnd | extensions/transformation/inja.hpp:2365-2372 | the same for the operands of `or` |
| Parsers.Parser.ParseExpressionNot | extensions/transformation/inja.hpp:2374-2383 | the same for the operands of `and` |
| Parsers.Parser.ParseExpressionComparison | extensions/transformation/inja.hpp:2385-2420 | the same for comparisons, which do not chain |
| Parsers.Parser.ParseExpressionDatum | extensions/transformation/inja.hpp:2422-2554 | the same for data: parentheses, calls, names and JSON passed through with its two bracket counters |
| Parsers.Parser.ParseArguments | extensions/transformation/inja.hpp:2450-2462 | the argument loop reads what the grammar's recursion over arguments reads, and counts it |
| Parsers.Parser.ParseStatement | extensions/transformation/inja.hpp:2556-2691 | the same for every statement, including the patching done on the two stacks |
| Parsers.Parser.CloseIfOn | extensions/transformation/inja.hpp:2572-2591 | the loop over the collected jumps leaves the code with all of them and the pending condition set to its end |
| Parsers.Parser.ParseInto | extensions/transformation/inja.hpp:2726-2777 | ends on every input with the outcome that the token sequence determines: accepted with that code, a parser error, or undefined behaviour; on acceptance the parser is idle again |
| Parsers.Parser.ParseText | extensions/transformation/inja.hpp:2779-2788 | a used parser gives the outcome a new one would, and is ready for the next template |
| Grammar.ParseOr | extensions/transformation/inja.hpp:2356-2363 | an expression that is taken takes at least one token and never runs past the end |
| Brackets.JsonIsTaken | extensions/transformation/inja.hpp:2422-2554 | an array or object is taken whole, up to the token behind which brackets and braces are balanced for the first time, and given to the JSON parser |
| Brackets.JsonIsExpression | extensions/transformation/inja.hpp:2356-2554 | as an expression, when what follows does not go on with it |
| RoundTrip.Climb | extensions/transformation/inja.hpp:2356-2420 | what one level of the grammar takes, the level above takes too, when the next token does not belong to it |
| RoundTrip.ReadWritten | extensions/transformation/inja.hpp:2356-2554 | an expression tree, written with only the parentheses its level needs, is read back at every level |
| RoundTrip.ReadCall | extensions/transformation/inja.hpp:2433-2477 | a written call is taken whole: the arguments' emissions in order, then the swap for default, then the call |
| RoundTrip.ReadArgs | extensions/transformation/inja.hpp:2450-2462 | the argument loop takes exactly the written arguments and counts them |
| RoundTrip.ExpressionRoundTrip | extensions/transformation/inja.hpp:2356-2554 | parser faithfulness for expressions: a written tree is consumed exactly and its own emissions come out |
| RoundTripBlocks.IfLeads | extensions/transformation/inja.hpp:2559-2569 | an if tag is taken whole and emits its condition and an open jump |
| RoundTripBlocks.ElseIfLeads | extensions/transformation/inja.hpp:2592-2616 | an else-if tag ends the branch before, then emits its condition and chains its jump |
| RoundTripBlocks.ForLeads | extensions/transformation/inja.hpp:2617-2650 | a for tag is taken whole, with one variable or two, and emits its iterable and the loop's start |
| RoundTripBlocks.TemplateRoundTrip | extensions/transformation/inja.hpp:2726-2777 | parser faithfulness for templates: the tokens of a written tree are all taken, and exactly the tree's emissions are made |
| Assembly.NullaryExact | extensions/transformation/inja.hpp:2708-2724 | a call without arguments is compiled as meant if and only if the code before it does not end in a literal's push |
| Assembly.DefaultExact | extensions/transformation/inja.hpp:2469-2472 | for all arguments, the swap and the merge leave the second one's code and a default instruction behind it if and only if the first is a literal or a name and the second's code holds nothing but copies of its push before its last bytecode; the instruction then carries the first argument |
| Defaults.DefaultEmits | extensions/transformation/inja.hpp:2450-2472 | the parser emits for default(a, b), a and b being compiled as meant, the code that the next rows are about |
| Defaults.SwallowsIsExact | extensions/transformation/inja.hpp:2469-2472 | the swap finds a push before the second argument's last bytecode if and only if that argument's own last argument on the stack is a literal or a name, and it is that one's push |
| Defaults.DefaultMeans | extensions/transformation/inja.hpp:3355-3368 | for all a and b: the code of default(a, b) computes default(a, b), or default(P, b with a put in and P left out) where the swap took P for the first argument, or it never comes to its end |
| Defaults.FallbackIsNotUsed | extensions/transformation/inja.hpp:3356-3367 | a first argument that is neither literal nor name, and throws, is never replaced by the fallback: rendering throws or is undefined |
| Defaults.DefaultGoesWrong | extensions/transformation/inja.hpp:2469-2472 | default(f(x), g(y)) computes y instead of f(x), in an environment that is given |
| Defaults.RightByAccident | extensions/transformation/inja.hpp:2469-2472 | default(not false, at(true, 0)) is read as another expression that has the same value in every environment |
| Assembly.DoExpr | extensions/transformation/inja.hpp:2693-2724 | emitting an expression's actions appends exactly its compiled code, merging nothing that was there before |
| Assembly.DoBlock | extensions/transformation/inja.hpp:2556-2661 | emitting a block's actions appends exactly its laid-out code, every jump patched, and leaves the two stacks as they were |
| Assembly.AssembledTemplate | extensions/transformation/inja.hpp:2726-2777 | one pass with merging and back-patching builds the code laid out with known addresses, and leaves nothing pending |
| Bytecodes.ThirtyBits | extensions/transformation/inja.hpp:1731-1731 | the args field holds the numbers below 1073741824 and no others |
| Patching.KeepsLinks | extensions/transformation/inja.hpp:2693-2724 | emissions that leave the jumps alone keep every link between them |
| Patching.BeginElseKeeps | extensions/transformation/inja.hpp:2592-2602 | else sets the condition's jump and holds the branch's jump in its place |
| Patching.CloseIfKeeps | extensions/transformation/inja.hpp:2572-2591 | endif sets all that its entry holds to the address behind the code, whatever loops lie between, leaves every other bytecode as it is, and keeps the invariant |
| Patching.CloseForKeeps | extensions/transformation/inja.hpp:2651-2661 | endfor links the start and the end of a loop to each other, whatever ifs lie between |
| Patching.RunKeeps | extensions/transformation/inja.hpp:2556-2661 | the back-patching invariant at every point of every run in which no swap meets a jump and every chained condition finds its entry free: unset jumps are exactly the held ones, all others point forward in range, loop ends back behind their starts |
| Chaining.OrEmits | extensions/transformation/inja.hpp:2356-2554 | whatever tokens an expression is parsed from, accepted or not, it emits operands only, one more than it takes, with two waiting before each swap and default right behind it |
| Chaining.TemplateOrders | extensions/transformation/inja.hpp:2592-2616 | in every parse a chained condition comes right behind its else |
| Displacement.DirtySwapDisplaces | extensions/transformation/inja.hpp:2469-2472 | a swap meets a jump only where a literal and a call without arguments come directly behind code that ends in one |
| Displacement.DisplacedIsNeverSet | extensions/transformation/inja.hpp:2572-2661 | a jump or loop instruction that a swap has moved stays where it is and as it is to the end of the parse, unset or linked to the wrong place |
| Targets.AcceptedIsAllSet | extensions/transformation/inja.hpp:2726-2735 | in every accepted template below 2^30 bytecodes, interleaved or not, all jumps are set and in range if and only if no swap meets a jump |
| Targets.FilterTemplateIsAllSet | extensions/transformation/inja.hpp:2354 | the same for the parser with the built-ins that ParserStatic registers |
| LostConditions.AcceptedButNotSet | extensions/transformation/inja.hpp:2708-2724 | {% if x %}{{ default(1, context()) }}{% endif %} is accepted as code whose conditional jump has no target |
| LostConditions.LostThrows | extensions/transformation/inja.hpp:3372-3376 | rendering that code throws whatever x is: it looks for a callback with as many arguments as the jump's target, and the filter registers none |
| LostConditions.LostMeansNothing | extensions/transformation/inja.hpp:3386-3391 | where x is false the template means the empty text |
| Targets.EndsAtTheEnd | extensions/transformation/inja.hpp:3083-3088 | with all jumps set, a rendering that ends without an exception ends exactly behind the last bytecode |
| Peephole.AppendsMerge | extensions/transformation/inja.hpp:2693-2724 | a push that comes last turns into the appended instruction, a name's push into a callback never |
| Peephole.MergeIsExact | extensions/transformation/inja.hpp:2945-3007 | one merged instruction does what the push and the instruction did, failure included, when it has an argument |
| Peephole.NullaryMergeIsUndefined | extensions/transformation/inja.hpp:2945-2966 | a callback without arguments that merged into a push pops one argument too many: undefined |
| Peephole.MergingPreservesMeaning | extensions/transformation/inja.hpp:2693-2724 | merged code and push-everything code of any safe expression leave the same value or fail together |
| Heights.CompiledTemplateIsDisciplined | extensions/transformation/inja.hpp:2945-2976 | every address of a compiled template has one operand height, the same along all jumps, enough for its instruction, and zero at the end |
| Heights.CompiledTemplateHeights | extensions/transformation/inja.hpp:3083-3485 | in every state a rendering passes through, the stack has the height of the address and holds what the next instruction pops |
| Laws.TruthExactly | extensions/transformation/inja.hpp:3009-3024 | a value is false if and only if it is null, [], {}, false, 0 or 0.0; it throws if and only if it is an array or an object with something in it; all others are true |
| Laws.OrMeans | extensions/transformation/inja.hpp:3228-3234 | `or` is true, false or throws exactly as its operands' truths say; a true first operand leaves the second one's truth unasked |
| Laws.AndMeans | extensions/transformation/inja.hpp:3221-3227 | the same for `and`, with a false first operand |
| Laws.NotMeans | extensions/transformation/inja.hpp:3215-3220 | `not` turns truth round, and throws when there is none |
| Laws.ExistsMeans | extensions/transformation/inja.hpp:3298-3304 | `exists` is true if and only if the data the template is rendered with is an object with that member, and throws on anything but a string |
| Laws.DefaultMeans | extensions/transformation/inja.hpp:3355-3368 | `default` is its first argument when that has a value and its second otherwise; the second may throw |
| Laws.BuiltinMeans | extensions/transformation/inja.hpp:2945-2966 | other functions and comparisons get the values of all arguments, the left operand first, and throw when one has none |
| Laws.CallMeans | extensions/transformation/inja.hpp:3372-3381 | so do callbacks, which must be registered with that number of arguments |
| Laws.LookupMeans | extensions/transformation/inja.hpp:2978-3007 | a name is looked up at its pointer, written out for both notations, then as a callback without arguments, then it throws |
| Laws.PrintMeans | extensions/transformation/inja.hpp:3097-3106 | strings are printed as they are, other values as the library dumps them |
| Laws.IfMeans | extensions/transformation/inja.hpp:3386-3391 | the branch when the condition is true, the rest of the chain when it is false, an exception when it is neither |
| Laws.BlockMeans | extensions/transformation/inja.hpp:3083-3091 | statements write one behind another, and one that throws makes the block throw |
| Laws.ArrayLoopMeans | extensions/transformation/inja.hpp:3393-3479 | a loop over an array writes what its body writes in the scopes of its items, one after another, and throws when one does |
| Laws.ObjectLoopMeans | extensions/transformation/inja.hpp:3393-3479 | the same for the entries of an object |
| Laws.OtherLoopMeans | extensions/transformation/inja.hpp:3393-3447 | null, [] and {} write nothing; other values of the wrong type, and data that is neither an object nor null, throw |
| Correctness.RunExpr | extensions/transformation/inja.hpp:2945-3007 | an expression's code pushes its value and nothing else, or fails when the value does |
| Correctness.RunBranches | extensions/transformation/inja.hpp:3382-3392 | a chain of conditions runs the branch the interpreter takes and ends behind the chain |
| Correctness.RunEach | extensions/transformation/inja.hpp:3448-3479 | a loop runs its body once in each scope, in order, and closes its level at the end |
| Correctness.ScopesFollow | extensions/transformation/inja.hpp:3026-3040 | updating a level's data for the next item gives the scope made afresh from the enclosing data |
| Correctness.RunFor | extensions/transformation/inja.hpp:3393-3479 | a for-loop's code does what the interpreter's loop does and restores the enclosing scope, at any depth up to 16 |
| Correctness.CompiledTemplateRuns | extensions/transformation/inja.hpp:3083-3485 | compiler correctness: rendering a tree's code halts with the interpreter's output, all stacks empty and pc at the end, or throws exactly when the interpreter fails; it is never undefined |
| Scoping.ItemScope | extensions/transformation/inja.hpp:3026-3040 | an array loop's body sees the item, all data around the loop, and a record whose index, index1, is_first and is_last are the item's number from zero and from one and whether it is the first or the last, with the enclosing record as parent; it fails exactly when the data's own "loop" cannot become a record |
| Scoping.PairScope | extensions/transformation/inja.hpp:3036-3039 | an object loop's body sees key and value, and no marks: "loop" stays the enclosing loop's |
| Scoping.ItemNamedLoop | extensions/transformation/inja.hpp:3029-3035 | a variable named "loop" is lost: the four marks are made in the item itself, whose other members stay, and an item that is neither an object nor null makes the loop fail |
| Scoping.EmptyLoop | extensions/transformation/inja.hpp:3394-3405 | compiled code at a loop's start: an empty value, of either kind or null, leads in one step to the address behind the loop's end with the loop stack, the output and the rest of the operands unchanged; another value of the wrong type throws |
| Scoping.SixteenLoops | extensions/transformation/inja.hpp:3080 | opening a loop over something is undefined if and only if sixteen are open |
| Scoping.IterationOrder | extensions/transformation/inja.hpp:3406-3434 | array items come in index order, object entries once each in ascending key order |
| Json.EntriesAscend | extensions/transformation/inja.hpp:3417-3423 | iterating over an object meets every key once, in ascending byte order |
| Json.LexLeExact | extensions/transformation/inja.hpp:3417-3423 | that order: a prefix comes first, otherwise the first character that differs decides |
| Machine.EndIsUnique | extensions/transformation/inja.hpp:3083-3485 | a template, its callbacks and its data determine how rendering ends |
| Renderers.Renderer.GetImm | extensions/transformation/inja.hpp:2978-3007 | the immediate, or the data under the pointer, or a callback without arguments of that name, or an exception |
| Renderers.Renderer.GetArgs | extensions/transformation/inja.hpp:2945-2966 | the topmost operands in order and the immediate last; missing ones are undefined |
| Renderers.Renderer.PopArgs | extensions/transformation/inja.hpp:2968-2976 | removes from the stack exactly the operands that were not the immediate |
| Renderers.Renderer.UpdateLoopData | extensions/transformation/inja.hpp:3026-3040 | the assignments, one after another, make the scope of the given item; Laws.ItemScopeMeans writes that scope out |
| Laws.ItemScopeMeans | extensions/transformation/inja.hpp:3026-3040 | the scope of an array loop's body, member by member, for data that is an object or null |
| Laws.PairScopeMeans | extensions/transformation/inja.hpp:3036-3039 | the scope of an object loop's body, member by member |
| Renderers.Renderer.DoStart | extensions/transformation/inja.hpp:3393-3447 | skips an empty iterable, or opens a level and points m_data at it |
| Renderers.Renderer.DoEnd | extensions/transformation/inja.hpp:3448-3479 | goes to the next item, or closes the level and points m_data at the one around it |
| Renderers.Renderer.Execute | extensions/transformation/inja.hpp:3091-3483 | one turn of the switch takes the renderer's fields to the machine's next state, throws when it fails, and m_data keeps pointing at the innermost scope; the Laws rows say what the operations compute |
| Renderers.Renderer.RenderTo | extensions/transformation/inja.hpp:3083-3485 | on code that halts, the loop leaves exactly the state the machine's run ends with |
| Pointers.ConvertDotToJsonPointer | extensions/transformation/inja.hpp:2930-2939 | the do-while loop computes the recursion over parts |
| Pointers.PointerIsSlashed | extensions/transformation/inja.hpp:1952-1958 | the pointer is a slash and the name with every dot a slash, after one final dot is dropped |
| Pointers.NotationsAgree | extensions/transformation/inja.hpp:2984-2991 | dot and pointer notation make the same pointer of a name if and only if it has no dot |
| EndToEnd.WrittenTextParses | extensions/transformation/inja.hpp:2726-2777 | scanner, parser, merging and patching together: a text that writes out a safe tree parses to the tree's laid-out code |
| EndToEnd.WrittenTextRenders | extensions/transformation/inja.hpp:3568-3576 | such a text renders to the interpreter's output, or throws exactly when the interpreter fails |
| Spelling.ReadsBack | extensions/transformation/inja.hpp:2004-2245 | the scanner reads any token sequence that can be spelled back from its text, token for token and nothing else |
| Writing.SpellableSpells | extensions/transformation/inja.hpp:2004-2245 | every tree with proper names and plain texts can be spelled |
| Writing.TreeTextRenders | extensions/transformation/inja.hpp:3568-3576 | the text of every such tree that is safe is accepted and renders to what the tree means, or throws exactly when the interpreter fails |
| FilterTrees.FilterTreeRenders | extensions/transformation/transformation.cc:140-151 | the same with the filter's delimiters and built-ins, for every tree whose functions have their own number of arguments |
| Wording.ParenthesesSaid | extensions/transformation/inja.hpp:2423-2430 | parentheses stand exactly around what binds less tightly than its place asks for |
| Wording.LeafSaid | extensions/transformation/inja.hpp:2478-2500 | literals and names are written as they are, with a blank before them |
| Wording.OrSaid | extensions/transformation/inja.hpp:2356-2363 | `or` between operands that bind at least like `and` |
| Wording.AndSaid | extensions/transformation/inja.hpp:2365-2372 | `and` between operands that bind at least like `not` |
| Wording.NotSaid | extensions/transformation/inja.hpp:2374-2383 | `not` before an operand |
| Wording.ComparisonSaid | extensions/transformation/inja.hpp:2385-2420 | each comparison by its own symbol, between data |
| Wording.CallSaid | extensions/transformation/inja.hpp:2433-2477 | a call: name, parentheses, arguments with commas between |
| Wording.BuiltinSaid | extensions/transformation/inja.hpp:2433-2477 | a built-in function likewise, by its name |
| Wording.PlainSaid | extensions/transformation/inja.hpp:2744-2773 | texts as they are, comments behind {#, expressions between {{ and }} |
| Wording.IfSaid | extensions/transformation/inja.hpp:2559-2569 | the text of an if: tag, branch and the rest of the chain |
| Wording.ElseIsSaid | extensions/transformation/inja.hpp:2572-2616 | the texts of else, else if and endif |
| Wording.ForSaid | extensions/transformation/inja.hpp:2617-2661 | the text of a loop with one variable, or a key and a value, in this order |
| Examples.EitherRenders | extensions/transformation/inja.hpp:3228-3234 | {% if x or y %}A{% endif %}, with true and false for x and y, renders to A exactly when one is true |
| Examples.TrueOrFalseRenders | extensions/transformation/inja.hpp:3228-3234 | {% if true or false %}A{% endif %} renders to A |
| Examples.CallRenders | extensions/transformation/inja.hpp:2433-2477 | {{ f(x) }} prints what the built-in function named f makes of x, for all of one argument |
| Examples.MaxRenders | extensions/transformation/inja.hpp:2319-2319 | {{ max(xs) }} prints what the library's max makes of xs |
| Examples.FirstIsMarked | extensions/transformation/inja.hpp:3029-3035 | {% for x in xs %}{% if loop.is_first %}A{% endif %}{{ x }}{% endfor %} on 1 and 2 renders to A12 |
| EndToEnd.PlainTextIsItself | extensions/transformation/inja.hpp:2012-2020 | a template in which nothing opens renders to itself on any data |
| Corners.SecondElseIsUndefined | extensions/transformation/inja.hpp:2597-2602 | a second plain else indexes with the used-up condition, whatever safe statements stand between |
| Corners.BrokenLineLeavesAPush | extensions/transformation/inja.hpp:2748-2755 | a line statement that breaks off is accepted, opens nothing and leaves a stray push |
| Corners.OtherWordsThrow | extensions/transformation/inja.hpp:2662-2691 | an include throws, and so does a tag with any other word |
| Corners.EmptyTags | extensions/transformation/inja.hpp:2736-2755 | a block tag without a statement throws, a line statement without one does nothing |
| Corners.DefaultOfACall | extensions/transformation/inja.hpp:2469-2472 | when the first argument is neither literal nor name, the last instruction never carries it: it carries the push before the second argument's last bytecode, or nothing, and is then undefined whenever it runs |
| Undefinedness.UndefinedExactly | extensions/transformation/inja.hpp:2469-2616 | whatever the tokens, the parse is undefined if and only if it comes to an else whose if has had one, or the first emissions are a literal, a call without arguments and a swap |
| Texts.LostTextIsAccepted | extensions/transformation/inja.hpp:2708-2724 | the template that loses its condition, as a text: accepted, a jump unset, and throwing |
| Texts.MergedTextIsUndefined | extensions/transformation/inja.hpp:2469-2470 | {{ default(1, context()) }} as a text: the parse is undefined |
| Divergence.OverlappingIsBuilt | extensions/transformation/inja.hpp:2826-2827 | overlapping ifs and loops are patched to complete code with nothing pending |
| Divergence.OverlappingNeverHalts | extensions/transformation/inja.hpp:3448-3479 | rendering that code goes round for ever through the same nine states |
| Overlaps.ShapeLeads | extensions/transformation/inja.hpp:2826-2827 | ten overlapping tags around any expressions are taken and emitted like nested ones |
| Overlaps.AcceptedButNeverHalts | extensions/transformation/inja.hpp:2733-2735 | an accepted template need not halt: the tokens of one, and data on which it goes on for ever |
| Texts.EndlessTextNeverHalts | extensions/transformation/inja.hpp:2733-2735 | the same template as a text |
| Headers.HeaderMap.Remove | extensions/transformation/transformation.h:9-9 | removes every header of the name and keeps the others in order |
| Headers.HeaderMap.Add | extensions/transformation/transformation.h:10-10 | appends |
| Headers.ToLowerExact | extensions/transformation/transformation.cc:150-150 | the capital letters go to their small ones, all else stays |
| Headers.ValuesUpdated | extensions/transformation/transformation.cc:181-191 | after any updates, a name has its original values if no update names it, else the text of the last that does, or nothing if that is empty |
| Headers.Simultaneous | extensions/transformation/transformation.cc:181-191 | updates with distinct names are one simultaneous substitution: what none names stays in order, the non-empty texts follow |
| Headers.OrderDoesNotMatter | extensions/transformation/transformation.cc:181-191 | two lists of the same updates, under distinct names, leave the same values under every name |
| Orders.ConfigurationOrder | extensions/transformation/transformation.cc:148-160 | two orders of one configuration with distinct lower-cased names: all templates are accepted in both or in neither, all render in both or in neither, and if they do, every name ends with the same values |
| Orders.OrderMattersWhenOneThrows | extensions/transformation/transformation.cc:181-191 | when one template throws, the order decides: with it first nothing is applied, with the other first that one is |
| Orders.ThrowingOrderShown | extensions/transformation/transformation.cc:181-191 | two such templates and the headers they leave in each order |
| Headers.OrderMattersForOneName | extensions/transformation/transformation.cc:149-151 | names that coincide when lower-cased make the order matter |
| Transformers.InjaTransformer.Configure | extensions/transformation/transformation.cc:139-163 | one reused parser yields the code that a new parser for each template would, under lower-cased names; it throws, or is undefined, exactly as the first template that is not accepted is |
| Orders.FirstFailure | extensions/transformation/transformation.cc:152-159 | the first template that is not accepted decides how configuring ends |
| Transformers.InjaTransformer.Transform | extensions/transformation/transformation.cc:167-193 | every template is rendered against the snapshot; the host's headers end as the updates of the templates before the first failing one make them, and exactly those; with distinct names that is one simultaneous substitution: the untouched headers in order, then the non-empty texts |
| Callbacks.HeaderMeans | extensions/transformation/transformation.cc:95-102 | header(n) is the value of the first header n in the snapshot, or the empty string when there is none |
| Callbacks.ExtractionCallbackMeans | extensions/transformation/transformation.cc:104-111 | extraction(n) is what the last extractor n takes from the first header of its name, or the empty string |
| Callbacks.OtherCallbacks | extensions/transformation/transformation.cc:87-92 | context() is null, a name that is no string throws, and no other name or number of arguments has a callback |
| Callbacks.HeaderIsCopied | extensions/transformation/transformation.cc:178-191 | a template {{ header("k") }} among others leaves under its name the first value of k in the snapshot, and nothing else, when those before it render |
| Callbacks.HeaderTemplateLeads | extensions/transformation/transformation.cc:178-191 | such a template never is the one that throws |
| Callbacks.CopyHeader | extensions/transformation/transformation.cc:139-193 | from a configuration of one such template to the host: its name has the first value of k or none, and no other header changes |
| Transformers.InjaTransformer.FindExtractions | extensions/transformation/transformation.cc:170-176 | the loop over extractors builds the map of extractions |
| Transformers.Render | extensions/transformation/inja.hpp:3572-3576 | the output of a rendering that ends, and none when it throws |
| Transformers.WrittenTemplateEnds | extensions/transformation/transformation.cc:113-120 | a header template that writes out a safe tree halts and renders to what the tree means |
| Gmtime.TimeBuffer.Fill | extensions/aws_lambda/gmtime.cc:34-74 | the loops fill the buffer with the specified year, month, day and clock time; a null or negative time is refused and changes nothing |
| Gmtime.TimeBuffer.RemoveYears | extensions/aws_lambda/gmtime.cc:53-58 | the year loop ends at the specified year and day of the year |
| Gmtime.TimeBuffer.FillMonth | extensions/aws_lambda/gmtime.cc:60-72 | the month loop ends at the specified month and day |
| Gmtime.SplitYearExact | extensions/aws_lambda/gmtime.cc:53-57 | the year found is the one whose days, by the closed formula of the standard, contain the day |
| Gmtime.MonthLengths | extensions/aws_lambda/gmtime.cc:6-32 | the lengths of the twelve months, with the leap years of the Gregorian calendar |
| Gmtime.SameFebruary | extensions/aws_lambda/gmtime.cc:64-64 | the leap test on a year counted from 1900 is right if and only if the year modulo 400 is neither 0 nor 300 |
| Gmtime.RightExactlyWhen | extensions/aws_lambda/gmtime.cc:34-74 | the result is the date of the time, by the formula of section 4.16, if and only if the year modulo 400 is neither 0 nor 300 or the zero-based day of the year is below 59 |
| Gmtime.DateComesBack | extensions/aws_lambda/gmtime.cc:34-74 | a date put into the formula and converted comes back under exactly the same condition |
| Gmtime.ReturnedYearDay | extensions/aws_lambda/gmtime.cc:43-43 | the day of the year it returns, always zero, fits the formula on the first of January only |
| Gmtime.ConversionIsMonotone | extensions/aws_lambda/gmtime.cc:34-74 | later times give lexicographically later results, in the wrong years too |
| Gmtime.ThirteenthMonth | extensions/aws_lambda/gmtime.cc:61-71 | month 12 is returned exactly on the last day of a year divisible by 400 |
| Gmtime.LastDayOf2000 | extensions/aws_lambda/gmtime.cc:61-71 | midnight of 31 December 2000 gets month 12 and is not told correctly |
| ResponseFlags.AppendString | extensions/common/util.cc:71-77 | read as a list of pieces between commas, the text has one more piece at its end and the others unchanged |
| ResponseFlags.ParseResponseFlag | extensions/common/util.cc:81-167 | the nineteen tests build the list of the set flags' codes in bit order, then the number if a higher bit is set, or "-" for none |
| ResponseFlags.LowFlags | extensions/common/util.cc:48-56 | for each of the first seven flags, its code and its mask written out: the code is one of the printed fields if and only if the mask's bit is set, and is printed alone if and only if the word is the mask |
| ResponseFlags.MiddleFlags | extensions/common/util.cc:57-62 | the same for the next six |
| ResponseFlags.HighFlags | extensions/common/util.cc:63-68 | the same for the last six |
| ResponseFlags.FieldsInOrder | extensions/common/util.cc:81-156 | codes are printed in the order of their bits |
| ResponseFlags.CommaBetween | extensions/common/util.cc:71-77 | 0x3 is printed as LH,UH |
| ResponseFlags.LastFieldIsNumber | extensions/common/util.cc:158-163 | the last field is the word itself if and only if it is 0x80000 or more |
| ResponseFlags.DecimalDigits | extensions/common/util.cc:162-162 | its digits are the decimal ones, without leading zeros |
| ResponseFlags.PrintedRoundTrip | extensions/common/util.cc:81-167 | every flag word is decoded from what is printed for it |
| ResponseFlags.PrintedIsInjective | extensions/common/util.cc:81-167 | no two flag words are printed alike |
| ResponseFlags.DashMeansNone | extensions/common/util.cc:166-166 | "-" is printed for the empty word only |
| ResponseFlags.EqualsCode | extensions/common/util.cc:48-69 | the printed text equals one flag's code exactly for that flag alone |
| ResponseFlags.CountersSeeSingleFlags | extensions/metrics/filter.cc:43-51 | the two comparisons of the metrics filter hold exactly for the words 0x1000 and 0x800 |

## Left out

- Templates included from files: opening a file always throws (`inja.hpp:1941-1943`) and no template is
  registered, so a parse that meets `include` throws. The `Include` and `Nop` operations are not part
  of this model.
- The JSON library (parsing, dumping, pointer lookup, comparison) and all built-in functions but `not`,
  `and`, `or`, `exists` and `default`: parameters without properties.
- Regular expressions and the check of their group numbers: `Extractor.value` is a parameter.
- JSON arrays and objects in written trees, whose literals are one token each. How the parser takes the
  others is `Brackets`.
- Texts of trees with line statements: `EndToEnd` speaks of any text that has a tree's tokens and
  `Spelling.ReadsBack` of any tokens that can be spelled, line statements among them;
  `Writing.SpellableSpells` is proved for tags between block delimiters. A line statement that ends
  with the source has no closing token and is not among the written trees.
- Renderers.Renderer.RenderTo: requires that the code halts. Code that does not (`Overlaps`) has no
  result to speak of.
- Transformers.InjaTransformer.Transform: requires the same of every template; written trees satisfy it
  (`Transformers.WrittenTemplateEnds`).
- Lexing.IsAlpha: ASCII letters only; the C locale is not part of this model.
- Gmtime.Converted: unbounded integers; the widths of `long`, `time_t` and `tm_year` are not modelled.
- ResponseFlags.Bit: a bit test by halving instead of `&`.
- Error messages, the position of an error, and the text of the end-of-source token, which nothing
  reads.
- The AWS signer and Lambda filter, matchers, route selection, metrics callbacks, configuration and
  logging: plumbing around what is modelled.
