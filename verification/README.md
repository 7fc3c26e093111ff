# Raccoon-MLIR-Tour: a Dafny model

The repository compares fast or compiled forms of a computation with simple ones. This project
models the forms that can go wrong and proves that they mean the same.

**Loop schedules** (`NaiveGemm`, `TiledGemm`, `VanillaGemm`, `LlvmKernel`, `ConvLowering`, `Im2col`,
`FillCfg`). Every nest is a method over two-dimensional arrays, proved against a value: `Product` for
C + A * B, `ConvMat` for a two-dimensional convolution, `Full` for a fill. Element operations are
parameters (`Ops`, `VecOps`) and nothing is assumed about them, so results about accumulation order
hold for floating point too. Only the LLVM kernel uses reals: its instructions carry `fast`. Block,
strip and matrix sizes are parameters; the checked-in constants are instances (`DGEMM`, `SGEMM`).
A schedule is described by a `Point` (its loop counters) and `Done`, the number of contributions a
cell has received when the schedule is at a point; the loop invariants say that every cell holds
exactly these contributions, in ascending order.

**The front-end generator** (`Lexing`, `Tokens`, `Ast`, `Terminals`, `GeneratorSpec`, `OperandSpec`,
`FileSpec`, `Parsing`, `Emitting`, `Definitions`, `GrammarText`, `RoundTrip`, `Scripts`, `Nesting`,
`Decimals`, `RuleGrammar`, `DagGrammar`, `OpGrammar`, `FileGrammar`, `Mistakes`, `Writing`, `FrontEnd`). `Lexer`, `Parser`, `Terminators` and `CGModule` are
classes whose methods update the cursor, the current token, the terminator set and the output stream,
each proved against a function of the state; `FrontEnd` runs them one after the other on a text. The parser has no precondition on its
input. Reading through a pointer past the last character is modelled as `'\0'` at the terminator; a
raw scan whose mark never comes, which in the source reads beyond the buffer, ends the parse with the
outcome `Overran`, and an exception of `std::stoi` with `Threw`. `next` leaves the cursor in place on
an unknown character, and on `eof` and `unknown` the token keeps its old span; both are kept. What the
parser accepts is also described independently of it: a `Script` is a text cut into tokens and raw
text, the grammar modules say which scripts spell rules, dialects and operations and what these mean,
and the constructed parser is proved to return exactly that; `Mistakes` says what it makes of definitions
followed by something else. What the emitter prints is read back the same way: `GrammarText` divides a
grammar file into words and reads the rules from them.

**The FX importer** (`Tensors`, `FxImporter`, `FxSuccess`). A graph of named nodes, its value, the SSA
function emitted for it and its execution, related by a simulation, and when the import raises.

**Toy tensor literals** (`ToyLiterals`). The buffer that the parser's actions share across the whole
file, and the shapes the visitor derives from the tree.

`Options`, `Division`, `Matrix` and `TensorShape` are shared helpers. `dafny verify dfyconfig.toml` checks everything.

## Where the code is not what its documentation says

- `examples/ToyDSL/Toy.g4:51` says the buffer is cleared before a literal is read; the action runs
  after it. `OwnDataIffNothingBetween` gives the exact condition on the program under which this does no
  harm, `DeclaredConstant` what happens otherwise, and `PrintedLiteralLeaks` an input where it does.
- `buddy-conv-vect-exam/CB_exam.py:20` starts every window at (i, j) whatever the stride.
  `StrideIsIgnored` says for which shapes, strides and paddings the result is still the convolution.
- `populateCBTilingPattern` replaces a convolution by code that only updates one tile.
  `TiledIsConv` says for which shapes that is the same thing.
- Printing and parsing loses some generators. `PrintParsePrint` says exactly which: those with a
  terminator that is not named by a word, except for a quotation mark at the end.
  `QuotedOperatorChanges` shows a family of inputs.
- An emitted grammar can define a name twice (`DefinedTwice`: a quoted `var`, or quoted `a` and `A`).
  `NoneDefinedTwice` says exactly when it does not.
- The rules of an emitted grammar cannot always be read back: a rule that breaks off before its semicolon
  is kept without alternatives, and a quoted colon or semicolon is printed among the elements under its own
  name. `ReadBackIff` says that these are the only cases.

## Model

| member | source | states |
|---|---|---|
| NaiveGemm.Matmul | examples/GEMM-Showcase/affine_gemm.mlir:6-20 | the triple loop adds to each cell its products in ascending order of the reduction index, on the right of the accumulator |
| NaiveGemm.AccIsFold | examples/GEMM-Showcase/affine_gemm.mlir:13-18 | what a cell receives is the left fold of the products a[i][k] * b[k][j] for k = 0, 1, ... from its old value |
| TiledGemm.MatmulDragonpie | examples/GEMM-Showcase/benchmark/dgemm-tiled-benchmark.mlir:47-78 | for all block sizes whose trip counts cover the clipped ranges, the seven-deep nest leaves each cell with all its products in the same ascending order as the naive loop, added on the left |
| TiledGemm.Body | examples/GEMM-Showcase/benchmark/dgemm-tiled-benchmark.mlir:64-69 | one execution of the innermost body moves the whole matrix from the progress due at a schedule point to the progress due at the next |
| TiledGemm.BodyStep | examples/GEMM-Showcase/benchmark/dgemm-tiled-benchmark.mlir:63-69 | the body touches one cell, which has then received exactly the contributions before this one, and changes no other cell's progress |
| TiledGemm.InBounds | examples/GEMM-Showcase/benchmark/sgemm-tiled-benchmark.mlir:45-67 | every access map stays in bounds inside the clipped loops |
| TiledGemm.VisitedExactlyOnce | examples/GEMM-Showcase/benchmark/dgemm-tiled-benchmark.mlir:57-69 | every (row, reduction index, column) triple is visited by exactly one schedule point |
| TiledGemm.TiledIsNaive | examples/GEMM-Showcase/benchmark/dgemm-tiled-benchmark.mlir:67-68 | the tiled result equals the naive one on all matrices if and only if a product may be added on either side of an accumulator |
| TiledGemm.TwoBlockings | examples/GEMM-Showcase/benchmark/sgemm-tiled-benchmark.mlir:54-76 | any two blockings of the same product, such as the 16-wide and the 32-wide one, leave the same matrix |
| TiledGemm.TiledAndNaive | examples/GEMM-Showcase/affine_gemm.mlir:6-20 | run on equal matrices, the tiled nest and the naive loop leave the same one when a product may be added on either side |
| TiledGemm.CheckedInBlockings | examples/GEMM-Showcase/benchmark/sgemm-tiled-benchmark.mlir:45-61 | the checked-in constants cover a 2088 x 2048 x 2048 product in both files |
| VanillaGemm.Gemm | examples/GEMM-Showcase/vanilla_gemm.cpp:6-17 | on flattened vectors every index is in range and the result is the naive product from a zero matrix, products in ascending order |
| VanillaGemm.AtIncreases | examples/GEMM-Showcase/vanilla_gemm.cpp:12-14 | row-major offsets order cells lexicographically, so no two cells share one |
| VanillaGemm.GemmAndTiled | examples/GEMM-Showcase/vanilla_gemm.cpp:6-17 | on flattened matrices it computes what the tiled nest does from a zero matrix, when a product may be added on either side |
| LlvmKernel.Scop | examples/GEMM-Showcase/matmul.c:69-74 | the C loop nest adds to each cell the sum of the products of its row of A and column of B over the reals |
| LlvmKernel.AccIsDot | examples/GEMM-Showcase/matmul.c:69-74 | the accumulation of the naive loop, from any cell, is the cell plus the sum of products |
| LlvmKernel.DotIsLinear | examples/GEMM-Showcase/matmul.c:72-73 | that sum is linear in the row of A |
| LlvmKernel.DotPicks | examples/GEMM-Showcase/matmul.c:72-73 | a row with a single one picks the element of the column there |
| LlvmKernel.OrIsAdd | examples/GEMM-Showcase/ori_llvm.ll:213-215 | bitwise or with 1, 2 or 3 is addition on the multiples of four the counter takes |
| LlvmKernel.FourSteps | examples/GEMM-Showcase/ori_llvm.ll:216-237 | four consecutive contributions, the work of one iteration, are the sum of four products |
| LlvmKernel.Cell | examples/GEMM-Showcase/ori_llvm.ll:202-245 | two two-lane accumulators, seeded with the cell in one lane, reduce to the cell plus its full dot product |
| LlvmKernel.Kernel | examples/GEMM-Showcase/ori_llvm.ll:198-253 | for every dimension divisible by four the vectorised and unrolled kernel adds to each cell the sum of the products of its row and column, as the C loop nest does |
| LlvmKernel.InitArray | examples/GEMM-Showcase/matmul.c:26-36 | A holds i + j, B holds i * j and C zero, while the int arithmetic does not overflow |
| LlvmKernel.Block3 | examples/GEMM-Showcase/ori_llvm.ll:166-191 | one unrolled iteration, with its truncation to 32 bits, initialises exactly the next two columns |
| LlvmKernel.InitUnrolled | examples/GEMM-Showcase/ori_llvm.ll:159-196 | the unrolled loops after the memset establish the same initial arrays |
| LlvmKernel.SourceMain | examples/GEMM-Showcase/matmul.c:62-74 | initialisation and kernel of the C program leave in cell (i, j) the sum over k of (i + k) * (k * j) |
| LlvmKernel.CompiledMain | examples/GEMM-Showcase/ori_llvm.ll:158-253 | initialisation and kernel of the IR leave that same product |
| ConvLowering.VectorTap | buddy-conv-vect-exam/CBConvVect.cpp:95-169 | full vector or masked tail, every existing column of the strip gets one multiply-add and no other cell changes; all active lanes are in bounds |
| ConvLowering.Strip | buddy-conv-vect-exam/CBConvVect.cpp:80-172 | one strip advances its columns by one tap, or by a skipped one when the coefficient is zero |
| ConvLowering.StripMined | buddy-conv-vect-exam/CBConvVect.cpp:70-174 | for every strip size and shape the nest leaves each cell as the row-major fold of its taps from the old value, zero coefficients skipped |
| ConvLowering.OneActiveLane | buddy-conv-vect-exam/CBConvVect.cpp:104-143 | each output column lies in exactly one active lane of exactly one strip |
| ConvLowering.StripMinedIsConv | buddy-conv-vect-exam/CBConvVect.cpp:87-93 | skipping zero coefficients gives conv_2d on all data if and only if a zero coefficient leaves the accumulator alone |
| ConvLowering.TileTap | buddy-conv-vect-exam/CBConvVect.cpp:212-228 | one iteration gives one tap to exactly the output cells inside the tile; padding lanes reach no cell |
| ConvLowering.Tiled | buddy-conv-vect-exam/CBConvVect.cpp:203-229 | the tile nest leaves conv_2d inside the top-left tile and the old output elsewhere |
| ConvLowering.TiledIsConv | buddy-conv-vect-exam/CBConvVect.cpp:179-231 | for a given shape and any element operations of which a change can last through zero coefficients, as in floating point, the tile lowering is conv_2d on all data if and only if the tile covers the output, or there is nothing to compute, or the operations never change anything |
| ConvLowering.Lowered | buddy-conv-vect-exam/CBConvVect.cpp:249-256 | the result of whichever lowering is chosen, and when it is conv_2d |
| Im2col.Flatten | buddy-conv-vect-exam/CB_exam.py:20-23 | the flattened window lists its cells row by row |
| Im2col.DotIsConv | buddy-conv-vect-exam/CB_exam.py:16-26 | a flattened window times the flattened kernel is the row-major fold over kernel rows and columns |
| Im2col.WindowsFit | buddy-conv-vect-exam/CB_exam.py:12-20 | every window lies inside the padded input, for every stride and padding |
| Im2col.ExtentCounts | buddy-conv-vect-exam/CB_exam.py:13-14 | the last of the strided windows fits into the padded input and one more would not |
| Im2col.Convolution | buddy-conv-vect-exam/CB_exam.py:3-28 | the call fails exactly when an output extent is negative; otherwise it is the convolution of the zero-padded input with windows one apart |
| Im2col.CellOfCall | buddy-conv-vect-exam/CB_exam.py:16-26 | cell (i, j) of the result is the window at (i, j), whatever the stride |
| Im2col.StrideIsIgnored | buddy-conv-vect-exam/CB_exam.py:13-20 | for any padding, the result of the call is the convolution with its stride on all inputs of a shape if and only if for every output cell the window taken is the right one, or both see padding only |
| Im2col.StrideWithoutPadding | buddy-conv-vect-exam/CB_exam.py:13-20 | without padding the result honours the stride on all inputs if and only if the stride is one or the output a single cell |
| FillCfg.StepReaches | examples/GEMM-Showcase/log.mlir:26-76 | every step of the control-flow graph keeps the invariant: the cells already passed hold the constant and every store is in bounds |
| FillCfg.EndIsReached | examples/GEMM-Showcase/log.mlir:27-76 | every run reaches ^bb18, by a lexicographic measure |
| FillCfg.RunFills | examples/GEMM-Showcase/log.mlir:23-76 | from any contents and for any bound all three buffers are full at ^bb18 |
| FillCfg.FillStructured | examples/GEMM-Showcase/affine_lower_noop.mlir:35-49 | the structured loops leave the buffers exactly as the control-flow graph does |
| Lexing.NextMeans | frontend/FrontendGen/lib/Lexer.cpp:67-164 | a formed token is reached over whitespace only, ends at the new cursor, has the kind of its text and cannot be extended; otherwise no token starts at the cursor and the old span stays |
| Lexing.Characters | frontend/FrontendGen/lib/Lexer.cpp:27-41 | whitespace, identifier heads and digits by their ASCII codes |
| Lexing.SignKinds | frontend/FrontendGen/include/Token.def:14-31 | the signs are those of the table, each with the kind at its place |
| Lexing.DeadEnd | frontend/FrontendGen/lib/Lexer.cpp:71-74 | eof and unknown are fixed points of next |
| Lexing.Lexer.Next | frontend/FrontendGen/lib/Lexer.cpp:67-138 | the scanning loops compute the token and cursor of the specification |
| Lexing.Lexer.GetMarkContent | frontend/FrontendGen/lib/Lexer.cpp:166-192 | returns the text from the opening mark to the one that closes it, nesting counted, and moves just past it; runs off the buffer exactly when there is none |
| Lexing.Lexer.GetEndChContent | frontend/FrontendGen/lib/Lexer.cpp:194-201 | moves just past the first end character and returns the text from the start pointer; runs off exactly when there is none |
| Nesting.GroupIsMarked | frontend/FrontendGen/lib/Lexer.cpp:174-200 | a group in which every mark is closed, however nested, is exactly a marked text |
| Tokens.RunIsTiling | frontend/FrontendGen/lib/Lexer.cpp:67-164 | the tokens of a run are disjoint, increasing, separated by whitespace only and maximal, and no other division of the text is |
| GeneratorSpec.GeneratorOk | frontend/FrontendGen/lib/Parser.cpp:137-228 | parsing a generator only adds terminators and leaves every terminator element with a lexer rule |
| Terminals.ClassifiedTerminatorHasRule | frontend/FrontendGen/include/Terminator.h:40-48 | a word classified as a terminator is printed as the name of a lexer rule, although classification adds 32 to any first character |
| Terminals.KnownTerminators | frontend/FrontendGen/include/Terminator.h:40-48 | although it adds 32 to any first character, isTerminator finds exactly the built-in names and the capitalised forms of words quoted in small letters |
| Terminals.BuiltinKeywords | frontend/FrontendGen/include/Terminator.def:5-9 | the built-in keywords stand for themselves in small letters |
| Terminals.BuiltinSigns | frontend/FrontendGen/include/Terminator.def:10-21 | the built-in signs stand for the signs of the lexer they are named after |
| Decimals.StoiReads | frontend/FrontendGen/lib/Parser.cpp:170-175 | a number in decimal notation, with leading zeros and anything but a digit after it, is read as itself if it fits in an int, and throws otherwise |
| Decimals.StoiReadsOnly | frontend/FrontendGen/lib/Parser.cpp:170-175 | whatever is read starts with a number that fits |
| OperandSpec.TypeOperandMeans | frontend/FrontendGen/lib/Parser.cpp:323-344 | the operand put together from token lengths and bracket counts is the source slice up to the closing bracket if and only if that slice has no whitespace |
| FileSpec.AnyTypeOfMeans | frontend/FrontendGen/lib/Parser.cpp:310-318 | an AnyTypeOf operand is the source slice up to its closing bracket if and only if the bracket directly follows the word |
| FileSpec.MarkedUnique | frontend/FrontendGen/lib/Lexer.cpp:174-190 | a mark is closed at one place only |
| Parsing.Parser.ParserCurlyBracketOpen | frontend/FrontendGen/lib/Parser.cpp:155-189 | builder references are read as specified, an index that is not numeric ending in an exception |
| Parsing.Parser.ParserTerminator | frontend/FrontendGen/lib/Parser.cpp:213-221 | a quoted token becomes a terminator element and a custom terminator, whether or not the quote is closed |
| Parsing.Parser.ParserIdentifier | frontend/FrontendGen/lib/Parser.cpp:191-209 | a word becomes a terminator or a rule element according to the terminators known at that point |
| Parsing.Parser.ParserGenerator | frontend/FrontendGen/lib/Parser.cpp:137-153 | the loop ends on every input and computes the specified elements, state and terminators |
| Parsing.Parser.ParserRules | frontend/FrontendGen/lib/Parser.cpp:113-134 | the alternatives read, or none if the rule is not followed through; all terminators have lexer rules |
| Parsing.Parser.ParserDialect | frontend/FrontendGen/lib/Parser.cpp:230-250 | names are the marked texts after their keywords, the last one of each kept |
| Parsing.Parser.ParserTypeOperand | frontend/FrontendGen/lib/Parser.cpp:323-345 | the imperative form of the operand, with the slice property |
| Parsing.Parser.ParserAnyTypeOf | frontend/FrontendGen/lib/Parser.cpp:310-318 | the imperative form of the AnyTypeOf operand, with its slice property |
| Parsing.Parser.ParserCArg | frontend/FrontendGen/lib/Parser.cpp:397-405 | operand and default value are the two marked texts |
| Parsing.Parser.ParserDAG | frontend/FrontendGen/lib/Parser.cpp:295-363 | terminates, reads the specified operands, names and default values, and keeps the two lists in step on every input |
| Parsing.Parser.ParserBuilders | frontend/FrontendGen/lib/Parser.cpp:366-395 | terminates although its loop tests a possibly stale token text, and collects the specified builders |
| Parsing.Parser.ParserOp | frontend/FrontendGen/lib/Parser.cpp:253-292 | terminates and collects the specified arguments, results and builders, or gives the operation up |
| Parsing.Parser.CompilEngine | frontend/FrontendGen/lib/Parser.cpp:70-110 | the whole parser ends on every input, hands on the specified module, and every terminator in it has a lexer rule |
| RuleGrammar.ReadRule | frontend/FrontendGen/lib/Parser.cpp:113-228 | a rule as it is written, builder references included, becomes the rule it means, builder indices being the numbers written, each word classified by the terminators quoted before it |
| RuleGrammar.OnlyRefsAreRead | frontend/FrontendGen/lib/Parser.cpp:164-175 | a word is read as a builder reference, not thrown at, if and only if it is a name without underscores, an underscore and a number that fits |
| RuleGrammar.ReadAbandoned | frontend/FrontendGen/lib/Parser.cpp:113-134 | a rule that is not followed through to its semicolon keeps its name and its quoted terminators but no alternatives, and the parser goes on where it breaks off |
| DagGrammar.ReadDag | frontend/FrontendGen/lib/Parser.cpp:295-363 | a DAG as it is written, with operands in all five forms, becomes the lists of operand texts and names and the default values it means |
| OpGrammar.ReadOp | frontend/FrontendGen/lib/Parser.cpp:253-292 | an operation becomes the last arguments, the last results and all builders it is written with |
| OpGrammar.ReadDialect | frontend/FrontendGen/lib/Parser.cpp:230-250 | a dialect becomes the last name and the last namespace it is written with |
| FileGrammar.ParserReadsFile | frontend/FrontendGen/lib/Parser.cpp:70-110 | for every text that spells a list of rules, dialects and operations the specified parse, from the state the parser is constructed in, gives exactly the module these mean |
| FileGrammar.ParserReadsRules | frontend/FrontendGen/lib/Parser.cpp:70-153 | for every text whose run of tokens spells a list of rules it gives exactly those rules |
| Mistakes.ParserMeetsMistake | frontend/FrontendGen/lib/Parser.cpp:70-110 | after any list of definitions the parser throws at a word that is no builder reference, returns nothing if a rule or dialect has no name, and returns what it has read if no definition follows or an operation is given up |
| Mistakes.OpenQuote | frontend/FrontendGen/lib/Parser.cpp:213-221 | a quotation mark that is not closed quotes one token all the same |
| Mistakes.OtherBracket | frontend/FrontendGen/lib/Parser.cpp:155-187 | a curly bracket without `builder` is passed over alone |
| Mistakes.NoEquals | frontend/FrontendGen/lib/Parser.cpp:158-163 | `{builder` without an equals sign is passed over |
| Mistakes.OpenList | frontend/FrontendGen/lib/Parser.cpp:164-188 | a list that is not closed counts |
| Scripts.WordsAreTheRun | frontend/FrontendGen/lib/Lexer.cpp:67-138 | a text spells a script of tokens if and only if these are the tokens of its run |
| Writing.WriteThenParse | frontend/FrontendGen/lib/Parser.cpp:70-405 | every list of definitions can be written down, and parsing the text gives exactly what the definitions mean |
| Parsing.Parser.constructor | frontend/FrontendGen/include/Parser.h:34-38 | a new parser is at the first token of its text, with no custom terminators |
| FrontEnd.Parse | frontend/FrontendGen/frontendgen.cpp:121-125 | on any text a new lexer, terminator set and parser end with the specified outcome, module and terminators |
| FrontEnd.ParseSpelled | frontend/FrontendGen/frontendgen.cpp:121-125 | on a text that spells a list of definitions they return normally with exactly the module these mean |
| FrontEnd.ParseMistaken | frontend/FrontendGen/frontendgen.cpp:121-125 | on definitions followed by a mistake they throw, return nothing or return what the definitions mean |
| FrontEnd.ParseWritten | frontend/FrontendGen/frontendgen.cpp:121-125 | writing definitions down and parsing the text returns what they mean |
| FrontEnd.Generate | frontend/FrontendGen/frontendgen.cpp:54-68 | there is a grammar file exactly if the parse returns and a grammar name is given; it divides into its header, the words of its rules and its lexer definitions, and the rules can be read back if and only if each has an alternative and neither colon nor semicolon is quoted; every terminator printed in it is defined in it, and no name is defined twice if and only if quoted terminators and rules have names of their own |
| Emitting.CGModule.EmitGenerator | frontend/FrontendGen/lib/CGModule.cpp:101-117 | appends names with a space, terminators capitalised, and operators without |
| Emitting.CGModule.EmitRules | frontend/FrontendGen/lib/CGModule.cpp:78-98 | appends every rule with its alternatives in order |
| GrammarText.RulesRead | frontend/FrontendGen/lib/CGModule.cpp:78-117 | the text appended for the rules divides into each rule's name, a colon, the names of its first alternative, a bar before those of each further one, and a semicolon |
| GrammarText.DivisionIsUnique | frontend/FrontendGen/lib/CGModule.cpp:78-117 | no text divides into words in two ways |
| GrammarText.ReadBackIff | frontend/FrontendGen/lib/CGModule.cpp:78-117 | rules, alternatives and elements are recovered in order from these words if and only if every rule has an alternative and no colon or semicolon is quoted |
| GrammarText.EmittedFileReads | frontend/FrontendGen/lib/CGModule.cpp:46-76 | for every parsed module the file is the header and the words of its rules, and then name, colon, pattern and semicolon of each lexer definition |
| Emitting.CGModule.EmitCustomTerminators | frontend/FrontendGen/lib/CGModule.cpp:66-76 | appends one lexer rule for each custom terminator, in some order |
| Emitting.CGModule.EmitAntlr | frontend/FrontendGen/lib/CGModule.cpp:46-64 | appends header, rules, custom and built-in lexer rules |
| Emitting.NoDanglingReference | frontend/FrontendGen/lib/CGModule.cpp:46-76 | every terminator printed in a rule of a parsed module is defined in the same file, at the start of a line, by the lexer rule of a built-in or of a quoted terminator of that name |
| Definitions.FileIsDefs | frontend/FrontendGen/lib/CGModule.cpp:46-76 | after the rules the file consists of the definitions of quoted terminators, built-ins and the last three, and nothing else |
| Definitions.NoneDefinedTwice | frontend/FrontendGen/lib/CGModule.cpp:46-98 | no name is defined twice if and only if capitalising keeps quoted terminators apart from each other and from the built-in names, and rule names are distinct and none of these |
| Definitions.DefinedTwice | frontend/FrontendGen/lib/CGModule.cpp:66-76 | a quoted `var`, and `a` quoted together with `A`, are defined twice |
| RoundTrip.PrintParsePrint | frontend/FrontendGen/lib/CGModule.cpp:100-117 | printing a generator, parsing the text under any terminators and printing again gives the same text if and only if every terminator is named by a word or is a quotation mark at the end; the parse then consumes all of it and its elements carry exactly the printed names |
| RoundTrip.ParsedIsPrintable | frontend/FrontendGen/lib/Parser.cpp:200-228 | every generator the parser builds is in the scope of the round trip |
| RoundTrip.QuotedOperatorChanges | frontend/FrontendGen/lib/Parser.cpp:211-221 | a quoted operator is printed with a space and comes back without |
| Tensors.ZeroOuts | embedding_exam/torchdynamo/raccoon/compiler.py:97-104 | linalg.matmul into a zero-filled tensor is the matrix product, cell by cell |
| Tensors.AddIsSum | embedding_exam/torchdynamo/raccoon/compiler.py:79-90 | an addition of equal shapes is the one tensor of that shape whose elements are the sums of theirs |
| Tensors.MatmulIsProduct | embedding_exam/torchdynamo/raccoon/compiler.py:91-104 | the product of two matrices is the matrix product that the naive loop computes from zero |
| FxImporter.Importer.CodeGen | embedding_exam/torchdynamo/raccoon/compiler.py:72-110 | one node updates the symbol table, the pending arguments and the code as specified, or raises |
| FxImporter.Importer.Run | embedding_exam/torchdynamo/raccoon/compiler.py:56-62 | the node loop is the fold of CodeGen over the graph |
| FxImporter.SimulateNode | embedding_exam/torchdynamo/raccoon/compiler.py:72-110 | each node keeps the simulation: the code so far runs, inferred types are run-time shapes, symbols denote the values of their nodes, arguments are consumed in order |
| FxImporter.ImportIsCorrect | embedding_exam/torchdynamo/raccoon/compiler.py:41-70 | whenever the import succeeds, also with nodes it ignores, every operand is defined before use and inferred types are run-time shapes; the table holds an output if and only if the output is not an ignored node, and then the emitted function returns the graph's output |
| FxImporter.ImportPreservesMeaning | embedding_exam/torchdynamo/raccoon/compiler.py:56-110 | on every well-formed graph of placeholders, same-shape additions, matrix products and an output the import succeeds and the emitted function returns the graph's output |
| FxSuccess.ImportSucceeds | embedding_exam/torchdynamo/raccoon/compiler.py:72-110 | for any graph the import succeeds if and only if there is an input for every placeholder, every addition and product finds its operands among the names bound before it and with enough dimensions, and every output names something; it then binds exactly these names, with these types |
| FxSuccess.Import | embedding_exam/torchdynamo/raccoon/compiler.py:41-70 | the importer run on a graph succeeds under exactly that condition |
| FxSuccess.IgnoredNodesDoNotMatter | embedding_exam/torchdynamo/raccoon/compiler.py:77-104 | leaving out the nodes no branch is for changes neither success nor result |
| ToyLiterals.ToyParser.TensorLiteral | examples/ToyDSL/Toy.g4:27-44 | a literal appends its numbers in row-major order and its node gets a copy of the whole buffer |
| ToyLiterals.ToyParser.ParseProgram | examples/ToyDSL/Toy.g4:46-81 | the data of every literal is what is pending before it plus its own numbers |
| ToyLiterals.OwnDataIffNothingBetween | examples/ToyDSL/Toy.g4:46-55 | an initialiser's data is its own numbers if and only if no statement since the previous initialised declaration contains a literal with a number |
| ToyLiterals.DeclarationsLeaveNothing | examples/ToyDSL/Toy.g4:52-53 | a sequence of declarations leaves the buffer empty |
| ToyLiterals.ShapeAgrees | examples/ToyDSL/include/MLIRToyVisitor.h:91-109 | for rectangular literals of rank one and two the dimensions from comma counts fit the data exactly, element (i, j) at offset i * columns + j |
| ToyLiterals.DeclaredConstant | examples/ToyDSL/include/MLIRToyVisitor.h:91-109 | in any program a rectangular initialiser becomes a constant of its own shape and numbers under that condition, and otherwise always has the wrong size |
| ToyLiterals.DeclaredValues | examples/ToyDSL/include/MLIRToyVisitor.h:91-109 | parser and visitor one after the other give every declared literal its own constant if no number stands between it and the previous initialised declaration, and a wrong size otherwise |
| ToyLiterals.DeclaredConstants | examples/ToyDSL/include/MLIRToyVisitor.h:91-109 | in a program of declarations every rectangular initialiser becomes a constant of its own shape and numbers |
| ToyLiterals.PrintedLiteralLeaks | examples/ToyDSL/Toy.g4:46-55 | the numbers of a printed literal end up in the next declared constant, which then has the wrong size |

## Left out

- MLIR and LLVM machinery (rewriters, pass managers, JIT, translation): only the meaning of the emitted or checked-in code is modelled.
- IEEE rounding: abstract element operations everywhere, real numbers in `LlvmKernel`.
- LlvmKernel.CompiledMain: does not model wrap-around of the 64-bit counters, which stay below the dimension, and requires i * j to fit in 32 bits because otherwise the C program overflows.
- VanillaGemm.Gemm: does not model overflow of the 32-bit `int` offsets of very large matrices.
- ConvLowering.StripMined: assumes that `buddy::zeroCond`, which is not part of the repository, is true for a coefficient different from zero.
- ConvLowering.Lowered: takes zero or two tile sizes; other ranks have no lowering of a two-dimensional convolution.
- Im2col.Convolution: takes the product with the flattened kernel from left to right; numpy does not promise an order. Negative paddings and strides below one are not modelled.
- FillCfg.RunFills: stops at ^bb18, where the buffers go to the product and are printed.
- Parsing.Parser.CompilEngine: diagnostics (texts, locations, only the first being reported) are not modelled; they do not change what is parsed. A dialect pointer that the source leaves uninitialised is absent.
- OperandSpec.TypeOperandMeans: a bracket that is never closed still counts towards the operand's length, so the slice may reach past the buffer; characters there read as the terminator.
- RoundTrip.PrintParsePrint: builder references are not printed by the source and so are not part of it.
- FileGrammar.ParserReadsFile: describes definitions written in full and rules that break off; `Mistakes.ParserMeetsMistake` goes on from there, but what the parser makes of the remaining texts, such as broken operands of a DAG, is given by `FileSpec` alone.
- GrammarText.EmittedFileReads: takes a grammar name that is a word of letters, digits and underscores, a number or a sign; the patterns of lexer rules are not divided further.
- Emission of the visitor class (`emitOp`, `emitClass`, the type maps) and of the syntax tree: string plumbing around the parsed module.
- FxImporter.ImportPreservesMeaning: additions are of equal shapes; broadcasting, which the emitted `arith.addf` does not do, is outside. A symbol-table entry is the value it denotes, not the Python operation object; that an `arith.AddFOp` has the `.type` which compiler.py:93 asks of a sum used in a matrix product is not decided by the repository and is taken for granted.
- FrontEnd.Generate: models emitting the grammar; reading and writing files, the other kinds of output and the choice between them are not modelled.
- `Lowering` in `compiler.py`, `LowerRaccoonPass.cpp`, `main.cpp`: pass selection and file handling.
- ToyLiterals.ShapeAgrees: ranks above two, for which `getTensor` reads only two dimensions.
- Toy function scopes, reshapes, calls and returns of `MLIRToyVisitor.h`: direct translations of one node each.
- `Parser::lookToken`: a debugging aid that does not end on an unknown character.
- Timing, printing, FLOPS reporting, BLAS and PAPI code: input and output.
