# nb, its transport and its facade, in Dafny

A model of the hard parts of an FHE toolchain: the nb compiler (`dsl_fhe/xcomp`), the
archive it ships projects in (`src/fhetch_transport`) and the record/replay facade
(`src/auto_facade`). Code that changes state step by step is a class or a method with
loops, proved against functions; what the code is for is proved about those functions,
for all inputs and all runs. `dafny verify dfyconfig.toml` checks the whole project.

## Main results

- Every form the compiler emits for a linear transform (plain, chained, batched, split by
  a memory budget) computes one sum, and the diagonals it lays out make that sum the
  scaled vector-matrix product: `BsgsDiagonals.MatrixProduct`, `Chunks.SplitTransforms`.
- The streaming unpacker, fed any cuts of any bytes, succeeds exactly when the batch
  parser does, with the same files; pack then unpack is the identity:
  `ArchiveEquivalence.StreamRefinesUnpack`, `ArchiveEquivalence.UnpackStream`,
  `Archive.PackUnpackIdentity`.
- The text of a symbolic expression parses back to its tree if and only if it is faithful:
  `PrintRoundTrip.RoundTrip`, through a lexer class and a parser class
  (`FrontEnd.PrintAndRead`) that end on every input.
- The trees the parser makes are exactly those that can be written, with fewest
  parentheses by its levels of precedence, and each is what its own tokens, and its own
  text, are read as: `TreeExactly.ExprExactly`, `TreeExactly.TypeExactly`,
  `TreeExactly.TextReadsBack`. Any list of tokens, written out, lexes to itself, and
  comments nest: `TokenText.LineLexes`, `Comments.BlockExactly`.
- A replayed host run shows what the recorded one showed if and only if no output name
  stood for two values: `FacadeRuns.ReplayShowsTheRecording`. No two inputs or plaintexts
  of a run have one name, and without a configuration the facade changes nothing:
  `FacadeNames.NamesAreDistinct`, `FacadeModes.Unchanged`.
- Modules load exactly when imports are complete and acyclic, dependencies first; names
  resolve to what they meant, and a bare one is rewritten if and only if no binding has it
  in scope, by positions in the tree: `ModuleLoading.ModuleLoader.Load`,
  `NameResolution.MeaningKept`, `NamePositions.RewrittenExactly`.
- The Chebyshev interpolant is exact at its nodes: `ChebyshevDegree.ExactAtNodes`.
- The emitted schedule is what the entry point runs, for all arguments, if and only if no
  call writes out a default that a local captures: `CapturedDefaults.CallExactly`,
  `CapturedDefaults.EntryExactly`.
- An entry point has a schedule exactly when every statement in it can be planned:
  `ScheduleMade.MadeExactly`.
- The recorded paths are the files a stage touches, for all arguments, if and only if each
  is the stage's own formula; on names: if no path uses a stale name, and in plain bodies
  only if: `StagePaths.PathsExact`, `StaleNames.PathsExactlyFresh`.
- The depth analysis over-counts in no run of the emitted code if its depths hold of the
  least values on every way through it, and only if, where no cast claims more than its
  operand: `DepthWays.ExactlyWhenEveryWay`, `DepthEmitted.EmittedExactlyByWays`; with one
  frame of least values where branches can be told apart, `DepthExact.ExactlyWhenFine`,
  and with a condition on the text alone, `DepthTame.TameNeverTooDeep`.
- In the other direction, for names of exact depths an expression's depth is the true
  chain if and only if every sum keeps the deeper operand's type, and over whole programs
  a condition on the text is enough for no chain over the maximum to be missed:
  `DepthCovers.ExactlyWhenDeeper`, `DepthGuards.NoEmittedExcessIsMissed`.
- The OpenFHE code evaluates to what its expression says, slot by slot:
  `SlotMeaning.FheMeans`. The cleartext twin computes the encrypted program's slots up to
  the padding unless a short vector is rotated or a number added to it, with the exact
  lengths: `TwoModes.ModesAgree`, `ShortTransforms.TransformExact`.
- A wire comes back from disk and from a replay if and only if no field's name is another
  one's with a number: `WireRoundTrip.ExactlyWhenApart`.

Where the code does not do what its comments or its design promise, a lemma names an input
and another gives the condition under which it does: `MinusTakesTheField` and
`DotMakesAFloat` (`RoundTrip`), `SizeTakesTheBracket` (`TypeExactly`), `SumKeepsShallower`
(`ExactlyWhenDeeper`), `MadeUpNameTaken` (`ReplayShowsTheRecording`), `CapturedDefault`
(`CallExactly`, `EntryExactly`), `NestedLetKeepsStale`, `ConstantTaken`,
`TupleTakesConstant`, `JoinedTaken` and `RebindTakesConstant` (`PathsExact`,
`PathsExactlyFresh`), `AssignmentBreaks`, `BranchBreaks`, `LoopLetBreaks` and
`EitherLetBreaks` (`ExactlyWhenEveryWay`), `ShortVector` (`NumberDiffers`,
`RotationDiffers`, `TransformDiffers`) and `NumberedNameTaken` (`ExactlyWhenApart`). In
the table the main results come first, then these lemmas, then the rest by component.

## Components

**Linear transforms** (`Slots`, `LinearTransform`, `BsgsDiagonals`, `Chunks`). A ciphertext
is a vector of real slots, a rotation is cyclic, a null ciphertext is an option. The
chunk size follows from the budget, the ring dimension and the towers left.

**The archive** (`Bytes`, `EntryNames`, `Archive`, `Unpacker`, `ArchiveEquivalence`). The
writer, the batch parser and the incremental unpacker. The unpacker is a machine over
bytes; feeding spans is running it, so the cuts between spans do not matter.

**The front end** (`Lexing`, `Lexer`, `TokenText`, `Comments`, `Syntax`, `Grammar`,
`Parser`, `FrontEnd`, `TreeTokens`, `TreeSteps`, `TreeReading`, `TreeRoundTrip`,
`TreeOrigins`, `TreeLines`, `TreeExactly`, `Symbolic`, `PrintedTokens`, `PrintedText`,
`PrintedTrees`, `PrintRoundTrip`). `Lexing`
says what the tokens of a text are, operators being the longest in a table; `Lexer` is the
class that peeks and advances. `Grammar` is the recursive descent as functions on the
tokens left, with its termination measure: the tokens other than `>`, then the level.
`Parser` is the class that moves a position over its own list, splits `>>` in it and goes
back after a failed attempt. `TreeTokens` prints the tokens of any tree, `TreeRoundTrip`
reads them back level by level, and `TreeOrigins` says that nothing else is ever read.

**Modules** (`ModuleLoading`, `NameResolution`, `NameResolver`, `NamePositions`,
`NameFaults`). The depth-first loader and the resolver with its stack of scopes; scoping
by paths in the tree, binding form by binding form; which fault is reported.

**The facade** (`Facade`, `FacadePaths`, `FacadeModes`, `FacadeRuns`, `FacadeNames`). The
hooks on their globals, which the library re-enters while it replays, fetches and tags;
then whole runs of a host program, recorded and replayed.

**Fitting and depth** (`ChebyshevFit`, `ChebyshevDegree`, `Depth`, `DepthRuns`,
`DepthLows`, `DepthExact`, `DepthWays`, `DepthTame`, `DepthReports`, `DepthEmitted`,
`DepthPrograms`, `DepthCovers`, `DepthGuards`, `Analyzer`). The Clenshaw loop, exact
interpolation (with orthogonality of the nodes proved from the multiple-angle recurrence
and the zeros of T_n), the choice of a degree. The depth analysis: `Depth` for
expressions, `DepthRuns` for what a run evaluates, `DepthLows` for the least values that
runs bring to each place, `DepthReports` for the analyzer's reports. A `let` whose name an
outer `let` declared is emitted as an assignment, and a branch that the build decides
without a block: `DepthRuns.Emitted` says so, and `DepthEmitted` carries the theorems from
the analyzed program to the emitted one.

**Schedules** (`ScheduleTerms`, `Schedule`, `ScheduleMade`, `CapturedDefaults`,
`Formulas`, `StagePaths`, `StaleNames`, `StaleStages`). Substitution, the binding of
arguments, the unrolling of loops, the paths a stage records. `Formulas` has the meaning
that writes down what it computes: two expressions have the same value in every world
exactly when they are the same formula, and that gives the exact conditions.

**Two modes and wires** (`PlainSlots`, `PaddedSlots`, `ShortTransforms`, `TwoModes`,
`SlotMeaning`, `ShortVectors`, `Wires`, `NumberedNames`, `WireKeys`, `WireRoundTrip`).
`PaddedSlots` says which operations go with zeros at the end of a vector, `TwoModes`
generates and runs both codes and keeps track of lengths; `Wires` saves ciphertexts to
files or probes.

## Model

| member | source | states |
|---|---|---|
| LinearTransform.TransformFromMode | dsl_fhe/xcomp/codegen.py:1390-1490 | Whichever form the compiler emits, the result is the same product. |
| LinearTransform.TransformsLoop | dsl_fhe/xcomp/codegen.py:1505-1514 | Several sets over shared baby steps: each set's product is what it is alone. |
| BsgsDiagonals.MatrixProduct | dsl_fhe/xcomp/codegen.py:335-370 | End to end: laying out the diagonals and running the transform in any form gives the matrix product, or the failed check's error. |
| Chunks.CallsFit | dsl_fhe/xcomp/codegen.py:1574-1587 | With the computed chunk size every call has an aligned offset and fits the budget, unless it is a single giant step. |
| Chunks.SplitTransforms | dsl_fhe/xcomp/codegen.py:1589-1611 | Sets of any sizes: the fallback loop and the chunked path both give every set's product. |
| ArchiveEquivalence.StreamRefinesUnpack | src/fhetch_transport/archive.cpp:213-379 | For all bytes: the streaming unpacker succeeds exactly when the batch one succeeds having consumed everything, with the same files and count. |
| ArchiveEquivalence.UnpackStream | src/fhetch_transport/archive.h:88-103 | Any split of a stream into feeds, then finish, gives the files and the outcome of feeding it at once. |
| ArchiveEquivalence.StreamedRoundTrip | src/fhetch_transport/archive.cpp:153-326 | A packed archive streams back exactly when its names are admissible, to exactly its files. |
| Archive.PackUnpackIdentity | src/fhetch_transport/archive.cpp:194-379 | Pack then unpack into an empty directory gives exactly the named files with exactly their contents. |
| Archive.StreamArchive | src/fhetch_transport/archive.cpp:153-192 | What was sent is always a prefix of the archive, and all of it on success; a refusal is the last span's, and nothing is sent after it; an error means an unreadable file. |
| PrintRoundTrip.RoundTrip | dsl_fhe/xcomp/schedule.py:94-121 | For every symbolic expression: parsing its text gives its tree if and only if no string in it has a newline and no field in it is taken of a number or a unary minus. |
| FrontEnd.PrintAndRead | dsl_fhe/xcomp/schedule.py:94-121 | Printing a symbolic expression and reading it back with the two classes gives its own tree exactly when it is faithful. |
| Grammar.Grammar.ParseExpr | dsl_fhe/xcomp/parser.py:748-749 | Reading an expression ends on every token list, conserves the tokens other than `>`, and puts every float literal it consumes into its tree. |
| Parser.Parser.ParseExpr | dsl_fhe/xcomp/parser.py:748-749 | Tree, position and list are what the grammar's function gives. |
| TreeExactly.ExprExactly | dsl_fhe/xcomp/parser.py:748-1131 | An expression is what the parser makes of some tokens if and only if it can be written, and then its own tokens read as it and nothing is left. |
| TreeExactly.TypeExactly | dsl_fhe/xcomp/parser.py:500-574 | The same of types. |
| TreeExactly.TextReadsBack | dsl_fhe/xcomp/parser.py:748-749 | A source for every such tree whose names are words and no keywords and whose floats are digits around a point: its text lexes and parses to the tree. |
| TreeRoundTrip.ExprRead | dsl_fhe/xcomp/parser.py:748-1131 | For every tree of the modelled grammar that can be written: reading its tokens gives exactly that tree and stops right after it. |
| TreeRoundTrip.TypeRead | dsl_fhe/xcomp/parser.py:500-574 | For every type that can be written: reading its tokens gives exactly that type. |
| Lexer.Lexer.LexAll | dsl_fhe/xcomp/lexer.py:298-469 | The loop returns exactly the tokens, or the first error, that the suffix-by-suffix definition gives. |
| Lexing.LongestOperator | dsl_fhe/xcomp/lexer.py:337-467 | Of the operators listed in the lexer, the one that is read is the longest that the text starts with, and none is read exactly when it starts with none: the order in which the branches peek loses nothing. |
| TokenText.LineLexes | dsl_fhe/xcomp/lexer.py:298-469 | Any list of tokens, written out with a space after each one, lexes to itself. |
| Comments.BlockExactly | dsl_fhe/xcomp/lexer.py:217-230 | A block comment is passed over exactly when the text is insides in which comments nest, the matching end, and what is left. |
| FacadeRuns.ReplayShowsTheRecording | src/auto_facade/AutoFacade.cpp:597-708 | The replay shows the host exactly what the recording showed if and only if no output name was used for two different values. |
| FacadeRuns.SameTags | src/auto_facade/AutoFacade.cpp:526-575 | Record and replay give the same input and plaintext names, in the same order, and make up as many probe names; that no two are equal is in `NamesAreDistinct`. |
| FacadeRuns.RunsInOrder | src/auto_facade/AutoFacade.cpp:516-595 | In both runs the keys are tagged once and before any input, and the replay runs at most once and before any fetch. |
| FacadeNames.InputsAreDistinct | src/auto_facade/AutoFacade.cpp:534-574 | No two loads of a run are tagged under the same name. |
| FacadeNames.NamesAreDistinct | src/auto_facade/AutoFacade.cpp:534-720 | In any run, recorded or replayed, the k-th plaintext is called by the number k in both, and no two of all inputs and plaintexts have one name. |
| FacadeModes.Unchanged | src/auto_facade/AutoFacade.cpp:471-747 | Without a configuration a host sees its own values, whatever it does; dormant, the facade makes no call, and in cooperative mode it only tags. |
| FacadeNames.NestedHooksChangeNothing | src/auto_facade/AutoFacade.cpp:502-514 | Runs with any hook calls of the facade's own interleaved end exactly as the host's events alone. |
| ModuleLoading.ModuleLoader.Load | dsl_fhe/xcomp/modules.py:135-178 | Loading succeeds exactly when every imported module is found and the imports have no cycle; then the order lists every transitively imported module once, after all the modules it imports. A cycle error means a cycle, a missing module is a reachable one. |
| NamePositions.RewrittenExactly | dsl_fhe/xcomp/modules.py:349-469 | An occurrence of a bare declared name is rewritten if and only if no parameter, loop variable or earlier let, pattern or field of that name has it in scope, by positions in the tree; every other name and node is as it was. |
| NamePositions.BindsExactly | dsl_fhe/xcomp/modules.py:425-464 | What a node binds is what some pattern, field, let or reference position in it binds outside the scopes that it opens. |
| NameResolution.MeaningKept | dsl_fhe/xcomp/modules.py:349-469 | Every reference of a resolved tree names canonically what it meant before: the module's declaration exactly when no enclosing binding has its name; which bindings enclose it, by positions, is in `RewrittenExactly`. |
| NameResolution.FailsExactlyOnBadNames | dsl_fhe/xcomp/modules.py:349-372 | Resolution fails exactly when some reference has two qualifiers, a module that is not imported, or a name that module does not declare. |
| NameFaults.FirstIsBlamed | dsl_fhe/xcomp/modules.py:349-372 | A failed resolution names the first bad reference in the order of the source and says what is wrong with it; a success has none. |
| NameResolver.Resolver.Walk | dsl_fhe/xcomp/modules.py:385-469 | The walk gives the resolved tree and leaves the stack as it was, with the tree's own bindings, those of `BindsExactly`, in the innermost scope. |
| ChebyshevDegree.ExactAtNodes | dsl_fhe/xcomp/chebfit.py:142-168 | The interpolant equals the function at every node, for every function, interval and degree. |
| ChebyshevDegree.SelectDegree | dsl_fhe/xcomp/chebfit.py:183-192 | A degree is found exactly when some rung meets the target; it is the least rung that does, and no other one has a smaller depth. Otherwise the least error of the ladder is returned. |
| CapturedDefaults.EntryExactly | dsl_fhe/xcomp/schedule.py:199-291 | The schedule runs what the entry point runs, for all arguments and sound meanings, if and only if no call writes out a captured default; for bodies whose loops start at a known integer, end past it or at an argument, and have no constant's name for a variable. |
| CapturedDefaults.CallExactly | dsl_fhe/xcomp/codegen.py:4075-4104 | A step runs what its call runs, for all values and sound meanings, if and only if the call writes out no default with a name that the caller has a local for. |
| Schedule.EntryPreserves | dsl_fhe/xcomp/schedule.py:199-222 | For every entry point with a schedule and all arguments: unrolled schedule and run agree when no call writes out a default that a local captures. |
| ScheduleMade.MadeExactly | dsl_fhe/xcomp/schedule.py:245-322 | An entry point has a schedule exactly when every statement in it, at whatever depth, is a loop over symbolic bounds or a call of a server stage with such arguments. |
| StagePaths.PathsExact | dsl_fhe/xcomp/schedule.py:342-381 | For all arguments, loop variables, sound meanings and values of what is set in blocks, the recorded paths are those the stage computes, if and only if each is the stage's own as a formula. |
| StaleNames.PathsExactlyFresh | dsl_fhe/xcomp/schedule.py:342-381 | For all arguments, loop variables, sound meanings and values of what is set in blocks: the recorded paths are the stage's if no path uses a stale name, and only if, in such bodies. |
| StagePaths.ListsAreExact | dsl_fhe/xcomp/schedule.py:325-381 | Where the recorded paths are the stage's own formulas: a file is touched by the stage exactly when an entry of the list evaluates to it. |
| DepthExact.ExactlyWhenFine | dsl_fhe/xcomp/semantic.py:430-483 | A body over-counts in no run if its depths hold of the least values, and only then when of any two ways through a branch or a loop one leaves every variable at most as deep as the other. |
| DepthWays.ExactlyWhenEveryWay | dsl_fhe/xcomp/semantic.py:430-483 | For every program, branches comparable or not: no run over-counts if the depths hold, along every way through the program, of the values that are least on that way, and only then when calls outside the model may return the least their types allow and no cast claims more than its operand. |
| DepthWays.ExactlyWithoutLoops | dsl_fhe/xcomp/semantic.py:430-467 | Without loops the condition is finite: the set of least frames, one for each way through the branches, is exact. |
| DepthEmitted.EmittedExactlyByWays | dsl_fhe/xcomp/codegen.py:3297-3312 | The same with the condition on every way, which is exact for every program. |
| DepthTame.TameNeverTooDeep | dsl_fhe/xcomp/semantic.py:430-483 | Code that meets the condition on the text, lets that assign included, never over-counts, in any run. |
| DepthReports.ReportsAreReal | dsl_fhe/xcomp/semantic.py:553-562 | Every depth the analyzer reports belongs to an operation it checked, and the operation's chain is over the maximum in every run that comes to it. |
| DepthCovers.ExactlyWhenDeeper | dsl_fhe/xcomp/semantic.py:503-743 | For names of exact types: the depth of every part of the expression is the true chain if and only if the deeper operand of every sum is the one whose type is kept. |
| DepthCovers.ChainIsReported | dsl_fhe/xcomp/semantic.py:553-562 | At a place that a run comes to with exact names, and the deeper operands kept, every chain over the maximum is reported as it is. |
| DepthGuards.NoExcessIsMissed | dsl_fhe/xcomp/semantic.py:553-562 | Then for every chain over the maximum that a run comes to, a depth at least as large is reported. |
| DepthGuards.NoEmittedExcessIsMissed | dsl_fhe/xcomp/semantic.py:430-562 | The same of the emitted code of a source. |
| Analyzer.SemanticAnalyzer.CheckBlock | dsl_fhe/xcomp/semantic.py:430-432 | Statements in order, each in the scope the ones before it leave. |
| TwoModes.ModesAgree | dsl_fhe/xcomp/codegen.py:3891-3987 | For every expression and all vectors it names, short ones included: where the OpenFHE code evaluates and no short vector is rotated or combined with a number, the plain code evaluates to the same slots up to a tail of zeros, and without one when the result's length is n. |
| SlotMeaning.FheMeans | dsl_fhe/xcomp/codegen.py:3891-3987 | Whatever the OpenFHE code of an expression evaluates to holds, slot by slot, the sums, differences, products, rotations, negations and diagonal products that the expression says. |
| SlotMeaning.PlainMeans | dsl_fhe/xcomp/codegen.py:3891-3987 | The plain code evaluates to the same slots, with zeros for the missing ones. |
| ShortTransforms.TransformExact | dsl_fhe/xcomp/codegen.py:1815-1824 | For given lengths of the input and the diagonals, the twin's transform is the encrypted one on all values if and only if every baby rotation keeps the slots its diagonal reads and every giant rotation goes with the padding of its part. |
| PaddedSlots.RotationExact | dsl_fhe/xcomp/codegen.py:1807-1810 | For a vector of m of n slots, rotating and padding commute on all values if and only if m is n or 0, or both m and n divide the rotation. |
| WireRoundTrip.ExactlyWhenApart | dsl_fhe/xcomp/codegen.py:2801-2826 | All regular values of a wire with distinct names come back, on disk and on replay, if and only if no name is another field's followed by a number of an element or a batch. |
| WireRoundTrip.FieldBack | dsl_fhe/xcomp/codegen.py:4856-4903 | With distinct names that do not clash, every field comes back unchanged if and only if it is regular: single and vector fields always do. |
| PrintRoundTrip.MinusTakesTheField | dsl_fhe/xcomp/schedule.py:105-111 | A field of a negated name reads back as the negated field. |
| PrintRoundTrip.DotMakesAFloat | dsl_fhe/xcomp/schedule.py:100-106 | A field of a number does not read back: the dot is read into the number. |
| TreeExactly.SizeTakesTheBracket | dsl_fhe/xcomp/parser.py:519-527 | A vector type with a number for its size is read from no tokens at all: the size is read as an expression, which takes the closing `>` for an operator. |
| DepthCovers.SumKeepsShallower | dsl_fhe/xcomp/nb_types.py:147-171 | `(a + a * a) * a` has the depth 1 and a chain of 2: a sum keeps the left operand's type although the right one is deeper. |
| FacadeNames.MadeUpNameTaken | src/auto_facade/AutoFacade.cpp:663-665 | A file called output_0 saved after a decrypt takes the decrypt's made-up name, and the replay shows the wrong value. |
| Schedule.CapturedDefault | dsl_fhe/xcomp/codegen.py:4097-4102 | A default that the call writes out is read in the caller's scope: with a local of the same name the run passes another value than the schedule. |
| CapturedDefaults.OneRoundHidesIt | dsl_fhe/xcomp/schedule.py:277-291 | A loop over N from 1 to 1, with a constant N of 1: the default is captured, and every run is the schedule's; so the condition is not exact for all loops. |
| StaleStages.NestedLetKeepsStale | dsl_fhe/xcomp/codegen.py:3306-3312 | A let in a branch, of a name that an outer let has, is emitted as an assignment and is not forgotten: the outer path is recorded, whatever the stage loads. |
| StaleStages.ConstantTaken | dsl_fhe/xcomp/schedule.py:165-173 | A local with a constant's name whose value is not symbolic is recorded as the constant. |
| StaleStages.TupleTakesConstant | dsl_fhe/xcomp/schedule.py:356-377 | A tuple let over a constant's name hides the constant in the stage, and the constant is recorded. |
| StaleStages.JoinedTaken | dsl_fhe/xcomp/schedule.py:356-371 | A tuple let binds its joined name in the environment: a local called a_b is recorded with the tuple's value. |
| StaleStages.RebindTakesConstant | dsl_fhe/xcomp/schedule.py:362-371 | A let forgets its name before it reads its value, so a local called like a constant and bound anew from itself is recorded as the constant's successor. |
| DepthPrograms.AssignmentBreaks | dsl_fhe/xcomp/semantic.py:450-452 | `x = a * a`, then `x = a` assigned, then `x * a`: the depth is 2, a run's chain is 1, and both conditions fail. |
| DepthPrograms.BranchBreaks | dsl_fhe/xcomp/semantic.py:461-467 | `x = a`, a branch with its own let of `x * a`, then `x * a`: the depth is 2, the chain of a run that skips the branch is 1, and both conditions fail. |
| DepthPrograms.LoopLetBreaks | dsl_fhe/xcomp/codegen.py:3306-3312 | `x = a * a`, a loop with a let of `x = a`, then `x * a`: the let is emitted as an assignment, the analyzer drops it with the loop's scope, so the depth is 2 and the chain 1; both conditions fail. |
| DepthPrograms.EitherLetBreaks | dsl_fhe/xcomp/codegen.py:3306-3312 | `x = a * a`, a branch with a let of `x = a` or of `x = a * a`, then `x * a`: the depth is 2, the chain of a run that takes the first is 1; both conditions fail. |
| ShortVectors.ShortVector | dsl_fhe/xcomp/codegen.py:1796-1798 | With a vector shorter than the ciphertext the two modes differ: an example of two slots. |
| WireRoundTrip.NumberedNameTaken | dsl_fhe/xcomp/codegen.py:2807-2808 | A field a_1 beside a vector field a is read back as the next element of a, on disk and on replay. |
| LinearTransform.TermSumSplit | dsl_fhe/xcomp/codegen.py:1407-1409 | The diagonal sum over lo..hi is the sum over lo..mid plus the sum over mid..hi, for every cut. |
| LinearTransform.ProductSlot | dsl_fhe/xcomp/codegen.py:1407-1409 | What the transform puts in a slot: slot i holds the sum over k of x[i + k] times the k-th diagonal at the place its giant step counter-rotates it to. |
| LinearTransform.RotatedPart | dsl_fhe/xcomp/codegen.py:1420-1430 | A giant step's part, rotated once by its offset, is the sum of its own diagonals' terms: rotating after the sum is the same as rotating every term. |
| LinearTransform.HornerIsTheSum | dsl_fhe/xcomp/codegen.py:1485-1488 | Summing the giant steps Horner-style from the last one down, with rotations by bstep only, gives the whole sum, from any giant step on. |
| LinearTransform.BabyRotations | dsl_fhe/xcomp/codegen.py:1491-1500 | Both ways to make the baby steps (each from the input, or each one rotation by 1 from the one before) give x rotated by b, for every b. |
| LinearTransform.GiantStepOnHost | dsl_fhe/xcomp/codegen.py:1423-1430 | One diagonal at a time: a null accumulator is taken over by the first term; the result is the giant step's sum, the last step's missing diagonals included. |
| LinearTransform.GiantStepBatched | dsl_fhe/xcomp/codegen.py:1448-1466 | Diagonals encoded in batches of any positive size give the same giant step as one at a time. |
| LinearTransform.BatchSize | dsl_fhe/xcomp/codegen.py:1396-1399 | The batch is between 1 and bstep whatever the setting, so the batched loop ends. |
| LinearTransform.TransformFrom | dsl_fhe/xcomp/codegen.py:1410-1490 | The plain loop is the diagonal product; null exactly when there is no diagonal. |
| LinearTransform.CollectParts | dsl_fhe/xcomp/codegen.py:1419-1480 | The chained form first lists every giant step's unrotated part, in order, batched or not. |
| LinearTransform.HornerOver | dsl_fhe/xcomp/codegen.py:1485-1488 | The backward loop is the Horner sum of the parts; null exactly when there are none. |
| LinearTransform.TransformFromChained | dsl_fhe/xcomp/codegen.py:1418-1490 | The chained form, batched or not, is the diagonal product. |
| LinearTransform.TransformLoop | dsl_fhe/xcomp/codegen.py:1501-1504 | From the input: with min(bstep, count) baby steps every form computes the product. |
| BsgsDiagonals.WriteInRange | dsl_fhe/xcomp/codegen.py:346-363 | Once the checks pass, every write of the nested loops is inside its diagonal and every read inside the matrix. |
| BsgsDiagonals.FillRegion | dsl_fhe/xcomp/codegen.py:362-363 | One region's loop writes that region's entries at their counter-rotated places and nothing else. |
| BsgsDiagonals.Diagonal | dsl_fhe/xcomp/codegen.py:357-364 | A diagonal holds the last region's entry wherever regions cover a slot and 0 elsewhere. |
| BsgsDiagonals.Diagonals | dsl_fhe/xcomp/codegen.py:342-370 | Fails exactly when a check fails, with that check's error; otherwise count diagonals of the documented layout. |
| BsgsDiagonals.LaidInside | dsl_fhe/xcomp/codegen.py:335-341 | With width at most region, a slot inside a region holds that region's entry, whatever the later regions write. |
| BsgsDiagonals.LaidOutside | dsl_fhe/xcomp/codegen.py:335-341 | A slot in no region holds 0. |
| BsgsDiagonals.CyclicSumIsSum | dsl_fhe/xcomp/codegen.py:363 | A sum taken cyclically from any start is the two straight sums it wraps into. |
| BsgsDiagonals.InsideSum | dsl_fhe/xcomp/codegen.py:335-370 | At a region's slot the transform sums the products of one matrix column, taken cyclically from that slot. |
| BsgsDiagonals.OutsideSum | dsl_fhe/xcomp/codegen.py:335-370 | At a slot outside every region each diagonal contributes 0. |
| BsgsDiagonals.SlotInside | dsl_fhe/xcomp/codegen.py:335-370 | Slot r * region + i holds s times the dot product of v with column col0 + i of the submatrix. |
| BsgsDiagonals.ProductIsMatrixProduct | dsl_fhe/xcomp/codegen.py:335-370 | The transform of the input by these diagonals is the scaled vector-matrix product in every region and 0 everywhere else. |
| Chunks.LtChunkFits | dsl_fhe/xcomp/codegen.py:1542-1566 | From the budget, ring dimension, depth and level: a chunk is whole giant steps or everything; it and any prefix of it fits the memory budget, unless it is a single giant step. |
| Chunks.CallsPartition | dsl_fhe/xcomp/codegen.py:1567-1587 | The chunks, in order, are exactly the diagonals, none empty and none longer than the chunk size. |
| Chunks.CallsAt | dsl_fhe/xcomp/codegen.py:1579-1586 | Every call's offset is a multiple of bstep, so its rotation key exists. |
| Chunks.EngineTransformIsTermSum | dsl_fhe/xcomp/codegen.py:1544-1553 | The engine's contract for a chunk at an offset is the part of the whole sum between the chunk's ends. |
| Chunks.AddChunk | dsl_fhe/xcomp/codegen.py:1579-1586 | One round of the loop extends the accumulated sum by the chunk. |
| Chunks.SplitTransform | dsl_fhe/xcomp/codegen.py:1570-1588 | Splitting a product by the budget gives the whole product, through exactly the computed calls. |
| Chunks.AddChunkToAll | dsl_fhe/xcomp/codegen.py:1600-1609 | One chunk of all sets extends every set's sum by it. |
| Chunks.SplitSameSize | dsl_fhe/xcomp/codegen.py:1595-1610 | Sets of one size, chunked together, each give their whole product. |
| Bytes.FromLeOfLe | src/fhetch_transport/archive.cpp:26-48 | Reading a written field gives the value modulo 256 to its width: the truncation of a value that does not fit. |
| Bytes.LeRoundTrip | src/fhetch_transport/archive.cpp:26-48 | A value that fits its field reads back as itself. |
| Bytes.LeAppend | src/fhetch_transport/archive.cpp:29-31 | A field one byte wider is the field and the value's next byte. |
| Bytes.FromLeAppend | src/fhetch_transport/archive.cpp:42-45 | The next byte read adds its weight, whatever was read before. |
| Bytes.AppendLe | src/fhetch_transport/archive.cpp:25-32 | The writing loop appends exactly the field's bytes. |
| Bytes.ReadLe | src/fhetch_transport/archive.cpp:34-48 | The reading loop fails exactly when the field is cut off, and otherwise gives its value and moves past it. |
| EntryNames.ValidateRelativePath | src/fhetch_transport/archive.cpp:50-66 | Passes exactly the non-empty relative paths without empty or `..` components, and says which of the two it is otherwise. |
| EntryNames.NoComplaint | src/fhetch_transport/archive.cpp:93-116 | The component loop accepts exactly when there are 1 to 64 components besides `.` and each is made of allowed characters and does not start with a dash. |
| EntryNames.ValidateUntrustedEntryName | src/fhetch_transport/archive.cpp:82-117 | Accepts exactly the admissible names, over the components that `ComponentsJoin`, `OneComponent` and `NoSlashInside` determine; the first complaint, in the code's order, is the one reported. |
| EntryNames.NameCheck | src/fhetch_transport/archive.cpp:358-360 | Both checks together: fine exactly on admissible names, whose components are those between the slashes (`ComponentsJoin`). |
| EntryNames.Validate | src/fhetch_transport/archive.cpp:293-295 | The two checks run one after the other are that check. |
| Archive.BuildFrame | src/fhetch_transport/archive.cpp:166-170 | An entry's framing is its name length, its name and its data length. |
| Archive.StreamBytes | src/fhetch_transport/archive.cpp:178-189 | A file is sent in bounded chunks that concatenate to it; what was sent before a refusal or a short read is a prefix. |
| Archive.StreamEntry | src/fhetch_transport/archive.cpp:165-190 | One entry sends its framing and its bytes, or a prefix of them; an error means a file that cannot be opened or is short, and success that it is neither. |
| Archive.PackDirectory | src/fhetch_transport/archive.cpp:194-208 | The buffered form succeeds exactly when every file is readable at its recorded size, with the whole archive. |
| Archive.ContentLength | src/fhetch_transport/archive.cpp:144-151 | When every file is readable at its recorded size, the length announced is the archive's length, to the byte. |
| Archive.UnpackOneBody | src/fhetch_transport/archive.cpp:353-375 | The second half of an entry: length, bounds, name checks, write, in the code's order. |
| Archive.UnpackOne | src/fhetch_transport/archive.cpp:345-376 | One round of the loop, all of its failures included. |
| Archive.UnpackInto | src/fhetch_transport/archive.cpp:328-379 | The loop unpacks what `Unpack` says, keeps the files written before a failure, and returns the header's count. |
| Archive.UnpackPacked | src/fhetch_transport/archive.cpp:153-379 | An archive that was packed unpacks exactly when every name in it is admissible, to exactly its files, with every byte consumed. |
| Archive.WriteAllHolds | src/fhetch_transport/archive.cpp:364-374 | With distinct files, each one holds its own entry's bytes after all are written. |
| Unpacker.StepKeepsValid | src/fhetch_transport/archive.h:94-117 | Every byte keeps the machine's invariant: less is pending than needed, done entries are at most the count, a file in progress exists. |
| Unpacker.RunAppend | src/fhetch_transport/archive.cpp:213-317 | Running on a and then on b is running on a + b: chunk boundaries do not matter. |
| Unpacker.RunField | src/fhetch_transport/archive.cpp:248-316 | A field completes when its last byte arrives, however its bytes were split. |
| Unpacker.RunData | src/fhetch_transport/archive.cpp:219-242 | A span of file data is written as one piece, up to and including the entry's end. |
| Unpacker.ArchiveUnpacker.constructor | src/fhetch_transport/archive.cpp:210-211 | The initial state: waiting for four bytes of magic, nothing done. |
| Unpacker.ArchiveUnpacker.TakeData | src/fhetch_transport/archive.cpp:223-240 | Writing a span moves to the next entry, or to the end, exactly when the entry is full. |
| Unpacker.ArchiveUnpacker.CompleteField | src/fhetch_transport/archive.cpp:255-315 | A complete field has the effect, or the error, that the machine says, in all five states. |
| Unpacker.ArchiveUnpacker.Feed | src/fhetch_transport/archive.cpp:213-317 | Feeding a span is running the byte machine over it: same state, same files, same error. |
| Unpacker.ArchiveUnpacker.Finish | src/fhetch_transport/archive.cpp:319-326 | Returns the number of files exactly in the final state. |
| ArchiveEquivalence.FailureStays | src/fhetch_transport/archive.cpp:213-317 | A stream that has failed has failed in the same way however it goes on. |
| ArchiveEquivalence.EntryTaken | src/fhetch_transport/archive.cpp:271-313 | From an entry's start the machine and the batch parser take the same entry, fail together, or the stream ends inside it. |
| ArchiveEquivalence.EntriesRun | src/fhetch_transport/archive.cpp:213-379 | From any entry on, the machine ends in its final state exactly when the batch parser succeeds at the last byte, with the same files. |
| ArchiveEquivalence.StoppedStreamIsIncomplete | src/fhetch_transport/archive.cpp:153-326 | A stream that was stopped early never passes finish. |
| Lexing.LexEndsWithEof | dsl_fhe/xcomp/lexer.py:298-305 | A lexed source ends with the end token and has no other one. |
| Lexer.Lexer.constructor | dsl_fhe/xcomp/lexer.py:168-174 | At the start of the source, with no tokens. |
| Lexer.Lexer.Advance | dsl_fhe/xcomp/lexer.py:190-198 | Returns the current character and moves past it. |
| Lexer.Lexer.SkipNested | dsl_fhe/xcomp/lexer.py:217-230 | Block comments nest: the loop stops after the matching end, and fails exactly when there is none. |
| Lexer.Lexer.SkipWhitespaceAndComments | dsl_fhe/xcomp/lexer.py:200-232 | Stops at the first character of a token, or fails on an unterminated comment. |
| Lexer.Lexer.ReadString | dsl_fhe/xcomp/lexer.py:234-260 | The string's value with its escapes undone, or the unterminated-string error, newline included. |
| Lexer.Lexer.ReadDigits | dsl_fhe/xcomp/lexer.py:265-268 | The longest run of digits and underscores; the underscores are dropped. |
| Lexer.Lexer.ReadNumber | dsl_fhe/xcomp/lexer.py:262-279 | A dot that is not followed by another dot makes a float, with or without digits after it. |
| Lexer.Lexer.ReadWord | dsl_fhe/xcomp/lexer.py:284-286 | The longest run of word characters. |
| Lexer.Lexer.ReadOperator | dsl_fhe/xcomp/lexer.py:337-467 | Peeking and advancing one character at a time, it stops after the longest operator that starts there, `*_norelin` included, and reports an unexpected character exactly when no operator starts there. |
| Lexer.Lexer.ReadSigns | dsl_fhe/xcomp/lexer.py:337-467 | The chain of branches takes the token and the length that the table of operators gives. |
| Lexer.Lexer.Follow | dsl_fhe/xcomp/lexer.py:179-198 | An expected character is passed exactly when it is next. |
| Lexer.Lexer.FollowNorelin | dsl_fhe/xcomp/lexer.py:433-449 | The norelin suffix is passed, all eight characters, exactly when the whole of it is next. |
| Lexer.Lexer.ReadToken | dsl_fhe/xcomp/lexer.py:306-467 | One round of the loop reads the first token of what is left. |
| Grammar.ExpectGt | dsl_fhe/xcomp/parser.py:70-80 | On `>` or `>>` one `>` is consumed; `>>` leaves a `>` in the list. The tokens that are not `>` are conserved and none is a float. |
| Grammar.ParseName | dsl_fhe/xcomp/parser.py:158-167 | A qualified name consumes only what it returns, and at least one token when it succeeds. |
| Grammar.Restore | dsl_fhe/xcomp/parser.py:852-871 | Going back keeps the inserted `>`: the list has the same tokens other than `>` and the same floats. |
| Grammar.Grammar.ParseType | dsl_fhe/xcomp/parser.py:500-574 | Reading a type ends on every token list; the tokens other than `>` are conserved, one at least is consumed on success, and no float is dropped. |
| Grammar.Grammar.TryTurbofish | dsl_fhe/xcomp/parser.py:850-871 | An attempt that fails consumes nothing and leaves the same tokens apart from inserted `>`; one that succeeds stops at `(`. Nested attempts end too. |
| Parser.PushBack | dsl_fhe/xcomp/parser.py:852-871 | Moving the position back over what was consumed gives the list as `Restore` says, inserted tokens kept. |
| Parser.RefillList | dsl_fhe/xcomp/parser.py:867-871 | The position saved before an attempt still points at the same token afterwards, although the list has grown. |
| Parser.Parser.constructor | dsl_fhe/xcomp/parser.py:23-27 | The parser stands before the first token. |
| Parser.Parser.PeekType | dsl_fhe/xcomp/parser.py:34-35 | The type of the next token, the end token when there is none. |
| Parser.Parser.PeekTypeAt | dsl_fhe/xcomp/parser.py:37-41 | The types one and two tokens on. |
| Parser.Parser.Advance | dsl_fhe/xcomp/parser.py:46-50 | Returns the next token and moves past it; the last one is never passed. |
| Parser.Parser.Expect | dsl_fhe/xcomp/parser.py:52-60 | The expected token is consumed; on any other nothing moves and it fails. |
| Parser.Parser.Match | dsl_fhe/xcomp/parser.py:62-65 | Consumes the token exactly when it has the type. |
| Parser.Parser.InsertGt | dsl_fhe/xcomp/parser.py:76-79 | The inserted `>` is the next token; what was consumed and what follows is unchanged. |
| Parser.Parser.ExpectGt | dsl_fhe/xcomp/parser.py:70-80 | Splits `>>` in the list itself, at its position. |
| Parser.Parser.Rewind | dsl_fhe/xcomp/parser.py:867-871 | After going back the tokens left are the old ones with the inserted ones among them. |
| Parser.Parser.ParseType | dsl_fhe/xcomp/parser.py:500-574 | Type, position and list are what the grammar's function gives, failures included. |
| Parser.Parser.ParseEnc | dsl_fhe/xcomp/parser.py:512-517 | An `enc<...>` type is read, position and list included, as the grammar reads it. |
| Parser.Parser.ParseVec | dsl_fhe/xcomp/parser.py:519-527 | A `vec<...>` type with its optional size is read as the grammar reads it. |
| Parser.Parser.ParseMat | dsl_fhe/xcomp/parser.py:529-541 | A `mat<...>` type is read as the grammar reads it. |
| Parser.Parser.ParseMatSize | dsl_fhe/xcomp/parser.py:536-541 | A matrix's `[rows, cols]` is read as the grammar reads it. |
| Parser.Parser.ParseFn | dsl_fhe/xcomp/parser.py:543-554 | A function type is read as the grammar reads it. |
| Parser.Parser.ParseTuple | dsl_fhe/xcomp/parser.py:556-565 | A tuple type is read as the grammar reads it. |
| Parser.Parser.ParseTypes | dsl_fhe/xcomp/parser.py:547-550 | The loop over types reads the grammar's list, trailing comma included. |
| Parser.Parser.ParseNamed | dsl_fhe/xcomp/parser.py:567-572 | A named type or a member type is read as the grammar reads it. |
| Parser.Parser.ParseQualifiedName | dsl_fhe/xcomp/parser.py:158-167 | The loop over `::` reads the grammar's name. |
| Parser.Parser.ParsePipe | dsl_fhe/xcomp/parser.py:751-761 | The loop makes the same left-nested pipes. |
| Parser.Parser.ParseRange | dsl_fhe/xcomp/parser.py:763-771 | At most one range, whose end is read one level up. |
| Parser.Parser.ParseOr | dsl_fhe/xcomp/parser.py:773-778 | The loop over `||` is left-associative, as the grammar's recursion. |
| Parser.Parser.ParseAnd | dsl_fhe/xcomp/parser.py:780-785 | The loop over `&&` is left-associative. |
| Parser.Parser.ParseEq | dsl_fhe/xcomp/parser.py:787-793 | At most one equality. |
| Parser.Parser.ParseCmp | dsl_fhe/xcomp/parser.py:795-802 | At most one comparison, what is before the operator on its left (`TreeSteps.CmpStep`, `TreeRoundTrip.Reads`). |
| Parser.Parser.ParseShift | dsl_fhe/xcomp/parser.py:804-810 | The loop over shifts is left-associative. |
| Parser.Parser.ParseAdd | dsl_fhe/xcomp/parser.py:812-818 | The loop over `+` and `-` is left-associative. |
| Parser.Parser.ParseMul | dsl_fhe/xcomp/parser.py:820-826 | The loop over the products, `*_norelin` included, is left-associative. |
| Parser.Parser.ParsePow | dsl_fhe/xcomp/parser.py:828-833 | `^` is right-associative. |
| Parser.Parser.ParseUnary | dsl_fhe/xcomp/parser.py:835-841 | Prefix operators nest to the right. |
| Parser.Parser.ParseCast | dsl_fhe/xcomp/parser.py:843-848 | At most one cast. |
| Parser.Parser.TryTurbofish | dsl_fhe/xcomp/parser.py:850-871 | Position and list after a success and after a failure, of any kind, are what the grammar says. |
| Parser.Parser.ParsePostfix | dsl_fhe/xcomp/parser.py:873-932 | The loop over fields, calls, indices and type arguments makes the grammar's tree. |
| Parser.Parser.ParseMember | dsl_fhe/xcomp/parser.py:876-885 | A field access or a method call. |
| Parser.Parser.ParseIndex | dsl_fhe/xcomp/parser.py:886-912 | An index or a slice, in one dimension or two. |
| Parser.Parser.ParseCall | dsl_fhe/xcomp/parser.py:917-929 | A call with or without type arguments. |
| Parser.Parser.IsNamedArg | dsl_fhe/xcomp/parser.py:1107-1114 | Looks two tokens ahead and moves nothing. |
| Parser.Parser.ParseArgs | dsl_fhe/xcomp/parser.py:1116-1131 | The loop reads positional and named arguments, trailing comma included. |
| Parser.Parser.ParsePrimary | dsl_fhe/xcomp/parser.py:934-1026 | Literals, names, parentheses, arrays, struct literals and closures, and the error on any other token. |
| Parser.Parser.ParseParen | dsl_fhe/xcomp/parser.py:973-987 | A grouping is its expression; a tuple is an array. |
| Parser.Parser.ParseArray | dsl_fhe/xcomp/parser.py:1048-1057 | An array literal. |
| Parser.Parser.ParseElements | dsl_fhe/xcomp/parser.py:1052-1055 | The loop over expressions up to a closing token. |
| Parser.Parser.ParseIdent | dsl_fhe/xcomp/parser.py:998-1009 | A name, or a struct literal when the tokens after it look like one. |
| Parser.Parser.ParseInits | dsl_fhe/xcomp/parser.py:1062-1070 | The loop over a struct literal's fields. |
| Parser.Parser.ParseInit | dsl_fhe/xcomp/parser.py:1063-1068 | A field with or without a value. |
| Parser.Parser.ParseClosure | dsl_fhe/xcomp/parser.py:1028-1046 | A closure with an expression body. |
| Parser.Parser.ParseParams | dsl_fhe/xcomp/parser.py:1032-1040 | The loop over a closure's parameters. |
| Parser.Parser.ParseParam | dsl_fhe/xcomp/parser.py:1033-1038 | A parameter with or without a type. |
| FrontEnd.ReadExpr | dsl_fhe/xcomp/parser.py:748-749 | Lexing a text and parsing it with the two classes gives what the definitions say of it. |
| PrintedText.LexText | dsl_fhe/xcomp/schedule.py:94-121 | The text of a lexable expression lexes to exactly its tokens, before any text that does not run into it. |
| PrintedText.LexSpoiled | dsl_fhe/xcomp/schedule.py:94-121 | The text of any other expression lexes to an error or to a float that is not in it. |
| PrintedTrees.ExprRead | dsl_fhe/xcomp/parser.py:748-848 | From the tokens of a lexable expression the parser makes exactly `Read` of it and stops at the token after: the minimal parentheses keep precedence and left associativity. |
| PrintRoundTrip.ReadIsAst | dsl_fhe/xcomp/schedule.py:105-113 | What is read is the expression's own tree exactly when no field is taken of a number or a unary minus. |
| PrintRoundTrip.LexableParses | dsl_fhe/xcomp/schedule.py:94-121 | Text, lexer and parser together: a lexable expression reads as `Read`. |
| PrintRoundTrip.SpoiledParse | dsl_fhe/xcomp/schedule.py:94-121 | An expression that is not lexable never reads back as itself, because the parser drops no float. |
| Facade.AutoFacade.constructor | src/auto_facade/AutoFacade.cpp:76-134 | The globals before anything is loaded. |
| Facade.AutoFacade.LazyInit | src/auto_facade/AutoFacade.cpp:322-412 | The mode is settled once, by the configuration and the cache; later calls change nothing. |
| Facade.AutoFacade.OnDeserializeCryptoContext | src/auto_facade/AutoFacade.cpp:432-469 | Settles the mode and, when recording, starts the library once. |
| Facade.AutoFacade.Reenter | src/auto_facade/AutoFacade.cpp:502-612 | Any hooks the library calls while the facade waits for it leave every global, file and call as it was. |
| Facade.AutoFacade.TagKeysOnce | src/auto_facade/AutoFacade.cpp:526-532 | The keys are tagged at most once. |
| Facade.AutoFacade.OnDeserializeCiphertext | src/auto_facade/AutoFacade.cpp:471-575 | Which loads are tagged, after the keys, and under which name: the escaped path and a count per escaped path. |
| Facade.AutoFacade.EnsureReplayed | src/auto_facade/AutoFacade.cpp:582-595 | The replay runs at most once, although it re-enters the hooks that ask for it. |
| Facade.AutoFacade.Result | src/auto_facade/AutoFacade.cpp:622-625 | A fetch, with the flag that keeps its own file reads from being tagged. |
| Facade.AutoFacade.OnSerializeCiphertext | src/auto_facade/AutoFacade.cpp:597-650 | What a save does in each mode: the probe made, the file and the ciphertext replaced, and whether the normal write is skipped. |
| Facade.AutoFacade.NextProbeName | src/auto_facade/AutoFacade.cpp:663-665 | Made-up names are numbered in order. |
| Facade.AutoFacade.TakeResult | src/auto_facade/AutoFacade.cpp:688-704 | A substituted ciphertext is decrypted as it is; any other one is fetched by its name. |
| Facade.AutoFacade.OnDecrypt | src/auto_facade/AutoFacade.cpp:667-708 | What a decrypt does in each mode, the made-up name included when nothing is fetched. |
| Facade.AutoFacade.OnMakePlaintext | src/auto_facade/AutoFacade.cpp:710-747 | Plaintexts are numbered in order in both modes, nested calls excepted, under distinct names (`NamesAreDistinct`). |
| FacadeRuns.RecordAfter | src/auto_facade/AutoFacade.cpp:471-747 | After any host run the recording's names, counters, calls and probes are what the events alone say, and the host saw its own values. |
| FacadeRuns.ReplayAfter | src/auto_facade/AutoFacade.cpp:471-747 | After the same run replayed, with a result for every output, the same names and counters hold and the host saw the results under those names. |
| NumberedNames.LastUnderscore | dsl_fhe/xcomp/codegen.py:2807-2822 | In a name that ends in an underscore and digits, the last underscore tells the name from the digits. |
| NumberedNames.NumberTold | dsl_fhe/xcomp/codegen.py:3040-3075 | A name with an underscore and a number after it determines both. |
| FacadeNames.InputNameInjective | src/auto_facade/AutoFacade.cpp:571-574 | An input name determines its base and its count. |
| FacadeNames.PlaintextIsNoInput | src/auto_facade/AutoFacade.cpp:573-720 | A plaintext's name is never an input's. |
| FacadeNames.ApartIsEnough | src/auto_facade/AutoFacade.cpp:597-708 | Distinct file stems that are no made-up names, and values that stay with their ciphertexts, are enough for the replay to show the recording. |
| ModuleLoading.ImportsOf | dsl_fhe/xcomp/modules.py:166-170 | The imports of all files, each one once, in their first order. |
| ModuleLoading.ModuleLoader.constructor | dsl_fhe/xcomp/modules.py:124-131 | Nothing loaded. |
| ModuleLoading.ModuleLoader.ParseModule | dsl_fhe/xcomp/modules.py:163-178 | All imports of a module are loaded when it ends, the list only grows, dependencies come first, and an error is a real one. |
| ModuleLoading.ModuleLoader.LoadImport | dsl_fhe/xcomp/modules.py:203-217 | A module is listed after everything it imports; loading ends because the modules being loaded are all different. |
| ModuleLoading.ClosesCycle | dsl_fhe/xcomp/modules.py:171-175 | An import of a module that is being loaded closes a cycle of imports. |
| ModuleLoading.AllLoaded | dsl_fhe/xcomp/modules.py:203-217 | A dependencies-first list that holds the root's imports is everything the root reaches, and there is no cycle. |
| NameResolution.CanonKeeps | dsl_fhe/xcomp/modules.py:349-372 | A resolved reference means what the bare one meant in its scope, and resolves to itself. |
| NameResolution.BindsKept | dsl_fhe/xcomp/modules.py:425-439 | Resolving leaves what a tree binds as it was, so later references are judged in the same scope. |
| NameResolution.Idempotent | dsl_fhe/xcomp/modules.py:385-469 | Resolving a resolved tree changes nothing. |
| NameResolver.Resolver.constructor | dsl_fhe/xcomp/modules.py:316-320 | No scopes. |
| NameResolver.Resolver.Push | dsl_fhe/xcomp/modules.py:334-335 | A new innermost scope with the names. |
| NameResolver.Resolver.Pop | dsl_fhe/xcomp/modules.py:337-338 | The innermost scope is gone, the others unchanged. |
| NameResolver.Resolver.Bind | dsl_fhe/xcomp/modules.py:340-342 | The name is in the innermost scope; outside every scope nothing happens. |
| NameResolver.Resolver.IsLocal | dsl_fhe/xcomp/modules.py:344-345 | True exactly when some scope has the name. |
| NameResolver.Resolver.Canon | dsl_fhe/xcomp/modules.py:349-372 | What a reference becomes depends on the bound names only, not on how the scopes nest. |
| NameResolver.Resolver.WalkFor | dsl_fhe/xcomp/modules.py:440-445 | The iterable is outside the loop variables' scope, the body inside. |
| NameResolver.Resolver.WalkScope | dsl_fhe/xcomp/modules.py:446-464 | Closures, match arms and blocks: what they bind ends with them. |
| NameResolver.Resolver.WalkAll | dsl_fhe/xcomp/modules.py:466-469 | Children in order, each in the scope the ones before it leave. |
| NameResolver.Resolver.Resolve | dsl_fhe/xcomp/modules.py:322-330 | Succeeds exactly when no item has a bad reference; every item is resolved on its own. |
| ChebyshevFit.ChebEval | dsl_fhe/xcomp/chebfit.py:162-168 | The Clenshaw loop is the Chebyshev series at the point mapped to [-1, 1], for any nonempty coefficients. |
| ChebyshevFit.CosineIsT | dsl_fhe/xcomp/chebfit.py:149-156 | The cosines the fit sums are the Chebyshev polynomials at the nodes, from the multiple-angle recurrence alone. |
| ChebyshevFit.ProductToSum | dsl_fhe/xcomp/chebfit.py:155-157 | 2 T_m T_i = T_(m+i) + T_(m-i). |
| ChebyshevFit.ChristoffelDarboux | dsl_fhe/xcomp/chebfit.py:154-158 | The kernel sum of T_j(x) T_j(y) in closed form. |
| ChebyshevFit.Apart | dsl_fhe/xcomp/chebfit.py:154-158 | The kernel is 0 at two different zeros of T_n: discrete orthogonality. |
| ChebyshevFit.Together | dsl_fhe/xcomp/chebfit.py:154-158 | The kernel at a zero of T_n with itself is n / 2. |
| ChebyshevDegree.SampleAtNodes | dsl_fhe/xcomp/chebfit.py:147-151 | The samples are the function at the mapped nodes. |
| ChebyshevDegree.SumCosines | dsl_fhe/xcomp/chebfit.py:154-156 | The inner loop is the cosine sum. |
| ChebyshevDegree.ChebNodesFit | dsl_fhe/xcomp/chebfit.py:142-159 | The nested loops give the fit's coefficients, the first one halved. |
| ChebyshevDegree.WorstBounds | dsl_fhe/xcomp/chebfit.py:171-180 | The worst error is within a bound exactly when the error at every grid point is. |
| ChebyshevDegree.MaxError | dsl_fhe/xcomp/chebfit.py:171-180 | The loop finds that worst error. |
| ChebyshevDegree.CeilLog2 | dsl_fhe/xcomp/chebfit.py:195-196 | The least exponent of two that reaches its argument. |
| ChebyshevDegree.DepthMonotone | dsl_fhe/xcomp/chebfit.py:195-196 | A higher degree never has a smaller depth. |
| ChebyshevDegree.LeastRung | dsl_fhe/xcomp/chebfit.py:187-191 | The first rung of the ladder that meets the target is the least in degree and in depth. |
| ScheduleTerms.SymMeans | dsl_fhe/xcomp/schedule.py:159-189 | Substitution: a symbolic expression, evaluated at any arguments and loop variables, is what the source expression evaluates to in the run. |
| Schedule.GivePositional | dsl_fhe/xcomp/schedule.py:303-304 | The loop pairs positional arguments with the first parameters. |
| Schedule.Give | dsl_fhe/xcomp/schedule.py:298-309 | The two loops bind as `GivenBy` says, with the code's refusals. |
| Schedule.GivenIff | dsl_fhe/xcomp/schedule.py:298-309 | Binding succeeds exactly when there are no more positional arguments than parameters and every named argument is a parameter given once; each parameter has then its own argument. |
| Schedule.ArgumentsMean | dsl_fhe/xcomp/codegen.py:4075-4104 | A step's arguments evaluate to the values the emitted C++ call passes, skipped defaults included, when no written-out default is captured. |
| Schedule.BoundCounts | dsl_fhe/xcomp/schedule.py:285-288 | An inclusive bound, moved one up, makes as many rounds. |
| Schedule.StepsPreserve | dsl_fhe/xcomp/schedule.py:245-291 | Unrolling the emitted steps gives the same stages with the same argument values as running the statements, loops included, when no written-out default is captured. |
| CapturedDefaults.CallsExactly | dsl_fhe/xcomp/schedule.py:199-291 | The same for every entry point without loops. |
| CapturedDefaults.ArgumentsDiffer | dsl_fhe/xcomp/codegen.py:4096-4104 | If a written-out default is captured, some values and a sound meaning make the call pass another value for it than the schedule records. |
| CapturedDefaults.SameLengths | dsl_fhe/xcomp/schedule.py:245-291 | The schedule always runs as many stages as the entry point, captured defaults or not. |
| StagePaths.Note | dsl_fhe/xcomp/schedule.py:346-355 | One statement's loads and saves are recorded in order, before its own binding. |
| StagePaths.AddEntry | dsl_fhe/xcomp/schedule.py:346-348 | Each entry is listed once, loads and saves apart. |
| StagePaths.State | dsl_fhe/xcomp/schedule.py:325-381 | The loop's lists are exactly the recorded entries, without repetitions. |
| StagePaths.PathsMean | dsl_fhe/xcomp/schedule.py:342-381 | Where every recorded path is, as a formula, the stage's own: it is the path the stage computes through its own lets and assignments, at any arguments, loop variables and values of what blocks set. |
| Formulas.SymWorth | dsl_fhe/xcomp/schedule.py:159-189 | A symbolic expression's formula, evaluated at any place and sound meaning, is the expression's value there. |
| Formulas.ValueWorth | dsl_fhe/xcomp/codegen.py:3275-3312 | Down a stage, the formulas of its locals tell what the locals are worth in every run, wherever nothing unknown is in them. |
| StaleNames.FreshIsRight | dsl_fhe/xcomp/schedule.py:342-381 | If no recorded path uses a stale name (changed but not forgotten, hidden by a local, or bound from a stale name), every recorded path is the stage's own. |
| StaleNames.RightExactlyWhenFresh | dsl_fhe/xcomp/schedule.py:342-381 | And only if, when no let uses the local it binds anew and no tuple's joined name is another name. |
| Depth.RunsAbove | dsl_fhe/xcomp/semantic.py:503-743 | For every expression: what a run evaluates, and every chain inside, is at least what the expression is worth at the least values of its variables. |
| Depth.NamesEnough | dsl_fhe/xcomp/semantic.py:503-743 | If the type of every name in an expression fits what the name is worth, then so does every depth in it: a depth goes wrong in a name or nowhere. |
| Depth.ExprFits | dsl_fhe/xcomp/semantic.py:503-743 | For every expression whose names fit: its depth, and every depth checked inside it, is at most the true chain. |
| DepthLows.NeverTooDeep | dsl_fhe/xcomp/semantic.py:434-483 | For every statement as it is emitted, branch and number of loop rounds: where the depths hold of the least values that reach each place, what is checked is never deeper than what runs; a nested let of an outer one assigns it. |
| DepthLows.AllNeverTooDeep | dsl_fhe/xcomp/codegen.py:3297-3312 | The depths of a whole body, assignments, declarations and lets emitted as assignments included, are never over the chain of any run that starts above the least values, if they hold of the least values. |
| DepthEmitted.EmittedExactly | dsl_fhe/xcomp/codegen.py:3297-3312 | Of a source program, lets that become assignments included: what the analyzer says of the source holds of every run of the emitted code if it holds of that code's least values, and only then where two ways can be told apart. |
| DepthEmitted.EmittedNeverTooDeep | dsl_fhe/xcomp/codegen.py:3207-3222 | A source whose emitted code meets the condition on the text never over-counts in any run of it, and the run evaluates only what was checked in the source. |
| DepthEmitted.EmittedReportsAreReal | dsl_fhe/xcomp/semantic.py:553-562 | A depth that the analyzer reports of a source is over the maximum in every run of the emitted code that comes to its place. |
| DepthEmitted.EmittedExcessIsReported | dsl_fhe/xcomp/semantic.py:553-562 | A depth over the maximum that a run of the emitted code comes to is reported of the source. |
| DepthEmitted.SameDepths | dsl_fhe/xcomp/codegen.py:3207-3222 | The analyzer gives the emitted code the depths it gives the source, whatever lets have become assignments. |
| DepthEmitted.NotedIsVisible | dsl_fhe/xcomp/codegen.py:3306-3312 | A let that is emitted as an assignment always has a variable around it to assign. |
| DepthTame.TameIsFine | dsl_fhe/xcomp/semantic.py:430-483 | A condition on the text of the emitted code is enough: an assignment, or a let emitted as one, gives a name no less than it is held to have, and the types that a branch leaves behind for visible names say no more than that. |
| DepthPrograms.AssignmentFine | dsl_fhe/xcomp/semantic.py:450-452 | Assigning to a name that is read afterwards is right exactly when the least value assigned is as deep as the type that stays. |
| DepthPrograms.BranchLetFine | dsl_fhe/xcomp/semantic.py:461-467 | A let in a branch, of a name that is read after the branch, declared there or assigned, is right exactly when its type is no deeper than what the name is worth around the branch. |
| DepthPrograms.AccumulatorIsTame | dsl_fhe/xcomp/semantic.py:469-479 | A loop that adds products to an accumulator, by assignment or by a let of the accumulator's name, meets the condition on the text, whatever the depths. |
| DepthPrograms.CounterIsTame | dsl_fhe/xcomp/semantic.py:469-479 | A loop with a counter meets the condition on the text. |
| DepthPrograms.BranchLetIsTame | dsl_fhe/xcomp/semantic.py:461-467 | A branch that declares or assigns a visible name by a let meets the condition on the text exactly when its type says no more than what the name is held to be worth. |
| DepthPrograms.CountedTwice | dsl_fhe/xcomp/semantic.py:430-483 | The analyzer counts two levels for the last product in all four. |
| DepthPrograms.MixedBranches | dsl_fhe/xcomp/semantic.py:461-467 | A program that fails the condition although no run of it over-counts: its least values are in different runs. |
| DepthReports.AllSitesGiveDepths | dsl_fhe/xcomp/semantic.py:430-432 | The depths of a block are those of the expressions it checks, in order. |
| DepthReports.AllVisitsAreSites | dsl_fhe/xcomp/semantic.py:430-483 | A run evaluates only what was checked, in the scope it was checked in. |
| DepthReports.ExcessIsReported | dsl_fhe/xcomp/semantic.py:553-562 | A depth over the maximum at a place that a run comes to is among the analyzer's reports. |
| Analyzer.NbType.constructor | dsl_fhe/xcomp/nb_types.py:26-43 | A type object with its kind, its depth and no pending relinearization. |
| Analyzer.NbType.Copy | dsl_fhe/xcomp/nb_types.py:150-158 | A fresh object of the same type. |
| Analyzer.SemanticAnalyzer.constructor | dsl_fhe/xcomp/semantic.py:30-62 | Empty scopes, depth 0 observed, nothing reported. |
| Analyzer.SemanticAnalyzer.Lookup | dsl_fhe/xcomp/nb_types.py:204-209 | The innermost scope's object for the name, or the unknown type. |
| Analyzer.SemanticAnalyzer.Common | dsl_fhe/xcomp/nb_types.py:146-166 | An encrypted result is always a fresh object, never an operand's own. |
| Analyzer.SemanticAnalyzer.Report | dsl_fhe/xcomp/semantic.py:553-562 | The deepest so far is kept, and a report made exactly when the maximum is passed. |
| Analyzer.SemanticAnalyzer.CheckBinary | dsl_fhe/xcomp/semantic.py:529-570 | The type of a product is a fresh object, one level deeper than the deeper operand (`DepthCovers.ProductDepth`), and no operand's depth changes; the reports are the product's own. |
| Analyzer.SemanticAnalyzer.CheckOperands | dsl_fhe/xcomp/semantic.py:530-531 | Both operands, left first, and then the operation. |
| Analyzer.SemanticAnalyzer.CheckArgs | dsl_fhe/xcomp/semantic.py:590 | Every argument in order. |
| Analyzer.SemanticAnalyzer.ChebyshevResult | dsl_fhe/xcomp/semantic.py:620-641 | A fresh encrypted type of the input's depth and the levels used. |
| Analyzer.SemanticAnalyzer.CheckChebyshev | dsl_fhe/xcomp/semantic.py:588-650 | The call's type, with a known degree or without. |
| Analyzer.SemanticAnalyzer.CheckExpr | dsl_fhe/xcomp/semantic.py:503-743 | Computes the type and the depths of `Depth`, and changes the type of no name in scope. |
| Analyzer.SemanticAnalyzer.Define | dsl_fhe/xcomp/nb_types.py:201-202 | The innermost scope has the name at this type; nothing else changes. |
| Analyzer.SemanticAnalyzer.DefineUnknown | dsl_fhe/xcomp/semantic.py:443-445 | The names are of unknown type, `_` excepted. |
| Analyzer.SemanticAnalyzer.CheckStmt | dsl_fhe/xcomp/semantic.py:434-487 | The scopes after a statement, and every depth reported in it. |
| Analyzer.SemanticAnalyzer.CheckIf | dsl_fhe/xcomp/semantic.py:461-467 | Branches are checked one after the other in the same scope. |
| Analyzer.SemanticAnalyzer.CheckFor | dsl_fhe/xcomp/semantic.py:469-479 | The body is checked once in a scope of its own, which is gone afterwards. |
| Analyzer.SemanticAnalyzer.CheckLoopBody | dsl_fhe/xcomp/semantic.py:471-479 | The scopes outside are the same objects afterwards. |
| PlainSlots.Resize | dsl_fhe/xcomp/codegen.py:1789-1793 | Padding with zeros to a length. |
| PlainSlots.Add | dsl_fhe/xcomp/codegen.py:1788-1790 | The sum, as long as the longer operand. |
| PlainSlots.Sub | dsl_fhe/xcomp/codegen.py:1792-1794 | The difference, as long as the longer operand. |
| PlainSlots.Mul | dsl_fhe/xcomp/codegen.py:1796-1798 | The product, as long as the shorter operand. |
| PlainSlots.Apply | dsl_fhe/xcomp/codegen.py:1799-1806 | One function on every slot: the scalar forms and the negation. |
| PlainSlots.RemTwice | dsl_fhe/xcomp/codegen.py:1809 | C++'s truncating remainder, taken twice, is the rotation's remainder for every k, negative ones included. |
| PlainSlots.RotatedIsRotate | dsl_fhe/xcomp/codegen.py:1807-1810 | The twin's rotation is the cyclic left rotation. |
| PlainSlots.NullsafeAdd | dsl_fhe/xcomp/codegen.py:1804-1805 | An empty left operand is a null accumulator. |
| PlainSlots.OnePart | dsl_fhe/xcomp/codegen.py:1819-1821 | The inner loop is the giant step's part. |
| PlainSlots.PlainTransform | dsl_fhe/xcomp/codegen.py:1816-1824 | The nested loops are the twin's transform. |
| PaddedSlots.MappedExact | dsl_fhe/xcomp/codegen.py:1799-1806 | One function on every slot goes with the padding exactly when the vector is full or the function keeps 0. |
| PaddedSlots.KeptClosed | dsl_fhe/xcomp/codegen.py:1807-1810 | All slots of a short vector are rotated as those of the padded one exactly when it is full or empty, or neither rotation moves anything. |
| PaddedSlots.TransformLength | dsl_fhe/xcomp/codegen.py:1815-1824 | The twin's transform is as long as its input or its longest diagonal, whichever is shorter. |
| PaddedSlots.TransformPads | dsl_fhe/xcomp/codegen.py:1815-1824 | When the lengths are kept, the twin's transform of a short vector, padded, is the transform of the padded vector. |
| TwoModes.NumberExact | dsl_fhe/xcomp/codegen.py:1799-1806 | A number on either side of an operation goes with the padding exactly when the vector is full, the number is 0 or the operation is a product. |
| TwoModes.EvalAgrees | dsl_fhe/xcomp/codegen.py:3909-3987 | Every operation and its twin give the same slots up to the padding, for operands of any lengths, when a number is combined only with a vector it leaves padded. |
| TwoModes.BinaryReady | dsl_fhe/xcomp/codegen.py:3891-3987 | What the two modes generate for a binary expression, vectors and null accumulators included, evaluates to the same slots up to the padding, and to as many as the operands' lengths say. |
| TwoModes.TransformAgrees | dsl_fhe/xcomp/codegen.py:1815-1824 | The cleartext transform stands for the encrypted one whenever the lengths of the vector and of the diagonals it uses are kept, and is empty when that one is null. |
| TwoModes.FullIsSound | dsl_fhe/xcomp/codegen.py:3891-3987 | Over full vectors every expression meets that condition and every ciphertext it gives is full. |
| ShortVectors.NumberDiffers | dsl_fhe/xcomp/codegen.py:1799-1806 | A number added to a product with a short vector, or taken from it, is what it should be if and only if the vector is full or the number is 0. |
| ShortVectors.RotationDiffers | dsl_fhe/xcomp/codegen.py:1807-1810 | The rotation of a product with a vector of m slots is right on all values if and only if the rotation keeps the padding. |
| ShortVectors.TransformDiffers | dsl_fhe/xcomp/codegen.py:1815-1824 | The transform of a product with a vector of m slots is right on all values if and only if the lengths are kept. |
| ShortVectors.SoundProducts | dsl_fhe/xcomp/codegen.py:3891-3987 | On these expressions the condition of the main theorem is just the condition on the lengths. |
| Wires.SaveMany | dsl_fhe/xcomp/codegen.py:2805-2811 | Each element is stored under its own numbered key. |
| Wires.SaveRow | dsl_fhe/xcomp/codegen.py:2818-2825 | Each element of a batch is stored in the batch's directory, or under its pair of numbers. |
| Wires.SaveRows | dsl_fhe/xcomp/codegen.py:2812-2826 | Each batch is stored, and has a directory even when it is empty. |
| Wires.Save | dsl_fhe/xcomp/codegen.py:2801-2826 | All fields are stored by their kinds. |
| WireKeys.PadInjective | dsl_fhe/xcomp/codegen.py:2815-2820 | Four-digit padding still determines the number, above 9999 too. |
| WireKeys.ManyInjective | dsl_fhe/xcomp/codegen.py:2808 | A numbered key determines its field and its index. |
| WireKeys.CellInjective | dsl_fhe/xcomp/codegen.py:2815-2822 | A batch element's key determines its field, batch and index. |
| WireKeys.OneIsMany | dsl_fhe/xcomp/codegen.py:2803-2808 | A field's key is an element's exactly when its name is the other's, an underscore and the index. |
| WireKeys.OneIsCell | dsl_fhe/xcomp/codegen.py:2803-2822 | A field's key is a batch element's exactly when it is a probe's and its name is the other's with the two numbers; on disk never. |
| WireKeys.ManyIsCell | dsl_fhe/xcomp/codegen.py:3040-3075 | An element's key is a batch element's exactly when it is a probe's, the indices are equal and the name is the other's with the batch's number. |
| WireKeys.BaseNumbered | dsl_fhe/xcomp/codegen.py:3032-3035 | The probe's base name, with or without the field's name in it, is a numbered one of another field's exactly when the field's name is. |
| WireRoundTrip.LoadMany | dsl_fhe/xcomp/codegen.py:4878-4883 | The loop reads elements until the first that is missing, and ends. |
| WireRoundTrip.LoadRow | dsl_fhe/xcomp/codegen.py:4895-4899 | Within a batch, the loop reads elements until the first that is missing. |
| WireRoundTrip.LoadBatches | dsl_fhe/xcomp/codegen.py:4889-4900 | Every batch directory is read, the ones another field made included. |
| WireRoundTrip.RehydrateRows | dsl_fhe/xcomp/codegen.py:3076-3092 | Rows are read until the first that is empty. |
| WireRoundTrip.LoadField | dsl_fhe/xcomp/codegen.py:4860-4900 | A field is read by its kind; only a single ciphertext can be missing. |
| WireRoundTrip.RowsBack | dsl_fhe/xcomp/codegen.py:4884-4900 | A matrix field comes back exactly when it has as many batches as the widest field, on disk, or no empty row, on replay. |
| WireRoundTrip.PlainNamesApart | dsl_fhe/xcomp/codegen.py:2801-2826 | Names that do not end in an underscore and digits never clash. |
| WireRoundTrip.ClashBreaks | dsl_fhe/xcomp/codegen.py:2801-2826 | Whenever two fields clash, there are values of the same kinds for which a field does not come back. |
| EntryNames.OneComponent | src/fhetch_transport/archive.cpp:59-65 | A name without slashes is its own only component. |
| EntryNames.FirstComponent | src/fhetch_transport/archive.cpp:59-65 | What comes before the first slashes is a component of its own, the root when it is empty, and the rest follows; a trailing slash leaves an empty last component. |
| EntryNames.ComponentsJoin | src/fhetch_transport/archive.cpp:59-65 | For two paths with one slash or more between them, the components of the whole are those of the first and then those of the second. |
| EntryNames.NoSlashInside | src/fhetch_transport/archive.cpp:59-65 | No component but the root of an absolute path has a slash in it. |
| EntryNames.DotsNameNothing | src/fhetch_transport/archive.cpp:94-98 | Components `.` name nothing wherever they stand; the others keep their order. |
| EntryNames.LegalBytes | src/fhetch_transport/archive.cpp:107-113 | The legal bytes are the letters, the digits and the seven signs the code lists. |
| FacadeNames.PlaintextNameInjective | src/auto_facade/AutoFacade.cpp:720 | A plaintext's name determines its number. |
| FacadePaths.ProbeFiles | src/auto_facade/AutoFacade.cpp:514 | A probe file is exactly one whose path has the probe directory's name in it somewhere. |
| FacadePaths.StemOfFile | src/auto_facade/AutoFacade.cpp:164-166 | The stem is the file's name without directories and without the last extension. |
| FacadePaths.StemOfPlain | src/auto_facade/AutoFacade.cpp:164-166 | A name without a dot and a hidden file's name are their own stems. |
| FacadePaths.UniqueNameIs | src/auto_facade/AutoFacade.cpp:545-570 | Character by character: the path without `.bin`, separators made underscores, from the first character on that is none of these. |
| FacadePaths.NoSeparators | src/auto_facade/AutoFacade.cpp:545-570 | One word for a path has no slash of either kind, no colon and no space, and keeps every other character. |
| FacadePaths.PlainWord | src/auto_facade/AutoFacade.cpp:545-570 | A word without separators is its own name, with and without `.bin`. |
| FacadeModes.ModeDecided | src/auto_facade/AutoFacade.cpp:322-469 | The run records exactly when there is a configuration without a valid recording and replays exactly when there is one; the library is started for a recording only. |
| FacadeModes.NothingBeforeTheContext | src/auto_facade/AutoFacade.cpp:471-747 | Before the context is loaded no hook changes anything or makes a call. |
| FacadeModes.RecordingShowsTheHost | src/auto_facade/AutoFacade.cpp:471-747 | A recording shows the host its own values, and its replay does if and only if no name stands for two values. |
| BsgsDiagonals.ChecksExactly | dsl_fhe/xcomp/codegen.py:346-356 | The checks pass only when every read and write is in range, and refuse nothing that is, if there are as many diagonals as the submatrix is wide; rows and slots they never refuse without need. |
| Chunks.GiantsAreMost | dsl_fhe/xcomp/codegen.py:1556-1564 | The giant steps of a chunk are the most that the budget holds: one more would not fit. |
| Chunks.LtChunkIsMost | dsl_fhe/xcomp/codegen.py:1542-1566 | Every number of whole giant steps whose diagonals fit the budget fits the chunk. |
| ChebyshevDegree.GridSpans | dsl_fhe/xcomp/chebfit.py:175-179 | The grid goes from lo to hi, both included, in equal steps. |
| ChebyshevDegree.UnitEnds | dsl_fhe/xcomp/chebfit.py:147-168 | The ends of the interval are the ends of [-1, 1], both ways. |
| ChebyshevDegree.MaxErrorMeans | dsl_fhe/xcomp/chebfit.py:171-180 | The error is at most a bound exactly when the series of the fit is within it of the function at each grid point. |
| ChebyshevDegree.DepthIsLeast | dsl_fhe/xcomp/chebfit.py:195-196 | A degree needs at most k + 1 levels exactly when it is below 2 to the k. |
| DepthCovers.ProductDepth | dsl_fhe/xcomp/semantic.py:545-552 | The depth of an encrypted product is more than either operand's, one more than the deeper one's, and it is checked. |
| DepthCovers.ExprCovered | dsl_fhe/xcomp/semantic.py:503-743 | If every name's depth covers its chain, the deeper operand of every sum is the one whose type is kept and a call outside covers its own, then every depth in the expression is at least the true chain. |
| DepthGuards.GuardedCountsEnough | dsl_fhe/xcomp/semantic.py:430-562 | Over whole bodies, loops and branches included: where no binding makes a name shallower than its value and the deeper operands are kept, nothing that a run evaluates is deeper than the depth checked for it. |
| NamePositions.BoundDown | dsl_fhe/xcomp/modules.py:385-469 | A name is bound at a position exactly when it is bound at the rest of the path in the child, with the names in scope there. |
| ScheduleMade.SymExactly | dsl_fhe/xcomp/schedule.py:159-189 | An expression has a symbolic form exactly when each thing in it may be held: known names, allowed calls, nothing else. |
| ScheduleMade.ArgsExactly | dsl_fhe/xcomp/schedule.py:310-322 | A step has its arguments exactly when each parameter's argument is symbolic, or else it has a default over constants only. |
| ScheduleMade.RecordedExactly | dsl_fhe/xcomp/schedule.py:325-436 | A stage's files are recorded exactly when each save has a path and each path is symbolic where it stands. |
| TreeRoundTrip.Reads | dsl_fhe/xcomp/parser.py:748-932 | At every level of precedence: the tokens of an operand written for that level are read as that operand, from where the level's loop goes on. |
| TreeRoundTrip.ComparisonIsCalm | dsl_fhe/xcomp/parser.py:850-871 | No written comparison of a name is taken for type arguments. |
| TreeSteps.LoopMore | dsl_fhe/xcomp/parser.py:773-826 | In `||`, `&&`, shifts, sums and products one more operand goes to the right of what has been read. |
| TreeSteps.CmpStep | dsl_fhe/xcomp/parser.py:795-802 | A comparison has what was read before the operator on its left and what is read after it on its right. |
| TreeSteps.EqStep | dsl_fhe/xcomp/parser.py:787-793 | The same of an equality. |
| TreeSteps.RangeStep | dsl_fhe/xcomp/parser.py:763-771 | The same of a range, with its end included or not. |
| TreeSteps.PowStep | dsl_fhe/xcomp/parser.py:828-833 | A power's exponent is read at its own level, its base at the next one. |
| TreeSteps.CastStep | dsl_fhe/xcomp/parser.py:843-848 | A cast of what was read before `as` to the type after it. |
| TreeSteps.PipeMore | dsl_fhe/xcomp/parser.py:751-761 | A pipe puts what has been read on the left of the next stage. |
| TreeSteps.PipeAs | dsl_fhe/xcomp/parser.py:754-757 | A pipe into `as` is a cast. |
| TreeSteps.GenericCallMore | dsl_fhe/xcomp/parser.py:917-929 | A name, a type between `<` and `>` and arguments make a call with that type argument. |
| TreeReading.KeywordArgument | dsl_fhe/xcomp/parser.py:1107-1131 | A name, or one of three keywords, before a colon names the argument. |
| TreeSteps.TupleRead | dsl_fhe/xcomp/parser.py:973-987 | Expressions between parentheses with a comma are read as the array of them. |
| TreeSteps.OperatorName | dsl_fhe/xcomp/parser.py:938-943 | An operator on its own before a comma or a closing parenthesis is a name. |
| TreeSteps.KeywordName | dsl_fhe/xcomp/parser.py:962-965 | Three keywords are names in an expression. |
| FacadeModes.ModeStays | src/auto_facade/AutoFacade.cpp:322-412 | Loading another context settles nothing anew. |
| TreeSteps.ColumnMore | dsl_fhe/xcomp/parser.py:886-912 | Two dimensions between brackets: the first one slices when it is a range, the second one indexes. |
| TreeOrigins.OfExpr | dsl_fhe/xcomp/parser.py:748-1131 | From tokens spelled as their types say, the parser makes only trees that can be written, and before a closing `>` only comparisons and casts. |
| TreeOrigins.OfType | dsl_fhe/xcomp/parser.py:500-574 | The same of types. |
| TreeOrigins.OfFish | dsl_fhe/xcomp/parser.py:850-871 | Type arguments that are taken start as a type and can be written; when they are not, the list is spelled as before. |
| TreeLines.ExprEach | dsl_fhe/xcomp/parser.py:748-1131 | A written tree's tokens are the tree's own names and literals and the grammar's signs: a property of all signs holds of them exactly when it holds of the tree's own. |
| TreeLines.TypeEach | dsl_fhe/xcomp/parser.py:500-574 | The same of types. |
| TreeExactly.LexIsSpelled | dsl_fhe/xcomp/lexer.py:298-469 | Every token of a source is spelled as its type says. |
| TreeExactly.SourceReadsBack | dsl_fhe/xcomp/parser.py:748-749 | Whatever expression a source is read as, the tokens written for it read as it again. |
| TreeExactly.TypeTextReadsBack | dsl_fhe/xcomp/parser.py:500-574 | The same of types. |
| TokenText.EscapesUndone | dsl_fhe/xcomp/lexer.py:234-260 | For every string, newlines, tabs, quotes and backslashes included: reading its escaped text gives the string. |
| TokenText.TokenReads | dsl_fhe/xcomp/lexer.py:306-467 | For every token that some text is, and whatever follows after a space: the token written out is read as that token, to its end. |
| TokenText.SourceSayable | dsl_fhe/xcomp/lexer.py:298-469 | Every token of a source is one that can be written out. |
| TokenText.SourceSaidAgain | dsl_fhe/xcomp/lexer.py:298-469 | The tokens of a source, written out, lex to the same tokens. |
| Comments.BlanksAreNothing | dsl_fhe/xcomp/lexer.py:200-232 | White space, line comments and nested block comments before a text change nothing of its tokens. |
| WireKeys.FourDigits | dsl_fhe/xcomp/codegen.py:2815-2820 | An index has four digits, with zeros in front, below 10000, and its own digits without zeros from there on. |

## Left out

- Machine integers: lengths, counts and positions are mathematical, so the wrap-around of `pos + len` on 64 bits, of `i + k` on 32 bits and of C++ loop variables is not modelled; the truncation of a written field is.
- Floating point: slots, coefficients and sample points are reals; rounding, CKKS noise, levels and rescaling are not modelled, and the base-two logarithm is exact.
- The FHE libraries: a rotation, a product and a sum are ideal operations on slots; the engine's chunked transform is its documented contract; recipes of diagonals are not modelled.
- Environment variables (`NB_LT_BATCH`, `NB_LT_ENCODE`, `NB_LT_MEMORY_GB`) are parameters; a negative memory budget is not modelled.
- The file system: a map from names to bytes, without failures, and without clashes of a directory with a file.
- BsgsDiagonals.ProductIsMatrixProduct: needs the input repeated in every region, which is what the callers of the transform prepare.
- Lexer.Lexer.Advance: does not count lines and columns; source locations are nowhere modelled.
- Lexer.Lexer.ReadWord: letters and digits are ASCII; the code takes every Unicode letter and digit.
- Lexer.Lexer.ReadDigits: digits are ASCII; the code takes what Python calls a digit.
- Parser.Parser.ParsePrimary: does not read `for`, `if` and `match` expressions, and a closure's body is an expression; declarations, statements and blocks are not modelled, nor is Python's recursion limit.
- Parser.Parser.ParseExpr: the same expressions read as failures.
- Parser.Parser.ParseClosure: a block body reads as a failure.
- Grammar.Grammar.ParseExpr: termination and conservation are not stated for `for`, `if` and `match` expressions and block closures, which read as failures.
- Grammar.Grammar.ParseType: sizes that hold such expressions read as failures.
- Grammar.Grammar.TryTurbofish: type arguments that hold such expressions read as failures.
- TreeExactly.TextReadsBack: a name that is a keyword (`scheme`, `wire`, `domain`) or an operator (`op_+`) has a tree and tokens of its own, but no text as an identifier; the text written has a space after every token, and that other spacings and comments change nothing is in `Comments.BlanksAreNothing`.
- TreeExactly.SourceReadsBack: the tokens written for a tree have the fewest parentheses and no trailing commas, so they need not be the source's own.
- PrintRoundTrip.RoundTrip: symbolic expressions have no float literals, and called functions have identifiers for names.
- Archive.PackDirectory: the directory scan and its order are a list of entries.
- Facade.AutoFacade.Reenter: the library's calls back are writes and reads of probe files, reads of any file while it runs for the facade, and encodings inside an encoding; the threads of the original are one.
- Facade.AutoFacade.OnDeserializeCiphertext: the reassignment of a ciphertext's context, warnings and the exit handler are not modelled; the names of the two cooperative-mode runs are not compared, since the host drives those.
- FacadeRuns.ReplayShowsTheRecording: the host saves to no path that contains `serialized_probes`, and the library returns under a name what was recorded last under it.
- FacadeNames.ApartIsEnough: its condition is about whole paths and made-up names and is sufficient; the exact condition is in `ReplayShowsTheRecording`.
- ModuleLoading.ModuleLoader.Load: a module's own parse and resolution errors, the search for its files and the merge of its items are not modelled.
- NameResolver.Resolver.Walk: returns the rewritten tree, where the code writes the names into the nodes; sharing between trees is not captured.
- ChebyshevDegree.MaxError: the closure evaluator is a function on reals; what it refuses is not modelled.
- Schedule.EntryPreserves: one direction, for entry points without captured defaults; the other one is in `CapturedDefaults.EntryExactly`.
- CapturedDefaults.EntryExactly: bodies with another loop are outside: one that never runs, one whose end is computed from arguments or from another loop's variable, one whose variable has a constant's name. With literal bounds such a loop may run no round, or only rounds in which the local has the constant's value (`OneRoundHidesIt`), so for whole programs the form is open.
- ScheduleMade.MadeExactly: for the body of an entry point; that its arguments and return are what a schedule can hold, and the reasons given for a refusal, are not modelled.
- Schedule.StepsPreserve: a loop whose bound mentions its own variable is evaluated in the outer scope, as the schedule does; the recording of build parameters and the reasons of a refusal are not modelled.
- StagePaths.PathsMean: constants are literals, as the build gives them. Indices of loads, the wire type of a saved variable and the clauses of a declaration are not modelled, nor are blocks inside an expression.
- StaleNames.PathsExactlyFresh: the condition on names is exact when no let uses the local it binds anew, no let's name is set inside its own symbolic value, and no tuple's joined name is another name; elsewhere a name may be stale and, by its value, still right, and the exact condition is the one on formulas (`StagePaths.PathsExact`), for every body.
- DepthExact.ExactlyWhenFine: only if is for programs in which, of any two ways through a branch or a loop, one leaves every variable at most as deep as the other; elsewhere the least values of two variables may be in different runs (`MixedBranches`), and the exact condition is the one on ways (`DepthWays.ExactlyWhenEveryWay`).
- DepthWays.ExactlyWhenEveryWay: only if is for programs in which a call outside the model may return the least that its type allows, under one name each, and no cast claims more than its operand. Closures, `match`, struct fields, parallel loops and the `for` and `if` expressions are not modelled; a variable of a loop is a copy of its item.
- DepthGuards.NoExcessIsMissed: for whole programs the condition on the text is sufficient, not exact; within one expression over names of exact depths it is exact (`DepthCovers.ExactlyWhenDeeper`). A call outside the model returns no more than its type says.
- Analyzer.SemanticAnalyzer.CheckExpr: errors and warnings are one list; the flags for pending relinearization and for depths that are not modelled are not read.
- TwoModes.ModesAgree: unary minus, slot sums, chebyshev, encryption and decryption are outside; so are null operands other than a left accumulator, on which OpenFHE fails. Its condition is exact for each operation on all values of its operands' lengths, and for products with a short vector (`ShortVectors`); an operand whose value its form fixes, as `x - x`, can agree without it.
- SlotMeaning.FheMeans: says nothing of code on which OpenFHE fails, and takes the rings of all ciphertexts for one.
- WireRoundTrip.FieldBack: plain fields, indices of wires, key and context files and the single-file layout are not modelled; the exact condition on names is in `ExactlyWhenApart`.
- HTTP, sockets, processes, key generation text, CMake text, the parameter advisor and the hand-written examples: input and output, or string templates.
