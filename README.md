# FALSE toolchain, modelled in Dafny

This project models the toolchain of a Java IDE for the esoteric stack language FALSE, and proves properties of the model. The toolchain has these parts:

- **Compiler front end.** `compile` first runs a single-pass validator that collects every diagnostic (`findSyntaxError`). It then strips comments and insignificant white space (`strip`). Last, a recursive parser turns the code into an operation tree and numbers every node with a shared occurrence counter (`parse`). Diagnostics quote the code around the offending index (`evaluateCodeSnippet`).
- **Diagnostics.** Four message formats, and a collection of errors that prints them as a numbered list.
- **Operation tree and byte code.** Every node writes itself as bytes (`toByteArray`). A program is framed by `7` … `127` and a function by `8` … `126`. A string is `-1`, two bytes per character, then `-2`. A number is `11` or `12` followed by a big-endian `int`. The loader checks the frame and decodes the bytes back into a tree with a depth-tracking scan (`parseByteCode`). The decompiler prints a tree back as FALSE text (`toString`).
- **Stack machine.** A stack of integers and functions (`StackMemory`). A group runs its children in order and asks the abort flag before each child (`OperationGroup.operate`). The model covers the instructions whose classes are available: `_`, `>`, `?`, `#`, `^`, integer pushes, strings and in-line assembly. The input buffer and the output come from `StandardInOutPutCompat`. The interpreter (`FalseInterpreter.execute`) notifies a listener, and it swallows an interpreter error when the run was aborted. It catches nothing else: an unchecked exception leaves at once, before the listener hears of the end.
- **IDE side cores.** The settings object keeps a range-checked logging level and workspace paths that end in the separator (`FalseIDESettings`). `createRelativePath` builds a relative path between two absolute ones.

Java's types are spelled out in the model:

- `char` is `JChar`, the 16-bit code units.
- `String` is `JString = seq<JChar>`.
- `byte` is `Byte` and `int` is `Int32`, each with its exact range.
- Negation wraps (`-MIN_VALUE == MIN_VALUE`).
- `(char)` of a byte sign-extends.
- `ByteBuffer` reads and writes big-endian.

Java exceptions that the code lets escape are error outcomes of the model, not preconditions:

- the string index errors of `strip` and `parse`;
- `NumberFormatException` on long literals;
- list index errors;
- "illegally changed" byte code;
- the unchecked exceptions an operation lets escape from `execute`: `ArrayIndexOutOfBoundsException` from `pick` or `pop` past the stack, and `NoSuchElementException` from reading a line that is not there.

Each module follows one Java class or method family:

| module | Java original |
|---|---|
| `JavaTypes` | Java types |
| `FalseLanguageDefinition` | the alphabet |
| `Operations` | the operation tree and its numbering |
| `CompileErrors` | the error classes and `CompileErrorCollection` |
| `CodeSnippets` | `evaluateCodeSnippet` |
| `OccurrenceCounting` | `OccurrenceCounter` |
| `SyntaxCheck` | `findSyntaxError` |
| `Stripper` | `strip` |
| `Parser` | `parse` |
| `Compiler` | `compile` |
| `ByteCode` | the byte-code functions |
| `ByteCodeEncoder` | `toByteArray` |
| `ByteCodeLoader` | `loadByteCode` / `parseByteCode` |
| `ByteCodeRoundTrip` | the round trip |
| `Decompiler` | `toString` / `decompile` |
| `Machine` | run-time semantics as functions |
| `Memory` | `StackMemory` |
| `InOut` | `StandardInOutPutCompat` |
| `AbortIndicator` | `ExecutionAbortIndicator` |
| `Interpreter` | `FalseInterpreter` and the `operate` methods |
| `Settings` | `FalseIDESettings` |
| `RelativePaths` | `createRelativePath` |

Loops in the source are Dafny methods with loop invariants. Each is proved equal to a reference function, and the properties are lemmas about those functions. Classes whose fields the source updates are Dafny classes.

Threads and streams are replaced by explicit inputs:

- The other thread's `abortExecution` is a schedule that says before which check of the flag it happens.
- Standard input is a list of lines.
- Standard output is a log of characters.

## Model

| member | source | states |
|---|---|---|
| JavaTypes.Negate | FALSEProgrammingLanguage/src/de/jeanpierrehotz/falseprogramminglanguage/data/operationimplementations/UnaryMinusOperation.java:55 | Java's `-n` on `int`: the mathematical negation, except that the most negative value negates to itself |
| JavaTypes.DecimalRoundTrip | FALSEProgrammingLanguage/src/de/jeanpierrehotz/falseprogramminglanguage/data/operationimplementations/IntegerValueOperation.java:68-70 | the decimal text Java prints for an `int` reads back as that `int` |
| JavaTypes.BigEndian32 | FALSEProgrammingLanguage/src/de/jeanpierrehotz/falseprogramminglanguage/data/operationimplementations/IntegerValueOperation.java:48-58 | `putInt` gives four bytes |
| JavaTypes.BigEndian32RoundTrip | FALSEProgrammingLanguage/src/de/jeanpierrehotz/falseprogramminglanguage/data/FalseProgram.java:174-186 | `getInt` on the four bytes `putInt` wrote gives the value back |
| JavaTypes.BigEndian16 | FALSEProgrammingLanguage/src/de/jeanpierrehotz/falseprogramminglanguage/data/operationimplementations/PrintStringOperation.java:51-55 | `putChar` gives two bytes |
| JavaTypes.BigEndian16RoundTrip | FALSEProgrammingLanguage/src/de/jeanpierrehotz/falseprogramminglanguage/data/FalseProgram.java:142-156 | `getChar` on the two bytes `putChar` wrote gives the character back |
| JavaTypes.SignExtend | FALSEProgrammingLanguage/src/de/jeanpierrehotz/falseprogramminglanguage/data/FalseProgram.java:161-164 | `(char)` of a byte keeps a non-negative byte and adds 0x10000 to a negative one |
| FalseLanguageDefinition.TokensDistinct | FALSEProgrammingLanguage/src/de/jeanpierrehotz/falseprogramminglanguage/language/FalseLanguageDefinition.java:32-126 | all delimiter and operator characters are pairwise distinct |
| FalseLanguageDefinition.TokensAreNotNamesDigitsOrSpace | FALSEProgrammingLanguage/src/de/jeanpierrehotz/falseprogramminglanguage/language/FalseLanguageDefinition.java:32-126 | no token character is a variable name `a`..`z`, a digit or white space |
| FalseLanguageDefinition.ClosersAreTwoAboveOpeners | FALSEProgrammingLanguage/src/de/jeanpierrehotz/falseprogramminglanguage/language/FalseLanguageDefinition.java:32-36 | `]` is `[` + 2 and `}` is `{` + 2 |
| Operations.RenumberIsConsecutive | FALSEProgrammingLanguage/src/de/jeanpierrehotz/falseprogramminglanguage/compiler/FalseCompiler.java:579-605 | numbering a list from counter `c` hands out exactly `c+1, ..., c'` in pre-order, so indices are distinct and increase |
| Operations.RenumberOpIsConsecutive | FALSEProgrammingLanguage/src/de/jeanpierrehotz/falseprogramminglanguage/compiler/FalseCompiler.java:579-605 | the same for one node: a lambda takes its index before its children |
| CompileErrors.MessageNamesPosition | FALSEProgrammingLanguage/src/de/jeanpierrehotz/falseprogramminglanguage/compiler/error/UnresolvedSymbolCompilationError.java:35-49 | every positioned message starts with its fixed lead, followed by the position in decimal, which reads back as the position |
| CompileErrors.MessageWithInfo | FALSEProgrammingLanguage/src/de/jeanpierrehotz/falseprogramminglanguage/compiler/error/UnexpectedTokenCompilationError.java:34-48 | the constructor with extra information gives the short message, a line feed and the information, so both parts can be read back |
| CompileErrors.MessageEndsWithSnippet | FALSEProgrammingLanguage/src/de/jeanpierrehotz/falseprogramminglanguage/compiler/error/UnclosedLiteralCompilationError.java:33-35 | a message without extra information ends with the code snippet |
| CompileErrors.NumberedListAppend | FALSEProgrammingLanguage/src/de/jeanpierrehotz/falseprogramminglanguage/compiler/error/CompileErrorCollection.java:78-89 | adding an error adds a line break and the line `k. message` to the list |
| CompileErrors.CompileErrorCollection.constructor | FALSEProgrammingLanguage/src/de/jeanpierrehotz/falseprogramminglanguage/compiler/error/CompileErrorCollection.java:38-40 | a new collection is empty |
| CompileErrors.CompileErrorCollection.AddError | FALSEProgrammingLanguage/src/de/jeanpierrehotz/falseprogramminglanguage/compiler/error/CompileErrorCollection.java:47-49 | the error is appended at the end |
| CompileErrors.CompileErrorCollection.GetError | FALSEProgrammingLanguage/src/de/jeanpierrehotz/falseprogramminglanguage/compiler/error/CompileErrorCollection.java:59-61 | the `ind`-th error for an index in range, the index error otherwise |
| CompileErrors.CompileErrorCollection.GetMessage | FALSEProgrammingLanguage/src/de/jeanpierrehotz/falseprogramminglanguage/compiler/error/CompileErrorCollection.java:78-89 | the loop builds the numbered lines joined by line breaks, with no final break |
| CodeSnippets.EvaluateCodeSnippet | FALSEProgrammingLanguage/src/de/jeanpierrehotz/falseprogramminglanguage/compiler/FalseCompiler.java:536-563 | the loop builds the excerpt of the reference function |
| CodeSnippets.SnippetShowsToken | FALSEProgrammingLanguage/src/de/jeanpierrehotz/falseprogramminglanguage/compiler/FalseCompiler.java:538-554 | the excerpt is at most eleven characters and shows the token's character at a fixed offset |
| CodeSnippets.SnippetMarksHiddenCode | FALSEProgrammingLanguage/src/de/jeanpierrehotz/falseprogramminglanguage/compiler/FalseCompiler.java:543-553 | `"... "` leads when code before the excerpt is hidden, and `" ..."` ends it when code after it is hidden |
| OccurrenceCounting.OccurrenceCounter.constructor | FALSEProgrammingLanguage/src/de/jeanpierrehotz/falseprogramminglanguage/compiler/FalseCompiler.java:589-591 | a new counter stands at 0 |
| OccurrenceCounting.OccurrenceCounter.Count | FALSEProgrammingLanguage/src/de/jeanpierrehotz/falseprogramminglanguage/compiler/FalseCompiler.java:602-604 | `count()` increments and returns the new value |
| SyntaxCheck.NextToken | FALSEProgrammingLanguage/src/de/jeanpierrehotz/falseprogramminglanguage/compiler/FalseCompiler.java:404-409 | the first index at or after `j` without white space |
| SyntaxCheck.Step | FALSEProgrammingLanguage/src/de/jeanpierrehotz/falseprogramminglanguage/compiler/FalseCompiler.java:287-422 | one turn of the pass moves on by one character, or by two after `'` or a stray `}` |
| SyntaxCheck.CheckVariableUse | FALSEProgrammingLanguage/src/de/jeanpierrehotz/falseprogramminglanguage/compiler/FalseCompiler.java:399-420 | after a variable letter, the next character that is not white space must be `;` or `:`: an unexpected token there, or the end of code, is reported with the extra information |
| SyntaxCheck.ScanCharacter | FALSEProgrammingLanguage/src/de/jeanpierrehotz/falseprogramminglanguage/compiler/FalseCompiler.java:287-422 | the switch on one character does what the reference step does to the error collection and the flags |
| SyntaxCheck.ReportUnclosedLambdas | FALSEProgrammingLanguage/src/de/jeanpierrehotz/falseprogramminglanguage/compiler/FalseCompiler.java:439-444 | one unclosed-literal error per open lambda, in the order they were opened |
| SyntaxCheck.ReportUnclosed | FALSEProgrammingLanguage/src/de/jeanpierrehotz/falseprogramminglanguage/compiler/FalseCompiler.java:426-444 | an open string, an open comment and the open lambdas are reported, in that order |
| SyntaxCheck.FindSyntaxError | FALSEProgrammingLanguage/src/de/jeanpierrehotz/falseprogramminglanguage/compiler/FalseCompiler.java:255-450 | the collected errors are exactly the reference pass's errors, and the check throws exactly when there is at least one |
| SyntaxCheck.ScanKeepsLevelMatched | FALSEProgrammingLanguage/src/de/jeanpierrehotz/falseprogramminglanguage/compiler/FalseCompiler.java:317-341 | the nesting level always equals the number of lambdas still open |
| SyntaxCheck.ErrorsOnlyGrow | FALSEProgrammingLanguage/src/de/jeanpierrehotz/falseprogramminglanguage/compiler/FalseCompiler.java:273-449 | the pass never takes an error back |
| SyntaxCheck.UnresolvableIsReported | FALSEProgrammingLanguage/src/de/jeanpierrehotz/falseprogramminglanguage/compiler/FalseCompiler.java:384-396 | a character without meaning that the pass meets outside comments and strings is reported as unresolved at its index |
| SyntaxCheck.ScanReportsOnlyUnresolvable | FALSEProgrammingLanguage/src/de/jeanpierrehotz/falseprogramminglanguage/compiler/FalseCompiler.java:390-396 | from any state, the pass adds unresolved-symbol errors only for characters without meaning |
| SyntaxCheck.UnresolvedSymbolsAreUnresolvable | FALSEProgrammingLanguage/src/de/jeanpierrehotz/falseprogramminglanguage/compiler/FalseCompiler.java:390-396 | no character that has a meaning is ever reported as unresolved |
| SyntaxCheck.OpenLambdasAreReported | FALSEProgrammingLanguage/src/de/jeanpierrehotz/falseprogramminglanguage/compiler/FalseCompiler.java:439-444 | every lambda still open at the end is reported at its opening bracket |
| Stripper.CommentStep | FALSEProgrammingLanguage/src/de/jeanpierrehotz/falseprogramminglanguage/compiler/FalseCompiler.java:470-483 | one turn inside a comment keeps the stripping invariant and makes progress |
| Stripper.PlainStep | FALSEProgrammingLanguage/src/de/jeanpierrehotz/falseprogramminglanguage/compiler/FalseCompiler.java:485-520 | one turn outside a comment keeps the invariant, or reports the index error of the digit look-ahead |
| Stripper.WhitespaceStep | FALSEProgrammingLanguage/src/de/jeanpierrehotz/falseprogramminglanguage/compiler/FalseCompiler.java:508-518 | one turn on white space keeps the stripping invariant and makes progress, or reports the index error of the look-ahead past the end |
| Stripper.Strip | FALSEProgrammingLanguage/src/de/jeanpierrehotz/falseprogramminglanguage/compiler/FalseCompiler.java:460-525 | the in-place loop returns what the streaming reference pass returns, the index error included |
| Stripper.DigitIsKept | FALSEProgrammingLanguage/src/de/jeanpierrehotz/falseprogramminglanguage/compiler/FalseCompiler.java:508-517 | a digit outside strings and comments is kept |
| Stripper.KeptIsPrefix | FALSEProgrammingLanguage/src/de/jeanpierrehotz/falseprogramminglanguage/compiler/FalseCompiler.java:460-525 | what the pass has kept is never taken back |
| Stripper.StripFromIsCompact | FALSEProgrammingLanguage/src/de/jeanpierrehotz/falseprogramminglanguage/compiler/FalseCompiler.java:460-525 | what the pass still adds is compact, and an open comment is dropped once it closes or kept to the end |
| Stripper.StripIsCompact | FALSEProgrammingLanguage/src/de/jeanpierrehotz/falseprogramminglanguage/compiler/FalseCompiler.java:460-525 | stripped code is compact: no closed comment is left, and outside strings and character literals white space only sits between two digits |
| Stripper.UnclosedCommentIsKept | FALSEProgrammingLanguage/src/de/jeanpierrehotz/falseprogramminglanguage/compiler/FalseCompiler.java:470-483 | a comment that is never closed stays in the code |
| Stripper.CompactIsKept | FALSEProgrammingLanguage/src/de/jeanpierrehotz/falseprogramminglanguage/compiler/FalseCompiler.java:460-525 | compact code passes through unchanged |
| Stripper.CompactIsFixpoint | FALSEProgrammingLanguage/src/de/jeanpierrehotz/falseprogramminglanguage/compiler/FalseCompiler.java:460-525 | `strip` leaves code unchanged exactly when the code is compact |
| Stripper.StripIsIdempotent | FALSEProgrammingLanguage/src/de/jeanpierrehotz/falseprogramminglanguage/compiler/FalseCompiler.java:460-525 | stripping stripped code changes nothing |
| Stripper.TrailingSpaceAfterDigitFails | FALSEProgrammingLanguage/src/de/jeanpierrehotz/falseprogramminglanguage/compiler/FalseCompiler.java:511-512 | `"1 "` makes the look-ahead read past the end; `"1 {c}"` strips to `"1"` |
| Stripper.StripExamples | FALSEProgrammingLanguage/src/de/jeanpierrehotz/falseprogramminglanguage/compiler/FalseCompiler.java:508-517 | `"1  2"` becomes `"1 2"`; `"{c} a"` becomes `"a"`; white space inside a string stays |
| Stripper.BracketInStringIsKept | FALSEProgrammingLanguage/src/de/jeanpierrehotz/falseprogramminglanguage/compiler/FalseCompiler.java:508-517 | `strip` leaves `[\"]\"]` unchanged |
| Parser.InstructionOfOperators | FALSEProgrammingLanguage/src/de/jeanpierrehotz/falseprogramminglanguage/compiler/FalseCompiler.java:186-240 | exactly the operator characters stand for an instruction |
| Parser.CompatSpellings | FALSEProgrammingLanguage/src/de/jeanpierrehotz/falseprogramminglanguage/compiler/FalseCompiler.java:225-240 | `ø` and `O` are both pick, `ß` and `S` are both flush |
| Parser.LambdaEnd | FALSEProgrammingLanguage/src/de/jeanpierrehotz/falseprogramminglanguage/compiler/FalseCompiler.java:112-120 | a found end is a `]` at or after the start |
| Parser.QuoteEnd | FALSEProgrammingLanguage/src/de/jeanpierrehotz/falseprogramminglanguage/compiler/FalseCompiler.java:137-139 | the first `"` at or after the start, or none in the rest of the code |
| Parser.DigitsEnd | FALSEProgrammingLanguage/src/de/jeanpierrehotz/falseprogramminglanguage/compiler/FalseCompiler.java:160-162 | the end of the maximal run of digits |
| Parser.ParseInt | FALSEProgrammingLanguage/src/de/jeanpierrehotz/falseprogramminglanguage/compiler/FalseCompiler.java:167-172 | `Integer.parseInt` succeeds exactly when the value is at most `Integer.MAX_VALUE`, and then gives that value |
| Parser.TokenAt | FALSEProgrammingLanguage/src/de/jeanpierrehotz/falseprogramminglanguage/compiler/FalseCompiler.java:100-241 | one token moves the index forward |
| Parser.FindLambdaEnd | FALSEProgrammingLanguage/src/de/jeanpierrehotz/falseprogramminglanguage/compiler/FalseCompiler.java:112-120 | the bracket loop computes the reference search |
| Parser.FindQuoteEnd | FALSEProgrammingLanguage/src/de/jeanpierrehotz/falseprogramminglanguage/compiler/FalseCompiler.java:137-139 | the quote loop computes the reference search |
| Parser.FindDigitsEnd | FALSEProgrammingLanguage/src/de/jeanpierrehotz/falseprogramminglanguage/compiler/FalseCompiler.java:160-162 | the digit loop computes the reference search |
| Parser.Parse | FALSEProgrammingLanguage/src/de/jeanpierrehotz/falseprogramminglanguage/compiler/FalseCompiler.java:89-245 | the recursive loop with the shared counter gives the reference parse, or its crash |
| Parser.ParseToken | FALSEProgrammingLanguage/src/de/jeanpierrehotz/falseprogramminglanguage/compiler/FalseCompiler.java:102-240 | one turn of the loop of `parse` gives the reference token |
| Parser.ParseProgram | FALSEProgrammingLanguage/src/de/jeanpierrehotz/falseprogramminglanguage/compiler/FalseCompiler.java:72-75 | parsing with a new counter |
| Parser.ParseIsNumbered | FALSEProgrammingLanguage/src/de/jeanpierrehotz/falseprogramminglanguage/compiler/FalseCompiler.java:89-245 | the parsed tree is numbered exactly as the counter renumbers it |
| Parser.TokenIsNumbered | FALSEProgrammingLanguage/src/de/jeanpierrehotz/falseprogramminglanguage/compiler/FalseCompiler.java:100-241 | each token is numbered as renumbering numbers it |
| Parser.ParseIndicesAreConsecutive | FALSEProgrammingLanguage/src/de/jeanpierrehotz/falseprogramminglanguage/compiler/FalseCompiler.java:89-129 | the indices of a parse are 1, 2, ... in source order, a lambda before its body |
| Parser.LambdaEndIsFirstMatch | FALSEProgrammingLanguage/src/de/jeanpierrehotz/falseprogramminglanguage/compiler/FalseCompiler.java:107-120 | a lambda's body ends at the first `]` that brings the depth back to zero, and the search fails exactly when there is none |
| Parser.AssemblyMarkerRightAfterNumber | FALSEProgrammingLanguage/src/de/jeanpierrehotz/falseprogramminglanguage/compiler/FalseCompiler.java:165-173 | ``12` `` parses as an integer literal, since the marker is looked for one place too far |
| Parser.AssemblyMarkerOneFurther | FALSEProgrammingLanguage/src/de/jeanpierrehotz/falseprogramminglanguage/compiler/FalseCompiler.java:165-176 | ``12;` `` parses as inline assembly 12 followed by `;` |
| Parser.IntegerLiteralRange | FALSEProgrammingLanguage/src/de/jeanpierrehotz/falseprogramminglanguage/compiler/FalseCompiler.java:167-172 | `2147483647` parses, `2147483648` fails as a number format error |
| Parser.LargestIntegerParses | FALSEProgrammingLanguage/src/de/jeanpierrehotz/falseprogramminglanguage/compiler/FalseCompiler.java:160-172 | `2147483647` parses as one integer node with that value |
| Parser.SmallestOverflowFails | FALSEProgrammingLanguage/src/de/jeanpierrehotz/falseprogramminglanguage/compiler/FalseCompiler.java:160-172 | `2147483648` fails as a number format error |
| Parser.BracketInStringEndsLambda | FALSEProgrammingLanguage/src/de/jeanpierrehotz/falseprogramminglanguage/compiler/FalseCompiler.java:112-120 | a `]` inside a string inside a lambda ends the lambda, and the parse then fails |
| Compiler.Compile | FALSEProgrammingLanguage/src/de/jeanpierrehotz/falseprogramminglanguage/compiler/FalseCompiler.java:54-61 | `compile` is the check, then `strip`, then `parse` |
| Compiler.RejectedIffErrors | FALSEProgrammingLanguage/src/de/jeanpierrehotz/falseprogramminglanguage/compiler/FalseCompiler.java:54-61 | code is rejected exactly when the check finds errors, and then with all of them; strip runs only on checked code |
| Compiler.CompiledIsNumbered | FALSEProgrammingLanguage/src/de/jeanpierrehotz/falseprogramminglanguage/compiler/FalseCompiler.java:54-61 | a compiled program is the parse of the stripped code, numbered 1, 2, ... in source order |
| Compiler.CompileIgnoresStripping | FALSEProgrammingLanguage/src/de/jeanpierrehotz/falseprogramminglanguage/compiler/FalseCompiler.java:54-61 | compiling stripped code gives the same outcome as compiling the code |
| Compiler.TrailingSpaceCrashes | FALSEProgrammingLanguage/src/de/jeanpierrehotz/falseprogramminglanguage/compiler/FalseCompiler.java:508-512 | `"1 "` passes the check and then crashes in `strip` |
| Compiler.TrailingSpacePassesCheck | FALSEProgrammingLanguage/src/de/jeanpierrehotz/falseprogramminglanguage/compiler/FalseCompiler.java:255-450 | the syntax check finds no error in `"1 "` |
| Compiler.BracketInStringCrashes | FALSEProgrammingLanguage/src/de/jeanpierrehotz/falseprogramminglanguage/compiler/FalseCompiler.java:112-120 | `[\"]\"]` passes the check and then crashes in `parse` |
| Compiler.BracketInStringPassesCheck | FALSEProgrammingLanguage/src/de/jeanpierrehotz/falseprogramminglanguage/compiler/FalseCompiler.java:255-450 | the syntax check finds no error in `[\"]\"]`: the `]` inside the string is not counted |
| ByteCode.DecodeInstruction | FALSEProgrammingLanguage/src/de/jeanpierrehotz/falseprogramminglanguage/data/FalseProgram.java:189-259 | a decoded instruction is the one whose opcode the byte is |
| ByteCode.CaseOf | FALSEProgrammingLanguage/src/de/jeanpierrehotz/falseprogramminglanguage/data/FalseProgram.java:189-259 | every instruction has one of the switch's 24 cases, and that case stands for it |
| ByteCode.FirstWithOpcode | FALSEProgrammingLanguage/src/de/jeanpierrehotz/falseprogramminglanguage/data/FalseProgram.java:189-259 | a case the search stops at has the byte as its opcode |
| ByteCode.FirstWithOpcodeReaches | FALSEProgrammingLanguage/src/de/jeanpierrehotz/falseprogramminglanguage/data/FalseProgram.java:189-259 | the search reaches every instruction whose case it has not passed yet |
| ByteCode.DecodeInstructionIsComplete | FALSEProgrammingLanguage/src/de/jeanpierrehotz/falseprogramminglanguage/data/FalseProgram.java:189-259 | every instruction's opcode is one of the switch's cases |
| ByteCode.OpcodesAreDistinct | FALSEProgrammingLanguage/src/de/jeanpierrehotz/falseprogramminglanguage/data/FalseProgram.java:189-259 | distinct instructions have distinct opcodes |
| ByteCode.SampleOpcodeDecodes | FALSEProgrammingLanguage/src/de/jeanpierrehotz/falseprogramminglanguage/data/FalseProgram.java:189-259 | under a concrete table every instruction's opcode decodes to that instruction |
| ByteCode.SampleOpcodeIsFree | FALSEProgrammingLanguage/src/de/jeanpierrehotz/falseprogramminglanguage/data/FalseProgram.java:189-259 | the concrete table uses no structural byte and neither payload opcode for an instruction |
| ByteCode.SampleOpcodesAreValid | FALSEProgrammingLanguage/src/de/jeanpierrehotz/falseprogramminglanguage/data/FalseProgram.java:189-259 | the admissible opcode tables are not an empty class |
| ByteCode.StringBytes | FALSEProgrammingLanguage/src/de/jeanpierrehotz/falseprogramminglanguage/data/operationimplementations/PrintStringOperation.java:51-55 | two bytes per character |
| ByteCode.EncodeOp | FALSEProgrammingLanguage/src/de/jeanpierrehotz/falseprogramminglanguage/data/operationimplementations/Function.java:42-59 | every node writes at least one byte |
| ByteCode.BlockEnd | FALSEProgrammingLanguage/src/de/jeanpierrehotz/falseprogramminglanguage/data/FalseProgram.java:120-135 | the function-block scan stays within the data |
| ByteCode.StringFrom | FALSEProgrammingLanguage/src/de/jeanpierrehotz/falseprogramminglanguage/data/FalseProgram.java:142-156 | the string scan stays within the data |
| ByteCode.DecodeOpAt | FALSEProgrammingLanguage/src/de/jeanpierrehotz/falseprogramminglanguage/data/FalseProgram.java:114-262 | a decoded node lies after its opcode |
| ByteCode.LoadByteCode | FALSEProgrammingLanguage/src/de/jeanpierrehotz/falseprogramminglanguage/data/FalseProgram.java:89-102 | only data framed by `7` and `127` loads |
| ByteCodeRoundTrip.ScanOps | FALSEProgrammingLanguage/src/de/jeanpierrehotz/falseprogramminglanguage/data/FalseProgram.java:120-135 | the function-block scan passes over the encoding of plain nodes without changing its state |
| ByteCodeRoundTrip.StringFromBytes | FALSEProgrammingLanguage/src/de/jeanpierrehotz/falseprogramminglanguage/data/FalseProgram.java:142-156 | the encoding of a plain string, followed by `-2`, reads back as the string |
| ByteCodeRoundTrip.VariableNameRoundTrip | FALSEProgrammingLanguage/src/de/jeanpierrehotz/falseprogramminglanguage/data/FalseProgram.java:161-164 | a one-byte variable name below 0x80 reads back unchanged |
| ByteCodeRoundTrip.DecodeOpIsRenumber | FALSEProgrammingLanguage/src/de/jeanpierrehotz/falseprogramminglanguage/data/FalseProgram.java:114-262 | the loader reads the encoding of a plain node back as the same node, renumbered, and goes on right after it |
| ByteCodeRoundTrip.DecodeLambda | FALSEProgrammingLanguage/src/de/jeanpierrehotz/falseprogramminglanguage/data/FalseProgram.java:116-140 | a function block reads back as a lambda that takes its index before its body |
| ByteCodeRoundTrip.DecodeVariable | FALSEProgrammingLanguage/src/de/jeanpierrehotz/falseprogramminglanguage/data/FalseProgram.java:161-164 | a variable address reads one byte, widened with sign extension |
| ByteCodeRoundTrip.DecodeCharacter | FALSEProgrammingLanguage/src/de/jeanpierrehotz/falseprogramminglanguage/data/FalseProgram.java:165-172 | a character value reads two big-endian bytes |
| ByteCodeRoundTrip.DecodeNumber | FALSEProgrammingLanguage/src/de/jeanpierrehotz/falseprogramminglanguage/data/FalseProgram.java:174-187 | `11` and `12` read a big-endian `int` into an integer literal or inline assembly |
| ByteCodeRoundTrip.DecodeInstr | FALSEProgrammingLanguage/src/de/jeanpierrehotz/falseprogramminglanguage/data/FalseProgram.java:189-259 | an instruction's opcode reads back as that instruction |
| ByteCodeRoundTrip.DecodeOpsIsRenumber | FALSEProgrammingLanguage/src/de/jeanpierrehotz/falseprogramminglanguage/data/FalseProgram.java:104-267 | encodings of plain nodes that exactly fill a range read back as the renumbered nodes |
| ByteCodeRoundTrip.DecodeOpThen | FALSEProgrammingLanguage/src/de/jeanpierrehotz/falseprogramminglanguage/data/FalseProgram.java:104-267 | the encoding of a plain node in front of any range reads back as the renumbered node in front of what that range reads back as |
| ByteCodeRoundTrip.LoadEncodedProgram | FALSEProgrammingLanguage/src/de/jeanpierrehotz/falseprogramminglanguage/data/FalseProgram.java:104-267 | loading the byte code of a plain program gives the same nodes, payloads and nesting, numbered afresh |
| ByteCodeRoundTrip.TopLevelNumberRoundTrip | FALSEProgrammingLanguage/src/de/jeanpierrehotz/falseprogramminglanguage/data/FalseProgram.java:174-186 | at the top level every `int` survives saving and loading, as integer literal and as inline assembly |
| ByteCodeRoundTrip.MarkerInPayloadBreaksFunction | FALSEProgrammingLanguage/src/de/jeanpierrehotz/falseprogramminglanguage/data/FalseProgram.java:124-135 | an integer 126 inside a function ends the function's block early, and loading then fails as illegally changed |
| ByteCodeRoundTrip.UnknownOpcodeIsRejected | FALSEProgrammingLanguage/src/de/jeanpierrehotz/falseprogramminglanguage/data/FalseProgram.java:261-262 | a byte that is no case fails exactly as illegally changed, and the whole range fails with no partial result |
| ByteCodeRoundTrip.EncodingSize | FALSEProgrammingLanguage/src/de/jeanpierrehotz/falseprogramminglanguage/data/operationimplementations/Function.java:42-59 | a function takes two bytes more than its children, a string two per character plus two, a number five, an instruction one |
| ByteCodeRoundTrip.EncodingSizes | FALSEProgrammingLanguage/src/de/jeanpierrehotz/falseprogramminglanguage/data/FalseProgram.java:45-62 | a list takes the sum of its nodes' sizes |
| ByteCodeRoundTrip.PrintStringLayout | FALSEProgrammingLanguage/src/de/jeanpierrehotz/falseprogramminglanguage/data/operationimplementations/PrintStringOperation.java:50-69 | a string is `-1`, then character `k` high byte first at bytes `1+2k` and `2+2k`, then `-2` |
| ByteCodeRoundTrip.CompiledProgramRoundTrip | FALSEProgrammingLanguage/src/de/jeanpierrehotz/falseprogramminglanguage/data/FalseProgram.java:100-102 | a compiled program with plain payloads survives saving and loading unchanged, indices included |
| ByteCodeEncoder.ToArray | FALSEProgrammingLanguage/src/de/jeanpierrehotz/falseprogramminglanguage/data/FalseProgram.java:56-61 | the copy of the list into an array of its size, in a new array |
| ByteCodeEncoder.GroupToByteArray | FALSEProgrammingLanguage/src/de/jeanpierrehotz/falseprogramminglanguage/data/operationimplementations/Function.java:42-59 | the begin byte, each child's bytes in order, the end byte, in a new array |
| ByteCodeEncoder.StringToByteArray | FALSEProgrammingLanguage/src/de/jeanpierrehotz/falseprogramminglanguage/data/operationimplementations/PrintStringOperation.java:50-69 | `-1`, the characters' bytes, `-2`, in a new array |
| ByteCodeEncoder.NumberToByteArray | FALSEProgrammingLanguage/src/de/jeanpierrehotz/falseprogramminglanguage/data/operationimplementations/IntegerValueOperation.java:48-60 | the opcode, then the `int` big-endian, in a new array |
| ByteCodeEncoder.OpToByteArray | FALSEProgrammingLanguage/src/de/jeanpierrehotz/falseprogramminglanguage/data/Operation.java:57 | `toByteArray` of any node is the node's encoding, in a new array |
| ByteCodeEncoder.ProgramToByteArray | FALSEProgrammingLanguage/src/de/jeanpierrehotz/falseprogramminglanguage/data/FalseProgram.java:45-62 | `7`, each child's bytes in order, `127`, in a new array |
| ByteCodeEncoder.ToPrimitiveByteArray | FALSEProgrammingLanguage/src/de/jeanpierrehotz/falseprogramminglanguage/data/FalseProgram.java:64-73 | the same bytes, unboxed, in a new array |
| ByteCodeLoader.FindBlockEnd | FALSEProgrammingLanguage/src/de/jeanpierrehotz/falseprogramminglanguage/data/FalseProgram.java:120-135 | the loop finds the reference block end |
| ByteCodeLoader.ReadString | FALSEProgrammingLanguage/src/de/jeanpierrehotz/falseprogramminglanguage/data/FalseProgram.java:142-156 | the loop reads the reference string |
| ByteCodeLoader.ParseOpAt | FALSEProgrammingLanguage/src/de/jeanpierrehotz/falseprogramminglanguage/data/FalseProgram.java:115-263 | one case of the switch gives the reference node and advances the counter to match |
| ByteCodeLoader.ParseByteCode | FALSEProgrammingLanguage/src/de/jeanpierrehotz/falseprogramminglanguage/data/FalseProgram.java:104-267 | the recursive loop with the shared counter gives the reference decoding |
| ByteCodeLoader.LoadByteCodeFrom | FALSEProgrammingLanguage/src/de/jeanpierrehotz/falseprogramminglanguage/data/FalseProgram.java:89-102 | the frame check, then decoding between the frame bytes with a new counter |
| Decompiler.GroupTextSnoc | FALSEProgrammingLanguage/src/de/jeanpierrehotz/falseprogramminglanguage/data/FalseProgram.java:270-284 | a group's text grows by one child's text per child, in order |
| Decompiler.ChildrenToString | FALSEProgrammingLanguage/src/de/jeanpierrehotz/falseprogramminglanguage/data/FalseProgram.java:270-284 | the loop computes the reference text of the children |
| Decompiler.OpToString | FALSEProgrammingLanguage/src/de/jeanpierrehotz/falseprogramminglanguage/data/operationimplementations/Function.java:62-79 | `toString` of any node is the node's reference text |
| Decompiler.DecompileProgram | FALSEProgrammingLanguage/src/de/jeanpierrehotz/falseprogramminglanguage/data/FalseProgram.java:81-87 | `decompile` is the program's `toString` |
| Decompiler.IntegerTextReadsBack | FALSEProgrammingLanguage/src/de/jeanpierrehotz/falseprogramminglanguage/data/operationimplementations/IntegerValueOperation.java:63-70 | `toString` is the value with a leading space, and the digits read back as the value |
| Machine.Truth | FALSEProgrammingLanguage/src/de/jeanpierrehotz/falseprogramminglanguage/data/operationimplementations/IfOperation.java:54-58 | only -1 and 0 are booleans, and -1 is true |
| Machine.ReadCharacter | FALSEProgrammingLanguage/src/de/jeanpierrehotz/falseprogramminglanguage/data/StandardInOutPutCompat.java:91-104 | -1 and the same empty buffer, or the code of the first character and the rest of the buffer |
| Machine.UnaryMinusStep | FALSEProgrammingLanguage/src/de/jeanpierrehotz/falseprogramminglanguage/data/operationimplementations/UnaryMinusOperation.java:40-56 | an empty stack is an error that changes nothing; a non-integer top is popped and then an error; otherwise the top is replaced by its wrapping negation |
| Machine.GreaterThanStep | FALSEProgrammingLanguage/src/de/jeanpierrehotz/falseprogramminglanguage/data/operationimplementations/GreaterThanOperation.java:40-66 | fewer than two items is an error that changes nothing; both are popped before a type error; otherwise -1 is pushed exactly when the lower item is greater, else 0, and the rest is untouched |
| Machine.ReadCharacterStep | FALSEProgrammingLanguage/src/de/jeanpierrehotz/falseprogramminglanguage/data/operationimplementations/ReadCharacterOperation.java:38-42 | never fails and pushes one value: -1 on an empty buffer, otherwise the next character's code, which is consumed |
| Machine.IfStep | FALSEProgrammingLanguage/src/de/jeanpierrehotz/falseprogramminglanguage/data/operationimplementations/IfOperation.java:40-67 | pops the function and the boolean below it; the boolean is checked before the function; the body runs exactly for -1, and 0 only removes the two items |
| Machine.WhileStep | FALSEProgrammingLanguage/src/de/jeanpierrehotz/falseprogramminglanguage/data/operationimplementations/WhileOperation.java:40-59 | pops the body and the condition below it; both must be functions, and anything else is a type error after both are popped |
| Machine.ConditionStep | FALSEProgrammingLanguage/src/de/jeanpierrehotz/falseprogramminglanguage/data/operationimplementations/WhileOperation.java:66-84 | after the condition, an empty stack or a non-boolean is an error; otherwise the boolean is popped and -1 means go on |
| Machine.Execute | FALSEProgrammingLanguage/src/de/jeanpierrehotz/falseprogramminglanguage/interpreter/FalseInterpreter.java:89-109 | the listener hears of the start, and of the end unless an unchecked exception escaped; an interpreter error is thrown exactly when the run failed and the flag, asked once more, is not set; an unchecked exception is thrown whatever the flag says, with no further question to the flag; an aborted run throws nothing |
| Machine.Outcome | FALSEProgrammingLanguage/src/de/jeanpierrehotz/falseprogramminglanguage/interpreter/FalseInterpreter.java:95-99 | an operation ends normally exactly when it throws nothing, fails exactly when it throws an interpreter error, and crashes exactly when it throws an unchecked exception |
| Machine.AbortSilencesOnlyInterpretErrors | FALSEProgrammingLanguage/src/de/jeanpierrehotz/falseprogramminglanguage/interpreter/FalseInterpreter.java:89-109 | with the flag set while a `ø` runs, its interpreter error is swallowed but its unchecked exception escapes, and the listener hears only of the start |
| Machine.GroupKeepsAbort | FALSEProgrammingLanguage/src/de/jeanpierrehotz/falseprogramminglanguage/data/ExecutionAbortIndicator.java:21-36 | running a group never clears the flag, never sets it without the other thread, and the count of checks of the flag never goes down |
| Machine.OpKeepsAbort | FALSEProgrammingLanguage/src/de/jeanpierrehotz/falseprogramminglanguage/data/ExecutionAbortIndicator.java:21-36 | the same for one operation |
| Machine.WhileKeepsAbort | FALSEProgrammingLanguage/src/de/jeanpierrehotz/falseprogramminglanguage/data/ExecutionAbortIndicator.java:21-36 | the same for the loop of `#` |
| Machine.GroupConcat | FALSEProgrammingLanguage/src/de/jeanpierrehotz/falseprogramminglanguage/data/OperationGroup.java:44-58 | running `a + b` runs `a`, then `b` on what `a` left, unless `a` failed or set the flag |
| Machine.AbortedGroupRunsNothing | FALSEProgrammingLanguage/src/de/jeanpierrehotz/falseprogramminglanguage/data/OperationGroup.java:46 | with the flag set on entry, no child runs |
| Machine.GroupStopsAfterAbort | FALSEProgrammingLanguage/src/de/jeanpierrehotz/falseprogramminglanguage/data/OperationGroup.java:46-49 | once the flag is set after some children, the later children change nothing |
| Machine.GroupStopsAtError | FALSEProgrammingLanguage/src/de/jeanpierrehotz/falseprogramminglanguage/data/OperationGroup.java:46-49 | a child's error ends the group, and later children do not run |
| Machine.GroupRunsInOrder | FALSEProgrammingLanguage/src/de/jeanpierrehotz/falseprogramminglanguage/data/OperationGroup.java:46-49 | child `k` runs after a check of the flag, on the state the children before it left |
| Machine.IfFalseOnlyPops | FALSEProgrammingLanguage/src/de/jeanpierrehotz/falseprogramminglanguage/data/operationimplementations/IfOperation.java:64-66 | `?` with 0 below a function only removes the two items |
| Machine.IfTrueRunsFunction | FALSEProgrammingLanguage/src/de/jeanpierrehotz/falseprogramminglanguage/data/operationimplementations/IfOperation.java:64-66 | `?` with -1 below a function runs the function on the rest of the stack |
| Machine.WhileFalseRunsNoBody | FALSEProgrammingLanguage/src/de/jeanpierrehotz/falseprogramminglanguage/data/operationimplementations/WhileOperation.java:61-63 | a condition that pushes 0 stops the loop before the body runs |
| Machine.AssemblyChangesNothing | FALSEProgrammingLanguage/src/de/jeanpierrehotz/falseprogramminglanguage/data/operationimplementations/NOP.java:36-38 | inline assembly changes nothing and never fails |
| Machine.IntegerValuePushes | FALSEProgrammingLanguage/src/de/jeanpierrehotz/falseprogramminglanguage/data/operationimplementations/IntegerValueOperation.java:42-45 | an integer literal pushes exactly its value and changes nothing else |
| Machine.PrintStringWrites | FALSEProgrammingLanguage/src/de/jeanpierrehotz/falseprogramminglanguage/data/operationimplementations/PrintStringOperation.java:43-47 | a string is written once, with a line break, and nothing else changes |
| Memory.PickSpec | FALSEProgrammingLanguage/src/de/jeanpierrehotz/falseprogramminglanguage/data/StackMemory.java:55-64 | `pick(i)` succeeds exactly for `0 <= i < size`, and then pushes a copy of the item `i` places below the top, leaving the rest in place |
| Memory.PickExamples | FALSEProgrammingLanguage/src/de/jeanpierrehotz/falseprogramminglanguage/data/StackMemory.java:48-52 | the documented example: `1 2 3 4` with pick 2 gives `1 2 3 4 2`, and pick 0 duplicates the top |
| Memory.StackMemory.constructor | FALSEProgrammingLanguage/src/de/jeanpierrehotz/falseprogramminglanguage/data/StackMemory.java:23 | a new stack is empty |
| Memory.StackMemory.Push | FALSEProgrammingLanguage/src/de/jeanpierrehotz/falseprogramminglanguage/data/StackMemory.java:43-45 | the value goes on top, and nothing below changes |
| Memory.StackMemory.Pop | FALSEProgrammingLanguage/src/de/jeanpierrehotz/falseprogramminglanguage/data/StackMemory.java:30-37 | the top item is returned and removed; an empty stack is the index error |
| Memory.StackMemory.Pick | FALSEProgrammingLanguage/src/de/jeanpierrehotz/falseprogramminglanguage/data/StackMemory.java:55-64 | the stack becomes `PickSpec`'s result, or stays as it was on the bounds error |
| InOut.StandardInOutPutCompat.constructor | FALSEProgrammingLanguage/src/de/jeanpierrehotz/falseprogramminglanguage/data/StandardInOutPutCompat.java:47-52 | the buffer starts empty |
| InOut.StandardInOutPutCompat.WriteString | FALSEProgrammingLanguage/src/de/jeanpierrehotz/falseprogramminglanguage/data/StandardInOutPutCompat.java:66-68 | the text, then a line break |
| InOut.StandardInOutPutCompat.WriteNumber | FALSEProgrammingLanguage/src/de/jeanpierrehotz/falseprogramminglanguage/data/StandardInOutPutCompat.java:74-76 | the decimal text, then a line break |
| InOut.StandardInOutPutCompat.WriteCharacter | FALSEProgrammingLanguage/src/de/jeanpierrehotz/falseprogramminglanguage/data/StandardInOutPutCompat.java:82-84 | the character, then a line break |
| InOut.StandardInOutPutCompat.ReadCharacter | FALSEProgrammingLanguage/src/de/jeanpierrehotz/falseprogramminglanguage/data/StandardInOutPutCompat.java:91-104 | the code of the first buffered character, which is consumed, or -1 with the buffer unchanged |
| InOut.StandardInOutPutCompat.Flush | FALSEProgrammingLanguage/src/de/jeanpierrehotz/falseprogramminglanguage/data/StandardInOutPutCompat.java:109-112 | the buffer is replaced by the next input line, not appended to; with no line left, the failure of `nextLine` and nothing changes |
| AbortIndicator.ExecutionAbortIndicator.constructor | FALSEProgrammingLanguage/src/de/jeanpierrehotz/falseprogramminglanguage/data/ExecutionAbortIndicator.java:25-27 | a new flag is not set |
| AbortIndicator.ExecutionAbortIndicator.AbortExecution | FALSEProgrammingLanguage/src/de/jeanpierrehotz/falseprogramminglanguage/data/ExecutionAbortIndicator.java:29-31 | afterwards the flag is set |
| Interpreter.FalseInterpreter.constructor | FALSEProgrammingLanguage/src/de/jeanpierrehotz/falseprogramminglanguage/interpreter/FalseInterpreter.java:71-83 | empty stack, no variables, empty buffer, flag not set, neither print option on |
| Interpreter.FalseInterpreter.SetListener | FALSEProgrammingLanguage/src/de/jeanpierrehotz/falseprogramminglanguage/interpreter/FalseInterpreter.java:47-49 | a listener is set or removed |
| Interpreter.FalseInterpreter.SetPrintStack | FALSEProgrammingLanguage/src/de/jeanpierrehotz/falseprogramminglanguage/interpreter/FalseInterpreter.java:51-53 | sets the option |
| Interpreter.FalseInterpreter.SetPrintVariables | FALSEProgrammingLanguage/src/de/jeanpierrehotz/falseprogramminglanguage/interpreter/FalseInterpreter.java:55-57 | sets the option |
| Interpreter.FalseInterpreter.AbortExecution | FALSEProgrammingLanguage/src/de/jeanpierrehotz/falseprogramminglanguage/interpreter/FalseInterpreter.java:115-117 | only sets the shared flag |
| Interpreter.FalseInterpreter.Poll | FALSEProgrammingLanguage/src/de/jeanpierrehotz/falseprogramminglanguage/data/ExecutionAbortIndicator.java:33-35 | one check of the flag, after the other thread may have set it |
| Interpreter.FalseInterpreter.ApplyEffect | FALSEProgrammingLanguage/src/de/jeanpierrehotz/falseprogramminglanguage/data/Operation.java:51 | an operation whose class is not part of the model changes the state as its semantics says |
| Interpreter.FalseInterpreter.OperateUnaryMinus | FALSEProgrammingLanguage/src/de/jeanpierrehotz/falseprogramminglanguage/data/operationimplementations/UnaryMinusOperation.java:40-56 | the objects end as `UnaryMinusStep` says |
| Interpreter.FalseInterpreter.OperateGreaterThan | FALSEProgrammingLanguage/src/de/jeanpierrehotz/falseprogramminglanguage/data/operationimplementations/GreaterThanOperation.java:40-66 | the objects end as `GreaterThanStep` says |
| Interpreter.FalseInterpreter.OperateReadCharacter | FALSEProgrammingLanguage/src/de/jeanpierrehotz/falseprogramminglanguage/data/operationimplementations/ReadCharacterOperation.java:38-42 | the objects end as `ReadCharacterStep` says |
| Interpreter.FalseInterpreter.OperateIf | FALSEProgrammingLanguage/src/de/jeanpierrehotz/falseprogramminglanguage/data/operationimplementations/IfOperation.java:40-67 | the objects end as the run of `?` says |
| Interpreter.FalseInterpreter.EvaluateCondition | FALSEProgrammingLanguage/src/de/jeanpierrehotz/falseprogramminglanguage/data/operationimplementations/WhileOperation.java:66-84 | runs the condition, then pops and checks the boolean, as `ConditionStep` says |
| Interpreter.FalseInterpreter.OperateWhile | FALSEProgrammingLanguage/src/de/jeanpierrehotz/falseprogramminglanguage/data/operationimplementations/WhileOperation.java:40-64 | the loop checks the flag, then the condition, then runs the body, as the run of `#` says |
| Interpreter.FalseInterpreter.WhileRound | FALSEProgrammingLanguage/src/de/jeanpierrehotz/falseprogramminglanguage/data/operationimplementations/WhileOperation.java:61-63 | one round of the loop either leaves the rest of the reference run to the next round, with one unit of fuel less, or ends it with the reference run's result |
| Interpreter.FalseInterpreter.Operate | FALSEProgrammingLanguage/src/de/jeanpierrehotz/falseprogramminglanguage/data/Operation.java:51 | `operate` of any node does what its run says |
| Interpreter.FalseInterpreter.OperateGroup | FALSEProgrammingLanguage/src/de/jeanpierrehotz/falseprogramminglanguage/data/OperationGroup.java:44-58 | the loop over the children, checking the flag before each, does what the group's run says |
| Interpreter.FalseInterpreter.Execute | FALSEProgrammingLanguage/src/de/jeanpierrehotz/falseprogramminglanguage/interpreter/FalseInterpreter.java:89-109 | the objects, the listener's calls and what is thrown, interpreter error or unchecked exception, are those of `Machine.Execute` |
| Settings.WithSeparator | FALSEProgrammingLanguage/src/de/jeanpierrehotz/falseide/utils/FalseIDESettings.java:176-184 | the result ends with the separator and begins with the path |
| Settings.WithSeparatorKeepsTerminated | FALSEProgrammingLanguage/src/de/jeanpierrehotz/falseide/utils/FalseIDESettings.java:178-180 | a path that ends with the separator is kept |
| Settings.WithSeparatorIsIdempotent | FALSEProgrammingLanguage/src/de/jeanpierrehotz/falseide/utils/FalseIDESettings.java:176-184 | appending the separator twice is appending it once |
| Settings.WithSeparatorAppendsOnce | FALSEProgrammingLanguage/src/de/jeanpierrehotz/falseide/utils/FalseIDESettings.java:178-180 | a path without the separator gets exactly one appended |
| Settings.FalseIDESettings.constructor | FALSEProgrammingLanguage/src/de/jeanpierrehotz/falseide/utils/FalseIDESettings.java:71-76 | the settings hold the four values read |
| Settings.FalseIDESettings.Copy | FALSEProgrammingLanguage/src/de/jeanpierrehotz/falseide/utils/FalseIDESettings.java:83-88 | all four fields are copied |
| Settings.FalseIDESettings.GetWorkSpace | FALSEProgrammingLanguage/src/de/jeanpierrehotz/falseide/utils/FalseIDESettings.java:111-130 | outside mobile use, the absolute workspace unchanged; in mobile use, the absolute form of the relative one, ending with the separator |
| Settings.FalseIDESettings.SetAbsoluteWorkSpace | FALSEProgrammingLanguage/src/de/jeanpierrehotz/falseide/utils/FalseIDESettings.java:176-184 | stores the path with the separator ensured |
| Settings.FalseIDESettings.SetRelativeWorkSpace | FALSEProgrammingLanguage/src/de/jeanpierrehotz/falseide/utils/FalseIDESettings.java:191-199 | stores the path with the separator ensured |
| Settings.FalseIDESettings.SetMobileUse | FALSEProgrammingLanguage/src/de/jeanpierrehotz/falseide/utils/FalseIDESettings.java:206-208 | sets the mode |
| Settings.FalseIDESettings.SetLoggingLevel | FALSEProgrammingLanguage/src/de/jeanpierrehotz/falseide/utils/FalseIDESettings.java:215-221 | only a level in 1..4 is stored, any other leaves the level as it was, so the level stays in range |
| Settings.LoggingIsMonotone | FALSEProgrammingLanguage/src/de/jeanpierrehotz/falseide/utils/FalseIDESettings.java:229-231 | a level that is logged makes every higher level logged; at level 1 everything from 1 up is logged, at level 4 nothing below 4 |
| RelativePaths.IndexOf | FALSEProgrammingLanguage/src/de/jeanpierrehotz/falseide/ui/settingsui/ChangeSettingsDialog.java:309 | `indexOf` finds the first occurrence, or none when there is none |
| RelativePaths.Tokens | FALSEProgrammingLanguage/src/de/jeanpierrehotz/falseide/ui/settingsui/ChangeSettingsDialog.java:309-325 | no component contains the separator, and there are none exactly for the empty path |
| RelativePaths.TokensJoin | FALSEProgrammingLanguage/src/de/jeanpierrehotz/falseide/ui/settingsui/ChangeSettingsDialog.java:309-325 | splitting loses nothing but a final separator |
| RelativePaths.TokensOfJoin | FALSEProgrammingLanguage/src/de/jeanpierrehotz/falseide/ui/settingsui/ChangeSettingsDialog.java:309-325 | components joined and terminated by the separator split back into themselves |
| RelativePaths.CommonPrefixLength | FALSEProgrammingLanguage/src/de/jeanpierrehotz/falseide/ui/settingsui/ChangeSettingsDialog.java:332-335 | the length of the longest common prefix of the two lists |
| RelativePaths.Ups | FALSEProgrammingLanguage/src/de/jeanpierrehotz/falseide/ui/settingsui/ChangeSettingsDialog.java:337-339 | `k` times `..` and the separator |
| RelativePaths.DestFromWithoutDots | FALSEProgrammingLanguage/src/de/jeanpierrehotz/falseide/ui/settingsui/ChangeSettingsDialog.java:341-347 | without dots in the names, every destination component is followed by the separator |
| RelativePaths.RelativePathIsNull | FALSEProgrammingLanguage/src/de/jeanpierrehotz/falseide/ui/settingsui/ChangeSettingsDialog.java:298-330 | `null` exactly when a path is not absolute or the first components differ; the index error exactly when both are absolute and one is empty |
| RelativePaths.RelativePathShape | FALSEProgrammingLanguage/src/de/jeanpierrehotz/falseide/ui/settingsui/ChangeSettingsDialog.java:332-347 | one `..` per source component after the common ones, then the remaining destination components |
| RelativePaths.RelativePathToDescendant | FALSEProgrammingLanguage/src/de/jeanpierrehotz/falseide/ui/settingsui/ChangeSettingsDialog.java:332-347 | to a folder inside the source, only the extra components, with no `..` |
| RelativePaths.RelativePathToAncestor | FALSEProgrammingLanguage/src/de/jeanpierrehotz/falseide/ui/settingsui/ChangeSettingsDialog.java:332-347 | to an ancestor, one `..` per extra source component |
| RelativePaths.Split | FALSEProgrammingLanguage/src/de/jeanpierrehotz/falseide/ui/settingsui/ChangeSettingsDialog.java:309-316 | the `indexOf`/`substring` loop gives the components |
| RelativePaths.RemoveCommon | FALSEProgrammingLanguage/src/de/jeanpierrehotz/falseide/ui/settingsui/ChangeSettingsDialog.java:332-335 | the loop drops exactly the common leading components from both lists |
| RelativePaths.WriteUps | FALSEProgrammingLanguage/src/de/jeanpierrehotz/falseide/ui/settingsui/ChangeSettingsDialog.java:337-339 | the loop writes the `..` parts |
| RelativePaths.WriteDestination | FALSEProgrammingLanguage/src/de/jeanpierrehotz/falseide/ui/settingsui/ChangeSettingsDialog.java:341-347 | the loop appends each component, with the separator unless it is the last one and contains a dot |
| RelativePaths.CreateRelativePath | FALSEProgrammingLanguage/src/de/jeanpierrehotz/falseide/ui/settingsui/ChangeSettingsDialog.java:297-350 | the method computes the reference function, `null` and the index error included |

## Left out

- Swing UI, dialogs, file trees, worker threads and the console queue of the IDE are not part of this model.
- The run-time semantics of the operations whose classes are not part of this model are a parameter (`Machine.Semantics`); so are their opcode bytes (`ByteCode.Opcodes`). These are variables, `:`, `;`, `!`, arithmetic, comparison, logic, stack operations, pick, print, flush, character literals and lambda values. `Machine.Semantics` cannot touch the abort flag. It may throw an interpreter error or one of the unchecked exceptions `ArrayIndexOutOfBoundsException` and `NoSuchElementException`.
- The lambda node, whose class is not part of this model, is assumed to encode and print like `Function`.
- Variable addresses and character values, whose classes are not part of this model, are assumed to encode in the layout the loader reads. Their texts are a parameter.
- Function invocation and each round of `#` cost one unit of fuel. A run that exhausts its fuel ends in the model's `OutOfFuel`, which the source does not have.
- The messages of `EmptyStackInterpretError` and `WrongDataTypeInterpretError` are not modelled; errors carry only the instruction index. Those classes are not part of this model.
- Values on the stack are integers and functions only.
- The debug printing of the stack and the variables after each child is not modelled. The two options are stored only.
- The listener is represented by the list of its calls.
- The other thread's `abortExecution` is a schedule of when it happens relative to the checks of the flag. Memory visibility is not modelled.
- `Scanner` and `PrintStream` are replaced by a list of input lines and an output log. `println` ends a line with a line feed.
- `Character.isWhitespace` is written out for the code units of one Unicode version.
- `saveByteCode` and the reading of the file in `loadByteCode` are left out (file I/O). The model starts from the bytes read.
- `printReference` is left out (console output).
- The `Preference`-backed constructor is a constructor taking the four values. `saveToPreferenceEditor` is left out.
- `File.getAbsolutePath` and `File.isAbsolute` are parameters.
- The separator of `createRelativePath` is a single character.
- OccurrenceCounting.OccurrenceCounter.Count: does not model the wrap-around of the `int` counter after 2^31 - 1 operations.
- Compiler.CompileIgnoresStripping: also requires that the stripped code passes the check, which the model does not prove in general.
- ByteCodeRoundTrip.LoadEncodedProgram: holds only for plain programs, whose payloads hold no structural byte. `ByteCodeRoundTrip.MarkerInPayloadBreaksFunction` shows why.
