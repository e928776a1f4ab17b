# Matchbox core in Dafny

A model of the core of Matchbox, a race-condition finder for a toy
instruction set. It covers:

- the regex-table **Scanner** and its `matchboxScanner` rule table;
- **Instruction** objects with `init`, `parse`, `execute` and `toString`;
- **parseCode**, which turns program text into instructions;
- **interpret**, which runs them over a register and a memory dictionary;
- the interleaving generator **findAllInterleavings**, found in both
  `src/matchbox.js` and `src/matchbox-worker.js`.

Files and modules:

- `wrappers.dfy` (`Wrappers`): the `Option` type. `null` and `undefined` are `None`.
- `lexer.dfy` (`Lexer`):
  - the five token patterns as hand-written greedy prefix matchers (`MatchLength`);
  - the rule table `MatchboxTable`;
  - the specification of one `scan` (`Lex`, `LexFrom`);
  - a case-by-case reference scan for the Matchbox table (`MatchboxScan`);
  - the token stream of a text (`Tokens`);
  - the `Scanner` class, whose methods rewrite `text`, `token`, `tokenType` and `error` in place.
- `decimal.dfy` (`Decimal`): `parseInt(·, 10)` on digit strings, and the decimal numeral of a natural number.
- `instructions.dfy` (`Instructions`):
  - the five fields as a value `Instr`;
  - `parse` specified over the line's token stream (`ParseTokens`, `ParseLine`);
  - `toString` (`Render`) and its round trip with `parse`;
  - `execute` as a function on the two dictionaries, as written (`StepAsWritten`), and the corrected `Step` for src/matchbox.js:180;
  - the `Instruction` class, whose methods change its fields;
  - the `Cells` class for the two dictionaries, whose `entries` `Instruction.Execute` assigns in place.
- `program.dfy` (`Program`):
  - `str.split("\n")` (`Split`) and the non-empty-line filter;
  - `parseCode` as a loop that pushes fresh instructions;
  - the run specification (`Run`, `Ran`), over `execute` as written;
  - `interpret` as a loop that stops at the first failing `execute`.
- `interleave.dfy` (`Interleave`):
  - the result of `findAllInterleavings` as a function (`Interleavings`);
  - merges described as take-from-a/take-from-b choice lists (`Choices`, `Merge`, `Project`);
  - the recursive method with its two push loops (`FindAllInterleavings`).

`parse` uses the single, shared `matchboxScanner`. The model passes that
scanner object in as a parameter `s`, and `parse` resets and advances it in
place. `parseCode` hands the same scanner to every `parse`. The contracts
require `s.table == MatchboxTable`, or, where they hold for any table,
only that no rule of the table yields the EOF type.

## Model

| member | source | states |
|---|---|---|
| Lexer.MatchLengthGreedy | src/matchbox.js:99-105 | each of the five patterns (and the one-character fallback) matches exactly the longest prefix of its shape, and matches nothing when no prefix has that shape |
| Lexer.SpanAll | src/matchbox.js:19 | the greedy run measured by `Span` consists of characters of its class only; `Span` stops at the first character outside the class |
| Lexer.Lex | src/matchbox.js:45-59 | after a scan, the token is null with type EOF and empty remaining text exactly when only whitespace was left; otherwise the remaining text is strictly shorter than before |
| Lexer.LexShape | src/matchbox.js:45-59 | a token is non-empty; the text past the whitespace is the token followed by the remaining text, which is a suffix of the text before the scan |
| Lexer.LexSkipsBlank | src/matchbox.js:46 | a leading blank does not change what the scan yields |
| Lexer.MatchboxLex | src/matchbox.js:52-57 | with the Matchbox table, a scan agrees with a direct case analysis of the first character: a digit run is immediate; r/R or m/M followed by digits is a register or memory reference; otherwise a letter run is an opcode; ',' is a comma; anything else is one unknown character |
| Lexer.Scanner.constructor | src/matchbox.js:21-32 | `init(table)` then `reset(text)` leaves the table set, the first scan's state current and no error |
| Lexer.Scanner.Reset | src/matchbox.js:26-32 | the text is replaced, the error cleared and the first token of the new text is current |
| Lexer.Scanner.ScanPattern | src/matchbox.js:34-43 | it succeeds exactly when the pattern matches; on success, type, token and remaining text come from the match; on failure nothing changes |
| Lexer.Scanner.Scan | src/matchbox.js:45-59 | the loop over the table leaves exactly the state `Lex` specifies for the old text, and the error is untouched |
| Lexer.Scanner.On | src/matchbox.js:69-71 | true exactly when the current token is the given string |
| Lexer.Scanner.OnType | src/matchbox.js:73-75 | true exactly when the current token is of the given type |
| Lexer.Scanner.Expect | src/matchbox.js:61-67 | on the expected token it scans on; otherwise the state stays and the error reads "expected 'tok' but found 'token'" |
| Lexer.Scanner.CheckType | src/matchbox.js:77-81 | the state is unchanged; the error is set to "expected type but found type (token)" exactly when the type differs |
| Lexer.Scanner.ExpectType | src/matchbox.js:83-86 | the type check's error, followed by one scan in every case |
| Lexer.Scanner.Consume | src/matchbox.js:88-95 | returns true exactly on the given token, and then scans past it; otherwise the state is unchanged |
| Decimal.DecimalString | src/matchbox.js:196-197 | the numeral of a natural number is a non-empty digit string without a leading zero, whose value is that number |
| Decimal.DecimalValueLeadingZero | src/matchbox.js:139 | `parseInt` ignores a leading zero in front of a non-empty digit string |
| Instructions.LeadingZerosIgnored | src/matchbox.js:143 | the token `R007` names register 7 |
| Instructions.MatchboxTokensValid | src/matchbox.js:99-105 | every immediate token the Matchbox scanner yields is all digits; every register token is 'r' or 'R', and every memory token 'm' or 'M', followed by at least one digit |
| Instructions.ParseTokensFields | src/matchbox.js:126-163 | an opcode is set only from a first opcode token, and when it is not set every field is undefined; a source is set (as I, R or M, with the token's number) only from an operand right after the opcode; a destination is set (R or M only) only after a comma token; srcType/src and destType/dest are set together |
| Instructions.TrailingTokensIgnored | src/matchbox.js:126-163 | tokens after the fourth do not affect the fields |
| Instructions.ParseWithTokens | src/matchbox.js:133-161 | the fields read off the first four scanner states equal the fields read off the line's token stream |
| Instructions.Instruction.constructor | src/matchbox.js:115 | a new instruction has every field undefined |
| Instructions.Instruction.Init | src/matchbox.js:116-124 | the five fields are taken from the configuration |
| Instructions.Instruction.Parse | src/matchbox.js:126-163 | the fields end as the token-stream parse of the line, whatever they were before; the object itself is returned; the scanner reports no error |
| Instructions.Instruction.ReadFields | src/matchbox.js:134-161 | the step-by-step reading of opcode, source, comma and destination off the scanner yields the four-state parse |
| Instructions.Instruction.ReadDest | src/matchbox.js:150-160 | a destination is taken only when a comma is consumed and a register or memory token follows it |
| Instructions.TokensOfRender | src/matchbox.js:193-199 | the printed text of a printable instruction lexes into opcode, source operand and, when present, comma and destination operand |
| Instructions.ParseRender | src/matchbox.js:193-199 | round trip: `parse(toString())` gives back all five fields, for every all-letter opcode, source I/R/M with a natural number, and destination absent or R/M with a natural number |
| Instructions.Instruction.ToString | src/matchbox.js:193-199 | the printed text of a printable instruction parses back to the same fields |
| Instructions.StepAsWrittenOutcome | src/matchbox.js:165-191 | `execute` as written succeeds exactly for a MOV with a source whose destination is R or whose source is M; it writes the value read to one cell; a failure changes nothing |
| Instructions.MovImmediateToMemoryRejected | src/matchbox.js:178-185 | as written, `MOV 5, M1` is rejected, while the corrected step stores 5 at M1 |
| Instructions.MovWithoutDestinationAccepted | src/matchbox.js:178-185 | as written, `MOV M0` with no destination succeeds and writes the memory key "undefined", while the corrected step rejects it |
| Instructions.StepMovesToDest | src/matchbox.js:165-191 | MOV succeeds exactly with a source and an R or M destination; it reads the literal or the register/memory cell (unset reads 0) and writes only the destination cell; any other opcode, or a missing source or destination, fails and changes nothing |
| Instructions.AsWrittenAgreesWithStep | src/matchbox.js:180 | the code as written and the corrected step differ exactly on a MOV to a non-register destination where srcType 'M' and destType 'M' disagree |
| Instructions.Instruction.Execute | src/matchbox.js:165-191 | the return value and the dictionaries updated in place are those of `execute` as written (`StepAsWritten`) on the old dictionaries: the memory branch tests the source type and writes the cell the destination names, the "undefined" key when there is none |
| Program.JoinSplit | src/matchbox.js:203 | the pieces of `str.split("\n")`, joined back with newlines, give `str` |
| Program.SplitJoin | src/matchbox.js:203 | splitting newline-free lines joined with newlines gives those lines back |
| Program.NonEmptyKeeps | src/matchbox.js:207 | the lines kept are exactly the non-empty ones, comment lines starting with ';' included |
| Program.ParseCode | src/matchbox.js:202-215 | one fresh, distinct instruction per non-empty line, in line order, each holding that line's parse and well-formed, so the result meets `interpret`'s precondition; no syntax-error branch exists |
| Program.CommentLineAborts | src/matchbox.js:207 | a line starting with ';' is kept, parses to an instruction with no field set, and executing it fails and changes nothing |
| Program.RunAppend | src/matchbox.js:223-228 | running two parts in sequence: the second part runs, from the state the first left, only if the first completed |
| Program.RunStopsAtFailure | src/matchbox.js:223-228 | the run executes every instruction or stops right after the first that fails; the instructions executed decide the outcome, and the failing one changed nothing |
| Program.RunCopiesLiterals | src/matchbox.js:165-191 | MOV only copies: every register and memory cell holds 0 or an immediate operand of the program |
| Program.MemoryStaysZero | src/matchbox.js:178-185 | as written, memory is written only with a value read from memory, so a run from memory holding only zeros leaves only zeros there |
| Program.MovImmediateToMemoryAborts | src/matchbox.js:220-230 | the one-line program `MOV 5, M1` stops after its first instruction with registers and memory still empty |
| Program.Interpret | src/matchbox.js:220-230 | starts from empty registers and memory; the dictionaries, the completion flag and the number of executed instructions are those of the run specification, which executes each instruction as written and stops at the first that fails |
| Interleave.FindAllInterleavings | src/matchbox.js:238-264 | the recursion and its two push loops return exactly `Interleavings(a, b)`; src/matchbox-worker.js:12-38 is the same function, copied into the worker |
| Interleave.InterleavingsOrder | src/matchbox-worker.js:13-33 | an empty `a` gives exactly [b]; otherwise an empty `b` gives exactly [a]; otherwise the first C(\|a\|+\|b\|-1, \|a\|-1) results start with a[0] and the rest with b[0] |
| Interleave.InterleavingsCount | src/matchbox-worker.js:18-37 | there are exactly C(\|a\|+\|b\|, \|a\|) results |
| Interleave.InterleavingsLength | src/matchbox-worker.js:20-33 | every result has length \|a\|+\|b\| |
| Interleave.InterleavingsAreMerges | src/matchbox-worker.js:12-38 | result k is the merge described by the k-th fitting choice list, so the results are exactly the merges of a and b |
| Interleave.MergeProjects | src/matchbox-worker.js:20-33 | a merge preserves order: keeping its elements taken from a gives a, and likewise for b |
| Interleave.ChoicesComplete | src/matchbox-worker.js:12-38 | a choice list is enumerated exactly when it takes \|a\| elements from a and \|b\| from b |
| Interleave.ChoicesDistinct | src/matchbox-worker.js:12-38 | no choice list is enumerated twice |

## Left out

- `alert` (src/matchbox.js:175, 183, 188, 211, 226): a UI side effect. `execute` returns false instead, and `interpret` stops.
- Characters are Unicode scalar values, while JavaScript's `[\s\S]` (no `u` flag) matches one UTF-16 code unit: a character outside the Basic Multilingual Plane is one unknown-character token here and two in the program. `parse` never reads past an unknown-character token, so no field differs.
- The general RegExp engine: only the five fixed patterns, the whitespace pattern and the one-character fallback are modelled, as prefix matchers. The transient "whitespace" type that `scan` sets and always overwrites is not modelled.
- `parseInt` and number printing work on unbounded naturals. JavaScript's double precision, exponent notation for large numbers, and `NaN` are not modelled.
- Number: reads a non-digit character as the digit 0 ("5x" gives 50 where `parseInt` gives 5, and "x" gives 0 where it gives NaN). The Matchbox scanner never yields such a token (`MatchboxTokensValid`), so this case never arises.
- Instructions.Instruction.Init: requires a configuration whose srcType/src and destType/dest are set together. Only such instructions reach `execute`, which would otherwise read `reg[undefined]`.
- Program.ParseCode: allocates an instruction only for the non-empty lines. The source also allocates one for each empty line and then discards it, which has no effect.
- Program.Interpret: returns the completion flag, the number of executed instructions and the dictionaries, which the source discards.
- `findAllInterleavings` works on values. The source copies its inputs before `shift`, so "the inputs are never modified" holds by construction rather than by proof.
- src/matchbox-launcher.js (DOM, script loading, presets), eg/examplePrograms.jsonp.js (static data), and the worker's `addEventListener`/`postMessage` handler (src/matchbox-worker.js:40-44): I/O and message plumbing, not part of this model.
- INC and WAIT: not implemented by the `execute` shown; every non-MOV opcode is rejected.

## Findings

| source | as written | input that shows it | evidently intended | confidence | as-written member | corrected member |
|---|---|---|---|---|---|---|
| src/matchbox.js:180 | the memory branch of `execute` tests `this.srcType === 'M'` | `MOV 5, M1` is rejected; `MOV M0` with no destination succeeds and writes `mem[undefined]` | the branch tests `this.destType === 'M'`, so MOV writes memory exactly for an M destination | high; not executed | Instructions.StepAsWritten (Instructions.MovImmediateToMemoryRejected, Instructions.MovWithoutDestinationAccepted) | Instructions.Step (Instructions.StepMovesToDest) |

`Instruction.Execute`, `Run`, `Interpret` and the lemmas about runs follow
the code as written (`StepAsWritten`, whose outcome `StepAsWrittenOutcome`
states); `MemoryStaysZero` and `MovImmediateToMemoryAborts` show what that
does to whole programs. `Step` is the corrected definition, with its
behaviour proved in `StepMovesToDest`, and `AsWrittenAgreesWithStep` states
exactly which instructions the two treat differently.
