# RISC code generator and diagnostics, modelled in Dafny

This project models the back end of a small compiler. The back end turns an
abstract syntax tree into lines of assembly for a RISC-V-like machine. It has
three parts:

- **The checked generator** (`compiler/risc_generator.c`) walks the tree. It threads one
  generator state through the walk. That state holds:
  - the variable table (name, type, global flag, block depth);
  - the name-to-address table and the address cursor `memory_pos`, which starts at 1000;
  - the label counter;
  - the current scope flag and block depth;
  - the emitted lines.

  It checks declarations and visibility. It lowers expressions with a register-pair
  convention, compile-time and run-time division guards, comparison encodings, `and`/`or`
  folding, and string literals and concatenation. It lowers `if`, `while`, the counted
  `round` loop, `print`, assignment and blocks. The driver drops all output when the
  diagnostics state is critical.
- **The diagnostics state** (`error_handler.c`) holds:
  - the error counter;
  - the sticky `critical_error` flag;
  - a bounded symbol table of its own;
  - the compatibility checks the generator consults.
- **The legacy generator** (`risc_generator.c`) is an older generator with no checking. It
  allocates addresses in steps of 4, always uses x1/x2 for operands, and has an
  inclusive counted loop. It is a module of its own.

Everything is modelled as pure functions over immutable records:

- Each operation takes a state and a node and returns the next state. The emitted lines
  are appended to the state's `out`.
- Instructions are a datatype (`Isa.Instr`). Comment lines are the single constructor
  `Comment`, and `Isa.Render` joins lines into the final text.
- The diagnostics state is a record that the generator state carries. It keeps the kinds
  of the errors reported, in order, in place of the stderr text.
- Literal text is handled as C handles it: as the UTF-8 bytes of the source, with `strlen` counting bytes (`CText`).
- `Machine` gives the straight-line register instructions a meaning. It is used to state
  what the lowered operator code computes.

Module layout:

- `wrappers.dfy`, `ast.dfy`, `isa.dfy`: the option type, the tree, and the instructions and their text.
- `ctext.dfy`: text as C sees it: UTF-8 bytes, signed `char` values and `strlen`.
- `diagnostics.dfy`: `error_handler.c`.
- `gen_state.dfy`, `lower.dfy`, `statements.dfy`: the checked generator's state, expression lowering, and statement lowering plus the driver.
- `machine.dfy`, `encoding.dfy`: straight-line semantics and what lowered expressions compute.
- `checked_props.dfy`: properties of the checked generator that span several calls.
- `checked_labels.dfy`: the uniqueness of the checked generator's labels.
- `legacy.dfy`, `legacy_props.dfy`, `legacy_labels.dfy`: the legacy generator, its properties, and the uniqueness of its labels.

Where the intended design and the code differ, the model follows the code:

- String literals and concatenation results take their addresses from the same cursor as
  variables. `temp_string_pos` is never read.
- An uninitialised declaration emits its zero-store even when the state is critical.
- A concatenation lowers its operands twice.
- In the checked generator, a right operand nested two levels deep under a target of x1
  clobbers x1. The middle operation keeps its left operand in x1, and the innermost
  operation loads its own left operand into x1 over it. As a result, `1 - (2 - (3 - 4))`
  leaves -3 and not -2 (`Encoding.RightNestingClobbers`). One level of nesting,
  as in `1 - (2 - 3)`, is lowered correctly.
  The legacy generator has the same problem: `1 - (2 - 3)` leaves 3, not 2
  (`LegacyProps.RightOperandClobbers`).

These are modelled as written and stated as lemmas.

## Model

| member | source | states |
|---|---|---|
| CText.SignedChar | compiler/risc_generator.c:1240-1245 | the value `%d` prints for a stored byte: the one value in [-128, 128) congruent to the byte modulo 256, negative exactly for bytes of 128 and above |
| CText.EncodeChar | compiler/risc_generator.c:1240-1245 | a character takes one to four bytes, one exactly when it is ASCII; the lead byte announces the width, the rest are continuation bytes, and the bytes decode back to the character |
| CText.DecodeUtf8 | compiler/risc_generator.c:1240-1245 | the bytes a literal is handled as lose nothing: decoding them gives back every character |
| CText.AsciiBytes | compiler/risc_generator.c:1240-1252 | a text's byte count equals its character count exactly when it is ASCII, and then its bytes are the character codes |
| CText.ControlBytesAreCharacters | compiler/risc_generator.c:1240 | the byte 0 and the quote byte occur in the bytes exactly when NUL and `"` occur in the text, so a loop over bytes stops at the same character as one over characters |
| CText.CStr | compiler/risc_generator.c:1252 | what `strlen` measures: the longest prefix of the bytes with no NUL, which ends at the first NUL |
| CText.QuotedEAcute | compiler/risc_generator.c:1240-1252 | the literal `"é"` is the four bytes 34 195 169 34 |
| Diagnostics.Report | error_handler.c:57-108 | a report adds exactly one to the counter and logs its kind; the flag goes up for the five hard kinds and never comes down; the symbol table is untouched |
| Diagnostics.ReportIsCritical | error_handler.c:98-107 | after any report the state is critical; the flag itself is set exactly for undefined variable, type mismatch, division by zero, scope and redeclaration |
| Diagnostics.SoftKindsKeepFlag | error_handler.c:98-104 | an invalid-string-operation or unknown report leaves the flag down, yet the state is critical through the counter |
| Diagnostics.IsCritical | error_handler.c:291-293 | the state is critical exactly when the flag is up or any error has been counted since the last clear |
| Diagnostics.SetCritical | error_handler.c:296-298 | the flag is raised and nothing else changes |
| Diagnostics.Clear | error_handler.c:118-120 | only the counter is reset; the state stays critical exactly when the flag was up |
| Diagnostics.Init | error_handler.c:34-42 | the first call empties counter and table, later calls change nothing, the flag is never touched |
| Diagnostics.CriticalIsSticky | error_handler.c:34-120 | from a state with the flag up, every sequence of diagnostics calls ends with the flag up and the state critical |
| Diagnostics.TableStaysOk | error_handler.c:133-191 | every sequence of calls keeps the symbol table within 1000 entries and free of duplicate names |
| Diagnostics.FindSymbol | error_handler.c:157-164 | the first entry with the name, or none exactly when no entry has it |
| Diagnostics.AddSymbol | error_handler.c:133-155 | a full table returns -1 unchanged; an existing name only has its defined mark updated and its index returned; a new name is appended at the end |
| Diagnostics.DeclareVariable | error_handler.c:172-191 | the table stays duplicate-free and bounded, the result is -1 or a valid index, the flag is never lowered |
| Diagnostics.DeclareOutcomes | error_handler.c:172-191 | same name and flag: redeclaration report and -1; same name, other flag: the existing index with its type and flag unchanged; full table: unknown report and -1; new name: appended |
| Diagnostics.CheckDivisionByZero | error_handler.c:194-200 | returns 1 and reports division by zero exactly when the divisor is 0 |
| Diagnostics.CheckVariableDefined | error_handler.c:203-211 | returns 1 exactly when the name is in the table, otherwise reports an undefined variable |
| Diagnostics.CheckStringOperation | error_handler.c:254-264 | accepts exactly "." and "="; anything else reports an invalid string operation without raising the flag |
| Diagnostics.CheckTypeCompatibility | error_handler.c:214-251 | different types always fail with a type mismatch (the "." branch never succeeds); equal string types defer to the string check; "%" on equal types succeeds only for int; other equal types succeed silently |
| Diagnostics.CheckVariableScope | error_handler.c:267-288 | an unknown name gives 0 silently; a global entry seen from local scope or matching flags give 1; otherwise a scope report and 0 |
| GenState.Init | compiler/risc_generator.c:85-119 | cursor at 1000, global scope, depth 0, empty tables, output and counter, diagnostics initialised |
| GenState.CriticalPersists | error_handler.c:291-293 | once critical, every later state of the same walk is critical |
| GenState.FindVar | compiler/risc_generator.c:187-195 | the first variable record with the name, or none exactly when there is no such record |
| GenState.TypeOfVar | compiler/risc_generator.c:583-591 | the type of the first record with the name, present exactly when the name is declared |
| GenState.RegisterVariable | compiler/risc_generator.c:278-296 | appends one record: globals at depth 0, locals at the current depth; nothing else changes |
| GenState.FindAddr | compiler/risc_generator.c:224-228 | the first address record with the name, keyed by name only |
| GenState.RegisterVariableAddress | compiler/risc_generator.c:235-254 | returns the cursor, records it under the name and advances the cursor by exactly 1 |
| GenState.GetVariableAddress | compiler/risc_generator.c:175-232 | -1 exactly when the name is invisible (undeclared, local seen from global scope, or deeper than the current block), with the matching report; otherwise the recorded address with nothing moved, or a fresh address at the cursor; the result lies in [1000, cursor) |
| GenState.NewLabel | compiler/risc_generator.c:270-275 | the label carries the counter's value and the counter advances by one |
| GenState.Payload | compiler/risc_generator.c:1231-1240 | the stored bytes are the ones after an opening quote, if any, up to but not including the first quote or NUL |
| GenState.AddStringLiteral | compiler/risc_generator.c:1225-1254 | the string lives at the cursor, which moves by its `strlen` in bytes plus 10; the emitted lines store its bytes after the opening quote, each as the signed value of a `char`, up to the first quote or NUL, and then a terminating zero |
| GenState.IsStringVariable | compiler/risc_generator.c:1257-1264 | a name is a string variable exactly when the first record with that name has type "string"; an undeclared name is not |
| GenState.ConcatenateStrings | compiler/risc_generator.c:1144-1207 | the result lives at the cursor, which moves by exactly 100; four labels are used; the copy loop is emitted |
| Lower.ScratchPair | compiler/risc_generator.c:634-644 | target x1 takes its operands in x3/x4, every other target in x1/x2; the left register never equals the target |
| Lower.OperandType | compiler/risc_generator.c:577-604 | a literal's type, a name's first declared type, nothing for other operands |
| Lower.TypeCheck | compiler/risc_generator.c:606-611 | the compatibility check runs exactly when both operand types are known |
| Lower.Eval | compiler/risc_generator.c:557-882 | lowering an expression only extends the state: output, tables and counters grow, the critical flag stays up, and variables, scope and depth are untouched |
| Lower.LoadVariable | compiler/risc_generator.c:855-875 | loading a name only extends the state and leaves variables and scope alone |
| Lower.EvalConcat | compiler/risc_generator.c:564-575 | lowering a concatenation only extends the state |
| Lower.ProcessConcat | compiler/risc_generator.c:1209-1222 | process_concat only extends the state |
| Lower.LowerOperands | compiler/risc_generator.c:646-648 | lowering both operands only extends the state |
| Lower.LowerBinary | compiler/risc_generator.c:576-630 | lowering a non-concatenation operator only extends the state |
| Lower.LowerOperator | compiler/risc_generator.c:650-840 | emitting an operator's lines only extends the state |
| Statements.ScopedBody | compiler/risc_generator.c:1097-1112 | a nested body leaves scope flag and block depth as they were before it |
| Statements.ProcessNode | compiler/risc_generator.c:429-511 | a statement only extends the state; if, while and round, and every statement without a nested program, restore scope flag and depth |
| Statements.ProcessNodes | compiler/risc_generator.c:442-444 | a statement list only extends the state and restores scope and depth when no program is nested |
| Statements.InitializerCheck | compiler/risc_generator.c:369-404 | only the diagnostics change; an initialiser that is neither literal nor name passes unchecked; a pass changes nothing |
| Statements.ProcessVariableDeclaration | compiler/risc_generator.c:333-426 | a global in local scope reports a scope violation and changes nothing else; a name already declared with the same flag reports a redeclaration and changes nothing else; otherwise the record and a fresh address at the cursor are added, even when only the other flag was taken |
| Statements.ProcessAssignment | compiler/risc_generator.c:1368-1396 | an assignment extends the state and declares nothing |
| Statements.ProcessIf | compiler/risc_generator.c:916-986 | after the if statement, scope flag and depth equal their values before it |
| Statements.ProcessWhile | compiler/risc_generator.c:989-1040 | after the while loop, scope flag and depth equal their values before it |
| Statements.RoundHeader | compiler/risc_generator.c:1064-1095 | the counted loop's set-up keeps scope and depth |
| Statements.ProcessRound | compiler/risc_generator.c:1043-1142 | after the counted loop, scope flag and depth equal their values before it, and the output ends with the increment of the counter and the `i < end` test, on the loop's own labels (round_c, body_c+2, endround_c+1) |
| Statements.PrintValue | compiler/risc_generator.c:1291-1360 | printing a value extends the state and keeps scope and depth |
| Statements.ProcessPrint | compiler/risc_generator.c:1267-1365 | a print extends the state and keeps scope and depth |
| Statements.GenerateRiscCode | compiler/risc_generator.c:1399-1448 | no code exactly when the final diagnostics state is critical, and none at all when it is critical before the walk; otherwise the walk's lines followed by a comment and `ebreak`, with a counter of 0 and no new report |
| Statements.GenerateText | compiler/risc_generator.c:1427-1447 | text is produced exactly when the generator produced lines |
| Isa.RenderEndsWithEbreak | compiler/risc_generator.c:1423-1442 | lines whose last one is the `ebreak` instruction render to text whose last line is that instruction |
| Encoding.ArithLines | compiler/risc_generator.c:650-757 | the lines for + - * < > leave the operator's value on the operands in the target |
| Encoding.CompareLines | compiler/risc_generator.c:758-786 | the lines for = == != <= >= leave 1 in the target exactly when the comparison holds, else 0 |
| Encoding.AtMostLines | compiler/risc_generator.c:770-780 | `slt x5, r, l` then `xori t, x5, 1` leaves 1 exactly when l <= r |
| Encoding.TruthLines | compiler/risc_generator.c:804-834 | the sne/sne/and and sne/sne/or triples leave the truth value of the operands taken as booleans |
| Encoding.LogicLines | compiler/risc_generator.c:787-835 | `and`/`or`, folded or not, leave the logical value of the operands |
| Encoding.OpLinesCompute | compiler/risc_generator.c:650-839 | every operator other than / % and . computes its source-language value into the target |
| Encoding.EvalIntTree | compiler/risc_generator.c:632-842 | an integer tree lowered outside a critical state emits exactly left code, right code and the operator's lines, and reserves no address or label |
| Encoding.LeftChainComputes | compiler/risc_generator.c:632-648 | code for a tree whose right operands are literals leaves the tree's value in the target |
| Encoding.LeftChainLowering | compiler/risc_generator.c:632-648 | the generator's own output for such a tree computes its value |
| Encoding.FoldingKeepsOperandCode | compiler/risc_generator.c:646-826 | `a and 0` and `a or b` with b nonzero still load both operands before the folded `li` |
| Encoding.RightNestingClobbers | compiler/risc_generator.c:636-648 | 1 - (2 - (3 - 4)) has value -2, but its lowering into x1 leaves -3: the middle operation's left operand 2 sits in x1, and the innermost operation's left operand 3 is loaded into x1 over it |
| CheckedProps.OpLinesGuarded | compiler/risc_generator.c:668-749 | in every operator's lines, each div or rem is preceded by a branch taken when its divisor is zero |
| CheckedProps.EvalGuarded | compiler/risc_generator.c:557-882 | everything expression lowering emits has every div/rem guarded by a zero test of its divisor |
| CheckedProps.CopyLoopGuarded | compiler/risc_generator.c:1144-1207 | the concatenation copy loop holds no division |
| CheckedProps.DivisionByLiteralZero | compiler/risc_generator.c:616-630 | / or % by a literal 0 emits only `li t, 0`, reports division by zero, makes the state critical and reserves nothing |
| CheckedProps.DivisionIsGuarded | compiler/risc_generator.c:668-749 | any other / or %, when not critical, emits `beq divisor, x0` before the div/rem; both labels carry the same number and the counter rises by exactly one |
| CheckedProps.NonAsciiLiteral | compiler/risc_generator.c:1225-1254 | storing `"é"` emits `li x1, -61` and `li x1, -87` for its two-byte letter and moves the cursor by 4 + 10 = 14 |
| CheckedProps.ConcatLowersOperandsTwice | compiler/risc_generator.c:564-575 | a concatenation of two literals reserves each literal twice before the 100-cell result, whose address the target receives |
| CheckedProps.GuardedDivLines | compiler/risc_generator.c:668-749 | the / and % blocks test the divisor against zero first, contain the div/rem after that test, and end on the shared after-label |
| CheckedProps.RoundTestExclusive | compiler/risc_generator.c:1123-1131 | the loop test branches back to the body label exactly when x20 < x21 at the test: `slt x5, x20, x21` leaves x5 nonzero iff x20 < x21, on any register state, and the next line is `bne x5, x0, body` |
| CheckedProps.UnresolvedIdentifier | compiler/risc_generator.c:855-875 | an invisible name emits `li t, 0`, adds one report, makes the state critical and reserves nothing |
| CheckedProps.ResolvedIdentifier | compiler/risc_generator.c:858-866 | a visible name loads from its address through x2 and x31 without any report |
| CheckedProps.AddressIsStable | compiler/risc_generator.c:224-228 | asking again for a visible name returns the same address and changes nothing |
| CheckedProps.ResolvedIsRecorded | compiler/risc_generator.c:224-231 | the address returned for a visible name is recorded under that name |
| CheckedProps.DistinctNamesDistinctAddresses | compiler/risc_generator.c:235-254 | two different visible names resolve to different addresses |
| CheckedProps.LocalShadowSharesAddress | compiler/risc_generator.c:187-228 | a local declared over a global gets a fresh address recorded, yet lookups of the name keep returning the global's address |
| CheckedProps.DeclarationGating | compiler/risc_generator.c:406-425 | in a critical state an initialised declaration emits nothing but still reserves its address, while one without initialiser still emits its zero-store |
| CheckedProps.NestedProgramBreaksDepth | compiler/risc_generator.c:438-493 | a program nested in a block resets the depth to 0, so the block leaves it at -1 |
| CheckedProps.PrintStringLiteral | compiler/risc_generator.c:1291-1320 | printing a string literal stores it at the cursor, points x1 at it, runs the byte loop and a newline, and uses four labels |
| CheckedProps.PrintIntLiteral | compiler/risc_generator.c:1321-1360 | printing an integer emits the decimal conversion, with its division by the constant 10, and uses two labels |
| CheckedProps.TextEndsWithEbreak | compiler/risc_generator.c:1423-1442 | whenever text is generated, its last line is the `ebreak` instruction (the remark after it is not modelled) |
| CheckedLabels.OpLinesMarks | compiler/risc_generator.c:668-749 | the / and % blocks each place two labels with different prefixes, both numbered with the counter's current value; no other operator places a label |
| CheckedLabels.CopyLoopMarks | compiler/risc_generator.c:1144-1207 | the concatenation routine places each of its four labels once, numbered from n to n + 3 |
| CheckedLabels.StringLiteralMarks | compiler/risc_generator.c:1225-1254 | storing a string literal and loading its address places no label and takes no number |
| CheckedLabels.LoadMarks | compiler/risc_generator.c:855-875 | loading a name places no label and takes no number |
| CheckedLabels.EvalMarks | compiler/risc_generator.c:557-882 | every label an expression's code places is numbered from the counter values taken while lowering it, and no label is placed twice |
| CheckedLabels.ConcatMarks | compiler/risc_generator.c:564-575 | the same for a concatenation node |
| CheckedLabels.ProcessConcatMarks | compiler/risc_generator.c:1209-1222 | the same for process_concat, whose copy routine takes four numbers |
| CheckedLabels.BinaryMarks | compiler/risc_generator.c:576-630 | the same for any other operator, including the compile-time division report |
| CheckedLabels.OperatorMarks | compiler/risc_generator.c:650-840 | an operator's own lines place labels only under the one number / or % takes |
| CheckedLabels.DeclarationMarks | compiler/risc_generator.c:333-426 | a declaration places only labels its initializer's code takes numbers for |
| CheckedLabels.AssignmentMarks | compiler/risc_generator.c:1368-1396 | the same for an assignment |
| CheckedLabels.IfMarks | compiler/risc_generator.c:916-986 | an if statement takes its else and endif numbers first, places each of those labels once, and the nested code uses only later numbers |
| CheckedLabels.WhileMarks | compiler/risc_generator.c:989-1040 | the same for a while loop and its while and endwhile labels |
| CheckedLabels.HeaderMarks | compiler/risc_generator.c:1064-1095 | the counted loop's set-up places only its body label, besides what its three expressions take |
| CheckedLabels.RoundMarks | compiler/risc_generator.c:1043-1142 | a counted loop takes its round, endround and body numbers first and places each of those labels once |
| CheckedLabels.PrintValueMarks | compiler/risc_generator.c:1291-1360 | a print takes two numbers for the decimal loop and places both, or four for a string and places only the last two |
| CheckedLabels.PrintMarks | compiler/risc_generator.c:1267-1365 | the same for a whole print statement, including the unresolved-name case |
| CheckedLabels.NodeMarks | compiler/risc_generator.c:429-511 | every label a statement places is numbered from the counter values taken while lowering it, and no label is placed twice |
| CheckedLabels.NodesMarks | compiler/risc_generator.c:442-444 | the same for a statement list |
| CheckedLabels.GeneratedMarks | compiler/risc_generator.c:1399-1448 | the generated program places no label (prefix and number) twice, and each label's number is below the counter's final value |
| Legacy.Init | risc_generator.c:40-62 | cursor at 1000, counter 0, everything empty |
| Legacy.GetVariableAddress | risc_generator.c:118-148 | a recorded name returns its address with nothing changed; a new name is recorded at the cursor, which moves by 4; the result is always recorded under the name and is 1000 plus a multiple of 4 |
| Legacy.RegisterVariable | risc_generator.c:174-194 | appends the variable and allocates its address, with no scope or redeclaration check |
| Legacy.NewLabel | risc_generator.c:164-171 | the label carries the counter's value and the counter advances by one |
| Legacy.AddStringLiteral | risc_generator.c:438-463 | returns the data index before the call and records `__str_k: data b0 b1 ... 0` there, one unsigned field per byte of the literal's `strlen` |
| Legacy.Eval | risc_generator.c:332-387 | lowering an expression takes no label, declares nothing, records no string and keeps the address layout |
| Legacy.BinaryOperation | risc_generator.c:390-436 | a binary operation takes no label, declares nothing and records no string |
| Legacy.ProcessNode | risc_generator.c:222-329 | a statement only grows the state and keeps the 4-step address layout |
| Legacy.VariableDeclaration | risc_generator.c:237-267 | a declaration only grows the state |
| Legacy.Assignment | risc_generator.c:269-288 | an assignment only grows the state |
| Legacy.IfStatement | risc_generator.c:466-508 | an if statement only grows the state |
| Legacy.WhileLoop | risc_generator.c:511-548 | a while loop only grows the state |
| Legacy.RoundHeader | risc_generator.c:557-602 | the counted loop's set-up takes no label of its own |
| Legacy.RoundLoop | risc_generator.c:551-636 | a counted loop only grows the state |
| Legacy.PrintString | risc_generator.c:644-667 | printing a string literal only grows the state |
| Legacy.PrintValue | risc_generator.c:668-726 | printing a value only grows the state |
| Legacy.ProcessPrint | risc_generator.c:639-726 | a print only grows the state |
| Legacy.GenerateRiscCode | risc_generator.c:729-765 | with no error gating, the output is the walk's lines followed by a comment and `ebreak` |
| LegacyProps.AddressRepeat | risc_generator.c:122-126 | asking again for a name returns the same address and changes nothing |
| LegacyProps.DistinctNamesDistinctAddresses | risc_generator.c:118-148 | two different names get different addresses |
| LegacyProps.FreshAddressesStepByFour | risc_generator.c:139-147 | from the initial state, the first two names get 1000 and 1004 |
| LegacyProps.RedeclarationAccepted | risc_generator.c:237-267 | declaring the same name twice is accepted: both records are kept and both zero-stores use the same address |
| LegacyProps.DeclareWithoutValue | risc_generator.c:237-266 | a declaration without initialiser emits a comment, `li x1, 0` and a store to the name's address |
| LegacyProps.ComparisonLines | risc_generator.c:415-424 | `<` and `>` leave the comparison's value in the target |
| LegacyProps.EqualityLines | risc_generator.c:425-431 | `sub x3, x1, x2; seq t, x3, x0` leaves 1 exactly when the operands are equal |
| LegacyProps.OpLinesCompute | risc_generator.c:403-431 | every operator but / computes its source-language value from x1 and x2 |
| LegacyProps.UnknownOperatorWritesNothing | risc_generator.c:432-435 | an unknown operator emits only a comment after its operands and writes no register |
| LegacyProps.StringLiteralWritesNothing | risc_generator.c:351-356 | a string literal in an expression emits a comment and `li x0, 0`, which writes no register |
| LegacyProps.LiteralZeroDivisorUnguarded | risc_generator.c:412-414 | division by a literal 0 is emitted as a plain `div` with no check |
| LegacyProps.LeftChainComputes | risc_generator.c:397-431 | code for a tree whose right operands are literals leaves the tree's value in the target |
| LegacyProps.RightOperandClobbers | risc_generator.c:397-400 | 1 - (2 - 3) has value 2, but its lowering leaves 3, because the right operand's code overwrites x1 |
| LegacyProps.LoopTestInclusive | risc_generator.c:596-602 | the exit branch is taken exactly when end < current, so the body runs for the end value too |
| LegacyProps.DefaultStepIsOne | risc_generator.c:578-583 | without a step expression, x4 is set to 1 |
| LegacyProps.NonAsciiDataLine | risc_generator.c:448-459 | the data line for `"é"` holds the four fields 34 195 169 34 before the closing 0 |
| LegacyProps.FieldsSnoc | risc_generator.c:454-458 | each further byte adds its unsigned decimal value and a space |
| LegacyProps.PrintStringUsesItsData | risc_generator.c:644-667 | printing a literal records its data line and loads its `__str_k` label into x1, using two labels |
| LegacyProps.TextEndsWithEbreak | risc_generator.c:737-759 | the legacy text's last line is always the `ebreak` instruction (the remark after it is not modelled) |
| LegacyLabels.NodeMarks | risc_generator.c:222-329 | every label placed by a statement is numbered from the counter values it consumed, and no number is placed twice |
| LegacyLabels.IfMarks | risc_generator.c:466-508 | the same for an if statement |
| LegacyLabels.WhileMarks | risc_generator.c:511-548 | the same for a while loop |
| LegacyLabels.RoundMarks | risc_generator.c:551-636 | the same for a counted loop |
| LegacyLabels.PrintMarks | risc_generator.c:639-726 | the same for a print |
| LegacyLabels.GeneratedMarks | risc_generator.c:729-759 | no label is placed twice in the generated program |
| LegacyLabels.StringPrintLabelDangles | risc_generator.c:644-647 | printing a string literal loads `__str_0`, which is never placed, because the data section is never written out |

## Left out

- Files, command-line handling and exit codes (`main.c`) are not part of this model.
- The message text of diagnostics, source positions and the stderr warnings are left out. A report keeps only its kind.
- Output buffers are modelled as sequences. Allocation failure is not modelled, including the line that `add_output` drops on a failed `realloc`.
- NULL children are left out where the tree makes them optional; otherwise the tree has no NULL nodes.
- Float literals are dropped: the checked generator emits nothing for them and the legacy one truncates them.
- Dead code is left out: `process_binary_operation`, `check_division_by_zero`, the static `declare_variable`, `get_new_temp`, `is_variable_constant` and `set_risc_generator_filename` in the checked generator; `get_new_temp` and `is_variable_constant` in the legacy one.
- Unused state is left out: `temp_string_pos`, the checked generator's data section, `errors[]`, `error_free`, `set_current_scope`, `error_has_errors`, `error_count` and `error_print_all`.
- Comment lines are one opaque `Comment` instruction, so their wording and the remarks after instructions are left out.
- Integers are unbounded. The 32-bit wrap-around of C `int` and of `memory_pos` is not modelled.
- Machine: only the straight-line register instructions have a meaning. It stops on `div`, `rem`, memory, branches and output, so no lemma runs a loop or a division.
- Legacy.AddStringLiteral: `data_size` is taken to start at 0, which `init_generator` never sets.
- GenState.AddStringLiteral, Legacy.AddStringLiteral: literal text is taken to be the UTF-8 bytes of the source file, and plain `char` is taken to be signed, as on x86-64 hosts. On a host with unsigned `char`, the checked generator would store 195 where the model stores -61.
- CheckedProps.RoundTestExclusive: it states the register-level test only. Whether the body runs again depends on what x20 and x21 hold when the test runs, and a nested counted loop overwrites them (next line).
- Statements.ProcessRound: the counter, end and step live in the fixed registers x20, x21 and x22, and a counted loop nested in the body sets all three again. The outer test then compares the inner loop's values, so no lemma claims that a counted loop runs its body exactly while its own counter is below its own end.
- Legacy.RoundLoop: the body may overwrite x3 and x4, which hold the end and the step; the model emits the same lines and proves nothing about the loop's run.
- Legacy.PrintValue: the `print_end` label is taken from the counter but never placed; the model consumes the counter the same way.
- Lower.Eval, Lower.LowerBinary, Lower.LowerOperator, Lower.EvalConcat, Lower.ProcessConcat, Lower.LowerOperands, Lower.LoadVariable: their own contracts only say the state grows. The emitted code is stated in Encoding and CheckedProps.
- Statements.ProcessNode, Statements.ProcessIf, Statements.ProcessWhile, Statements.ProcessAssignment, Statements.PrintValue, Statements.ProcessPrint: their own contracts state growth and scope restoration only (Statements.ProcessRound additionally states its closing lines). The emitted lines are stated by the print lemmas in CheckedProps.
- Legacy.ProcessNode, Legacy.IfStatement, Legacy.WhileLoop, Legacy.RoundLoop, Legacy.PrintString, Legacy.PrintValue, Legacy.ProcessPrint, Legacy.VariableDeclaration, Legacy.Assignment: their own contracts only state growth. Labels are covered in LegacyLabels, and declarations and operators in LegacyProps.
