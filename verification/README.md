# Verified model of quawk

quawk compiles AWK programs to LLVM IR and runs them against a C runtime. This project models the four parts of it that
carry hard properties, and proves those properties: the lowering of structured control flow to labelled branch code, the
classification that moves numeric variables into stack cells, the runtime's record, string and array engine, and the front
end. Check everything with `dafny verify dfyconfig.toml`.

## The compiler

`Syntax.dfy` is the numeric fragment of the tree: expressions and statements over numeric variables, record items, phases.
`Meaning.dfy` gives it a structured meaning; loops may run for ever, so statements run with fuel, and `Readings.dfy` shows that
fuel never changes a result. A double is a bit pattern and its operations are total functions, of which only "one is true and
zero is false" is assumed.

`Lowering.dfy` is the lowering as the backend performs it: a class whose methods append instructions, take names from counters,
and overwrite and restore the labels `break` and `continue` go to. Every method is proved to emit the code that
`LoweringSpec.dfy` names. `Machine.dfy` is a program-counter machine for that code; it is stuck on a missing label, an undefined
temporary, a block entered without a branch, or a `phi` that does not name the block control came from.

The simulation (`ExprSimulation.dfy`, `StmtSimulation.dfy`, `PhaseSimulation.dfy`) ends in `PhaseCorrectness.PhaseMeans`: a
generated function returns if and only if the phase ends, and then with the variables, output and exit status the phase means,
whatever its stack cells held when they were allocated; and `PhaseCorrectness.NeverStuck`. `WellFormed.dfy` and
`WellFormedStmt.dfy` carry the invariant of the emitter: every label placed once, every temporary defined once, every branch
target there. `Joining.dfy` shows exactly when the `phi` of a ternary works, whether the ternary is lowered for its number, its
truth or its text. `PhaseCorrectness.FunctionPrints` and `PhaseCorrectness.PhasePrints` relate what is printed by phases that
never end. `Printed.dfy` says what small programs print, in the operations of the machine: each operator, each number the runtime
keeps, increments, assignments and the two truth values, for the meaning and for the generated function.

`Residency.dfy` is the definite-assignment analysis with its loops, and the classification. `ResidencySound.dfy` proves that a
name it calls local is written before it is read in every run, one that never ends included; `ResidencyPaths.dfy` that it finds every
such name, against the orders in which a run may read and write variables; `Storage.dfy` that a whole program, over any records, cannot
tell where its variables are kept. `ResidencyGaps.dfy` has a program for each kind the analysis is wrong
about, and what it prints over two records. `Deviations.dfy` and `Ranges.dfy` are about what the emitted code does otherwise than
its reader may expect: compound assignments, comparisons, and when a range opens.

`CompiledProgram.CompiledIsSource` puts it together: the generated functions, called by the generated driver with local
variables in stack cells, end exactly when the program as written does, with the same output, exit status and state-backed
variables. `CompiledOutput.CompiledPrintsSource` says that they print the same when they do not end, and
`CompiledProgram.AcceptedIsSupported` that the semantic check leaves nothing for the lowering to refuse. What they ask of a program
`ProgramShape.dfy` says of its parts, expression by expression and statement by statement, and exactly
(`ProgramShape.FineIsSupported`). `FileInput.dfy` gives them the records of files: the k-th record call of any compiled program sees
k as NR.

## The runtime

`RecordEngine.dfy` keeps the current record in one buffer and its fields in another that splitting cuts up in place, with a
growing table of pointers; every operation is proved against the texts of `RecordState.dfy`. `FieldText.dfy` says what splitting
means, `FieldSplitting.dfy` which fields a record has, with the blank characters written out, and that there are no others, and
`CStrings.dfy` what a text inside a buffer is. `Substitution.dfy` is the loop of `sub` and `gsub` for any matcher,
`LiteralSubstitution.dfy` what that is for a plain text and for nothing at all,
`Arrays.dfy` the list behind an associative array, `KeyLoop.dfy` the loop over its keys with any body, `ScalarTable.dfy` the cache
of numbers as text, `InputReader.dfy` the reader over many files, `RandomSequence.dfy` the random number generator. `Texts.dfy`
holds what field splitting and scanning share.

## The front end

`SourceCursor.dfy` makes several files look like one text. `Lexing.dfy` says which tokens a text has and `Lexer.dfy` is the
scanner over the cursor. `LexicalGrammar.dfy` has the words, operators, numbers and literals written out, and the tokens after which a
slash opens a regular expression; the scanner finds just these. `ExpressionGrammar.dfy` has the thirteen levels of the expression grammar and a printer,
`ExpressionParser.dfy` the recursive-descent parser with its loops, `ExpressionRoundTrip.dfy` the proof that parsing undoes
printing. `ExpressionPrecedence.dfy` has its own table of what binds tighter than what, which the parser follows. `ExpressionText.dfy`
joins scanner and parser: a tree written out as text is read back as that tree; `OperatorText.dfy` says which text stands for which
operator.

## Where the code surprises

- A comparison that is not known to be numeric lowers each operand as text and again as a number, so `(x = x - 1) > 0` takes two
  from `x` (`Deviations.ComparedTwice`). Where one operand has no side effects, the variables come out the same if and only if a
  second evaluation of the other leaves them as the first did (`Deviations.ComparedExactlyLeft`, `Deviations.ComparedExactlyRight`),
  so `(x = 1) > 0` is harmless. The correctness theorem is stated for the meaning that evaluates such operands twice, and for the
  plain meaning where the operands have no side effects.
- The `phi` of a ternary names the labels its branches start with, so a branch that opens a block of its own, such as
  `c ? (a && (x = 1)) : 0`, has a `phi` that does not name its predecessor (`Joining.JoinsExactly` gives the exact condition).
  As text every ternary is joined and opens blocks, so in `(a ? (b ? 1 : 2) : 3) > 0`, which has no side effect, the outer `phi`
  is wrong whenever `a` holds (`Joining.NestedTernaryAsText`).
- `x += v` loads `x` after `v` as a statement and before `v` as an expression (`Deviations.CompoundAgrees`,
  `Deviations.CompoundDiffers`); the two do the same if and only if the operator gives the same with the value `x` has before `v`
  and with the one it has after (`Deviations.CompoundExactly`).
- The flag of a range is stored after its action, so the record that should open it does so if and only if the action falls
  through and the right pattern is false afterwards; an action that executes `next`, `nextfile` or `exit` leaves the flag down
  (`Ranges.RangeOpens`). The right pattern is read with the variables as the action left them, so an action decides whether its own
  record ends the range (`Ranges.ActionEndsRange`).
- The residency analysis takes assignments in a right operand of `&&` and `||` for granted, also after a `continue` in a `do` or
  `for` loop, and does not look at the value of `exit` (`ResidencyGaps`).
- A search by `gsub` sees only the rest of the text, so an anchored pattern matches as often as it matches in a row
  (`Substitution.AnchorsMatchEverySuffix`), and just once if and only if it does not match what follows its first match
  (`Substitution.AnchoredOnce`).
- A `for (key in array)` loop holds on to the key in the array's own entry. A turn that deletes its own key and leaves something in
  the array, also one that puts the key back, makes the loop look for the next key with text that is gone; the model stops there
  (`KeyLoop.FreedExactly`). A key deleted and put back by an earlier turn moves to the front of the list and is not visited.
- Copying an unset variable onto CONVFMT puts the default format in force and leaves texts made with the old one
  (`ScalarTable.UnsetConvfmtLeavesStaleText`); that is harmless if and only if each of them is the text the default gives
  (`ScalarTable.ClearedReads`).
- An empty record split at a separator has one empty field, not none (`RecordState.EmptyRecord`).

## Model

| member | source | states |
|---|---|---|
| `Lowering.LoweringState.NextTemp` | src/quawk/backend/state.py:45-49 | every temporary taken is new: the counter moves on by one |
| `Lowering.LoweringState.NextLabel` | src/quawk/backend/state.py:51-55 | every label taken is new |
| `Lowering.LoweringState.VariableAddress` | src/quawk/backend/lower_lvalue.py:43-63 | a local name gets one cell, allocated and cleared in the entry block the first time; any other a pointer into the state each time |
| `Lowering.LoweringState.CombineNumericAssignment` | src/quawk/backend/lower_stmt.py:274-306 | the emitted arithmetic of a compound assignment, its result's temporary taken first |
| `Lowering.LoweringState.LowerArith` | src/quawk/backend/lower_expr.py:339-379 | the emitted arithmetic of a binary expression, the remainder's temporary taken last |
| `Lowering.LoweringState.LowerAssignmentExpression` | src/quawk/backend/lower_expr.py:512-525 | the emitted code of a numeric assignment expression, which loads the old value first; labels untouched |
| `Lowering.LoweringState.LowerIncrement` | src/quawk/backend/lower_expr.py:623-656 | the emitted code of the four increments, with the old or the new value as result |
| `Lowering.LoweringState.LowerNumeric` | src/quawk/backend/lower_expr.py:225-417 | the emitted code of every numeric expression is the specified one |
| `Lowering.LoweringState.LowerNumericConditional` | src/quawk/backend/lower_expr.py:950-966 | the emitted code of a joined numeric ternary |
| `Lowering.LoweringState.LowerConditionConditional` | src/quawk/backend/lower_expr.py:969-985 | the emitted code of a joined ternary condition |
| `Lowering.LoweringState.LowerStringConditional` | src/quawk/backend/lower_expr.py:988-1017 | the emitted code of a ternary as text |
| `Lowering.LoweringState.LowerCapturedString` | src/quawk/backend/lower_lvalue.py:480-487 | an operand as text, captured |
| `Lowering.LoweringState.LowerCondition` | src/quawk/backend/lower_expr.py:1020-1187 | the emitted code of every condition is the specified one |
| `Lowering.LoweringState.LowerAnd` | src/quawk/backend/lower_expr.py:1124-1144 | the emitted blocks of `&&` |
| `Lowering.LoweringState.LowerOr` | src/quawk/backend/lower_expr.py:1145-1165 | the emitted blocks of `\|\|` |
| `Lowering.LoweringState.LowerEach` | src/quawk/backend/lower_stmt.py:469-470 | expressions for their effects, in order |
| `Lowering.LoweringState.LowerPrint` | src/quawk/backend/lower_stmt.py:647-663 | numbers printed with separators between them and an end after, or the record |
| `Lowering.LoweringState.LowerAssignmentStatement` | src/quawk/backend/lower_stmt.py:370-387 | the emitted code of an assignment statement, which loads the old value last |
| `Lowering.LoweringState.LowerExit` | src/quawk/backend/lower_stmt.py:163-172 | the status, and the request to exit |
| `Lowering.LoweringState.LowerStatement` | src/quawk/backend/lower_stmt.py:67-186 | the emitted code of every statement, or refusal of a stray break or continue; the labels are restored either way |
| `Lowering.LoweringState.LowerIf` | src/quawk/backend/lower_stmt.py:189-205 | the emitted blocks of `if` |
| `Lowering.LoweringState.LowerLoopBody` | src/quawk/backend/lower_stmt.py:219-227 | a body lowered with the loop's labels in force, and the outer ones restored |
| `Lowering.LoweringState.LowerWhile` | src/quawk/backend/lower_stmt.py:208-229 | the emitted blocks of `while` |
| `Lowering.LoweringState.LowerDoWhile` | src/quawk/backend/lower_stmt.py:232-253 | the emitted blocks of `do` |
| `Lowering.LoweringState.LowerFor` | src/quawk/backend/lower_stmt.py:467-494 | the emitted blocks of `for` |
| `Lowering.LoweringState.LowerAction` | src/quawk/backend/lower_program.py:279-296 | an action up to the statement that leaves it; the rest is not emitted |
| `Lowering.LoweringState.LowerActionOrDefault` | src/quawk/backend/lower_program.py:207-219 | an action, or the record printed for want of one |
| `Lowering.LoweringState.LowerRecordItem` | src/quawk/backend/lower_program.py:179-204 | pattern and action in their order in a record call |
| `Lowering.LoweringState.LowerRangeItem` | src/quawk/backend/lower_program.py:222-276 | a range item with its flag, its two actions and three labels |
| `Lowering.LowerPhase` | src/quawk/backend/lower_program.py:77-144 | one generated function from a fresh state, or nothing if a statement is refused |
| `ExprSimulation.SimNumber` | src/quawk/backend/lower_expr.py:225-417 | the emitted number leaves the value in its operand, the new variables in the cells, and control at its end |
| `ExprSimulation.SimCondition` | src/quawk/backend/lower_expr.py:1020-1187 | the emitted condition leaves the truth of the value in its operand, however deeply `&&` and `\|\|` nest |
| `ExprSimulation.SimAnd` | src/quawk/backend/lower_expr.py:1124-1144 | the right operand runs exactly when the left is true, and the `phi` names the block control came from |
| `ExprSimulation.SimOr` | src/quawk/backend/lower_expr.py:1145-1165 | the right operand runs exactly when the left is false, and the `phi` names the block control came from |
| `ExprSimulation.SimAssign` | src/quawk/backend/lower_expr.py:512-525 | an assignment expression stores what it means |
| `ExprSimulation.SimCompareValues` | src/quawk/backend/lower_expr.py:1094-1109 | a comparison not known to be numeric runs both operands as text and as number |
| `Joining.JoinsExactly` | src/quawk/backend/lower_expr.py:950-1017 | a joined ternary, lowered for its number, its truth or its text, arrives at its `phi`, which is defined if and only if the branch taken opened no block of its own |
| `Joining.NestedTernaryAsText` | src/quawk/backend/lower_expr.py:988-1017 | a ternary inside the branch taken of another, both as text, stops at a `phi` that is not defined, with no side effect anywhere |
| `Joining.StepKeepsBlock` | src/quawk/backend/ir_builder.py:29-39 | the machine's current label is that of the block its position lies in |
| `StmtSimulation.SimStatement` | src/quawk/backend/lower_stmt.py:67-186 | an emitted statement ends where its outcome says, with its variables and output; while its meaning goes on the machine goes on, through the same variables and output |
| `StmtSimulation.SimIf` | src/quawk/backend/lower_stmt.py:189-205 | the branch the condition chooses runs, and control meets at the end |
| `StmtSimulation.SimWhile` | src/quawk/backend/lower_stmt.py:208-229 | `continue` goes to the condition, `break` past the loop, over any number of turns |
| `StmtSimulation.SimDo` | src/quawk/backend/lower_stmt.py:232-253 | the body runs before the condition, and `continue` goes to the condition |
| `StmtSimulation.SimFor` | src/quawk/backend/lower_stmt.py:467-494 | `continue` goes to the update |
| `StmtSimulation.SimAssignment` | src/quawk/backend/lower_stmt.py:370-387 | an assignment statement stores what it means |
| `PhaseSimulation.SimAction` | src/quawk/backend/lower_program.py:279-296 | code left out after a leaving statement is never missed |
| `PhaseSimulation.RestLeftOut` | src/quawk/backend/lower_program.py:279-296 | nothing is emitted for what stands in an action behind `next`, `nextfile` or `exit`; without these every statement is |
| `PhaseSimulation.SimRange` | src/quawk/backend/lower_program.py:222-276 | a range item runs its action and keeps its flag as the range's meaning says |
| `PhaseSimulation.RenderedWellFormed` | src/quawk/backend/runtime_abi.py:145-161 | every label placed once, every temporary defined once, every branch target present, in the rendered function |
| `WellFormedStmt.AcceptedIsLowered` | src/quawk/semantics.py:151-300 | what the semantic check accepts is lowered, and in a record action exactly that |
| `WellFormedStmt.LowersStatement` | src/quawk/backend/lower_stmt.py:67-186 | a lowered statement uses up exactly the labels and temporaries it takes, and branches only to them or to the loop's and phase's |
| `WellFormed.LowersNumber` | src/quawk/backend/lower_expr.py:225-417 | a lowered number uses up exactly the labels and temporaries it takes, and branches only to its own labels |
| `WellFormed.LowersCondition` | src/quawk/backend/lower_expr.py:1020-1187 | a lowered condition uses up exactly the labels and temporaries it takes, and branches only to its own labels |
| `PhaseCorrectness.PhaseMeans` | src/quawk/backend/lower_program.py:77-144 | a generated function returns if and only if its phase ends, with the variables, output and exit status the phase means |
| `PhaseCorrectness.NeverStuck` | src/quawk/backend/runtime_abi.py:145-161 | until it returns a generated function always has a next step |
| `PhaseCorrectness.FunctionPrints` | src/quawk/backend/lower_program.py:77-144 | whatever a phase has printed at some point its generated function prints, returned or not |
| `PhaseCorrectness.PhasePrints` | src/quawk/backend/lower_program.py:77-144 | whatever a generated function has printed at some point its phase has printed, and perhaps more, with enough fuel |
| `PhaseCorrectness.EntryRuns` | src/quawk/backend/lower_lvalue.py:50-55 | the entry block zeroes every cell, whatever it held |
| `Printed.BuiltinsPrinted` | src/quawk/backend/lower_expr.py:234-245 | `{ print NR }` prints the number of the record, `{ print FNR }` that in its file, `{ print NF }` that of its fields, whatever the variables: by its meaning with any fuel, and by the generated function, which returns |
| `Printed.ArithmeticPrinted` | src/quawk/backend/lower_expr.py:339-379 | so the six arithmetic operators on any two numbers print the machine's sum, difference, product, quotient and power, and for the remainder `x - trunc(x / y) * y` |
| `Printed.SignsPrinted` | src/quawk/backend/lower_expr.py:278-291 | so the signs print the number, zero less it, and one exactly where it is zero |
| `Printed.ConditionsPrinted` | src/quawk/backend/lower_expr.py:1020-1187 | so comparisons, `&&` and `\|\|` print one or zero, and a ternary the number its test chooses |
| `Printed.IncrementsPrinted` | src/quawk/backend/lower_expr.py:623-656 | the four increments print the old or the new value, and leave one more or one less in the variable |
| `Printed.AssignmentsPrinted` | src/quawk/backend/lower_expr.py:512-525 | plain and compound assignments as expressions print what they leave in the variable |
| `Printed.TruthValues` | src/quawk/backend/lower_expr.py:381-396 | the bit patterns of the two truth values are one and zero as IEEE 754 has them, and the theorems ask nothing of the machine's operations but that these two are so |
| `Effects.EvaluatedOnce` | src/quawk/backend/lower_expr.py:1076-1109 | evaluating a comparison's operands twice is harmless where they have no side effects |
| `Effects.NoEffect` | src/quawk/backend/lower_lvalue.py:342-373 | an expression reported free of side effects changes no variable |
| `Readings.PhaseOnce` | src/quawk/backend/lower_expr.py:1076-1109 | a phase with safe comparisons means what it says |
| `Deviations.ComparedTwice` | src/quawk/backend/lower_expr.py:1094-1109 | a mixed comparison whose operand assigns runs the assignment twice |
| `Deviations.ComparedAgrees` | src/quawk/backend/lower_expr.py:1094-1109 | a mixed comparison does the same evaluated twice as once if evaluating each operand again gives the same value and changes nothing more |
| `Deviations.ComparedExactlyLeft` | src/quawk/backend/lower_expr.py:1094-1109 | with a right operand without side effects, the emitted comparison leaves the variables as evaluating once does if and only if a second evaluation of the left one changes nothing more; the values agree if and only if its two values compare alike |
| `Deviations.ComparedExactlyRight` | src/quawk/backend/lower_expr.py:1094-1109 | the same for the right operand where the left one has no side effects |
| `Deviations.CompoundAgrees` | src/quawk/backend/lower_stmt.py:370-387 | a compound assignment does the same as statement and expression if its right side leaves the target alone |
| `Deviations.CompoundDiffers` | src/quawk/backend/lower_expr.py:512-525 | with a right side that assigns the target, a compound assignment adds to the new value as a statement and to the old one as an expression |
| `Deviations.CompoundExactly` | src/quawk/backend/lower_stmt.py:370-387 | for every right side: statement and expression leave the same variables if and only if the operator gives the same with the target as it was before the right side and as it is after |
| `Ranges.RangeFlag` | src/quawk/backend/lower_program.py:222-276 | for every action: one that falls through leaves the flag up exactly when the right pattern, read after it, is false; one that leaves the record leaves the flag as it was |
| `Ranges.RangeOpens` | src/quawk/backend/lower_program.py:260-276 | a record whose left pattern holds opens the range if and only if its action falls through and the right pattern is false after it; an action without `next`, `nextfile` and `exit` falls through |
| `Ranges.ActionEndsRange` | src/quawk/backend/lower_program.py:262-270 | for every action that falls through: its record is the last of the range if and only if the right pattern holds with the variables as the action leaves them |
| `Residency.CombineResults` | src/quawk/local_scalar_residency.py:155-168 | the results' names put together |
| `Residency.AnalyzeStatementSequence` | src/quawk/local_scalar_residency.py:282-293 | each statement analysed with the names assigned before it |
| `Residency.AnalyzeActionSequence` | src/quawk/local_scalar_residency.py:373-386 | each action analysed with the names assigned before it |
| `Residency.AnalyzeRecordItems` | src/quawk/local_scalar_residency.py:396-431 | patterns and actions in order; an action behind a pattern assigns nothing for certain |
| `Residency.NoteSummaries` | src/quawk/local_scalar_residency.py:442-463 | exactly the units that mention a name are noted for it |
| `Residency.Classify` | src/quawk/local_scalar_residency.py:424-471 | a name is local to a unit if and only if the unit assigns it, reads it never first, and no other unit mentions it |
| `ResidencySound.SoundExpr` | src/quawk/local_scalar_residency.py:217-280 | names an expression is said to assign are written after it, and only names said to be read first are |
| `ResidencySound.SoundStmt` | src/quawk/local_scalar_residency.py:295-363 | however far a statement runs, over every branch, turn and way out, only names said to be read first have been read early; where it falls through the names said to be assigned are written |
| `ResidencySound.SoundItem` | src/quawk/local_scalar_residency.py:396-431 | however far a record item runs, ranges included, only names said to be read first have been read early |
| `ResidencySound.PhaseSound` | src/quawk/local_scalar_residency.py:373-422 | in every run of a phase, one that never ends included, a local name is written before it is read |
| `ResidencyPaths.ExprExact` | src/quawk/local_scalar_residency.py:217-280 | against the orders in which an expression may touch variables, both operands of `&&` and `\|\|` evaluated: a name is said to be read early if and only if some path reads it before it is written, and to be assigned if and only if every path writes it |
| `ResidencyPaths.StmtExact` | src/quawk/local_scalar_residency.py:295-363 | so for statements, with either branch of an `if` and any number of turns of a loop |
| `ResidencyPaths.ItemsExact` | src/quawk/local_scalar_residency.py:387-422 | so for record items, an action behind a pattern run or not |
| `ResidencyPaths.ClassifiedExactly` | src/quawk/local_scalar_residency.py:424-471 | a name gets a cell of one unit if and only if some path of the unit writes it, none reads it before it is written, and no other unit or function touches it |
| `ResidencyGaps.GuardedAssignment` | src/quawk/local_scalar_residency.py:229-232 | with an assignment behind `&&` the analysis keeps `x` in a cell, and the second of two records prints another value than with `x` kept throughout |
| `ResidencyGaps.ContinueInDo` | src/quawk/local_scalar_residency.py:339-342 | so it does with an assignment after `continue` in a `do` loop: the second record prints another value |
| `ResidencyGaps.ContinueInFor` | src/quawk/local_scalar_residency.py:343-351 | so it does with an assignment after `continue` in a `for` loop whose update reads the name |
| `ResidencyGaps.CompoundOfItself` | src/quawk/local_scalar_residency.py:243-254 | so it does with `x += (x = 1)`: the second record adds to zero where it should add to what the first one left |
| `ResidencyGaps.ExitValue` | src/quawk/local_scalar_residency.py:358-363 | a variable assigned in BEGIN and used only as an exit value in END exits with zero |
| `Storage.PhaseSeen` | src/quawk/local_scalar_residency.py:217-422 | the names the analysis encounters are exactly the tracked ones a phase can touch |
| `Storage.AlikePhase` | src/quawk/backend/lower_lvalue.py:43-63 | a phase does the same with its local names in a zeroed frame as in the state, as far as it runs |
| `Storage.LocalsApart` | src/quawk/local_scalar_residency.py:442-457 | a name local to one unit is touched by no other |
| `Storage.StorageUnobservable` | src/quawk/local_scalar_residency.py:442-471 | over any records a whole program has the same output, exit and state-backed variables wherever its variables are kept, and the same output at every point if it does not end |
| `CompiledProgram.CallMeans` | src/quawk/backend/driver.py:75-77 | a call of a generated function takes the state exactly where its phase does |
| `CompiledProgram.ProgramMeans` | src/quawk/backend/driver.py:258-274 | the driver's whole run, BEGIN, the record loop until exit, END, takes the state exactly where the program does |
| `CompiledProgram.CompiledIsSource` | src/quawk/backend/driver.py:60-85 | the compiled program ends exactly when the source program does, with the same output, exit and state-backed variables |
| `CompiledProgram.AcceptedPhaseIsLowered` | src/quawk/semantics.py:93-131 | a phase all of whose statements the semantic check accepts is lowered |
| `CompiledProgram.AcceptedIsSupported` | src/quawk/semantics.py:93-131 | so the compiler theorems hold for every accepted program that meets their other conditions |
| `ProgramShape.FineIsSupported` | src/quawk/semantics.py:93-131 | the theorems cover an accepted program if and only if each expression and statement in it meets conditions on what is inside it: nothing changed in a comparison that may be of text or behind `&&` and `\|\|`, no block in the branch of a joined ternary, no `continue` in a `do` or `for` loop |
| `ProgramShape.SideEffectsAre` | src/quawk/backend/lower_lvalue.py:342-373 | an expression is reported to have side effects if and only if an assignment or increment is inside it |
| `ProgramShape.NumericAre` | src/quawk/backend/lower_lvalue.py:222-262 | an expression is known to be numeric if and only if no assignment, comparison, `&&`, `\|\|` or ternary is inside it |
| `ProgramShape.ForksAre` | src/quawk/backend/lower_expr.py:950-1187 | an expression opens blocks of its own if and only if there is `&&`, `\|\|`, a ternary that changes something in a branch, or one compared as text inside it |
| `ProgramShape.AcceptedIs` | src/quawk/semantics.py:151-300 | a statement is accepted if and only if `break` and `continue` stand inside loops and `next` and `nextfile` in record actions |
| `CompiledOutput.SourceIsPrinted` | src/quawk/backend/driver.py:258-274 | whatever the program has printed at some point the generated program prints, whether it ends or not |
| `CompiledOutput.PrintedIsSource` | src/quawk/backend/driver.py:258-274 | whatever the generated program has printed at some point the program has printed, and perhaps more |
| `CompiledOutput.CompiledPrintsSource` | src/quawk/backend/driver.py:60-85 | the compiled program prints what the source program prints with every variable kept throughout, also where neither ends |
| `FileInput.RecordsAreNumbered` | src/quawk/runtime/qk_runtime.c:1646-1694 | in every run of a compiled program over files the k-th record call sees k as NR, the number in its file as FNR and the number of its fields as NF |
| `FileInput.FilesListed` | src/quawk/backend/driver.py:258-274 | compiled and run over any files, `{ print NR, FNR, NF }` ends and prints these three for each record of each file in turn |
| `FileInput.NumbersAround` | src/quawk/backend/driver.py:258-274 | compiled and run over any files, `BEGIN { print NR, FNR, NF } END { print NR, FNR, NF }` prints zeros before, and after them the number of all records, of those of the last file, and of the fields of the last record |
| `FieldText.SplitIsExact` | src/quawk/runtime/qk_runtime.c:1397-1418 | the fields joined are the record, none holds the separator, and there is one more than it occurs |
| `FieldText.SplitUndoesJoin` | src/quawk/runtime/qk_runtime.c:1397-1418 | for a one-character separator, fields without it come back from their join |
| `FieldText.WordsAreExact` | src/quawk/runtime/qk_runtime.c:1368-1395 | words are solid, and with blank gaps between them they make up the record |
| `RecordState.RunStaysConsistent` | src/quawk/runtime/qk_runtime.c:1420-1546 | over every run NF counts the fields, and record and fields agree as they were last made to |
| `RecordState.AssignedField` | src/quawk/runtime/qk_runtime.c:1442-1546 | `$i = v` reads back, others keep their values, gaps are empty, `$0` is joined with OFS |
| `RecordState.AssignedCount` | src/quawk/runtime/qk_runtime.c:869-878 | `NF = n` keeps the first n fields and makes new ones empty |
| `RecordState.SeparatorTakesEffectLater` | src/quawk/runtime/qk_runtime.c:860-863 | a new FS changes nothing until the next split |
| `RecordState.ResplitGivesTheSameFields` | src/quawk/runtime/qk_runtime.c:1462-1467 | `$0 = $0` after an assignment to a field keeps the fields |
| `RecordState.EmptyRecord` | src/quawk/runtime/qk_runtime.c:1397-1418 | an empty record has no words, but one empty field at a separator |
| `FieldSplitting.SplitAtBlanks` | src/quawk/runtime/qk_runtime.c:1368-1395 | with FS a blank or empty, no field of a new record is empty or holds a space, tab, newline, vertical tab, form feed or carriage return; with gaps of only these, not empty between fields, they are the record, and no other fields are |
| `FieldSplitting.SplitAtSeparator` | src/quawk/runtime/qk_runtime.c:1397-1418 | with any other FS each field ends where FS first comes after its beginning, and joined with it they are the record; no other fields are like that |
| `RecordEngine.Runtime.GetField` | src/quawk/runtime/qk_runtime.c:1893-1921 | the record, a field, or nothing |
| `RecordEngine.Runtime.PushField` | src/quawk/runtime/qk_runtime.c:1351-1366 | a pointer added, the table doubled when full |
| `RecordEngine.Runtime.SplitLiteral` | src/quawk/runtime/qk_runtime.c:1397-1418 | after NULs have been written into it the buffer holds exactly the fields |
| `RecordEngine.Runtime.SplitWhitespace` | src/quawk/runtime/qk_runtime.c:1368-1395 | the buffer holds exactly the words |
| `RecordEngine.Runtime.RebuildFields` | src/quawk/runtime/qk_runtime.c:1420-1440 | fields and NF are those of the record at the separator in force |
| `RecordEngine.Runtime.NewRecord` | src/quawk/runtime/qk_runtime.c:1668-1681 | a record read replaces record, fields and NF |
| `RecordEngine.Runtime.Lengths` | src/quawk/runtime/qk_runtime.c:1479-1493 | the first pass finds exactly the lengths of the new record and field buffer |
| `RecordEngine.Runtime.CopyFields` | src/quawk/runtime/qk_runtime.c:1517-1538 | the second pass fills both buffers exactly, and overwriting the table disturbs no value still to be read |
| `RecordEngine.Runtime.RebuildCurrentRecord` | src/quawk/runtime/qk_runtime.c:1442-1546 | record and fields after an assignment to a field or NF |
| `RecordEngine.Runtime.SetField` | src/quawk/runtime/qk_runtime.c:1928-1941 | assignment to `$0` or a field, refined |
| `RecordEngine.Runtime.SetFieldCount` | src/quawk/runtime/qk_runtime.c:869-878 | assignment to NF, refined |
| `RecordEngine.Runtime.SetFieldSeparator` | src/quawk/runtime/qk_runtime.c:1294-1311 | a blank or nothing means blanks; fields stay as they are |
| `RecordEngine.Runtime.Perform` | src/quawk/runtime/qk_runtime.c:1420-1546 | any run of operations follows the texts |
| `Substitution.Scratch.Append` | src/quawk/runtime/qk_runtime.c:1078-1100 | text appended inside the buffer, grown if need be, with a NUL after it |
| `Substitution.Scratch.AppendReplacement` | src/quawk/runtime/qk_runtime.c:2631-2666 | the replacement with `&` and backslashes expanded |
| `Substitution.Scratch.Substitute` | src/quawk/runtime/qk_runtime.c:2668-2746 | `sub` and `gsub` end, and return the pieces with every match replaced, and their number |
| `Substitution.PiecesAreTheText` | src/quawk/runtime/qk_runtime.c:2697-2733 | gaps, matches and copied characters in order are the original text |
| `Substitution.QuotedIsLiteral` | src/quawk/runtime/qk_runtime.c:2631-2666 | a replacement with `&` and backslash quoted inserts exactly that text |
| `Substitution.SubstituteMeans` | src/quawk/runtime/qk_runtime.c:2668-2746 | `&` returns the text, a quoted replacement fills every match, no match changes nothing |
| `Substitution.SubReplacesOnce` | src/quawk/runtime/qk_runtime.c:2712-2715 | `sub` replaces one match, if there is one |
| `Substitution.AnchorsMatchEverySuffix` | src/quawk/runtime/qk_runtime.c:2697-2733 | a matcher that matches only where its text begins is counted as often as it matches in a row |
| `Substitution.AnchoredOnce` | src/quawk/runtime/qk_runtime.c:2697-2733 | such a matcher is counted once if and only if it does not match what the next search is given |
| `LiteralSubstitution.LiteralSubstituted` | src/quawk/runtime/qk_runtime.c:2697-2733 | with a plain text for a pattern `gsub` joins the parts of the text between the pattern's places with the replacement, and counts one less than there are parts |
| `LiteralSubstitution.NothingSubstituted` | src/quawk/runtime/qk_runtime.c:2716-2733 | with a pattern that matches nothing the replacement stands before each character and after the last |
| `LiteralSubstitution.StartSubstituted` | src/quawk/runtime/qk_runtime.c:2697-2733 | with a plain text anchored at the beginning, as in `gsub(/^a/, "")`, every copy of it that the text begins with is replaced and counted, not the first alone |
| `Arrays.Array.Set` | src/quawk/runtime/qk_runtime.c:924-971 | keys stay unique, a new one goes in front, the map is updated |
| `Arrays.Array.Delete` | src/quawk/runtime/qk_runtime.c:1012-1037 | the key is gone, with its entry and its text, and nothing else |
| `Arrays.Array.Clear` | src/quawk/runtime/qk_runtime.c:910-917 | no key is left |
| `Arrays.Array.Get` | src/quawk/runtime/qk_runtime.c:973-988 | the value, if the key is there; asking does not add it |
| `Arrays.Array.Length` | src/quawk/runtime/qk_runtime.c:3285-3299 | the number of keys |
| `Arrays.Array.NextKey` | src/quawk/runtime/qk_runtime.c:3310-3325 | the key after one handed out before, whose entry must still be there if any is |
| `KeyLoop.ForIn` | src/quawk/backend/lower_stmt.py:497-550 | the loop with any body that inserts, updates and deletes visits what the keys alone say: each turn takes away the keys it deletes, and deleting its own ends the loop |
| `KeyLoop.InsertionsVisitAll` | src/quawk/backend/lower_stmt.py:497-550 | a body that deletes none of the keys visits all there were at the start, in their order |
| `KeyLoop.VisitsAreTurns` | src/quawk/runtime/qk_runtime.c:3301-3325 | keys are visited in the order of the list and once each |
| `KeyLoop.VisitedExactly` | src/quawk/runtime/qk_runtime.c:3301-3325 | a loop that finishes has visited exactly the keys there were at its start that no turn deleted before they were reached |
| `KeyLoop.FreedExactly` | src/quawk/runtime/qk_runtime.c:3310-3325 | the loop asks for the key after one whose text is gone if and only if a turn deletes its own key and leaves something in the array |
| `ScalarTable.Table.Get` | src/quawk/runtime/qk_runtime.c:1249-1274 | the text kept with a number, or else the one its format now gives, which is then kept |
| `ScalarTable.Table.InvalidateCache` | src/quawk/runtime/qk_runtime.c:638-654 | no number keeps a text, every value stays |
| `ScalarTable.Table.SetStringValue` | src/quawk/runtime/qk_runtime.c:802-825 | the value set, its text dropped, and every text if the name is CONVFMT |
| `ScalarTable.Table.SetNumberValue` | src/quawk/runtime/qk_runtime.c:827-843 | the value set, its text dropped, and every text if the name is CONVFMT |
| `ScalarTable.Table.Copy` | src/quawk/runtime/qk_runtime.c:2371-2408 | the value copied as if set; an unset source clears the target and drops no other text |
| `ScalarTable.Table.Perform` | src/quawk/runtime/qk_runtime.c:802-843 | any run at all reads what the variables with their kept texts say |
| `ScalarTable.StepRight` | src/quawk/runtime/qk_runtime.c:802-843 | an operation keeps the cache right if and only if it does not clear CONVFMT while a text is kept that the default format would not give |
| `ScalarTable.RunRight` | src/quawk/runtime/qk_runtime.c:1249-1274 | a run whose operations are all harmless in that sense reads exactly the texts it would read with no cache |
| `ScalarTable.ClearedReads` | src/quawk/runtime/qk_runtime.c:2388-2391 | after CONVFMT is cleared every variable reads as with no cache if and only if each text kept is the one the default gives |
| `ScalarTable.ClearingIsHarmless` | src/quawk/runtime/qk_runtime.c:2388-2391 | clearing CONVFMT is harmless where the default is in force anyway, or nothing is kept |
| `ScalarTable.NothingKept` | src/quawk/runtime/qk_runtime.c:638-654 | nothing is kept as long as nothing has been read as text since CONVFMT was given a value |
| `ScalarTable.UnsetConvfmtLeavesStaleText` | src/quawk/runtime/qk_runtime.c:2388-2391 | set CONVFMT, set a number, read it, copy an unset variable onto CONVFMT, read it: both reads give the first text, where the second should be in the default format |
| `ScalarTable.FreshTexts` | src/quawk/runtime/qk_runtime.c:1249-1292 | a text reads as it is, nothing as nothing, and a number in the format in CONVFMT, or `%.6g` if that is empty, a number or not there |
| `InputReader.Reader.ReadRecord` | src/quawk/runtime/qk_runtime.c:1590-1644 | one record into a buffer that grows and always has room for the NUL |
| `InputReader.Reader.ReadMainLine` | src/quawk/runtime/qk_runtime.c:1646-1694 | the next record over any number of file ends, exactly as the record lists of the files say |
| `InputReader.Reader.NextFile` | src/quawk/runtime/qk_runtime.c:2234-2243 | the open file is left, and noted as cut |
| `InputReader.Serve` | src/quawk/runtime/qk_runtime.c:1646-1694 | any reads and `nextfile`s get exactly the answers their run over the files' record lists gives; NR counts all records delivered, FNR those of the file opened last |
| `InputReader.DeliveredInOrder` | src/quawk/runtime/qk_runtime.c:1646-1694 | over every run what is delivered is, file by file, a beginning of the file's records, and all of them unless the file was cut or is open still |
| `InputReader.CutBySkips` | src/quawk/runtime/qk_runtime.c:2234-2243 | the files cut are exactly those that were open when a `nextfile` came |
| `InputReader.ReadsGetAll` | src/quawk/runtime/qk_runtime.c:1646-1694 | with no `nextfile` the answers are the records of all files in order, and none after that |
| `InputReader.RecordsAreTheFile` | src/quawk/runtime/qk_runtime.c:1615-1637 | for every separator, newline included: the records with separators are the file, without carriage returns at the ends of lines for a newline, and no record holds one |
| `RandomSequence.FullPeriod` | src/quawk/runtime/qk_runtime.c:1228-1231 | for every power of two, from any state every state is visited exactly once before the first returns |
| `RandomSequence.ComesBack` | src/quawk/runtime/qk_runtime.c:1228-1231 | a state returns after n steps if and only if the modulus divides n |
| `RandomSequence.NextStateIsStep` | src/quawk/runtime/qk_runtime.c:1228-1231 | wrapping to 32 bits and masking is the step modulo 2^31 |
| `RandomSequence.FirstNumbers` | src/quawk/runtime/qk_runtime.c:118-121 | the step is `1103515245 * s + 12345` modulo 2147483648, and the first three states after 1 are 1103527590, 377401575 and 662824084 |
| `RandomSequence.Random.Next` | src/quawk/runtime/qk_runtime.c:2955-2962 | the next number is the stepped state over 2^31 |
| `RandomSequence.Random.Draw` | src/quawk/runtime/qk_runtime.c:2955-2962 | n draws are the first n iterates of the step from the state the generator was in, and leave it in the last of them |
| `RandomSequence.Random.Reseed` | src/quawk/runtime/qk_runtime.c:2990-3004 | the old seed returned, the state the new one modulo 2^31 |
| `SourceCursor.Cursor.Normalize` | src/quawk/source.py:199-218 | exhausted files are passed, however many, and the text to come stays the same |
| `SourceCursor.Cursor.Peek` | src/quawk/source.py:149-169 | the character k places ahead, the position unmoved |
| `SourceCursor.Cursor.Advance` | src/quawk/source.py:171-187 | the first character of the text to come, which loses just that |
| `SourceCursor.Cursor.IsAtEnd` | src/quawk/source.py:189-197 | at the end exactly when no text is to come |
| `SourceCursor.Cursor.CurrentPoint` | src/quawk/source.py:140-147 | a point in the files that lies as far into the one text as has been read |
| `SourceCursor.ReadAll` | src/quawk/source.py:130-218 | reading to the end reads the one text |
| `SourceCursor.FilesTogether` | src/quawk/source.py:199-218 | the one text is the files in order, each but the last with a newline more if it does not end in one |
| `SourceCursor.FileIsInFlat` | src/quawk/source.py:130-218 | each file's characters are in the one text where their points say |
| `SourceCursor.PointsKeepOrder` | src/quawk/source.py:140-147 | later in the text is a later point |
| `Lexing.Relexes` | src/quawk/lexer.py:250-309 | the tokens' texts joined by single spaces lex to the same tokens |
| `Lexing.TokensAreTheText` | src/quawk/lexer.py:250-309 | the tokens and blanks, continued lines and comments between them are the program text |
| `Lexing.ScannedAgain` | src/quawk/lexer.py:386-425 | a token's text is scanned as that token, regular expression or division alike |
| `LexicalGrammar.SlashAfter` | src/quawk/lexer.py:427-477 | after every token the scanner returns, a slash with a text behind it that would make it a regular expression opens one if and only if the token is in a list written out, and divides otherwise; after an increment as before it |
| `LexicalGrammar.RegexLiterals` | src/quawk/lexer.py:397-425 | a regular expression is made of characters, escaped characters and classes up to a slash; the scanner finds the one the text begins with, and fails if there is none |
| `LexicalGrammar.StringLiterals` | src/quawk/lexer.py:346-367 | a string is made of characters and escaped characters up to a quote; the scanner finds the one the text begins with, and fails if there is none |
| `LexicalGrammar.Words` | src/quawk/lexer.py:338-344 | letters, digits and underscores that do not begin with a digit are one word, a keyword if and only if it is in a list written out |
| `LexicalGrammar.Numbers` | src/quawk/lexer.py:369-384 | digits with at most one point after the first are one number |
| `LexicalGrammar.Operators` | src/quawk/lexer.py:321-336 | of the operators, written out, the longer one is taken |
| `LexicalGrammar.PassedOver` | src/quawk/lexer.py:311-319 | blanks, comments and a backslash with a newline are passed over |
| `LexicalGrammar.NothingElse` | src/quawk/lexer.py:308-309 | no other character begins a token |
| `Lexer.Scanner.ScanToken` | src/quawk/lexer.py:261-309 | one token or one stretch passed over, as the text to come says |
| `Lexer.Scanner.ScanSlashOrRegex` | src/quawk/lexer.py:386-395 | `/` divides where no operand can come, and opens a regular expression where one can |
| `Lexer.Scanner.TakeRegex` | src/quawk/lexer.py:397-425 | a regular expression up to the slash that is neither escaped nor in a class |
| `Lexer.Scanner.TakeString` | src/quawk/lexer.py:346-367 | a string up to the quote that is not escaped |
| `Lexer.Scanner.FinishToken` | src/quawk/lexer.py:427-477 | the token decides whether an operand may come next |
| `Lexer.ScanTokens` | src/quawk/lexer.py:250-259 | the scanner over files finds the tokens of their one text |
| `ExpressionRoundTrip.PrintedReads` | src/quawk/parser.py:414-656 | the printed tree before any token that cannot continue it parses to the tree, and the parser stops there |
| `ExpressionRoundTrip.ConcatHere` | src/quawk/parser.py:529-540 | adjacent operands concatenate to the left, with signs and calls kept apart |
| `ExpressionRoundTrip.FieldReads` | src/quawk/parser.py:644-652 | `$` takes an operand with its increments |
| `ExpressionRoundTrip.PowerReads` | src/quawk/parser.py:574-586 | `^` groups to the right under a sign on its left |
| `ExpressionRoundTrip.LoopHere` | src/quawk/parser.py:458-572 | the levels read in a loop group to the left |
| `ExpressionRoundTrip.TernaryReads` | src/quawk/parser.py:442-456 | `?:` groups to the right |
| `ExpressionRoundTrip.AssignmentReads` | src/quawk/parser.py:425-440 | assignment groups to the right and takes an assignable target |
| `ExpressionRoundTrip.ParseIsNormal` | src/quawk/parser.py:414-656 | every tree the parser makes is one the round trip covers |
| `ExpressionRoundTrip.ReprintedReads` | src/quawk/parser.py:414-656 | parsing, printing and parsing again is parsing once |
| `ExpressionPrecedence.SpelledReads` | src/quawk/parser.py:414-656 | the tokens of any tree, with parentheses where a table of strengths asks for them and nowhere else, parse to the tree |
| `ExpressionPrecedence.TwoOperators` | src/quawk/parser.py:458-586 | for every two operator symbols, `a s b t c` parses to the tree that a table of symbols with their operator and strength gives: the tighter first, of two alike the left one, of two powers the right one, and no second `in` |
| `ExpressionPrecedence.AdjacentOperands` | src/quawk/parser.py:529-540 | operands beside each other bind tighter than `in` and all looser operators, looser than the others, and to the left |
| `ExpressionPrecedence.AdjacentIncrements` | src/quawk/parser.py:928-942 | `a ++ ++ b` is two operands beside each other, and a regular expression is an operand like any other |
| `ExpressionPrecedence.SignedOperands` | src/quawk/parser.py:588-604 | signs, increments and `$` bind tighter than every operator, `^` included |
| `ExpressionPrecedence.Ternaries` | src/quawk/parser.py:442-456 | a ternary binds looser than every operator and groups to the right |
| `ExpressionPrecedence.Assignments` | src/quawk/parser.py:425-440 | an assignment binds looser than every operator and the ternary, and groups to the right |
| `ExpressionPrecedence.NumberedField` | src/quawk/parser.py:644-652 | `$` with digits is the field of their value, with leading zeros or without |
| `ExpressionPrecedence.Boundaries` | src/quawk/parser.py:486-502 | what is parsed assigns only to variables, elements and fields; a bare `length` is a call; where a redirection may follow `>` ends the expression |
| `ExpressionPrecedence.OnlyGreaterStops` | src/quawk/parser.py:486-502 | where a redirection may follow no other operator ends the expression |
| `ExpressionParser.Parser.ParseAssignment` | src/quawk/parser.py:425-440 | the method for assignment returns what its rule says and stops there |
| `ExpressionParser.Parser.ParseConditional` | src/quawk/parser.py:442-456 | the method for `?:` returns what its rule says and stops there |
| `ExpressionParser.Parser.ParseLogicalOr` | src/quawk/parser.py:458-470 | the loop of `\|\|` returns what its rule says and stops there |
| `ExpressionParser.Parser.ParseComparison` | src/quawk/parser.py:486-502 | the loop of comparisons returns what its rule says; a redirection may stop it |
| `ExpressionParser.Parser.ParseConcat` | src/quawk/parser.py:529-540 | the loop of concatenation returns what its rule says and stops there |
| `ExpressionParser.Parser.ParseUnary` | src/quawk/parser.py:588-595 | the method for prefix operators returns what its rule says and stops there |
| `ExpressionParser.Parser.ParsePrimary` | src/quawk/parser.py:606-656 | the method for operands returns what its rule says and stops there |
| `ExpressionParser.Parser.ParseExpressionList` | src/quawk/parser.py:713-719 | the method for lists of expressions returns what its rule says and stops there |
| `ExpressionText.WrittenLexes` | src/quawk/lexer.py:250-309 | tokens whose slashes fit, written with single spaces between them, are scanned as those tokens |
| `ExpressionText.TextReads` | src/quawk/parser.py:414-656 | a tree written out as text is scanned and parsed as that tree, which uses up the text |
| `ExpressionText.RewrittenReads` | src/quawk/parser.py:414-656 | whatever text is scanned and parsed as an expression, its tree written out anew is scanned and parsed as the same tree |
| `OperatorText.OperatorsRead` | src/quawk/lexer.py:163-205 | each operator's text, between names or in front of one, is scanned and parsed as the operator a table of texts gives |
| `OperatorText.PunctuationRead` | src/quawk/parser.py:606-656 | so are fields, increments behind their operand, calls, elements and ternaries |

## Left out

- Strings and mixed variables, fields, arrays, user functions, `getline`, `printf` and redirections in the lowering model: the
  numeric fragment is lowered as the code does, the rest would add cases, not control flow.
- `for (key in array)` in the lowering model: its loop is modelled on the runtime's list in `Arrays.dfy` instead.
- Not-a-number values: the emitted test for truth is an ordered comparison with zero, and the model takes one operation for it.
- Readable prefixes of temporaries and labels: names are their counter values, which alone make them unique.
- Ternaries with a joined branch that opens a block are outside the correctness theorem, because the emitted `phi` is wrong where
  that branch is taken.
- Programs with an assignment in a right operand of `&&` or `||`, a `continue` in a `do` or `for` loop, an `exit` with a value, or a
  compound assignment expression whose right side assigns its target are outside the residency theorems, because the analysis may
  be wrong for them.
- Type inference and the set of numeric names it finds: given.
- Slot allocation, rendering of instructions as text, the driver's setup of variables given on the command line.
- Entry blocks hold only the stores that clear cells; the model has no block for allocation itself.
- Linked lists of entries, scalars and arrays by name: the list is a sequence field, with an id for each entry; failed allocation is
  not modelled, and freeing only where a loop holds on to a key.
- A loop body in `KeyLoop.ForIn` is given the text of its key once; what it would read from the key after deleting it is not modelled.
- `realloc`, `strstr`, `regexec`, `strtod` and `snprintf` are a copy, a search, a matcher, and given functions.
- Negative NF, and the slot caches, whose text is not tied to CONVFMT.
- RS changed while a file is being read, an empty RS, which the code reads as a newline, and reading standard input for want of
  files: the separator and the list of files are given.
- Which characters beyond ASCII are letters and digits: the scanner's theorems hold for any answer. A field number is read from ASCII
  digits only.
- Numbers in the parser keep their text; their values are not computed.
- Statements, patterns and whole programs in the parser, and `getline` expressions.
- Line and column numbers of source points.
- Lowering.LoweringState.LowerNumeric: only the numeric fragment; calls, fields, elements and string literals are not lowered.
- Lowering.LoweringState.LowerCondition: only the numeric fragment; matching, `in` and the truth of strings are not lowered.
- Lowering.LoweringState.LowerPrint: only numbers and the record, to standard output.
- Lowering.LoweringState.LowerStatement: no `for (key in array)`, `delete`, `printf` or `return`.
- ExprSimulation.SimNumber: only the numeric fragment.
- ExprSimulation.SimCondition: only the numeric fragment.
- StmtSimulation.SimStatement: only the statements the model lowers.
- ExpressionParser.Parser.ParsePrimary: refuses `getline`, which the source parses.
