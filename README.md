# A verified model of the toy-language-to-Python translator

The repository translates programs of a small imperative teaching language into Python and checks what the compiled programs print. The language has procedures, scalar and array variables, `READ`/`WRITE`, `IF`, `WHILE`, `REPEAT … UNTIL` and `FOR … TO/DOWNTO`.

This project models three parts of it in Dafny:

- **The runtime prelude** emitted at the top of every generated program (module `Runtime`, `runtime.dfy`):
  - `SmartArray` becomes a class over an `array<int>`: out-of-range reads give 0 and out-of-range writes do nothing.
  - The helpers `_sub`, `_div` and `_mod` become functions, with Python's floor division written out.
  - The `range(...)` schedules that the generated `for` loops run over are modelled as well.
- **The syntax-directed code generator** `ToPython`:
  - `ast.dfy` holds the abstract syntax, with the `[_a-z]+` rule as the predicate `ValidName`; numbers are `nat`.
  - `topython.dfy` has one generator function per grammar rule, over a model of Python's `str` built-ins in `pystr.dfy`.
  - `layout.dfy` is a reference definition of the output's line structure: lines tagged with a nesting depth, four spaces per level. It proves that the generated text is exactly that structure rendered.
  - `lowering.dfy` reads emitted statements and operands back and proves that nothing is lost.
  - `driver.dfy` models the driver's `hasread` exit status.
- **The test runner's output check** `VMOutputValidator` (module `VmOutput`, `vmoutput.dfy`):
  - the loop of `_parse_vm_output` that keeps the text after the first `>` on each marked line;
  - the line-by-line comparison of `validate`.

## Model

| member | source | states |
|---|---|---|
| Runtime.Size | transpiler.py:83 | the number of cells is `end - start + 1` when `start <= end`, and 0 exactly when `end < start` |
| Runtime.SmartArray.constructor | transpiler.py:80-84 | a new array has `max(0, end - start + 1)` cells, all zero, so every index reads 0 |
| Runtime.SmartArray.Get | transpiler.py:86-91 | `get(i)` is the cell `i - start` when `start <= i <= end`, and 0 otherwise |
| Runtime.SmartArray.Set | transpiler.py:93-96 | inside the range, `set(i, v)` makes `get(i)` return `v` and leaves every other index unchanged; outside the range nothing changes |
| Runtime.Sub | transpiler.py:98 | `_sub` is never negative: it is `a - b` when `a >= b` and 0 otherwise |
| Runtime.SubIsLeastCompletion | transpiler.py:98 | `_sub(a, b)` is the least non-negative `r` with `a <= b + r` |
| Runtime.Div | transpiler.py:99 | `_div(a, 0) == 0`; otherwise the quotient is rounded towards minus infinity, for either sign of the divisor |
| Runtime.Mod | transpiler.py:100 | `_mod(a, 0) == 0`; otherwise the remainder has the divisor's sign and is smaller than it in magnitude |
| Runtime.DivModAgree | transpiler.py:99-100 | `_div(a, b) * b + _mod(a, b) == a` for every non-zero `b` |
| Runtime.DivPositive | transpiler.py:99-100 | for a positive divisor, the helpers coincide with Euclidean division |
| Runtime.ForToSchedule | transpiler.py:189-194 | `range(first, last + 1)` visits `first, first + 1, …, last` once each, and nothing when `first > last` |
| Runtime.ForDowntoSchedule | transpiler.py:196-201 | `range(first, last - 1, -1)` visits `first, first - 1, …, last` once each, and nothing when `first < last` |
| ToPython.IndentLines | transpiler.py:104-106 | `_indent("")` is `""`; otherwise each line of the input becomes exactly one output line, in order, prefixed by four spaces |
| ToPython.ValueOneLine | transpiler.py:216-225 | an operand lowers to one non-empty line |
| ToPython.ExprOneLine | transpiler.py:209-214 | an expression lowers to one non-empty line |
| ToPython.CondOneLine | transpiler.py:227-232 | a condition lowers to one non-empty line |
| Layout.CommandLayoutClean | transpiler.py:157-207 | every line of a command's layout is one non-empty line of text |
| Layout.CommandsLayoutClean | transpiler.py:154-155 | the same for a command list, whose lines all sit at least one level deep |
| Layout.CommandText | transpiler.py:157-207 | a command's text is its layout rendered and joined by newlines; `for` loops add one trailing newline |
| Layout.CommandLines | transpiler.py:104-106 | `splitlines` of a command's text gives back exactly the rendered lines of its layout |
| Layout.CommandsText | transpiler.py:154-155 | a command list's text is its layout rendered: each command one level deeper, in order |
| Layout.CommandsIndented | transpiler.py:154-155 | every line of a command block starts with four spaces |
| Layout.DeclsText | transpiler.py:144-152 | indented declarations are one line per declaration at depth one, in order |
| Layout.ProcedureText | transpiler.py:117-123 | a procedure is an empty line, `def head:`, its declarations, its commands one level deeper, then an empty line |
| Layout.ProceduresText | transpiler.py:114-115 | the procedures' text is their layouts in source order |
| Layout.MainText | transpiler.py:136-142 | `main` is `def main():`, its declarations and commands, then the `__main__` guard |
| Layout.ProgramText | transpiler.py:111-112 | everything after the prelude is the procedures' layout followed by `main`'s |
| Layout.ProgramLines | transpiler.py:111-112 | the program begins with the runtime prelude, and its lines are the prelude's lines followed by the rendered layout |
| Layout.ProgramEndsWithGuard | transpiler.py:138 | the program's last three lines are `""`, `if __name__ == '__main__':` and `    main()` |
| Layout.ProgramNoNewlines | transpiler.py:111-142 | no line of the program layout holds a newline, so the layout is exactly the program's line structure |
| Lowering.LoadRoundTrip | transpiler.py:217-221 | `name[0]` and `name.get(index)` read back as the target they were lowered from |
| Lowering.StoreRoundTrip | transpiler.py:157-161 | `name[0] = v` and `name.set(index, v)` read back as their target and the whole stored text, commas included |
| Lowering.IndexHasNoComma | transpiler.py:224-225 | an array index text (a decimal number, or `idx[0]`) holds no comma |
| Lowering.TargetRoundTrip | transpiler.py:223-225 | identifier lowering is injective: the target gives back `id_simple`, `id_array_num` or `id_array_var` with its index |
| Lowering.ValueRoundTrip | transpiler.py:216-221 | operand lowering loses nothing |
| Lowering.ValueHasNoSeparators | transpiler.py:216-225 | an operand's text holds neither a space nor a comma |
| Lowering.ExprRoundTrip | transpiler.py:209-214 | the operator and both operands come back from an expression's text; `-`, `/`, `%` are recognised by their helper's name |
| Lowering.CondRoundTrip | transpiler.py:227-232 | the relation and both operands come back from a condition's text |
| Lowering.AssignRoundTrip | transpiler.py:157-161 | `assign` stores the expression's text into the cell its identifier names |
| Lowering.ReadAsWritten | transpiler.py:166-171 | the generator's `READ` of an array element stores the element's index into the cell the input selects, not into the element |
| Lowering.ReadSwapExample | transpiler.py:170 | `READ t[3];` emits `t.set(int(input()), 3)`, which stores 3 at the index typed in |
| Lowering.ReadRoundTrip | transpiler.py:166-171 | the corrected read stores the input into the cell the `READ` names; for a scalar it is the generator's own text |
| Lowering.ParamsRoundTrip | transpiler.py:129-130 | `args_decl`'s comma-and-space list reads back as the parameter names, in order |
| Lowering.HeadRoundTrip | transpiler.py:125-134 | a procedure head's text reads back as the procedure name and the parameter names |
| Lowering.HeadTextDeterminesNames | transpiler.py:125-134 | two valid heads emit the same text exactly when their names and parameter names agree |
| Lowering.HeadIgnoresKinds | transpiler.py:132-134 | `get_arg_name` keeps only the name: retagging parameters `T`, `I` or `O` leaves the head's text unchanged |
| Lowering.DeclRoundTrip | transpiler.py:147-152 | a `decl_var` line reads back as the scalar's name and a `decl_array` line as the array's name with both bounds in order |
| Lowering.CallRoundTrip | transpiler.py:203-207 | a procedure call's text reads back as the callee's name and its arguments, bare cell names in order, none dropped, moved or dereferenced |
| Lowering.WriteRoundTrip | transpiler.py:163-164 | `write_cmd`'s `print(...)` text reads back as the operand it prints |
| Driver.PostOrderReads | transpiler.py:166-202 | the `read_cmd` handler runs while a command is transformed exactly when that command is or holds a `READ` |
| Driver.ProgramCallsReads | transpiler.py:111-171 | translating a program calls `read_cmd` exactly when some procedure or `main` holds a `READ` |
| Driver.ExitStatus | transpiler.py:248 | the exit status is 1 exactly when the flag is set, and 0 otherwise |
| Driver.HandlersKeepFlag | transpiler.py:166-167 | as written, no handler call changes the module-level `hasread`, by construction of `ReadHandler`: the handler's assignment binds a local, and `ReadHandler` returns the flag unchanged |
| Driver.ExitStatusAlwaysZero | transpiler.py:247-248 | as written, the driver exits with 0 for every program |
| Driver.ReadingProgramExitsZero | transpiler.py:247-248 | a program that reads input still exits with 0 |
| Driver.HandlersIntendedFlag | transpiler.py:166-167 | with the flag declared global, it ends set exactly when it started set or `read_cmd` ran |
| Driver.ExitStatusIntended | transpiler.py:247-248 | as intended, the exit status is 1 exactly for the programs that read input |
| VmOutput.AfterFirst | test_runner_template.py:56 | `split('>', 1)[1]` is the text after the first `>`, with no `>` before it |
| VmOutput.AfterFirstIsSplitTail | test_runner_template.py:56 | that text is all the pieces of a full split at `>` after the first one, joined back with `>` |
| VmOutput.Payload | test_runner_template.py:56 | a kept line never starts with a space |
| VmOutput.KeptLines | test_runner_template.py:52-57 | there are never more kept lines than input lines |
| VmOutput.ParseVmOutput | test_runner_template.py:51-57 | the loop returns the kept payloads of the stripped output's lines, joined by newlines |
| VmOutput.KeptLinesAppend | test_runner_template.py:54-56 | lines are kept one at a time, in their original order |
| VmOutput.KeptLinesOne | test_runner_template.py:55-56 | a single line is kept, as its payload, exactly when it holds a `>` |
| VmOutput.NoMarkerKeepsNothing | test_runner_template.py:55 | with no `>` in the output, nothing is kept |
| VmOutput.KeptLinesShape | test_runner_template.py:52-56 | every kept line is free of newlines and does not start with a space |
| VmOutput.ParsedLines | test_runner_template.py:57-64 | splitting the parsed text gives back the kept lines; with none kept it is `""`, which reads as one empty line |
| VmOutput.CompareLines | test_runner_template.py:64-70 | passes exactly when the line lists are equal; otherwise it reports the differing counts, or the first differing 1-based line with both texts |
| VmOutput.Validate | test_runner_template.py:59-70 | passes exactly when the parsed output equals the stripped expected text, and the failures are those of the comparison |

## Left out

- The Lark grammar and the LALR parser are not modelled. The model starts from the abstract syntax. `PIDENTIFIER` becomes its text and `NUM` a natural number, as the token handlers make them.
- A numeric literal longer than the interpreter's limit on converting text to an integer (4300 digits on CPython 3.11 and later) makes `int(token)` at transpiler.py:109 raise, so translation fails. That error path is not modelled: every literal is a natural number here.
- The command-line driver's argument parsing, file reading and printing are I/O and are left out. Its exit status is modelled as a function of the transformed program.
- The `input()` and `print` calls inside generated programs are runtime I/O of those programs. Only their text is modelled.
- Executing the generated Python is not modelled, beyond the prelude's meaning and the `range` schedules of the `for` loops.
- `CompilerTestRunner`, `VMRunner` and `test_programs` are not part of this model: they are subprocess calls, directory listings and an external VM.
- `validate` reads its expected text from a file. Here that text is a parameter.
- A failing assertion in `validate` is modelled as a `Verdict` value. It carries the same counts, line number and texts as the assertion message.
- `_parse_vm_output` and `validate` are modelled as methods of a module. `VMOutputValidator` has no state, so no class is needed.
- Parameter tags `T`/`I`/`O` are carried in the abstract syntax. The generator drops them, as the code does.
- Identifiers that are Python keywords, and name clashes with the prelude, are not excluded by the leaf rule. The model does not examine them either.
- Driver.PostOrder: the handler order is modelled at the level of commands only. The handlers of values, expressions and conditions change no flag and are not listed.
- The model carries no `SmartArray` `int(...)` conversion. Indices and bounds are already integers here.

## Findings

| source | as written | input that shows it | evidently intended | confidence | as-written member | corrected member |
|---|---|---|---|---|---|---|
| transpiler.py:170 | the array case of `read_cmd` emits `name.set(int(input()), index)`, with `set`'s arguments reversed relative to `assign` at line 160 | `READ t[3];` emits `t.set(int(input()), 3)`: the number typed in selects the cell and 3 is stored | `t.set(3, int(input()))`, storing the input into `t[3]` | high (not executed) | Lowering.ReadAsWritten | Lowering.ReadRoundTrip |
| transpiler.py:167 | `hasread = True` inside `read_cmd` binds a local, so the module-level flag of line 5 never changes and line 248 always exits with 0 | the program `READ x;` with one scalar `x` reads input, yet the driver exits with 0 | with `global hasread`, the driver exits with 1 exactly when the program reads input | high (not executed) | Driver.ExitStatusAlwaysZero | Driver.ExitStatusIntended |
