# Advent of Code solutions: Intcode, keypad, passports and orbits

This project models four pieces of a multi-language Advent of Code
repository and proves properties of each model in Dafny.

- **Intcode** (`intcode.dfy`, from `lib/intcode.js`). This is the
  virtual machine that several 2019 puzzles share. A state holds the
  memory, the instruction pointer and the relative base.
  - `getCommandCode` and `getModes` decode an opcode.
  - `getArgs` resolves operands in pointer, immediate and relative mode.
  - Nine handlers execute commands 1 to 9.
  - `runCode` loops until it fetches the word 99, which returns
    `mem[0]`, or meets a code with no handler, which returns -1.
  - The machine is a class over `(mem, pointer, base)` whose `Run` loop
    is proved equal to a functional `Exec`. The awaited input and output
    become a trace of events.
- **Keypad** (`keypad.dfy`, from `rust/src/bin/2016_02.rs`). Lines of
  `L`/`R`/`U`/`D` moves walk a finger over a keypad, and each line's
  final key is one digit of the door code.
  - Part one uses the 3×3 grid of keys 1 to 9.
  - Part two uses the diamond pad of keys 1 to 9 and A to D.
  - The `Solution` struct is a class with an `instructions` field, filled
    by `Init` and read by `PartOne` and `PartTwo`.
- **Passports** (`passports.dfy`, from
  `pkg/2020/solutions/day04/day04.go`).
  - `Init` folds a batch of lines into one map per passport. A blank
    line ends a passport, and a later `key:value` pair overrides an
    earlier one.
  - `Part1` counts the passports that have enough fields.
  - `Part2` counts the passports that `validate` accepts. It checks
    three year ranges, a height with unit, a hex colour, an eye colour
    and a nine-digit id.
  - Go's `strconv.Atoi` and the four anchored regular expressions are
    modelled as functions and predicates.
- **Orbits** (`orbits.dfy`, from `lib/days/06.js`).
  - `joinOrbitCounts` adds two count maps key by key.
  - `calcOrbitCounts` maps every body that orbits `start`, directly or
    not, to a positive count. Each satellite `d` of `start` contributes
    the counts of its own subtree, each raised by one, with `d` itself
    set to 1. The contributions of all satellites are added key by key.
  - When every body has one parent, a body's count is the length of the
    orbit path from `start` to it. On a graph where a body has two
    parents, the count is not a path measure in general.
  - Part one of the puzzle sums those counts from `COM`.
  - It is proved that a body is counted exactly when it is reachable
    (`CountedIffReachable`), and that its count is the length of the
    unique path when every body has one parent (`CountIsDistance`).
  - The sum is decomposed over the children.

`text.dfy` holds the sequence splitting shared by the keypad's
`str::lines` and the passport parser's `strings.Split`, and the decimal
rendering of Rust's `to_string`.

Where the code departs from the puzzle's statement (the opcode table of
the Intcode puzzles, the diamond layout of the keypad), the model follows
the code:

- A negative opcode has a negative (or zero) command code and stops the
  run with -1.
- Command code 99 has no handler. Only the exact word 99 halts, so 199
  or 1099 ends the run with -1.
- On the diamond pad, `R` on key 8 stays on 8, as the match arm at
  `rust/src/bin/2016_02.rs:52` says, although 9 lies to its right.
  `Keypad.RightOfEightStays` records this.

## Model

| member | source | states |
|---|---|---|
| Text.Split | pkg/2020/solutions/day04/day04.go:35-37 | `strings.Split` with a one-element separator: at least one piece, and no piece holds the separator |
| Text.JoinSplit | pkg/2020/solutions/day04/day04.go:35 | splitting loses nothing: joining the pieces with the separator gives the input back |
| Text.SplitJoin | pkg/2020/solutions/day04/day04.go:35 | splitting undoes joining separator-free pieces |
| Text.SplitCount | pkg/2020/solutions/day04/day04.go:37-38 | the number of pieces is one more than the number of separators, so a pair with one ':' has exactly two |
| Text.SplitHasSecond | pkg/2020/solutions/day04/day04.go:37-38 | `keyValue[1]` exists exactly when the pair holds a ':' |
| Text.DropFinalEmpty | rust/src/bin/2016_02.rs:105 | `str::lines` drops the empty piece after a final line ending: the result is a prefix, one shorter exactly when the last piece is empty; joined back it lacks exactly that final separator, and it is the input when nothing was dropped |
| Text.Decimal | rust/src/bin/2016_02.rs:122 | `to_string` of an unsigned key: a non-empty string of decimal digits, one digit exactly for values below 10 |
| Text.DigitsValueDecimal | rust/src/bin/2016_02.rs:122 | reading the printed numeral back gives the number |
| Intcode.TruncRem | lib/intcode.js:36 | JavaScript `%`: the remainder is smaller than the divisor in magnitude and has the dividend's sign |
| Intcode.TruncQuot | lib/intcode.js:39-41 | `(a / b) \| 0`: the truncated quotient that goes with that remainder |
| Intcode.CommandCode | lib/intcode.js:36 | `opcode % 100`: in -99..99, the opcode minus 100 times its truncated quotient, with the opcode's sign |
| Intcode.Modes | lib/intcode.js:38-42 | three mode digits, each in -9..9 and non-negative for a non-negative opcode |
| Intcode.DecodeDigits | lib/intcode.js:36-42 | an opcode below 100000 is its command code plus its modes as the hundreds, thousands and ten-thousands digits |
| Intcode.WithImmediate | lib/intcode.js:51 | `mode \| MODE_IMMEDIATE` sets the immediate bit, keeps the relative bit, and changes nothing on an immediate mode |
| Intcode.GetArgs | lib/intcode.js:18-34 | one value per operand: an unset raw word gives 0; otherwise the raw word plus the base when relative, taken as is when immediate, or the cell it names (0 if unset) |
| Intcode.DestinationNotDereferenced | lib/intcode.js:51 | a destination operand resolves to its literal (base-shifted) address, never to the cell's content |
| Intcode.RelativeIsShiftedPointer | lib/intcode.js:21 | a relative operand o with base k reads the cell that a pointer operand k + o reads |
| Intcode.ImmediateIsPointerToValue | lib/intcode.js:24-30 | an immediate operand w equals a pointer operand that names a cell holding w |
| Intcode.Operand | lib/intcode.js:18-34 | no contract of its own; `GetArgs`, `RelativeIsShiftedPointer` and `ImmediateIsPointerToValue` state how it resolves each mode |
| Intcode.WriteAddress | lib/intcode.js:18-34 | no contract of its own; `DestinationNotDereferenced` states that it is the literal, base-shifted address |
| Intcode.Step | lib/intcode.js:36-124 | no contract of its own; `StepHalts`, `StepFails`, `StepFailsOnMalformed`, `StepWritesDestination`, `CompareWritesFlag`, `StepInputOutput` and `StepControl` state its effect per command code |
| Intcode.StepHalts | lib/intcode.js:132 | a step halts exactly when the fetched word is 99, and its value is `mem[0]` (0 when unset) |
| Intcode.StepFails | lib/intcode.js:136-139 | a step fails exactly when the fetch is unset, or the word is not 99 and its command code is not 1 to 9 |
| Intcode.StepFailsOnMalformed | lib/intcode.js:132-139 | negative opcodes, and words other than 99 whose code is 99, fail |
| Intcode.StepWritesDestination | lib/intcode.js:45-64 | codes 1, 2, 7 and 8 write a + b, a * b, a < b or a == b at the literal destination and advance by 4 |
| Intcode.CompareWritesFlag | lib/intcode.js:101-120 | codes 7 and 8 write only 0 or 1, and 1 iff the comparison holds |
| Intcode.StepInputOutput | lib/intcode.js:65-80 | code 3 awaits a value for its literal destination and code 4 emits its operand; both advance by 2 |
| Intcode.StepControl | lib/intcode.js:81-124 | codes 5 and 6 jump to b iff a is non-zero, resp. zero, else advance by 3; code 9 advances by 2 and adds a to the base; none of them writes memory |
| Intcode.Exec | lib/intcode.js:132-149 | no contract of its own; `ExecConsumesPrefix`, `ExecStopsWhereStepSays`, `ExecKeepsCells`, `HaltedRunReadsCellZero` and `Machine.Run` state what a run does |
| Intcode.Resume | lib/intcode.js:140-147 | no contract of its own; it is the rest of `Exec` after one step, and `Machine.Execute` states that the loop iteration does the same |
| Intcode.Produced | lib/intcode.js:76-80 | the outputs of a trace, in order, never more than its events; `ProducedPrepend` states that it walks the trace from the front |
| Intcode.ProducedPrepend | lib/intcode.js:76-80 | an event in front of a trace adds its value to the outputs exactly when it is an output |
| Intcode.ExecConsumesPrefix | lib/intcode.js:73 | a run reads its inputs in order, a prefix of the input sequence, and all of it when it stops for more |
| Intcode.ExecStopsWhereStepSays | lib/intcode.js:132-149 | a run halts only on 99 with `mem[0]`, fails only where a step fails and then immediately without effect, and stops for input only at an input instruction |
| Intcode.ExecKeepsCells | lib/intcode.js:53 | memory only grows along a run |
| Intcode.HaltedRunReadsCellZero | lib/intcode.js:149 | a halted run's value is the word stored at address 0, and the program was not empty |
| Intcode.Machine.constructor | lib/intcode.js:128-130 | memory is a copy of the program, pointer and base are 0 |
| Intcode.Machine.WriteResult | lib/intcode.js:45-64 | the handlers of codes 1, 2, 7 and 8 move the machine to the state Step gives |
| Intcode.Machine.StoreInput | lib/intcode.js:65-75 | the input handler writes the arrived value where Step says and advances by 2 |
| Intcode.Machine.EmitOutput | lib/intcode.js:76-80 | the output handler emits what Step emits |
| Intcode.Machine.Control | lib/intcode.js:81-100 | the jump and base handlers move the machine to the state Step gives |
| Intcode.Machine.Execute | lib/intcode.js:132-147 | one loop iteration either stops the run with the outcome `Exec` gives, or executes one instruction and leaves exactly the rest of the run `Exec` gives |
| Intcode.Machine.Run | lib/intcode.js:132-148 | the imperative loop's outcome, trace and final state are those of `Exec` for every program, input and fuel |
| Intcode.RunCode | lib/intcode.js:127-150 | resolves to `mem[0]` on halting and to the sentinel -1 on an unknown code, with the trace of `Exec` |
| Intcode.AddMulProgramHalts | lib/intcode.js:45-64 | the program `1,9,10,3,2,3,11,0,99,30,40,50` halts with 3500 and no I/O |
| Intcode.MulImmediateProgramHalts | lib/intcode.js:55-64 | `1002,4,3,4,33` writes 99 over its own operand and halts |
| Intcode.EchoProgram | lib/intcode.js:65-80 | `3,0,4,0,99` reads v, emits v and halts with v |
| Intcode.RelativeWritePastEnd | lib/intcode.js:18-34 | `109,10,21101,1,2,0,204,0,99` moves the base to 10, writes 3 past the program's end through a relative destination, emits it and halts |
| Intcode.EchoLoopEchoes | lib/intcode.js:65-100 | the loop `3,7,4,7,1105,1,0` emits every input it is given, in order, and then waits for more |
| Intcode.EchoLoopProgram | lib/intcode.js:65-100 | any program that starts with that loop echoes its whole input and then waits for more |
| Intcode.UnknownOpcodeFails | lib/intcode.js:137-139 | opcode 5000 (code 0) ends the run with the sentinel and no output |
| Keypad.Apply | rust/src/bin/2016_02.rs:12-31 | a move from a key of the 3×3 grid stays on the grid |
| Keypad.ApplyIsGridMove | rust/src/bin/2016_02.rs:12-31 | on keys 1 to 9, `apply` is the clamped row/column move of the 3×3 grid: L/R keep the row, U/D keep the column |
| Keypad.EdgeMovesStay | rust/src/bin/2016_02.rs:14-29 | moving off an edge leaves the finger where it was |
| Keypad.ApplyExt | rust/src/bin/2016_02.rs:33-80 | from a diamond key every move lands on a diamond key; any other character is left as it is |
| Keypad.ApplyExtIsDiamondMove | rust/src/bin/2016_02.rs:33-80 | on every diamond key but the pair (R, 8), `apply_ext` is the move one cell over on the diamond layout, or no move at its border |
| Keypad.RightOfEightStays | rust/src/bin/2016_02.rs:52 | R from 8 stays on 8 although the layout has 9 to its right |
| Keypad.FromChar | rust/src/bin/2016_02.rs:82-90 | `from_char` inverts the move letter; other characters panic, so they are excluded |
| Keypad.FromCharLetter | rust/src/bin/2016_02.rs:82-90 | the letter of a move parses back to that move |
| Keypad.TrimStartMeaning | rust/src/bin/2016_02.rs:106 | `trim` removes the longest whitespace prefix: the rest is a suffix that does not start with whitespace |
| Keypad.TrimEndMeaning | rust/src/bin/2016_02.rs:106 | `trim` removes the longest whitespace suffix: the rest is a prefix that does not end with whitespace |
| Keypad.LinesInverse | rust/src/bin/2016_02.rs:105 | `lines` yields pieces without line breaks that join back to the input, with or without its final line break |
| Keypad.Trim | rust/src/bin/2016_02.rs:106 | no contract of its own; `TrimStartMeaning` and `TrimEndMeaning` state what its two halves remove |
| Keypad.Lines | rust/src/bin/2016_02.rs:105 | no contract of its own; `LinesInverse` states that its pieces hold no line break and join back to the input |
| Keypad.MovesOf | rust/src/bin/2016_02.rs:106 | one move per character of the trimmed line, in order, each spelling that character |
| Keypad.MovesOfLines | rust/src/bin/2016_02.rs:105-108 | one move list per line, in order, each the moves of that line |
| Keypad.Walk | rust/src/bin/2016_02.rs:117-120 | a walk over the grid ends on a key 1 to 9 |
| Keypad.Code | rust/src/bin/2016_02.rs:112-124 | one key per line, each 1 to 9 |
| Keypad.CodeChains | rust/src/bin/2016_02.rs:117-121 | each line's walk starts where the previous line's walk ended, the first at the start key |
| Keypad.WalkExt | rust/src/bin/2016_02.rs:134-137 | a walk from a diamond key never leaves the diamond pad |
| Keypad.CodeExt | rust/src/bin/2016_02.rs:129-141 | one key per line, and from a diamond start key every one is a diamond key |
| Keypad.CodeExtChains | rust/src/bin/2016_02.rs:134-138 | each diamond walk starts where the previous one ended, the first at the start key |
| Keypad.Render | rust/src/bin/2016_02.rs:122-124 | no contract of its own; `RenderDigits` states what it spells |
| Keypad.RenderDigits | rust/src/bin/2016_02.rs:122-124 | the rendered code has one decimal digit per key, spelling that key |
| Keypad.ExampleKeys | rust/src/bin/2016_02.rs:158-162 | the puzzle's sample moves give keys 1, 9, 8, 5 from key 5 |
| Keypad.ExampleCode | rust/src/bin/2016_02.rs:162 | part one of the sample is "1985" |
| Keypad.ExampleCodeExt | rust/src/bin/2016_02.rs:163 | part two of the sample is "5DB3" |
| Keypad.Solution.constructor | rust/src/bin/2016_02.rs:98-102 | a new solution has no instructions |
| Keypad.Solution.Init | rust/src/bin/2016_02.rs:104-109 | appends the move lists of the input's lines, in order, after the instructions already held |
| Keypad.Solution.PartOne | rust/src/bin/2016_02.rs:111-126 | the loop yields the rendered grid code from key 5, one digit per line |
| Keypad.Solution.PartTwo | rust/src/bin/2016_02.rs:128-143 | the loop yields the diamond code from key '5', every character a diamond key |
| Keypad.WalkLine | rust/src/bin/2016_02.rs:117-120 | the inner loop ends on the key the walk function gives |
| Keypad.WalkLineExt | rust/src/bin/2016_02.rs:134-137 | the inner loop ends on the diamond key the walk function gives |
| Passports.Key | pkg/2020/solutions/day04/day04.go:37-38 | `keyValue[0]` is the text before the pair's first ':' |
| Passports.Val | pkg/2020/solutions/day04/day04.go:37-38 | `keyValue[1]` holds no ':' |
| Passports.ValPosition | pkg/2020/solutions/day04/day04.go:37-38 | `keyValue[1]` is the text right after the first ':', up to the second ':' or the end of the pair |
| Passports.JoinSecondPiece | pkg/2020/solutions/day04/day04.go:37-38 | the second piece of a split sits right after the first separator and ends at the next separator or the end |
| Passports.Pairs | pkg/2020/solutions/day04/day04.go:36-39 | no contract of its own; `PairsLastWins` states which keys it sets and to what |
| Passports.Record | pkg/2020/solutions/day04/day04.go:35-40 | no contract of its own; `Records` and `Solution.Init` (through `LineStep`) tie it to the lines of one group |
| Passports.Batch | pkg/2020/solutions/day04/day04.go:24-46 | no contract of its own; `BatchSize`, `BatchOfGroups` and `Solution.Init` state its length and that it is the batch the loop builds |
| Passports.PairsLastWins | pkg/2020/solutions/day04/day04.go:36-39 | a key is in the passport iff it was there or some pair names it; the last pair naming it sets its value; untouched keys keep theirs |
| Passports.Records | pkg/2020/solutions/day04/day04.go:24-46 | one passport per group of lines, each folded from that group |
| Passports.Groups | pkg/2020/solutions/day04/day04.go:28-44 | groups are the runs of lines between blank lines, and every line of one holds well-formed pairs |
| Passports.BatchSize | pkg/2020/solutions/day04/day04.go:29-44 | the number of passports is the number of blank lines, plus one when the last line is not blank |
| Passports.TrailingBlankLine | pkg/2020/solutions/day04/day04.go:42-44 | one more blank line after a non-blank last line changes nothing |
| Passports.EnoughFieldsIffRequired | pkg/2020/solutions/day04/day04.go:52-55 | the size rule accepts every passport with the seven required fields, and over the eight known fields accepts exactly those |
| Passports.HasEnoughFields | pkg/2020/solutions/day04/day04.go:52-53 | no contract of its own; `EnoughFieldsIffRequired` states what it accepts |
| Passports.CountComplete | pkg/2020/solutions/day04/day04.go:50-57 | the count is at most the number of passports |
| Passports.Atoi | pkg/2020/solutions/day04/day04.go:73 | `strconv.Atoi` with its error dropped: an int64, and 0 for anything but an optional sign and decimal digits |
| Passports.AtoiDecimal | pkg/2020/solutions/day04/day04.go:73 | a printed number reads back as itself, clamped to the int64 maximum |
| Passports.YearInMeaning | pkg/2020/solutions/day04/day04.go:73-88 | a year passes only if it is a numeral; a missing year fails; a printed year n passes iff lo <= n <= hi |
| Passports.HeightMatch | pkg/2020/solutions/day04/day04.go:12 | a match splits the value into one or more digits and a unit "cm" or "in" |
| Passports.HeightMatchComplete | pkg/2020/solutions/day04/day04.go:12 | every digits-then-unit string matches, with exactly those groups |
| Passports.HeightOkMeaning | pkg/2020/solutions/day04/day04.go:91-100 | a passing height ends in a unit; n cm passes iff 150 <= n <= 193, and n in iff 59 <= n <= 76 |
| Passports.HeightOk | pkg/2020/solutions/day04/day04.go:90-100 | no contract of its own; `HeightOkMeaning` and `ExampleHeights` state what it accepts |
| Passports.IsHexColor | pkg/2020/solutions/day04/day04.go:13 | no contract of its own; `ExampleCodes` and `EmptyFailsChecks` show a colour it accepts and one it rejects |
| Passports.IsEyeColor | pkg/2020/solutions/day04/day04.go:14 | no contract of its own; `ExampleCodes` and `EmptyFailsChecks` show a colour it accepts and one it rejects |
| Passports.IsPassportId | pkg/2020/solutions/day04/day04.go:15 | no contract of its own; `ExampleCodes` and `EmptyFailsChecks` show an id it accepts and one it rejects |
| Passports.Validate | pkg/2020/solutions/day04/day04.go:71-118 | no contract of its own; `ValidFieldsPresent`, `ValidHasRequired` and `EmptyFailsChecks` state what it demands |
| Passports.EmptyFailsChecks | pkg/2020/solutions/day04/day04.go:71-115 | every field check rejects the empty value a missing field reads as |
| Passports.ValidFieldsPresent | pkg/2020/solutions/day04/day04.go:71-118 | a valid passport has all seven required fields |
| Passports.ValidHasRequired | pkg/2020/solutions/day04/day04.go:52-55 | a valid passport also satisfies the size rule |
| Passports.CountValid | pkg/2020/solutions/day04/day04.go:62-68 | the count is at most the number of passports |
| Passports.ValidAreComplete | pkg/2020/solutions/day04/day04.go:49-69 | part two never counts more passports than part one |
| Passports.ExampleHeights | pkg/2020/solutions/day04/day04.go:91-100 | "60in" and "190cm" pass, "190in" and "190" fail |
| Passports.ExampleYears | pkg/2020/solutions/day04/day04.go:73-88 | 1980, 2012 and 2030 pass the birth, issue and expiration ranges |
| Passports.ExampleCodes | pkg/2020/solutions/day04/day04.go:13-15 | "#623a2f", "grn" and "087499704" pass the colour, eye and id patterns |
| Passports.ExampleValid | pkg/2020/solutions/day04/day04.go:71-118 | a sample passport with all fields in range is valid |
| Passports.AddPairs | pkg/2020/solutions/day04/day04.go:35-39 | the inner loop adds one line's pairs to the passport as the fold does |
| Passports.Solution.constructor | pkg/2020/solutions/day04/day04.go:19-21 | a new solution holds no passports |
| Passports.Solution.Init | pkg/2020/solutions/day04/day04.go:24-46 | the loop stores exactly the batch of passports the input's groups give |
| Passports.Solution.Part1 | pkg/2020/solutions/day04/day04.go:49-58 | counts the passports with enough fields |
| Passports.Solution.Part2 | pkg/2020/solutions/day04/day04.go:61-69 | counts the passports that pass validation |
| Orbits.JoinOrbitCounts | lib/days/06.js:11-19 | the keys are those of either map, and each count is the sum of both maps' counts (0 when absent) |
| Orbits.JoinIdentity | lib/days/06.js:32 | the empty map `{}` that the reduce starts from is a unit of the join |
| Orbits.JoinCommutes | lib/days/06.js:11-19 | the join does not depend on the order of its arguments |
| Orbits.CalcOrbitCounts | lib/days/06.js:21-32 | every count is at least 1, and a body with no satellites has none |
| Orbits.Branch | lib/days/06.js:23-30 | a satellite counts one orbit, and every other body in its subtree at least 1 |
| Orbits.SumChildren | lib/days/06.js:22-32 | the reduce over the satellites has counts of at least 1 and is empty when there are none |
| Orbits.CountedIffReachable | lib/days/06.js:21-32 | a body is counted from `start` exactly when a path of orbits leads to it |
| Orbits.NoCycle | lib/days/06.js:21-32 | on a ranked graph, the one the model asks for, no body orbits itself |
| Orbits.UniquePath | lib/days/06.js:21-32 | when every body has one parent, two orbit paths with the same ends are equal |
| Orbits.CountIsDistance | lib/days/06.js:21-32 | when every body has one parent, a body's count is the length of the path to it |
| Orbits.Total | lib/days/06.js:38 | no contract of its own; `TotalJoin`, `TotalShift` and `TotalAtLeastSize` state how it sums a count map |
| Orbits.TotalJoin | lib/days/06.js:11-19 | the sum of a join is the sum of the sums |
| Orbits.TotalShift | lib/days/06.js:25-28 | adding one to every count adds the number of keys to the sum |
| Orbits.TotalBranch | lib/days/06.js:23-30 | a satellite contributes its subtree's total, one per body of its subtree, and one for itself |
| Orbits.TotalSumChildren | lib/days/06.js:22-32 | the total grows by each satellite's contribution |
| Orbits.TotalAtLeastSize | lib/days/06.js:38 | a sum of counts of at least one is at least the number of counts, and 0 only for the empty map |
| Orbits.Part1 | lib/days/06.js:38 | the orbit total from COM is at least the number of bodies orbiting it, and 0 exactly when none does |

## Left out

- The Intcode input and output callbacks are not modelled as awaited
  callbacks. Inputs come as a sequence, and the run stops in
  `AwaitingInput` when that sequence is exhausted.
- The 16-word relative-base quine of the Intcode puzzles is not among
  the example runs: a proof by concrete evaluation of its steps costs
  far more than the other examples. `Intcode.RelativeWritePastEnd` and
  `Intcode.EchoLoopEchoes` cover relative mode and output instead.
- Intcode's `Run`, `RunCode` and `Exec` take a fuel bound on executed
  instructions, so a run that never halts ends in `OutOfFuel`.
- Intcode words are unbounded integers. Doubles lose precision above
  2^53, and `| 0` wraps quotients at 32 bits. Neither is modelled:
  `Intcode.TruncQuot` is exact, so it differs from `| 0` for quotients
  beyond 32 bits.
- `Intcode.GetArgs` reads operand i at `pointer + 1 + i`. `slice` with a
  pointer of -2 or less counts from the array's end, and that is not
  modelled.
- `update` of `lib/util` is not part of this model. It is assumed to
  return the memory with one cell replaced. Likewise `range`.
- Intcode memory is a map from address to word. A JavaScript write far
  past the end leaves holes that read as `undefined`; here those
  addresses are simply unset, which reads the same.
- `Keypad.Apply`: Rust's `u8` overflow panics from keys outside 1 to 9
  become a precondition. The solution only ever passes keys 1 to 9.
- `Keypad.FromChar`: the panic on a character other than L, R, U or D
  is a precondition of `Init` (WellFormed), not a modelled error path.
- `Keypad.Lines`: the `\r` that `str::lines` strips before `\n` is left
  in the line. It is then removed by `trim`, so the moves are the same.
- The Rust `main`, the `Solution` trait's `run_on_stdin`, and the sample
  file read by `include_str!` are not modelled. The sample's moves are
  written out as `Keypad.ExampleMoves`.
- `Passports.Solution.Init`: a pair without ':' makes Go index
  `keyValue[1]` out of range and panic. That panic is the precondition
  `BatchOk`.
- `Passports.Atoi` is weaker than Go's `strconv.Atoi` in one case. When
  a digit run overflows uint64 and is followed by a non-digit, Go stops
  at the overflow and returns the clamped value, and the model returns 0.
  A run that overflows only int64 before a non-digit gives 0 in both. Both fail every range
  check in `validate`, so `Validate` is unaffected.
- The Go regular-expression engine is not modelled. The four patterns
  are predicates: `IsHexColor`, `IsEyeColor`, `IsPassportId` and
  `HeightMatch`. They follow Go's semantics, where `$` matches only at
  the end of text and `\d` is ASCII.
- `Passports.Validate` has no postcondition of its own. It is the
  conjunction of the checks in source order, and its properties are the
  lemmas `ValidHasRequired`, `ValidFieldsPresent` and `EmptyFailsChecks`.
- Orbits part two (`createGraph`, `joinGraphs` and `calcDist`) is not
  part of this model, and neither is the edge parsing of `run`. Those
  helpers are in `lib/util`, which is not part of the model. The graph
  is taken as given.
- `Orbits.CalcOrbitCounts`: requires a rank that decreases along every
  orbit of the whole graph, which is stronger than the source. The source
  only stops on a cycle reachable from `start`; a cycle elsewhere in the
  graph does not affect it but is excluded here.
- JavaScript object keys that hit prototype properties (such as
  `"constructor"`) are not modelled. Graph and counts are plain maps.
- `Orbits.Part1` is a ghost function. `sum` and `values` of `lib/util`
  are not part of this model, and the sum over a map's values is defined
  by picking keys.
- `Orbits.JoinOrbitCounts`: associativity of the join is not proved.
  The reduce applies it left to right, and `SumChildren` follows that
  order.
- `run.js`, the command-line driver, is not modelled.
