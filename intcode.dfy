/** The Intcode virtual machine of lib/intcode.js.

    A machine state is the memory, the instruction pointer and the relative
    base. The source keeps memory in a JavaScript array that grows on
    demand; here it is a map from address to word, and an address missing
    from the map is JavaScript's `undefined`. Operand reads turn `undefined`
    into 0 (`|| 0`), but the opcode fetch does not: fetching from an unset
    address yields `undefined % 100`, which is NaN, names no handler, and
    makes the run fail.

    The awaited `input()` and `output(v)` calls of the source become events
    of a trace: inputs come from a sequence given up front, a run stops
    (AwaitingInput) when that sequence is exhausted, and a fuel bound on the
    number of executed instructions stands in for a run that does not
    terminate. */
module Intcode {

  type Memory = map<int, int>

  const CmdSum := 1
  const CmdMul := 2
  const CmdInput := 3
  const CmdOutput := 4
  const CmdJumpIfTrue := 5
  const CmdJumpIfFalse := 6
  const CmdIfLess := 7
  const CmdIfEqual := 8
  const CmdChangeBase := 9
  const CmdTerminate := 99

  /** What `runCode` returns when it meets a command code without a handler. */
  const Sentinel := -1

  datatype State = State(mem: Memory, pointer: int, base: int)

  /** The memory `[...opcodes]` starts from: the program's words at
      addresses 0 to |program| - 1, nothing elsewhere. */
  function Load(program: seq<int>): (m: Memory)
    ensures forall a :: a in m <==> 0 <= a < |program|
    ensures forall a :: 0 <= a < |program| ==> m[a] == program[a]
  {
    map a | 0 <= a < |program| :: program[a]
  }

  /** The state `runCode` starts from: pointer 0, base 0. */
  function Boot(program: seq<int>): State
  {
    State(Load(program), 0, 0)
  }

  /** A memory read followed by `|| 0`: an unset cell reads as 0. */
  function Read(m: Memory, a: int): int
  {
    if a in m then m[a] else 0
  }

  // ---------------------------------------------------------------------
  // Decoder: getCommandCode and getModes

  /** JavaScript's `%` on integers, which truncates toward zero: the
      remainder is smaller than the divisor in magnitude, has the sign of
      the dividend, and differs from it by a multiple of the divisor. */
  function TruncRem(a: int, b: int): (r: int)
    requires b > 0
    ensures -b < r < b
    ensures a >= 0 ==> r >= 0
    ensures a <= 0 ==> r <= 0
  {
    if a >= 0 then a % b else -((-a) % b)
  }

  /** `(a / b) | 0` for a quotient within 32 bits: division truncated
      toward zero, the quotient that goes with TruncRem. */
  function TruncQuot(a: int, b: int): (q: int)
    requires b > 0
    ensures a == b * q + TruncRem(a, b)
  {
    if a >= 0 then a / b else -((-a) / b)
  }

  /** `getCommandCode`: the opcode's last two decimal digits, negative
      (or zero) for a negative opcode. */
  function CommandCode(opcode: int): (c: int)
    ensures -100 < c < 100
    ensures opcode == 100 * TruncQuot(opcode, 100) + c
    ensures opcode >= 0 ==> 0 <= c
    ensures opcode < 0 ==> c <= 0
  {
    TruncRem(opcode, 100)
  }

  /** `getModes`: the hundreds, thousands and ten-thousands digits. */
  function Modes(opcode: int): (ms: seq<int>)
    ensures |ms| == 3
    ensures forall i :: 0 <= i < 3 ==> -10 < ms[i] < 10
    ensures opcode >= 0 ==> forall i :: 0 <= i < 3 ==> 0 <= ms[i]
  {
    [TruncRem(TruncQuot(opcode, 100), 10),
     TruncRem(TruncQuot(opcode, 1000), 10),
     TruncRem(TruncQuot(opcode, 10000), 10)]
  }

  /** An opcode below 100000 is its command code plus its three mode digits
      in the hundreds, thousands and ten-thousands places. */
  lemma DecodeDigits(opcode: int)
    requires 0 <= opcode < 100000
    ensures var ms := Modes(opcode);
            opcode == CommandCode(opcode) + 100 * ms[0] + 1000 * ms[1] + 10000 * ms[2]
  {
    var d := opcode % 100;
    var q1 := opcode / 100;
    var q2 := q1 / 10;
    var q3 := q2 / 10;
    assert opcode == 100 * q1 + d;
    assert q1 == 10 * q2 + q1 % 10;
    assert q2 == 10 * q3 + q2 % 10;
    assert q3 < 10;
    assert opcode == 1000 * q2 + (100 * (q1 % 10) + d);
    assert opcode / 1000 == q2;
    assert opcode == 10000 * q3 + (1000 * (q2 % 10) + 100 * (q1 % 10) + d);
    assert opcode / 10000 == q3;
  }

  /** `mode & MODE_RELATIVE` is nonzero. Dafny's `/` and `%` by a positive
      divisor floor, so they give the two's complement bits `&` reads. */
  predicate IsRelative(mode: int)
  {
    (mode / 2) % 2 == 1
  }

  /** `mode & MODE_IMMEDIATE` is nonzero. */
  predicate IsImmediate(mode: int)
  {
    mode % 2 == 1
  }

  /** `mode | MODE_IMMEDIATE`: sets the immediate bit, keeps the relative bit. */
  function WithImmediate(mode: int): (r: int)
    ensures IsImmediate(r)
    ensures IsRelative(r) <==> IsRelative(mode)
    ensures IsImmediate(mode) ==> r == mode
  {
    if mode % 2 == 1 then mode else mode + 1
  }

  // ---------------------------------------------------------------------
  // Operand resolver: getArgs

  /** The `i`-th value `getArgs` produces for the instruction at `pointer`.
      The raw word is at `pointer + 1 + i`. When it is unset, `slice` gives
      `undefined`, adding `base` gives NaN, and both `NaN || 0` and
      `mem[NaN] || 0` are 0. */
  function Operand(m: Memory, pointer: int, base: int, mode: int, i: int): int
  {
    var src := pointer + 1 + i;
    if src !in m then 0
    else
      var address := m[src] + (if IsRelative(mode) then base else 0);
      if IsImmediate(mode) then address else Read(m, address)
  }

  /** `getArgs`: one value per requested operand, built by the loop of the
      source. A relative mode adds `base` to the raw word; an immediate mode
      takes that sum as the value; otherwise the value is the cell at that
      sum; an unset raw word or cell contributes 0. */
  method GetArgs(m: Memory, pointer: int, count: nat, base: int, modes: seq<int>)
    returns (args: seq<int>)
    requires count <= |modes|
    ensures |args| == count
    ensures forall i :: 0 <= i < count && pointer + 1 + i !in m ==> args[i] == 0
    ensures forall i :: 0 <= i < count && pointer + 1 + i in m ==>
              var address := m[pointer + 1 + i] + (if IsRelative(modes[i]) then base else 0);
              args[i] == if IsImmediate(modes[i]) then address else Read(m, address)
    ensures forall i :: 0 <= i < count ==> args[i] == Operand(m, pointer, base, modes[i], i)
  {
    args := [];
    for i := 0 to count
      invariant |args| == i
      invariant forall k :: 0 <= k < i ==> args[k] == Operand(m, pointer, base, modes[k], k)
    {
      var src := pointer + 1 + i;
      var value := 0;
      if src in m {
        var pArg := m[src] + (if IsRelative(modes[i]) then base else 0);
        if IsImmediate(modes[i]) {
          value := pArg;
        } else if pArg in m {
          value := m[pArg];
        }
      }
      args := args + [value];
    }
  }

  /** The address a destination operand names: the raw word, plus `base`
      when relative, and 0 when the raw word is unset. It is never
      dereferenced. */
  function WriteAddress(s: State, mode: int, i: int): int
  {
    var src := s.pointer + 1 + i;
    if src in s.mem then s.mem[src] + (if IsRelative(mode) then s.base else 0) else 0
  }

  /** A destination operand: resolved with the immediate bit forced on, as
      the handlers of codes 1, 2, 3, 7 and 8 do. */
  lemma DestinationNotDereferenced(s: State, mode: int, i: int)
    ensures Operand(s.mem, s.pointer, s.base, WithImmediate(mode), i) == WriteAddress(s, mode, i)
  {
  }

  /** Relative addressing with base k at raw word o reads the same cell as
      pointer addressing at raw word k + o. */
  lemma RelativeIsShiftedPointer(m: Memory, pointer: int, base: int, o: int, i: int)
    requires base + o != pointer + 1 + i
    ensures Operand(m[pointer + 1 + i := o], pointer, base, 2, i)
         == Operand(m[pointer + 1 + i := base + o], pointer, 0, 0, i)
  {
  }

  /** An immediate operand w gives the same value as a pointer operand that
      names a cell holding w. */
  lemma ImmediateIsPointerToValue(m: Memory, pointer: int, base: int, i: int, a: int, w: int)
    requires a != pointer + 1 + i
    requires a in m && m[a] == w
    ensures Operand(m[pointer + 1 + i := w], pointer, base, 1, i)
         == Operand(m[pointer + 1 + i := a], pointer, base, 0, i)
  {
  }

  // ---------------------------------------------------------------------
  // Instruction table: the `commands` handlers

  /** What one instruction does. */
  datatype Effect =
    | Continue(next: State)              // codes 1, 2, 5, 6, 7, 8, 9
    | AwaitInput(dest: int, next: State) // code 3: the input is written at dest of next
    | Emit(value: int, next: State)      // code 4
    | Halt(result: int)                  // word 99: the run returns mem[0]
    | Fail                               // no handler: the run returns -1

  function Arg(s: State, modes: seq<int>, i: int): int
    requires 0 <= i < |modes|
  {
    Operand(s.mem, s.pointer, s.base, modes[i], i)
  }

  function Dest(s: State, modes: seq<int>, i: int): int
    requires 0 <= i < |modes|
  {
    Operand(s.mem, s.pointer, s.base, WithImmediate(modes[i]), i)
  }

  function Sum(s: State, modes: seq<int>): State
    requires |modes| == 3
  {
    State(s.mem[Dest(s, modes, 2) := Arg(s, modes, 0) + Arg(s, modes, 1)], s.pointer + 4, s.base)
  }

  function Mul(s: State, modes: seq<int>): State
    requires |modes| == 3
  {
    State(s.mem[Dest(s, modes, 2) := Arg(s, modes, 0) * Arg(s, modes, 1)], s.pointer + 4, s.base)
  }

  function JumpIfTrue(s: State, modes: seq<int>): State
    requires |modes| == 3
  {
    s.(pointer := if Arg(s, modes, 0) != 0 then Arg(s, modes, 1) else s.pointer + 3)
  }

  function JumpIfFalse(s: State, modes: seq<int>): State
    requires |modes| == 3
  {
    s.(pointer := if Arg(s, modes, 0) == 0 then Arg(s, modes, 1) else s.pointer + 3)
  }

  function IfLess(s: State, modes: seq<int>): State
    requires |modes| == 3
  {
    var flag := if Arg(s, modes, 0) < Arg(s, modes, 1) then 1 else 0;
    State(s.mem[Dest(s, modes, 2) := flag], s.pointer + 4, s.base)
  }

  function IfEqual(s: State, modes: seq<int>): State
    requires |modes| == 3
  {
    var flag := if Arg(s, modes, 0) == Arg(s, modes, 1) then 1 else 0;
    State(s.mem[Dest(s, modes, 2) := flag], s.pointer + 4, s.base)
  }

  function ChangeBase(s: State, modes: seq<int>): State
    requires |modes| == 3
  {
    s.(pointer := s.pointer + 2, base := s.base + Arg(s, modes, 0))
  }

  /** One iteration of `runCode`'s loop: fetch, decode, dispatch. */
  function Step(s: State): Effect
  {
    if s.pointer !in s.mem then Fail
    else
      var opcode := s.mem[s.pointer];
      if opcode == CmdTerminate then Halt(Read(s.mem, 0))
      else
        var modes := Modes(opcode);
        var code := CommandCode(opcode);
        if code == CmdSum then Continue(Sum(s, modes))
        else if code == CmdMul then Continue(Mul(s, modes))
        else if code == CmdInput then AwaitInput(Dest(s, modes, 0), s.(pointer := s.pointer + 2))
        else if code == CmdOutput then Emit(Arg(s, modes, 0), s.(pointer := s.pointer + 2))
        else if code == CmdJumpIfTrue then Continue(JumpIfTrue(s, modes))
        else if code == CmdJumpIfFalse then Continue(JumpIfFalse(s, modes))
        else if code == CmdIfLess then Continue(IfLess(s, modes))
        else if code == CmdIfEqual then Continue(IfEqual(s, modes))
        else if code == CmdChangeBase then Continue(ChangeBase(s, modes))
        else Fail
  }

  /** The word at the pointer, when it is set. */
  predicate Fetches(s: State, word: int)
  {
    s.pointer in s.mem && s.mem[s.pointer] == word
  }

  /** The command code of the instruction at the pointer (word 99 aside). */
  predicate Runs(s: State, code: int)
  {
    s.pointer in s.mem && s.mem[s.pointer] != CmdTerminate && CommandCode(s.mem[s.pointer]) == code
  }

  /** Step halts exactly on the word 99, with mem[0] as its result. */
  lemma StepHalts(s: State)
    ensures Step(s).Halt? <==> Fetches(s, CmdTerminate)
    ensures Step(s).Halt? ==> Step(s).result == Read(s.mem, 0)
  {
  }

  /** Step fails exactly when the fetch address is unset or the word is not
      99 and its command code is not 1 to 9. */
  lemma StepFails(s: State)
    ensures Step(s).Fail? <==>
              s.pointer !in s.mem ||
              (s.mem[s.pointer] != CmdTerminate && !(1 <= CommandCode(s.mem[s.pointer]) <= 9))
  {
  }

  /** Negative opcodes have a command code of minus-something or zero and
      fail; so do words such as 199 whose code is 99 but which are not 99
      themselves, since 99 has no handler. */
  lemma StepFailsOnMalformed(s: State)
    requires s.pointer in s.mem
    requires s.mem[s.pointer] < 0 || (s.mem[s.pointer] != 99 && CommandCode(s.mem[s.pointer]) == 99)
    ensures Step(s).Fail?
  {
  }

  /** Codes 1, 2, 7 and 8 write exactly one cell, at the literal destination
      address, and advance the pointer by 4; 7 writes 1 iff a < b and 8
      writes 1 iff a == b, 0 otherwise. */
  lemma StepWritesDestination(s: State, code: int)
    requires Runs(s, code) && code in {CmdSum, CmdMul, CmdIfLess, CmdIfEqual}
    ensures var modes := Modes(s.mem[s.pointer]);
            var a, b := Arg(s, modes, 0), Arg(s, modes, 1);
            var v := if code == CmdSum then a + b
                     else if code == CmdMul then a * b
                     else if code == CmdIfLess then (if a < b then 1 else 0)
                     else (if a == b then 1 else 0);
            Step(s) == Continue(State(s.mem[WriteAddress(s, modes[2], 2) := v], s.pointer + 4, s.base))
  {
    var modes := Modes(s.mem[s.pointer]);
    DestinationNotDereferenced(s, modes[2], 2);
  }

  /** Instructions 7 and 8 only ever write 0 or 1, for all operands. */
  lemma CompareWritesFlag(s: State)
    requires Runs(s, CmdIfLess) || Runs(s, CmdIfEqual)
    ensures Step(s).Continue?
    ensures var modes := Modes(s.mem[s.pointer]);
            var flag := Step(s).next.mem[WriteAddress(s, modes[2], 2)];
            (flag == 0 || flag == 1) &&
            (flag == 1 <==> if Runs(s, CmdIfLess) then Arg(s, modes, 0) < Arg(s, modes, 1)
                            else Arg(s, modes, 0) == Arg(s, modes, 1))
  {
    DestinationNotDereferenced(s, Modes(s.mem[s.pointer])[2], 2);
  }

  /** Code 3 waits for one input to be written at its literal destination
      address; code 4 emits its operand. Both advance the pointer by 2 and
      leave memory and base unchanged until the input arrives. */
  lemma StepInputOutput(s: State)
    requires Runs(s, CmdInput) || Runs(s, CmdOutput)
    ensures var modes := Modes(s.mem[s.pointer]);
            var next := State(s.mem, s.pointer + 2, s.base);
            Step(s) == if Runs(s, CmdInput) then AwaitInput(WriteAddress(s, modes[0], 0), next)
                       else Emit(Arg(s, modes, 0), next)
  {
    DestinationNotDereferenced(s, Modes(s.mem[s.pointer])[0], 0);
  }

  /** Codes 5, 6 and 9 change no memory. Code 5 jumps to b iff a != 0 and
      code 6 iff a == 0, otherwise they advance by 3; code 9 advances by 2
      and is the only instruction that changes the base, by adding a. */
  lemma StepControl(s: State)
    requires Runs(s, CmdJumpIfTrue) || Runs(s, CmdJumpIfFalse) || Runs(s, CmdChangeBase)
    ensures Step(s).Continue? && Step(s).next.mem == s.mem
    ensures var modes := Modes(s.mem[s.pointer]);
            var a, b := Arg(s, modes, 0), Arg(s, modes, 1);
            var n := Step(s).next;
            (Runs(s, CmdJumpIfTrue) ==> n.pointer == (if a != 0 then b else s.pointer + 3) && n.base == s.base) &&
            (Runs(s, CmdJumpIfFalse) ==> n.pointer == (if a == 0 then b else s.pointer + 3) && n.base == s.base) &&
            (Runs(s, CmdChangeBase) ==> n.pointer == s.pointer + 2 && n.base == s.base + a)
  {
  }

  // ---------------------------------------------------------------------
  // Execution loop: runCode

  /** An awaited `input()` or `output(v)` call, in execution order. */
  datatype Event = In(value: int) | Out(value: int)

  datatype Outcome =
    | Halted(value: int) // fetched 99: `runCode` resolves to mem[0]
    | Failed             // no handler: `runCode` resolves to -1
    | AwaitingInput      // suspended in `await input()` with no input left
    | OutOfFuel          // still running when the fuel bound was reached

  datatype Result = Result(outcome: Outcome, trace: seq<Event>, last: State)

  function Prepend(t: seq<Event>, r: Result): Result
  {
    r.(trace := t + r.trace)
  }

  /** `runCode`'s loop from state s, executing at most `fuel` instructions. */
  function Exec(s: State, inputs: seq<int>, fuel: nat): Result
    decreases fuel, 0
  {
    if fuel == 0 then Result(OutOfFuel, [], s)
    else Resume(s, Step(s), inputs, fuel - 1)
  }

  /** The rest of the run once the instruction at s has had effect e. */
  function Resume(s: State, e: Effect, inputs: seq<int>, fuel: nat): Result
    decreases fuel, 1
  {
    match e
    case Halt(v) => Result(Halted(v), [], s)
    case Fail => Result(Failed, [], s)
    case Continue(n) => Exec(n, inputs, fuel)
    case AwaitInput(d, n) =>
      if inputs == [] then Result(AwaitingInput, [], s)
      else Prepend([In(inputs[0])], Exec(n.(mem := n.mem[d := inputs[0]]), inputs[1..], fuel))
    case Emit(v, n) => Prepend([Out(v)], Exec(n, inputs, fuel))
  }

  /** The values read by the `In` events of a trace. */
  function Consumed(t: seq<Event>): (r: seq<int>)
    ensures |r| <= |t|
  {
    if t == [] then []
    else (if t[0].In? then [t[0].value] else []) + Consumed(t[1..])
  }

  /** The values written by the `Out` events of a trace. */
  function Produced(t: seq<Event>): (r: seq<int>)
    ensures |r| <= |t|
  {
    if t == [] then []
    else (if t[0].Out? then [t[0].value] else []) + Produced(t[1..])
  }

  lemma ConsumedPrepend(e: Event, t: seq<Event>)
    ensures Consumed([e] + t) == (if e.In? then [e.value] else []) + Consumed(t)
  {
    assert ([e] + t)[1..] == t;
  }

  lemma ProducedPrepend(e: Event, t: seq<Event>)
    ensures Produced([e] + t) == (if e.Out? then [e.value] else []) + Produced(t)
  {
    assert ([e] + t)[1..] == t;
  }

  /** Inputs are consumed in order: the `In` events of a run read a prefix
      of the input sequence, and a run that stops awaiting input has read
      all of it. */
  lemma {:induction false} ExecConsumesPrefix(s: State, inputs: seq<int>, fuel: nat)
    ensures var r := Exec(s, inputs, fuel);
            var c := Consumed(r.trace);
            |c| <= |inputs| && c == inputs[..|c|] &&
            (r.outcome == AwaitingInput ==> c == inputs)
    decreases fuel, 0
  {
    if fuel > 0 {
      ResumeConsumesPrefix(s, Step(s), inputs, fuel - 1);
    }
  }

  lemma {:induction false} ResumeConsumesPrefix(s: State, e: Effect, inputs: seq<int>, fuel: nat)
    ensures var r := Resume(s, e, inputs, fuel);
            var c := Consumed(r.trace);
            |c| <= |inputs| && c == inputs[..|c|] &&
            (r.outcome == AwaitingInput ==> c == inputs)
    decreases fuel, 1
  {
    match e
    case Halt(_) =>
    case Fail =>
    case Continue(n) => ExecConsumesPrefix(n, inputs, fuel);
    case AwaitInput(d, n) =>
      if inputs != [] {
        var n' := n.(mem := n.mem[d := inputs[0]]);
        var rest := Exec(n', inputs[1..], fuel);
        ExecConsumesPrefix(n', inputs[1..], fuel);
        ConsumedPrepend(In(inputs[0]), rest.trace);
        var c := Consumed(rest.trace);
        assert [inputs[0]] + inputs[1..][..|c|] == inputs[..|c| + 1];
      }
    case Emit(v, n) =>
      ExecConsumesPrefix(n, inputs, fuel);
      ConsumedPrepend(Out(v), Exec(n, inputs, fuel).trace);
  }

  /** How a run ends: it halts only on fetching 99, with mem[0] as its value;
      it fails only where Step fails, and then immediately, so a failing
      instruction performs no write and no input or output; it stops for
      input only at an input instruction. */
  lemma {:induction false} ExecStopsWhereStepSays(s: State, inputs: seq<int>, fuel: nat)
    ensures var r := Exec(s, inputs, fuel);
            (r.outcome.Halted? ==> Fetches(r.last, CmdTerminate) && r.outcome.value == Read(r.last.mem, 0)) &&
            (r.outcome.Failed? ==> Step(r.last).Fail?) &&
            (r.outcome.AwaitingInput? ==> Step(r.last).AwaitInput?)
    ensures fuel > 0 && Step(s).Fail? ==> Exec(s, inputs, fuel) == Result(Failed, [], s)
    decreases fuel
  {
    if fuel > 0 {
      match Step(s)
      case Halt(v) => StepHalts(s);
      case Fail =>
      case Continue(n) => ExecStopsWhereStepSays(n, inputs, fuel - 1);
      case AwaitInput(d, n) =>
        if inputs != [] {
          ExecStopsWhereStepSays(n.(mem := n.mem[d := inputs[0]]), inputs[1..], fuel - 1);
        }
      case Emit(v, n) => ExecStopsWhereStepSays(n, inputs, fuel - 1);
    }
  }

  /** No instruction removes a cell, so memory only grows. */
  lemma StepKeepsCells(s: State)
    ensures match Step(s)
            case Continue(n) => s.mem.Keys <= n.mem.Keys
            case AwaitInput(_, n) => s.mem.Keys <= n.mem.Keys
            case Emit(_, n) => s.mem.Keys <= n.mem.Keys
            case _ => true
  {
  }

  /** Memory only grows along a run. */
  lemma {:induction false} ExecKeepsCells(s: State, inputs: seq<int>, fuel: nat)
    ensures s.mem.Keys <= Exec(s, inputs, fuel).last.mem.Keys
    decreases fuel
  {
    if fuel > 0 {
      StepKeepsCells(s);
      match Step(s)
      case Halt(v) =>
      case Fail =>
      case Continue(n) => ExecKeepsCells(n, inputs, fuel - 1);
      case AwaitInput(d, n) =>
        if inputs != [] {
          ExecKeepsCells(n.(mem := n.mem[d := inputs[0]]), inputs[1..], fuel - 1);
        }
      case Emit(v, n) => ExecKeepsCells(n, inputs, fuel - 1);
    }
  }

  /** A run of a program that halts returns a word that is really stored at
      address 0: the empty program fails at its first fetch. */
  lemma HaltedRunReadsCellZero(program: seq<int>, inputs: seq<int>, fuel: nat)
    requires Exec(Boot(program), inputs, fuel).outcome.Halted?
    ensures var r := Exec(Boot(program), inputs, fuel);
            |program| > 0 && 0 in r.last.mem && r.outcome.value == r.last.mem[0]
  {
    ExecStopsWhereStepSays(Boot(program), inputs, fuel);
    ExecKeepsCells(Boot(program), inputs, fuel);
  }

  // ---------------------------------------------------------------------
  // The machine: runCode's mutable (mem, pointer, base)

  class Machine {
    var mem: Memory
    var pointer: int
    var base: int

    /** `let mem = [...opcodes]; let pointer = 0; let base = 0`: the
        caller's array is copied and not modified. */
    constructor (opcodes: array<int>)
      ensures mem == Load(opcodes[..]) && pointer == 0 && base == 0
    {
      mem := Load(opcodes[..]);
      pointer := 0;
      base := 0;
    }

    function Current(): State
      reads this
    {
      State(mem, pointer, base)
    }

    /** The handlers of codes 1, 2, 7 and 8: two read operands and a
        destination operand whose immediate bit is forced on. */
    method WriteResult(code: int, modes: seq<int>)
      requires Runs(Current(), code) && code in {CmdSum, CmdMul, CmdIfLess, CmdIfEqual}
      requires modes == Modes(mem[pointer])
      modifies this
      ensures Step(old(Current())) == Continue(Current())
    {
      ghost var s := Current();
      var args := GetArgs(mem, pointer, 3, base, [modes[0], modes[1], WithImmediate(modes[2])]);
      var value := if code == CmdSum then args[0] + args[1]
                   else if code == CmdMul then args[0] * args[1]
                   else if code == CmdIfLess then (if args[0] < args[1] then 1 else 0)
                   else (if args[0] == args[1] then 1 else 0);
      mem := mem[args[2] := value];
      pointer := pointer + 4;
    }

    /** The handler of code 3, once the input value has arrived. */
    method StoreInput(modes: seq<int>, value: int)
      requires Runs(Current(), CmdInput) && modes == Modes(mem[pointer])
      modifies this
      ensures var e := Step(old(Current()));
              e.AwaitInput? && Current() == e.next.(mem := e.next.mem[e.dest := value])
    {
      var args := GetArgs(mem, pointer, 1, base, [WithImmediate(modes[0])]);
      mem := mem[args[0] := value];
      pointer := pointer + 2;
    }

    /** The handler of code 4: the value to emit. */
    method EmitOutput(modes: seq<int>) returns (value: int)
      requires Runs(Current(), CmdOutput) && modes == Modes(mem[pointer])
      modifies this
      ensures Step(old(Current())) == Emit(value, Current())
    {
      var args := GetArgs(mem, pointer, 1, base, modes);
      value := args[0];
      pointer := pointer + 2;
    }

    /** The handlers of codes 5, 6 and 9. */
    method Control(code: int, modes: seq<int>)
      requires Runs(Current(), code) && code in {CmdJumpIfTrue, CmdJumpIfFalse, CmdChangeBase}
      requires modes == Modes(mem[pointer])
      modifies this
      ensures Step(old(Current())) == Continue(Current())
    {
      if code == CmdChangeBase {
        var args := GetArgs(mem, pointer, 1, base, modes);
        pointer := pointer + 2;
        base := base + args[0];
      } else {
        var args := GetArgs(mem, pointer, 2, base, modes);
        var taken := if code == CmdJumpIfTrue then args[0] != 0 else args[0] == 0;
        pointer := if taken then args[1] else pointer + 3;
      }
    }

    /** One iteration of `runCode`'s loop, with `next` the number of inputs
        already read: either the run stops here with `outcome`, or it
        executes one instruction whose input or output is `events`. */
    method Execute(inputs: seq<int>, next: nat, left: nat)
      returns (stop: bool, outcome: Outcome, events: seq<Event>, next': nat)
      requires next <= |inputs| && left > 0
      modifies this
      ensures next <= next' <= |inputs|
      ensures stop ==> (events == [] &&
                        Exec(old(Current()), inputs[next..], left) == Result(outcome, [], Current()))
      ensures !stop ==> (Exec(old(Current()), inputs[next..], left) ==
                         Prepend(events, Exec(Current(), inputs[next'..], left - 1)))
    {
      events, next', outcome := [], next, OutOfFuel;
      if pointer !in mem {
        return true, Failed, [], next;
      }
      var opcode := mem[pointer];
      if opcode == CmdTerminate {
        return true, Halted(Read(mem, 0)), [], next;
      }
      var code := CommandCode(opcode);
      var modes := Modes(opcode);
      if code == CmdSum || code == CmdMul || code == CmdIfLess || code == CmdIfEqual {
        WriteResult(code, modes);
      } else if code == CmdInput {
        if next == |inputs| {
          return true, AwaitingInput, [], next;
        }
        var value := inputs[next];
        StoreInput(modes, value);
        events, next' := [In(value)], next + 1;
        assert inputs[next..][1..] == inputs[next'..];
      } else if code == CmdOutput {
        var value := EmitOutput(modes);
        events := [Out(value)];
      } else if code == CmdJumpIfTrue || code == CmdJumpIfFalse || code == CmdChangeBase {
        Control(code, modes);
      } else {
        return true, Failed, [], next;
      }
      stop := false;
    }

    /** `runCode`'s loop: fetches, decodes and dispatches until 99, an
        unknown code, an input that is not there, or the fuel bound; the
        outcome, the trace and the new state are those of Exec. */
    method Run(inputs: seq<int>, fuel: nat) returns (outcome: Outcome, trace: seq<Event>)
      modifies this
      ensures Exec(old(Current()), inputs, fuel) == Result(outcome, trace, Current())
    {
      ghost var start := Current();
      trace := [];
      var next := 0;
      var left := fuel;
      while left > 0
        invariant next <= |inputs|
        invariant Exec(start, inputs, fuel) == Prepend(trace, Exec(Current(), inputs[next..], left))
        decreases left
      {
        var stop, events;
        stop, outcome, events, next := Execute(inputs, next, left);
        if stop {
          return;
        }
        trace := trace + events;
        left := left - 1;
      }
      outcome := OutOfFuel;
    }
  }

  /** `runCode(opcodes, input, output)`: runs a fresh machine on a copy of
      the program. On 99 the value is mem[0], on an unknown code it is the
      sentinel -1; the caller's array is left as it was. */
  method RunCode(opcodes: array<int>, inputs: seq<int>, fuel: nat)
    returns (outcome: Outcome, value: int, trace: seq<Event>)
    ensures outcome == Exec(Boot(opcodes[..]), inputs, fuel).outcome
    ensures trace == Exec(Boot(opcodes[..]), inputs, fuel).trace
    ensures outcome.Halted? ==> value == outcome.value
    ensures outcome.Failed? ==> value == Sentinel
  {
    var machine := new Machine(opcodes);
    outcome, trace := machine.Run(inputs, fuel);
    value := match outcome
             case Halted(v) => v
             case _ => Sentinel;
  }

  // ---------------------------------------------------------------------
  // Sample programs

  /** The addition/multiplication program halts with 3500 at address 0. */
  lemma AddMulProgramHalts()
    ensures Exec(Boot([1, 9, 10, 3, 2, 3, 11, 0, 99, 30, 40, 50]), [], 4).outcome == Halted(3500)
    ensures Exec(Boot([1, 9, 10, 3, 2, 3, 11, 0, 99, 30, 40, 50]), [], 4).trace == []
  {
    var s0 := Boot([1, 9, 10, 3, 2, 3, 11, 0, 99, 30, 40, 50]);
    var s1 := State(s0.mem[3 := 70], 4, 0);
    assert Step(s0) == Continue(s1);
    var s2 := State(s1.mem[0 := 3500], 8, 0);
    assert Step(s1) == Continue(s2);
    assert Step(s2) == Halt(3500);
  }

  /** `[1002,4,3,4,33]` multiplies 33 by the immediate 3 into address 4,
      which makes the next fetched word 99. */
  lemma MulImmediateProgramHalts()
    ensures Exec(Boot([1002, 4, 3, 4, 33]), [], 2).outcome == Halted(1002)
  {
    var s0 := Boot([1002, 4, 3, 4, 33]);
    assert Modes(1002) == [0, 1, 0];
    var s1 := State(s0.mem[4 := 99], 4, 0);
    assert Step(s0) == Continue(s1);
    assert Step(s1) == Halt(1002);
  }

  /** `[3,0,4,0,99]` echoes its one input and halts with it at address 0. */
  lemma EchoProgram(v: int)
    ensures Exec(Boot([3, 0, 4, 0, 99]), [v], 3) == Result(Halted(v), [In(v), Out(v)], State(Load([3, 0, 4, 0, 99])[0 := v], 4, 0))
  {
    var s0 := Boot([3, 0, 4, 0, 99]);
    assert Step(s0) == AwaitInput(0, s0.(pointer := 2));
    var s1 := State(s0.mem[0 := v], 2, 0);
    assert Step(s1) == Emit(v, s1.(pointer := 4));
    var s2 := s1.(pointer := 4);
    assert Step(s2) == Halt(v);
  }

  /** `[109,10,21101,1,2,0,204,0,99]` moves the relative base to 10, writes
      1 + 2 through a relative destination at address 10, past the end of
      the program, and emits that cell through a relative operand. */
  lemma RelativeWritePastEnd()
    ensures var p := [109, 10, 21101, 1, 2, 0, 204, 0, 99];
            Exec(Boot(p), [], 4) == Result(Halted(109), [Out(3)], State(Load(p)[10 := 3], 8, 10))
  {
    var s0 := Boot([109, 10, 21101, 1, 2, 0, 204, 0, 99]);
    assert Modes(109) == [1, 0, 0];
    var s1 := s0.(pointer := 2, base := 10);
    assert Step(s0) == Continue(s1);
    assert Modes(21101) == [1, 1, 2];
    var s2 := State(s1.mem[10 := 3], 6, 10);
    assert Step(s1) == Continue(s2);
    assert Modes(204) == [2, 0, 0];
    var s3 := s2.(pointer := 8);
    assert Step(s2) == Emit(3, s3);
    assert Step(s3) == Halt(109);
  }

  /** A loop that reads a value into address 7, emits it and jumps back:
      `3,7,4,7,1105,1,0`. */
  const EchoLoop: seq<int> := [3, 7, 4, 7, 1105, 1, 0]

  /** The loop is in memory and about to read. */
  predicate EchoReady(s: State)
  {
    s.pointer == 0 &&
    0 in s.mem && s.mem[0] == 3 && 1 in s.mem && s.mem[1] == 7 &&
    2 in s.mem && s.mem[2] == 4 && 3 in s.mem && s.mem[3] == 7 &&
    4 in s.mem && s.mem[4] == 1105 && 5 in s.mem && s.mem[5] == 1 &&
    6 in s.mem && s.mem[6] == 0
  }

  /** One round of the echo loop: read x into address 7, emit it, jump back. */
  lemma EchoRound(s: State, x: int)
    requires EchoReady(s)
    ensures Step(s) == AwaitInput(7, s.(pointer := 2))
    ensures var s1 := s.(mem := s.mem[7 := x], pointer := 2);
            Step(s1) == Emit(x, s1.(pointer := 4)) &&
            Step(s1.(pointer := 4)) == Continue(s1.(pointer := 0)) &&
            EchoReady(s1.(pointer := 0))
  {
    assert Modes(3) == [0, 0, 0];
    assert Modes(4) == [0, 0, 0];
    assert Modes(1105) == [1, 1, 0];
  }

  /** A run of the echo loop is one round followed by the run from the
      loop's start with the first input stored. */
  lemma EchoRoundRuns(s: State, inputs: seq<int>, n: nat)
    requires EchoReady(s) && inputs != [] && n == |inputs| - 1
    ensures var s3 := s.(mem := s.mem[7 := inputs[0]], pointer := 0);
            Exec(s, inputs, 3 * |inputs| + 1) ==
            Prepend([In(inputs[0])], Prepend([Out(inputs[0])], Exec(s3, inputs[1..], 3 * n + 1)))
  {
    var x, rest := inputs[0], inputs[1..];
    EchoRound(s, x);
    var s1 := s.(mem := s.mem[7 := x], pointer := 2);
    var r3 := Exec(s1.(pointer := 0), rest, 3 * n + 1);
    assert Exec(s1.(pointer := 4), rest, 3 * n + 2) == r3;
    assert Exec(s1, rest, 3 * n + 3) == Prepend([Out(x)], r3);
    assert 3 * |inputs| + 1 == 3 * n + 4;
  }

  /** The echo loop emits every input in order, reading each before it
      emits it, and then waits for more. */
  lemma {:induction false} EchoLoopEchoes(s: State, inputs: seq<int>)
    requires EchoReady(s)
    ensures var r := Exec(s, inputs, 3 * |inputs| + 1);
            r.outcome == AwaitingInput && Consumed(r.trace) == inputs && Produced(r.trace) == inputs
    decreases |inputs|
  {
    if inputs == [] {
      EchoRound(s, 0);
    } else {
      var x, rest := inputs[0], inputs[1..];
      var n := |rest|;
      var s3 := s.(mem := s.mem[7 := x], pointer := 0);
      EchoRoundRuns(s, inputs, n);
      EchoLoopEchoes(s3, rest);
      var t := Exec(s3, rest, 3 * n + 1).trace;
      ConsumedPrepend(Out(x), t);
      ConsumedPrepend(In(x), [Out(x)] + t);
      ProducedPrepend(Out(x), t);
      ProducedPrepend(In(x), [Out(x)] + t);
      assert inputs == [x] + rest;
    }
  }

  /** A program that starts with the echo loop echoes every input. */
  lemma EchoLoopProgram(program: seq<int>, inputs: seq<int>)
    requires |program| >= 7 && program[..7] == EchoLoop
    ensures var r := Exec(Boot(program), inputs, 3 * |inputs| + 1);
            r.outcome == AwaitingInput && Produced(r.trace) == inputs
  {
    BootEchoReady(program);
    EchoLoopEchoes(Boot(program), inputs);
  }

  lemma BootEchoReady(program: seq<int>)
    requires |program| >= 7 && program[..7] == EchoLoop
    ensures EchoReady(Boot(program))
  {
    var m := Boot(program).mem;
    assert forall a :: 0 <= a < 7 ==> m[a] == program[a] == program[..7][a];
  }

  /** An unknown opcode such as 5000 (code 0) ends the run at once with the
      sentinel, without output. */
  lemma UnknownOpcodeFails()
    ensures Exec(Boot([5000, 4, 0, 99]), [], 10) == Result(Failed, [], Boot([5000, 4, 0, 99]))
  {
    assert Step(Boot([5000, 4, 0, 99])) == Fail;
  }
}
