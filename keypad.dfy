/** The bathroom keypad walker of rust/src/bin/2016_02.rs.

    Each input line is a list of moves; following the moves of a line from
    the key the previous line ended on gives one key of the code. Part one
    walks the 3x3 keypad

        1 2 3
        4 5 6
        7 8 9

    and part two the diamond keypad

            1
          2 3 4
        5 6 7 8 9
          A B C
            D

    A move that would leave the pad keeps the current key. */
module Keypad {
  import Text

  newtype u8 = x: int | 0 <= x < 256

  datatype Move = Left | Right | Up | Down

  // ---------------------------------------------------------------------
  // The 3x3 keypad: Move::apply

  /** Row and column of key k of the 3x3 pad, counting from 0. */
  function Row(k: int): int { (k - 1) / 3 }
  function Col(k: int): int { (k - 1) % 3 }

  function Clamp(x: int): int { if x < 0 then 0 else if x > 2 then 2 else x }

  /** The key one step away on the 3x3 grid, staying put at the border:
      the geometry `apply` is meant to follow. */
  function GridMove(m: Move, k: int): int
  {
    var dr := match m case Up => -1 case Down => 1 case _ => 0;
    var dc := match m case Left => -1 case Right => 1 case _ => 0;
    3 * Clamp(Row(k) + dr) + Clamp(Col(k) + dc) + 1
  }

  /** `apply` panics on u8 overflow: `pos - 1` at 0, `pos + 1` at 255,
      `pos - 3` at 0 and `pos + 3` above 252, in the arms that compute them. */
  predicate ApplyDefined(m: Move, pos: u8)
  {
    match m
    case Left => pos != 0
    case Right => pos != 255
    case Up => pos != 0
    case Down => pos <= 252 || 7 <= pos <= 9
  }

  /** `Move::apply`: a key of the pad moves to a key of the pad. */
  function Apply(m: Move, pos: u8): (r: u8)
    requires ApplyDefined(m, pos)
    ensures 1 <= pos <= 9 ==> 1 <= r <= 9
  {
    match m
    case Left => if pos == 1 || pos == 4 || pos == 7 then pos else pos - 1
    case Right => if pos == 3 || pos == 6 || pos == 9 then pos else pos + 1
    case Up => if 1 <= pos <= 3 then pos else pos - 3
    case Down => if 7 <= pos <= 9 then pos else pos + 3
  }

  /** On the keys 1 to 9 `apply` is the grid move: it keeps the row for
      Left and Right and the column for Up and Down. */
  lemma ApplyIsGridMove(m: Move, pos: u8)
    requires 1 <= pos <= 9
    ensures Apply(m, pos) as int == GridMove(m, pos as int)
    ensures (m == Left || m == Right) ==> Row(Apply(m, pos) as int) == Row(pos as int)
    ensures (m == Up || m == Down) ==> Col(Apply(m, pos) as int) == Col(pos as int)
  {
    if pos == 1 { } else if pos == 2 { } else if pos == 3 { }
    else if pos == 4 { } else if pos == 5 { } else if pos == 6 { }
    else if pos == 7 { } else if pos == 8 { } else { assert pos == 9; }
  }

  /** Moves off an edge of the 3x3 pad are the identity. */
  lemma EdgeMovesStay(pos: u8)
    ensures pos in {1, 4, 7} ==> Apply(Left, pos) == pos
    ensures pos in {3, 6, 9} ==> Apply(Right, pos) == pos
    ensures 1 <= pos <= 3 ==> Apply(Up, pos) == pos
    ensures 7 <= pos <= 9 ==> Apply(Down, pos) == pos
  {
  }

  // ---------------------------------------------------------------------
  // The diamond keypad: Move::apply_ext

  const Diamond: seq<string> := ["..1..", ".234.", "56789", ".ABC.", "..D.."]

  /** The key at a place of the diamond's 5x5 bounding box, '.' where there
      is none. */
  function Cell(row: int, col: int): char
  {
    if 0 <= row < 5 && 0 <= col < 5 then Diamond[row][col] else '.'
  }

  /** The keys of the diamond pad. */
  predicate IsExtKey(c: char)
  {
    ('1' <= c <= '9') || ('A' <= c <= 'D')
  }

  /** `Move::apply_ext`: the table of the source. Every key stays on the
      pad, and every other character, like every key a move does not list,
      is returned unchanged. */
  function ApplyExt(m: Move, pos: char): (r: char)
    ensures IsExtKey(pos) ==> IsExtKey(r)
    ensures !IsExtKey(pos) ==> r == pos
  {
    match m
    case Left =>
      (match pos
       case '3' => '2' case '4' => '3' case '6' => '5' case '7' => '6'
       case '8' => '7' case '9' => '8' case 'B' => 'A' case 'C' => 'B'
       case _ => pos)
    case Right =>
      (match pos
       case '2' => '3' case '3' => '4' case '5' => '6' case '6' => '7'
       case '7' => '8' case '8' => '8' case 'A' => 'B' case 'B' => 'C'
       case _ => pos)
    case Up =>
      (match pos
       case '3' => '1' case '6' => '2' case '7' => '3' case '8' => '4'
       case 'A' => '6' case 'B' => '7' case 'C' => '8' case 'D' => 'B'
       case _ => pos)
    case Down =>
      (match pos
       case '1' => '3' case '2' => '6' case '3' => '7' case '4' => '8'
       case '6' => 'A' case '7' => 'B' case '8' => 'C' case 'B' => 'D'
       case _ => pos)
  }

  /** The key one step away on the diamond, staying put where that step
      leaves the pad. */
  function DiamondMove(m: Move, row: int, col: int): char
  {
    var dr := match m case Up => -1 case Down => 1 case _ => 0;
    var dc := match m case Left => -1 case Right => 1 case _ => 0;
    if Cell(row + dr, col + dc) != '.' then Cell(row + dr, col + dc) else Cell(row, col)
  }

  /** `apply_ext` follows the diamond's geometry on every key and every
      move but one: Right on '8', which the table maps to '8' itself. */
  lemma ApplyExtIsDiamondMove(m: Move, row: int, col: int)
    requires 0 <= row < 5 && 0 <= col < 5 && Cell(row, col) != '.'
    requires !(m == Right && Cell(row, col) == '8')
    ensures ApplyExt(m, Cell(row, col)) == DiamondMove(m, row, col)
  {
    if row == 0 {
      DiamondRow0(m, col);
    } else if row == 1 {
      DiamondRow1(m, col);
    } else if row == 2 {
      DiamondRow2(m, col);
    } else if row == 3 {
      DiamondRow3(m, col);
    } else {
      DiamondRow4(m, col);
    }
  }

  lemma DiamondRow0(m: Move, col: int)
    requires 0 <= col < 5 && Cell(0, col) != '.'
    ensures ApplyExt(m, Cell(0, col)) == DiamondMove(m, 0, col)
  {
    assert col == 2;
  }

  lemma DiamondRow1(m: Move, col: int)
    requires 0 <= col < 5 && Cell(1, col) != '.'
    ensures ApplyExt(m, Cell(1, col)) == DiamondMove(m, 1, col)
  {
    assert col == 1 || col == 2 || col == 3;
  }

  lemma DiamondRow2(m: Move, col: int)
    requires 0 <= col < 5
    requires !(m == Right && col == 3)
    ensures ApplyExt(m, Cell(2, col)) == DiamondMove(m, 2, col)
  {
    assert col == 0 || col == 1 || col == 2 || col == 3 || col == 4;
  }

  lemma DiamondRow3(m: Move, col: int)
    requires 0 <= col < 5 && Cell(3, col) != '.'
    ensures ApplyExt(m, Cell(3, col)) == DiamondMove(m, 3, col)
  {
    assert col == 1 || col == 2 || col == 3;
  }

  lemma DiamondRow4(m: Move, col: int)
    requires 0 <= col < 5 && Cell(4, col) != '.'
    ensures ApplyExt(m, Cell(4, col)) == DiamondMove(m, 4, col)
  {
    assert col == 2;
  }

  /** Right on '8' stays on '8', where the diamond has '9' to its right. */
  lemma RightOfEightStays()
    ensures ApplyExt(Right, '8') == '8'
    ensures Cell(2, 3) == '8' && DiamondMove(Right, 2, 3) == '9'
  {
  }

  // ---------------------------------------------------------------------
  // Parsing: Move::from_char and init

  /** The letter that names a move. */
  function Letter(m: Move): char
  {
    match m case Left => 'L' case Right => 'R' case Up => 'U' case Down => 'D'
  }

  predicate IsMoveLetter(c: char)
  {
    c == 'L' || c == 'R' || c == 'U' || c == 'D'
  }

  /** `Move::from_char`, which panics on any other character. */
  function FromChar(c: char): (m: Move)
    requires IsMoveLetter(c)
    ensures Letter(m) == c
  {
    match c case 'L' => Left case 'R' => Right case 'U' => Up case 'D' => Down
  }

  /** Naming a move and reading the name back gives the move. */
  lemma FromCharLetter(m: Move)
    ensures IsMoveLetter(Letter(m)) && FromChar(Letter(m)) == m
  {
  }

  /** Rust's `char::is_whitespace`: the characters with the Unicode
      White_Space property. */
  predicate IsWhitespace(c: char)
  {
    ('\t' <= c <= '\r') || c == ' ' || c == '\U{0085}' || c == '\U{00A0}' || c == '\U{1680}'
    || ('\U{2000}' <= c <= '\U{200A}') || c == '\U{2028}' || c == '\U{2029}'
    || c == '\U{202F}' || c == '\U{205F}' || c == '\U{3000}'
  }

  /** `str::trim_start`. */
  function TrimStart(s: string): string
  {
    if s != [] && IsWhitespace(s[0]) then TrimStart(s[1..]) else s
  }

  /** `str::trim_end`. */
  function TrimEnd(s: string): string
  {
    if s != [] && IsWhitespace(s[|s| - 1]) then TrimEnd(s[..|s| - 1]) else s
  }

  /** trim_start removes the longest prefix of whitespace: a suffix of s is
      left, everything removed is whitespace, and what is left does not
      start with whitespace. */
  lemma {:induction false} TrimStartMeaning(s: string)
    ensures var r := TrimStart(s);
            |r| <= |s| && r == s[|s| - |r|..] &&
            (forall k :: 0 <= k < |s| - |r| ==> IsWhitespace(s[k])) &&
            (r != [] ==> !IsWhitespace(r[0]))
  {
    if s != [] && IsWhitespace(s[0]) {
      var t := s[1..];
      TrimStartMeaning(t);
      var r := TrimStart(t);
      assert s[|s| - |r|..] == t[|t| - |r|..];
      forall k | 0 <= k < |s| - |r|
        ensures IsWhitespace(s[k])
      {
        if k > 0 {
          assert s[k] == t[k - 1];
        }
      }
    }
  }

  /** trim_end removes the longest suffix of whitespace. */
  lemma {:induction false} TrimEndMeaning(s: string)
    ensures var r := TrimEnd(s);
            |r| <= |s| && r == s[..|r|] &&
            (forall k :: |r| <= k < |s| ==> IsWhitespace(s[k])) &&
            (r != [] ==> !IsWhitespace(r[|r| - 1]))
  {
    if s != [] && IsWhitespace(s[|s| - 1]) {
      TrimEndMeaning(s[..|s| - 1]);
    }
  }

  /** `str::trim`: s without its leading and trailing whitespace. */
  function Trim(s: string): string
  {
    TrimEnd(TrimStart(s))
  }

  /** `str::lines`: the pieces between line feeds, where a final empty piece
      (after a trailing line feed, or of the empty input) is no line. Rust
      also drops the carriage return of a "\r\n" ending; every line is
      trimmed before use, which removes it anyway. */
  function Lines(input: string): seq<string>
  {
    Text.DropFinalEmpty(Text.Split(input, '\n'), '\n')
  }

  /** Lines hold no line feed, and joined with line feeds they give back the
      input up to one optional final line feed. */
  lemma LinesInverse(input: string)
    ensures forall k :: 0 <= k < |Lines(input)| ==> '\n' !in Lines(input)[k]
    ensures Lines(input) != [] ==>
              var j := Text.Join(Lines(input), '\n');
              input == j || input == j + "\n"
    ensures Lines(input) == [] ==> input == ""
  {
    var pieces := Text.Split(input, '\n');
    var ls := Lines(input);
    assert ls == pieces[..|ls|];
    forall k | 0 <= k < |ls|
      ensures '\n' !in ls[k]
    {
      assert ls[k] == pieces[k];
    }
    Text.JoinSplit(input, '\n');
    if |pieces| == 1 && pieces[0] == [] {
      assert input == pieces[0];
    }
  }

  /** A line whose trimmed characters are all move letters (otherwise
      `from_char` panics). */
  predicate LineOk(line: string)
  {
    forall j :: 0 <= j < |Trim(line)| ==> IsMoveLetter(Trim(line)[j])
  }

  /** Every line of the input is a line of move letters. */
  predicate WellFormed(input: string)
  {
    forall k :: 0 <= k < |Lines(input)| ==> LineOk(Lines(input)[k])
  }

  /** The moves of one line: one per character of the trimmed line. */
  function MovesOf(line: string): (moves: seq<Move>)
    requires LineOk(line)
    ensures |moves| == |Trim(line)|
    ensures forall j :: 0 <= j < |moves| ==> Letter(moves[j]) == Trim(line)[j]
  {
    var t := Trim(line);
    seq(|t|, j requires 0 <= j < |t| => FromChar(t[j]))
  }

  /** The move lists of a sequence of lines, line by line. */
  function MovesOfLines(lines: seq<string>): (r: seq<seq<Move>>)
    requires forall k :: 0 <= k < |lines| ==> LineOk(lines[k])
    ensures |r| == |lines|
    ensures forall k :: 0 <= k < |lines| ==> r[k] == MovesOf(lines[k])
  {
    if lines == [] then [] else MovesOfLines(lines[..|lines| - 1]) + [MovesOf(lines[|lines| - 1])]
  }

  // ---------------------------------------------------------------------
  // Walking: part_one and part_two

  /** The key reached from `start` by the moves in order, on the 3x3 pad. */
  function Walk(start: u8, moves: seq<Move>): (k: u8)
    requires 1 <= start <= 9
    ensures 1 <= k <= 9
    decreases |moves|
  {
    if moves == [] then start
    else Apply(moves[|moves| - 1], Walk(start, moves[..|moves| - 1]))
  }

  /** The code keys, one per line, on the 3x3 pad: each line starts where
      the previous one ended. */
  function Code(start: u8, lines: seq<seq<Move>>): (keys: seq<u8>)
    requires 1 <= start <= 9
    ensures |keys| == |lines|
    ensures forall i :: 0 <= i < |keys| ==> 1 <= keys[i] <= 9
    decreases |lines|
  {
    if lines == [] then []
    else
      var prev := Code(start, lines[..|lines| - 1]);
      prev + [Walk(if prev == [] then start else prev[|prev| - 1], lines[|lines| - 1])]
  }

  /** The key reached from `start` by the moves in order, on the diamond
      pad: a walk from a diamond key never leaves the pad. */
  function WalkExt(start: char, moves: seq<Move>): (k: char)
    ensures IsExtKey(start) ==> IsExtKey(k)
    decreases |moves|
  {
    if moves == [] then start
    else ApplyExt(moves[|moves| - 1], WalkExt(start, moves[..|moves| - 1]))
  }

  /** The code keys, one per line, on the diamond pad; from a diamond key
      every key is a diamond key. */
  function CodeExt(start: char, lines: seq<seq<Move>>): (keys: seq<char>)
    ensures |keys| == |lines|
    ensures IsExtKey(start) ==> forall i :: 0 <= i < |keys| ==> IsExtKey(keys[i])
    decreases |lines|
  {
    if lines == [] then []
    else
      var prev := CodeExt(start, lines[..|lines| - 1]);
      prev + [WalkExt(if prev == [] then start else prev[|prev| - 1], lines[|lines| - 1])]
  }

  /** The first key is reached from the start key, each later one from the
      key before it. */
  lemma {:induction false} CodeChains(start: u8, lines: seq<seq<Move>>, i: nat)
    requires 1 <= start <= 9 && i < |lines|
    ensures Code(start, lines)[i] == Walk(if i == 0 then start else Code(start, lines)[i - 1], lines[i])
    decreases |lines|
  {
    if i < |lines| - 1 {
      CodeChains(start, lines[..|lines| - 1], i);
      assert lines[..|lines| - 1][i] == lines[i];
    }
  }

  lemma {:induction false} CodeExtChains(start: char, lines: seq<seq<Move>>, i: nat)
    requires i < |lines|
    ensures CodeExt(start, lines)[i] == WalkExt(if i == 0 then start else CodeExt(start, lines)[i - 1], lines[i])
    decreases |lines|
  {
    if i < |lines| - 1 {
      CodeExtChains(start, lines[..|lines| - 1], i);
      assert lines[..|lines| - 1][i] == lines[i];
    }
  }

  /** `String` collected from the keys' `to_string`. */
  function Render(keys: seq<u8>): string
  {
    if keys == [] then "" else Render(keys[..|keys| - 1]) + Text.Decimal(keys[|keys| - 1] as nat)
  }

  /** A code of keys 1 to 9 prints as one digit per key. */
  lemma {:induction false} RenderDigits(keys: seq<u8>)
    requires forall i :: 0 <= i < |keys| ==> 1 <= keys[i] <= 9
    ensures |Render(keys)| == |keys|
    ensures forall i :: 0 <= i < |keys| ==> Render(keys)[i] == Text.DigitChar(keys[i] as int)
  {
    if keys != [] {
      RenderDigits(keys[..|keys| - 1]);
    }
  }

  /** The puzzle's example moves, one list per line: ULL, RRDDD, LURDL,
      UUUUD. */
  const ExampleMoves: seq<seq<Move>> :=
    [[Up, Left, Left], [Right, Right, Down, Down, Down],
     [Left, Up, Right, Down, Left], [Up, Up, Up, Up, Down]]

  /** One more move at the end of a line moves on from where the line got
      to. */
  lemma WalkSnoc(start: u8, moves: seq<Move>, m: Move)
    requires 1 <= start <= 9
    ensures Walk(start, moves + [m]) == Apply(m, Walk(start, moves))
  {
    assert (moves + [m])[..|moves|] == moves;
  }

  /** The key reached by a line, one move at a time. */
  lemma WalkThree(start: u8, m0: Move, m1: Move, m2: Move)
    requires 1 <= start <= 9
    ensures Walk(start, [m0, m1, m2]) == Apply(m2, Apply(m1, Apply(m0, start)))
  {
    WalkSnoc(start, [], m0);
    assert [] + [m0] == [m0];
    WalkSnoc(start, [m0], m1);
    assert [m0] + [m1] == [m0, m1];
    WalkSnoc(start, [m0, m1], m2);
    assert [m0, m1] + [m2] == [m0, m1, m2];
  }

  lemma WalkFive(start: u8, m0: Move, m1: Move, m2: Move, m3: Move, m4: Move)
    requires 1 <= start <= 9
    ensures Walk(start, [m0, m1, m2, m3, m4]) ==
            Apply(m4, Apply(m3, Apply(m2, Apply(m1, Apply(m0, start)))))
  {
    WalkThree(start, m0, m1, m2);
    WalkSnoc(start, [m0, m1, m2], m3);
    assert [m0, m1, m2] + [m3] == [m0, m1, m2, m3];
    WalkSnoc(start, [m0, m1, m2, m3], m4);
    assert [m0, m1, m2, m3] + [m4] == [m0, m1, m2, m3, m4];
  }

  /** The keys the example reaches on the 3x3 pad. */
  lemma ExampleKeys()
    ensures Code(5, ExampleMoves) == [1, 9, 8, 5]
  {
    var c := Code(5, ExampleMoves);
    assert c[0] == 1 by {
      CodeChains(5, ExampleMoves, 0);
      WalkThree(5, Up, Left, Left);
    }
    assert c[1] == 9 by {
      CodeChains(5, ExampleMoves, 1);
      WalkFive(1, Right, Right, Down, Down, Down);
    }
    assert c[2] == 8 by {
      CodeChains(5, ExampleMoves, 2);
      WalkFive(9, Left, Up, Right, Down, Left);
    }
    assert c[3] == 5 by {
      CodeChains(5, ExampleMoves, 3);
      WalkFive(8, Up, Up, Up, Up, Down);
    }
  }

  /** The example's code on the 3x3 pad is 1985. */
  lemma ExampleCode()
    ensures Render(Code(5, ExampleMoves)) == "1985"
  {
    ExampleKeys();
    var keys: seq<u8> := [1, 9, 8, 5];
    assert keys[..3] == [1, 9, 8];
    assert keys[..3][..2] == [1, 9];
    assert keys[..3][..2][..1] == [1];
    assert Render([1]) == "1";
  }

  lemma WalkExtSnoc(start: char, moves: seq<Move>, m: Move)
    ensures WalkExt(start, moves + [m]) == ApplyExt(m, WalkExt(start, moves))
  {
    assert (moves + [m])[..|moves|] == moves;
  }

  lemma WalkExtThree(start: char, m0: Move, m1: Move, m2: Move)
    ensures WalkExt(start, [m0, m1, m2]) == ApplyExt(m2, ApplyExt(m1, ApplyExt(m0, start)))
  {
    WalkExtSnoc(start, [], m0);
    assert [] + [m0] == [m0];
    WalkExtSnoc(start, [m0], m1);
    assert [m0] + [m1] == [m0, m1];
    WalkExtSnoc(start, [m0, m1], m2);
    assert [m0, m1] + [m2] == [m0, m1, m2];
  }

  lemma WalkExtFive(start: char, m0: Move, m1: Move, m2: Move, m3: Move, m4: Move)
    ensures WalkExt(start, [m0, m1, m2, m3, m4]) ==
            ApplyExt(m4, ApplyExt(m3, ApplyExt(m2, ApplyExt(m1, ApplyExt(m0, start)))))
  {
    WalkExtThree(start, m0, m1, m2);
    WalkExtSnoc(start, [m0, m1, m2], m3);
    assert [m0, m1, m2] + [m3] == [m0, m1, m2, m3];
    WalkExtSnoc(start, [m0, m1, m2, m3], m4);
    assert [m0, m1, m2, m3] + [m4] == [m0, m1, m2, m3, m4];
  }

  /** The example's code on the diamond pad is 5DB3. */
  lemma ExampleCodeExt()
    ensures CodeExt('5', ExampleMoves) == "5DB3"
  {
    WalkExtThree('5', Up, Left, Left);
    WalkExtFive('5', Right, Right, Down, Down, Down);
    assert WalkExt('5', ExampleMoves[1]) == 'D';
    WalkExtFive('D', Left, Up, Right, Down, Left);
    assert WalkExt('D', ExampleMoves[2]) == 'B';
    WalkExtFive('B', Up, Up, Up, Up, Down);
    var c := CodeExt('5', ExampleMoves);
    CodeExtChains('5', ExampleMoves, 0);
    assert c[0] == '5';
    CodeExtChains('5', ExampleMoves, 1);
    assert c[1] == 'D';
    CodeExtChains('5', ExampleMoves, 2);
    assert c[2] == 'B';
    CodeExtChains('5', ExampleMoves, 3);
    assert c[3] == '3';
  }

  class Solution {
    var instructions: seq<seq<Move>>

    /** `Day2016_02::new`. */
    constructor ()
      ensures instructions == []
    {
      instructions := [];
    }

    /** `init`: appends one move list per input line, one move per
        character of the trimmed line. */
    method Init(input: string)
      requires WellFormed(input)
      modifies this
      ensures instructions == old(instructions) + MovesOfLines(Lines(input))
    {
      var lines := Lines(input);
      var i := 0;
      while i < |lines|
        invariant 0 <= i <= |lines|
        invariant instructions == old(instructions) + MovesOfLines(lines[..i])
      {
        var moves := MovesOf(lines[i]);
        assert lines[..i + 1][..i] == lines[..i];
        instructions := instructions + [moves];
        i := i + 1;
      }
      assert lines[..i] == lines;
    }

    /** `part_one`: the code on the 3x3 pad, starting at 5. */
    method PartOne() returns (res: string)
      ensures res == Render(Code(5, instructions))
      ensures |res| == |instructions|
    {
      var pos: u8 := 5;
      ghost var keys: seq<u8> := [];
      res := "";
      for i := 0 to |instructions|
        invariant keys == Code(5, instructions[..i])
        invariant pos == if i == 0 then 5 else keys[i - 1]
        invariant res == Render(keys)
      {
        var curPos := WalkLine(pos, instructions[i]);
        assert instructions[..i + 1][..i] == instructions[..i];
        assert (keys + [curPos])[..i] == keys;
        pos := curPos;
        keys := keys + [curPos];
        res := res + Text.Decimal(curPos as nat);
      }
      assert instructions[..|instructions|] == instructions;
      RenderDigits(keys);
    }

    /** `part_two`: the code on the diamond pad, starting at '5'. */
    method PartTwo() returns (res: string)
      ensures res == CodeExt('5', instructions)
      ensures forall i :: 0 <= i < |res| ==> IsExtKey(res[i])
    {
      var pos := '5';
      res := "";
      for i := 0 to |instructions|
        invariant res == CodeExt('5', instructions[..i])
        invariant pos == if i == 0 then '5' else res[i - 1]
        invariant forall k :: 0 <= k < i ==> IsExtKey(res[k])
      {
        var curPos := WalkLineExt(pos, instructions[i]);
        assert instructions[..i + 1][..i] == instructions[..i];
        pos := curPos;
        res := res + [curPos];
      }
      assert instructions[..|instructions|] == instructions;
    }
  }

  /** The inner loop of `part_one`: one line's moves from `pos`. */
  method WalkLine(pos: u8, moves: seq<Move>) returns (curPos: u8)
    requires 1 <= pos <= 9
    ensures curPos == Walk(pos, moves)
  {
    curPos := pos;
    for j := 0 to |moves|
      invariant curPos == Walk(pos, moves[..j])
    {
      assert moves[..j + 1][..j] == moves[..j];
      curPos := Apply(moves[j], curPos);
    }
    assert moves[..|moves|] == moves;
  }

  /** The inner loop of `part_two`. */
  method WalkLineExt(pos: char, moves: seq<Move>) returns (curPos: char)
    requires IsExtKey(pos)
    ensures curPos == WalkExt(pos, moves) && IsExtKey(curPos)
  {
    curPos := pos;
    for j := 0 to |moves|
      invariant curPos == WalkExt(pos, moves[..j])
      invariant IsExtKey(curPos)
    {
      assert moves[..j + 1][..j] == moves[..j];
      curPos := ApplyExt(moves[j], curPos);
    }
    assert moves[..|moves|] == moves;
  }
}
