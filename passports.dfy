/** The passport batch of pkg/2020/solutions/day04/day04.go.

    The input is a list of lines. Consecutive non-blank lines make up one
    passport, a map from field names to values written as space-separated
    `key:value` pairs; a blank line ends a passport. Part one counts the
    passports that carry enough fields, part two the ones whose seven
    required fields hold valid values. */
module Passports {
  import Text

  type Passport = map<string, string>

  // ---------------------------------------------------------------------
  // Parsing: Init

  /** A `key:value` pair is well formed when it contains a ':'; otherwise
      the source indexes past the end of `strings.Split(pair, ":")` and
      panics. */
  predicate PairOk(pair: string)
  {
    ':' in pair
  }

  /** Every space-separated piece of the line is a well-formed pair. */
  predicate LineOk(line: string)
  {
    forall k :: 0 <= k < |Text.Split(line, ' ')| ==> PairOk(Text.Split(line, ' ')[k])
  }

  /** The input `Init` accepts without panicking: every non-blank line. */
  predicate BatchOk(input: seq<string>)
  {
    forall i :: 0 <= i < |input| && input[i] != "" ==> LineOk(input[i])
  }

  /** The field name of a pair: the text before its first ':'. */
  function Key(pair: string): (k: string)
    requires PairOk(pair)
    ensures ':' !in k && |k| < |pair| && pair[..|k|] == k && pair[|k|] == ':'
  {
    Text.SplitHasSecond(pair, ':');
    var kv := Text.Split(pair, ':');
    Text.JoinSplit(pair, ':');
    JoinFirstPiece(kv, ':');
    kv[0]
  }

  /** The value of a pair: the text between its first ':' and the next
      one, or the end. */
  function Val(pair: string): (v: string)
    requires PairOk(pair)
    ensures ':' !in v
  {
    Text.SplitHasSecond(pair, ':');
    Text.Split(pair, ':')[1]
  }

  /** The value starts right after the key's ':' and runs up to the next
      ':' or the end of the pair. */
  lemma ValPosition(pair: string)
    requires PairOk(pair)
    ensures var v, o := Val(pair), |Key(pair)| + 1;
            o + |v| <= |pair| && pair[o..o + |v|] == v && (o + |v| == |pair| || pair[o + |v|] == ':')
  {
    Text.SplitHasSecond(pair, ':');
    Text.JoinSplit(pair, ':');
    JoinSecondPiece(Text.Split(pair, ':'), ':');
  }

  /** A join of two or more pieces starts with the first piece and a
      separator. */
  lemma {:induction false} JoinFirstPiece<T>(pieces: seq<seq<T>>, sep: T)
    requires |pieces| >= 2
    ensures var j := Text.Join(pieces, sep);
            |pieces[0]| < |j| && j[..|pieces[0]|] == pieces[0] && j[|pieces[0]|] == sep
    decreases |pieces|
  {
    var init := pieces[..|pieces| - 1];
    if |pieces| > 2 {
      JoinFirstPiece(init, sep);
    }
  }

  /** In a join of two or more pieces the second piece follows the first
      separator and ends at the next one, or at the end. */
  lemma {:induction false} JoinSecondPiece<T>(pieces: seq<seq<T>>, sep: T)
    requires |pieces| >= 2
    ensures var j, o := Text.Join(pieces, sep), |pieces[0]| + 1;
            o + |pieces[1]| <= |j| && j[o..o + |pieces[1]|] == pieces[1] &&
            (o + |pieces[1]| == |j| || j[o + |pieces[1]|] == sep)
    decreases |pieces|
  {
    var init := pieces[..|pieces| - 1];
    var o := |pieces[0]| + 1;
    if |pieces| == 2 {
      assert init == [pieces[0]];
    } else {
      JoinSecondPiece(init, sep);
      var ji := Text.Join(init, sep);
      var j := Text.Join(pieces, sep);
      assert j == ji + [sep] + pieces[|pieces| - 1];
      assert j[..|ji|] == ji;
      assert j[o..o + |pieces[1]|] == ji[o..o + |pieces[1]|];
    }
  }

  /** The pairs folded into a map in order: a later pair with the same key
      overrides an earlier one. */
  function Pairs(acc: Passport, pairs: seq<string>): Passport
    requires forall k :: 0 <= k < |pairs| ==> PairOk(pairs[k])
    decreases |pairs|
  {
    if pairs == [] then acc
    else
      var last := pairs[|pairs| - 1];
      Pairs(acc, pairs[..|pairs| - 1])[Key(last) := Val(last)]
  }

  /** One non-blank line added to the passport so far. */
  function AddLine(acc: Passport, line: string): Passport
    requires LineOk(line)
  {
    Pairs(acc, Text.Split(line, ' '))
  }

  /** The passport of a group of non-blank lines. */
  function Record(group: seq<string>): Passport
    requires forall i :: 0 <= i < |group| ==> LineOk(group[i])
    decreases |group|
  {
    if group == [] then map[]
    else AddLine(Record(group[..|group| - 1]), group[|group| - 1])
  }

  predicate GroupsOk(groups: seq<seq<string>>)
  {
    forall g, i :: 0 <= g < |groups| && 0 <= i < |groups[g]| ==> LineOk(groups[g][i])
  }

  function Records(groups: seq<seq<string>>): (ps: seq<Passport>)
    requires GroupsOk(groups)
    ensures |ps| == |groups|
    ensures forall g :: 0 <= g < |groups| ==> ps[g] == Record(groups[g])
    decreases |groups|
  {
    if groups == [] then []
    else Records(groups[..|groups| - 1]) + [Record(groups[|groups| - 1])]
  }

  /** The groups of lines between blank lines; a final group is dropped
      when it is empty, that is, when the input is empty or ends with a
      blank line. */
  function Groups(input: seq<string>): (groups: seq<seq<string>>)
    requires BatchOk(input)
    ensures GroupsOk(groups)
  {
    SplitGroupsOk(input);
    Text.DropFinalEmpty(Text.Split(input, ""), "")
  }

  /** The groups hold non-blank lines of the input only. */
  lemma SplitGroupsOk(input: seq<string>)
    requires BatchOk(input)
    ensures GroupsOk(Text.Split(input, ""))
  {
    var split := Text.Split(input, "");
    Text.SplitPiecesFrom(input, "");
    forall g, i | 0 <= g < |split| && 0 <= i < |split[g]|
      ensures LineOk(split[g][i])
    {
      assert split[g][i] in input;
      assert split[g][i] != "" by {
        assert "" !in split[g];
      }
    }
  }

  /** The passports `Init` stores for the input lines. */
  function Batch(input: seq<string>): seq<Passport>
    requires BatchOk(input)
  {
    Records(Groups(input))
  }

  /** A passport holds the value of the last pair that names a key, and
      holds a key no pair names exactly when the starting map does. */
  lemma {:induction false} PairsLastWins(acc: Passport, pairs: seq<string>, key: string)
    requires forall k :: 0 <= k < |pairs| ==> PairOk(pairs[k])
    ensures (key in Pairs(acc, pairs)) <==>
            (key in acc || exists j :: 0 <= j < |pairs| && Key(pairs[j]) == key)
    ensures forall j :: 0 <= j < |pairs| && Key(pairs[j]) == key &&
                        (forall j' :: j < j' < |pairs| ==> Key(pairs[j']) != key) ==>
              Pairs(acc, pairs)[key] == Val(pairs[j])
    ensures (forall j :: 0 <= j < |pairs| ==> Key(pairs[j]) != key) && key in acc ==>
              Pairs(acc, pairs)[key] == acc[key]
    decreases |pairs|
  {
    if pairs != [] {
      var init := pairs[..|pairs| - 1];
      PairsLastWins(acc, init, key);
      forall j | 0 <= j < |init| ensures init[j] == pairs[j] {
      }
    }
  }

  /** Every blank line ends a passport, even an empty one, and a final
      passport is added only when the last line is not blank: there are as
      many passports as blank lines, plus one for a last non-blank line. */
  lemma BatchSize(input: seq<string>)
    requires BatchOk(input)
    ensures |Batch(input)| ==
            multiset(input)[""] + (if input != [] && input[|input| - 1] != "" then 1 else 0)
  {
    Text.SplitCount(input, "");
    Text.SplitLastEmpty(input, "");
  }

  /** A blank line after a non-blank last line adds no passport. */
  lemma TrailingBlankLine(input: seq<string>)
    requires BatchOk(input) && input != [] && input[|input| - 1] != ""
    ensures BatchOk(input + [""])
    ensures Batch(input + [""]) == Batch(input)
  {
    var s := input + [""];
    assert s[..|input|] == input;
    Text.SplitLastEmpty(input, "");
  }

  // ---------------------------------------------------------------------
  // Part1: enough fields

  /** The seven fields part two checks; "cid" is the optional eighth. */
  const Required: set<string> := {"byr", "iyr", "eyr", "hgt", "hcl", "ecl", "pid"}
  const Known: set<string> := Required + {"cid"}

  /** The rule of `Part1`: eight or more fields, or seven without "cid". */
  predicate HasEnoughFields(p: Passport)
  {
    (|p| == 7 && "cid" !in p) || |p| > 7
  }

  /** A subset is no larger than its superset. */
  lemma SubsetSize<T>(a: set<T>, b: set<T>)
    requires a <= b
    ensures |a| <= |b|
  {
    var d := b - a;
    assert a + d == b;
    assert a * d == {};
  }

  /** A subset as large as its superset is all of it. */
  lemma SubsetSameSize<T>(a: set<T>, b: set<T>)
    requires a <= b && |a| == |b|
    ensures a == b
  {
    var d := b - a;
    assert a + d == b;
    assert a * d == {};
    assert d == {};
  }

  lemma RequiredSize()
    ensures |Required| == 7 && |Known| == 8
    ensures "cid" !in Required && Known - {"cid"} == Required
  {
  }

  /** With the seven required fields present a passport counts, and when
      every field is one of the eight known ones, the converse holds too:
      then `Part1` counts exactly the passports holding every required
      field. */
  lemma EnoughFieldsIffRequired(p: Passport)
    ensures Required <= p.Keys ==> HasEnoughFields(p)
    ensures p.Keys <= Known ==> (HasEnoughFields(p) <==> Required <= p.Keys)
  {
    RequiredSize();
    assert |p| == |p.Keys|;
    if Required <= p.Keys {
      SubsetSize(Required, p.Keys);
      if |p| == 7 {
        SubsetSameSize(Required, p.Keys);
      }
    }
    if p.Keys <= Known && HasEnoughFields(p) {
      SubsetSize(p.Keys, Known);
      if "cid" in p {
        SubsetSameSize(p.Keys, Known);
      } else {
        assert p.Keys <= Required;
        SubsetSize(p.Keys, Required);
        SubsetSameSize(p.Keys, Required);
      }
    }
  }

  /** The number of passports `Part1` counts. */
  function CountComplete(ps: seq<Passport>): (n: nat)
    ensures n <= |ps|
    decreases |ps|
  {
    if ps == [] then 0
    else CountComplete(ps[..|ps| - 1]) + (if HasEnoughFields(ps[|ps| - 1]) then 1 else 0)
  }

  // ---------------------------------------------------------------------
  // Part2: validate

  /** `p[key]` in Go: the empty string for a missing key. */
  function Get(p: Passport, key: string): (v: string)
    ensures key in p ==> v == p[key]
    ensures key !in p ==> v == ""
  {
    if key in p then p[key] else ""
  }

  const MaxInt: int := 0x7fff_ffff_ffff_ffff
  const MinInt: int := -0x8000_0000_0000_0000

  predicate AllDigits(s: string)
  {
    forall k :: 0 <= k < |s| ==> Text.IsDigit(s[k])
  }

  /** s without a leading sign. */
  function Unsigned(s: string): (u: string)
    ensures |u| <= |s| && u == s[|s| - |u|..]
  {
    if s != [] && (s[0] == '+' || s[0] == '-') then s[1..] else s
  }

  /** The strings `strconv.Atoi` reads without a syntax error: an optional
      sign followed by one or more ASCII digits. */
  predicate IsNumeral(s: string)
  {
    |Unsigned(s)| >= 1 && AllDigits(Unsigned(s))
  }

  /** `strconv.Atoi` with its error dropped: a numeral gives its value,
      clamped to the 64-bit range, and anything else 0. */
  function Atoi(s: string): (n: int)
    ensures MinInt <= n <= MaxInt
    ensures !IsNumeral(s) ==> n == 0
  {
    if !IsNumeral(s) then 0
    else
      var v: int := Text.DigitsValue(Unsigned(s));
      if s[0] == '-' then (if -v < MinInt then MinInt else -v)
      else if v > MaxInt then MaxInt else v
  }

  /** A printed natural number reads back as itself, or as the largest
      64-bit value when it does not fit. */
  lemma AtoiDecimal(n: nat)
    ensures IsNumeral(Text.Decimal(n))
    ensures Atoi(Text.Decimal(n)) == if n <= MaxInt then n else MaxInt
  {
    var s := Text.Decimal(n);
    assert Text.IsDigit(s[0]);
    assert Unsigned(s) == s;
    Text.DigitsValueDecimal(n);
  }

  /** A year check: the field parses to a number in [lo, hi]. */
  predicate YearIn(s: string, lo: int, hi: int)
  {
    lo <= Atoi(s) <= hi
  }

  /** A year range above 0 accepts no missing or non-numeric field, and
      accepts every year in the range written in decimal. */
  lemma YearInMeaning(s: string, lo: int, hi: int, n: nat)
    requires 0 < lo
    ensures YearIn(s, lo, hi) ==> IsNumeral(s)
    ensures !YearIn("", lo, hi)
    ensures n <= MaxInt ==> (YearIn(Text.Decimal(n), lo, hi) <==> lo <= n <= hi)
  {
    AtoiDecimal(n);
  }

  /** The match of `^(\d+)(cm|in)$`: the digits and the unit. */
  function HeightMatch(s: string): (r: Option<(string, string)>)
    ensures r.Some? ==> var (d, u) := r.value;
              s == d + u && |d| >= 1 && AllDigits(d) && (u == "cm" || u == "in")
  {
    if |s| >= 3 && (s[|s| - 2..] == "cm" || s[|s| - 2..] == "in") && AllDigits(s[..|s| - 2])
    then Some((s[..|s| - 2], s[|s| - 2..]))
    else None
  }

  /** Every string the pattern describes is matched, with its own digits
      and unit. */
  lemma HeightMatchComplete(d: string, u: string)
    requires |d| >= 1 && AllDigits(d) && (u == "cm" || u == "in")
    ensures HeightMatch(d + u) == Some((d, u))
  {
    var s := d + u;
    assert s[..|s| - 2] == d;
    assert s[|s| - 2..] == u;
  }

  /** The height check: centimetres in [150, 193] or inches in [59, 76]. */
  predicate HeightOk(s: string)
  {
    match HeightMatch(s)
    case None => false
    case Some((d, u)) =>
      var n := Atoi(d);
      !((u == "cm" && (n < 150 || n > 193)) || (u == "in" && (n < 59 || n > 76)))
  }

  /** A height needs a unit, and a height written in decimal is valid
      exactly when it is in the unit's range. */
  lemma HeightOkMeaning(s: string, n: nat)
    ensures HeightOk(s) ==> |s| >= 3 && (s[|s| - 2..] == "cm" || s[|s| - 2..] == "in")
    ensures HeightOk(Text.Decimal(n) + "cm") <==> 150 <= n <= 193
    ensures HeightOk(Text.Decimal(n) + "in") <==> 59 <= n <= 76
  {
    AtoiDecimal(n);
    HeightMatchComplete(Text.Decimal(n), "cm");
    HeightMatchComplete(Text.Decimal(n), "in");
  }

  predicate IsHexDigit(c: char)
  {
    ('0' <= c <= '9') || ('a' <= c <= 'f')
  }

  /** `^#[0-9a-f]{6}$`. */
  predicate IsHexColor(s: string)
  {
    |s| == 7 && s[0] == '#' && forall k :: 1 <= k < 7 ==> IsHexDigit(s[k])
  }

  /** `^(amb|blu|brn|gry|grn|hzl|oth)$`. */
  predicate IsEyeColor(s: string)
  {
    s in {"amb", "blu", "brn", "gry", "grn", "hzl", "oth"}
  }

  /** `^\d{9}$`. */
  predicate IsPassportId(s: string)
  {
    |s| == 9 && AllDigits(s)
  }

  /** `validate`: every field check in the source's order. A valid passport
      holds the seven required fields, and so counts for part one too. */
  function Validate(p: Passport): bool
  {
    YearIn(Get(p, "byr"), 1920, 2002)
    && YearIn(Get(p, "iyr"), 2010, 2020)
    && YearIn(Get(p, "eyr"), 2020, 2030)
    && HeightOk(Get(p, "hgt"))
    && IsHexColor(Get(p, "hcl"))
    && IsEyeColor(Get(p, "ecl"))
    && IsPassportId(Get(p, "pid"))
  }

  /** A missing field fails every check. */
  lemma EmptyFailsChecks()
    ensures !YearIn("", 1920, 2002) && !YearIn("", 2010, 2020) && !YearIn("", 2020, 2030)
    ensures !HeightOk("") && !IsHexColor("") && !IsEyeColor("") && !IsPassportId("")
  {
    assert !IsNumeral("");
  }

  /** No check accepts a missing field, so a valid passport holds the
      seven required fields, and counts for part one too. */
  lemma ValidHasRequired(p: Passport)
    ensures Validate(p) ==> Required <= p.Keys && HasEnoughFields(p)
  {
    if Validate(p) {
      ValidFieldsPresent(p);
      RequiredPresent(p);
      EnoughFieldsIffRequired(p);
    }
  }

  lemma RequiredPresent(p: Passport)
    requires "byr" in p && "iyr" in p && "eyr" in p && "hgt" in p
    requires "hcl" in p && "ecl" in p && "pid" in p
    ensures Required <= p.Keys
  {
  }

  lemma ValidFieldsPresent(p: Passport)
    requires Validate(p)
    ensures "byr" in p && "iyr" in p && "eyr" in p && "hgt" in p
    ensures "hcl" in p && "ecl" in p && "pid" in p
  {
    EmptyFailsChecks();
  }

  /** The number of passports `Part2` counts. */
  function CountValid(ps: seq<Passport>): (n: nat)
    ensures n <= |ps|
    decreases |ps|
  {
    if ps == [] then 0
    else CountValid(ps[..|ps| - 1]) + (if Validate(ps[|ps| - 1]) then 1 else 0)
  }

  /** Part two never counts more passports than part one. */
  lemma {:induction false} ValidAreComplete(ps: seq<Passport>)
    ensures CountValid(ps) <= CountComplete(ps)
    decreases |ps|
  {
    if ps != [] {
      ValidAreComplete(ps[..|ps| - 1]);
      ValidHasRequired(ps[|ps| - 1]);
    }
  }

  lemma Height60in()
    ensures HeightOk("60in")
  {
    assert Text.Decimal(6) == "6";
    assert Text.Decimal(60) == "60";
    HeightOkMeaning("", 60);
    assert Text.Decimal(60) + "in" == "60in";
  }

  lemma Decimal190()
    ensures Text.Decimal(190) == "190"
  {
    assert Text.Decimal(19) == "19";
  }

  lemma Height190cm()
    ensures HeightOk("190cm")
  {
    Decimal190();
    HeightOkMeaning("", 190);
    assert Text.Decimal(190) + "cm" == "190cm";
  }

  lemma Height190in()
    ensures !HeightOk("190in")
  {
    Decimal190();
    HeightOkMeaning("", 190);
    assert Text.Decimal(190) + "in" == "190in";
  }

  /** Heights from the puzzle's examples: two valid ones, one out of
      range and one without a unit. */
  lemma ExampleHeights()
    ensures HeightOk("60in") && HeightOk("190cm")
    ensures !HeightOk("190in") && !HeightOk("190")
  {
    Height60in();
    Height190cm();
    Height190in();
  }

  const ExamplePassport: Passport :=
    map["pid" := "087499704", "hgt" := "74in", "ecl" := "grn", "iyr" := "2012",
        "eyr" := "2030", "byr" := "1980", "hcl" := "#623a2f"]

  lemma ExampleYears()
    ensures YearIn("1980", 1920, 2002) && YearIn("2012", 2010, 2020) && YearIn("2030", 2020, 2030)
  {
    assert Text.Decimal(198) == "198";
    assert Text.Decimal(1980) == "1980";
    AtoiDecimal(1980);
    assert Text.Decimal(201) == "201";
    assert Text.Decimal(2012) == "2012";
    AtoiDecimal(2012);
    assert Text.Decimal(203) == "203";
    assert Text.Decimal(2030) == "2030";
    AtoiDecimal(2030);
  }

  lemma Height74in()
    ensures HeightOk("74in")
  {
    assert Text.Decimal(7) == "7";
    assert Text.Decimal(74) == "74";
    HeightOkMeaning("", 74);
    assert Text.Decimal(74) + "in" == "74in";
  }

  /** A valid passport from the puzzle's examples. */
  lemma ExampleValid()
    ensures Validate(ExamplePassport)
  {
    var p := ExamplePassport;
    var byr, iyr, eyr, hgt := Get(p, "byr"), Get(p, "iyr"), Get(p, "eyr"), Get(p, "hgt");
    var hcl, ecl, pid := Get(p, "hcl"), Get(p, "ecl"), Get(p, "pid");
    assert byr == "1980" && iyr == "2012" && eyr == "2030" && hgt == "74in";
    assert hcl == "#623a2f" && ecl == "grn" && pid == "087499704";
    ExampleYears();
    Height74in();
    ExampleCodes();
    assert YearIn(byr, 1920, 2002) && YearIn(iyr, 2010, 2020) && YearIn(eyr, 2020, 2030);
    assert HeightOk(hgt) && IsHexColor(hcl) && IsEyeColor(ecl) && IsPassportId(pid);
  }

  lemma ExampleCodes()
    ensures IsHexColor("#623a2f") && IsEyeColor("grn") && IsPassportId("087499704")
  {
  }

  lemma RecordsSnoc(groups: seq<seq<string>>, group: seq<string>)
    requires GroupsOk(groups) && forall i :: 0 <= i < |group| ==> LineOk(group[i])
    ensures GroupsOk(groups + [group])
    ensures Records(groups + [group]) == Records(groups) + [Record(group)]
  {
    assert (groups + [group])[..|groups|] == groups;
  }

  /** What `Init` has built after the first i lines: the passports of the
      groups already closed by a blank line, ... */
  function Closed(input: seq<string>, i: nat): seq<Passport>
    requires BatchOk(input) && i <= |input|
  {
    assert BatchOk(input[..i]);
    SplitGroupsOk(input[..i]);
    var g := Text.Split(input[..i], "");
    Records(g[..|g| - 1])
  }

  /** ... the passport of the group still open, ... */
  function Open(input: seq<string>, i: nat): Passport
    requires BatchOk(input) && i <= |input|
  {
    assert BatchOk(input[..i]);
    SplitGroupsOk(input[..i]);
    var g := Text.Split(input[..i], "");
    Record(g[|g| - 1])
  }

  /** ... and whether that group has no line yet (`newPassport`). */
  predicate Fresh(input: seq<string>, i: nat)
    requires i <= |input|
  {
    var g := Text.Split(input[..i], "");
    g[|g| - 1] == []
  }

  /** Before the first line nothing is closed and the open group is empty. */
  lemma InitialState(input: seq<string>)
    requires BatchOk(input)
    ensures Closed(input, 0) == [] && Open(input, 0) == map[] && Fresh(input, 0)
  {
    assert input[..0] == [];
  }

  /** The passports are the closed groups' records, and the last group's
      record when it is not empty. */
  lemma BatchOfGroups(input: seq<string>)
    requires BatchOk(input)
    ensures Batch(input) == Closed(input, |input|) +
              (if Fresh(input, |input|) then [] else [Open(input, |input|)])
  {
    assert input[..|input|] == input;
    var g := Text.Split(input, "");
    SplitGroupsOk(input);
    if g[|g| - 1] != [] {
      RecordsSnoc(g[..|g| - 1], g[|g| - 1]);
      assert g[..|g| - 1] + [g[|g| - 1]] == g;
    }
  }

  /** A blank line closes the current group and opens an empty one. */
  lemma BlankLineStep(input: seq<string>, i: nat)
    requires BatchOk(input) && i < |input| && input[i] == ""
    ensures Closed(input, i + 1) == Closed(input, i) + [Open(input, i)]
    ensures Open(input, i + 1) == map[] && Fresh(input, i + 1)
  {
    var g := Text.Split(input[..i], "");
    var h := Text.Split(input[..i + 1], "");
    assert input[..i + 1][..i] == input[..i];
    assert BatchOk(input[..i]);
    SplitGroupsOk(input[..i]);
    SplitGroupsOk(input[..i + 1]);
    assert h == g + [[]];
    assert h[..|h| - 1] == g;
    RecordsSnoc(g[..|g| - 1], g[|g| - 1]);
    assert g[..|g| - 1] + [g[|g| - 1]] == g;
  }

  /** A non-blank line joins the current group. */
  lemma LineStep(input: seq<string>, i: nat)
    requires BatchOk(input) && i < |input| && input[i] != ""
    ensures LineOk(input[i])
    ensures Closed(input, i + 1) == Closed(input, i)
    ensures Open(input, i + 1) == AddLine(Open(input, i), input[i]) && !Fresh(input, i + 1)
  {
    var g := Text.Split(input[..i], "");
    var h := Text.Split(input[..i + 1], "");
    var last := g[|g| - 1] + [input[i]];
    SplitLine(input, i);
    SplitGroupsOk(input[..i + 1]);
    assert LineOk(input[i]) by {
      assert h[|h| - 1][|last| - 1] == input[i];
    }
    assert BatchOk(input[..i]);
    SplitGroupsOk(input[..i]);
    assert last[..|last| - 1] == g[|g| - 1];
  }

  /** The groups after a non-blank line: the open group grows by it. */
  lemma SplitLine(input: seq<string>, i: nat)
    requires i < |input| && input[i] != ""
    ensures var g, h := Text.Split(input[..i], ""), Text.Split(input[..i + 1], "");
            |h| == |g| && h[..|h| - 1] == g[..|g| - 1] && h[|h| - 1] == g[|g| - 1] + [input[i]]
  {
    assert input[..i + 1] == input[..i] + [input[i]];
    Text.SplitSnoc(input[..i], input[i], "");
  }

  /** The inner loop of `Init`: the pairs of one line written into the
      passport so far. */
  method AddPairs(current: Passport, line: string) returns (next: Passport)
    requires LineOk(line)
    ensures next == AddLine(current, line)
  {
    var pairs := Text.Split(line, ' ');
    next := current;
    for j := 0 to |pairs|
      invariant next == Pairs(current, pairs[..j])
    {
      assert pairs[..j + 1][..j] == pairs[..j];
      var keyValue := Text.Split(pairs[j], ':');
      Text.SplitHasSecond(pairs[j], ':');
      next := next[keyValue[0] := keyValue[1]];
    }
    assert pairs[..|pairs|] == pairs;
  }

  datatype Option<T> = None | Some(value: T)

  class Solution {
    var passports: seq<Passport>

    constructor ()
      ensures passports == []
    {
      passports := [];
    }

    /** `Init`: the passports of the input lines. */
    method Init(input: seq<string>)
      requires BatchOk(input)
      modifies this
      ensures passports == Batch(input)
    {
      var ps: seq<Passport> := [];
      var current: Passport := map[];
      var newPassport := true;
      InitialState(input);
      for i := 0 to |input|
        invariant ps == Closed(input, i) && current == Open(input, i)
        invariant newPassport <==> Fresh(input, i)
      {
        if input[i] == "" {
          BlankLineStep(input, i);
          ps := ps + [current];
          current := map[];
          newPassport := true;
        } else {
          LineStep(input, i);
          current := AddPairs(current, input[i]);
          newPassport := false;
        }
      }
      BatchOfGroups(input);
      if !newPassport {
        ps := ps + [current];
      }
      passports := ps;
    }

    /** `Part1`. */
    method Part1() returns (res: int)
      ensures res == CountComplete(passports)
      ensures 0 <= res <= |passports|
    {
      res := 0;
      for i := 0 to |passports|
        invariant res == CountComplete(passports[..i])
      {
        assert passports[..i + 1][..i] == passports[..i];
        if HasEnoughFields(passports[i]) {
          res := res + 1;
        }
      }
      assert passports[..|passports|] == passports;
    }

    /** `Part2`. */
    method Part2() returns (res: int)
      ensures res == CountValid(passports)
      ensures 0 <= res <= |passports|
    {
      res := 0;
      for i := 0 to |passports|
        invariant res == CountValid(passports[..i])
      {
        assert passports[..i + 1][..i] == passports[..i];
        if Validate(passports[i]) {
          res := res + 1;
        }
      }
      assert passports[..|passports|] == passports;
    }
  }
}
