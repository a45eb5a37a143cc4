/** Splitting a sequence at every occurrence of a separator element, as Go's
    `strings.Split` and Rust's `str::split` do for a one-character separator,
    and the join that undoes it. Both the keypad's line splitting and the
    passport batch parser (which also splits a list of lines at blank lines)
    are built on it. */
module Text {

  /** The pieces of `s` between occurrences of `sep`: n separators give n + 1
      pieces, and the empty sequence gives one empty piece. */
  function Split<T(==)>(s: seq<T>, sep: T): (r: seq<seq<T>>)
    ensures |r| >= 1
    ensures forall k :: 0 <= k < |r| ==> sep !in r[k]
    decreases |s|
  {
    if s == [] then [[]]
    else
      var r0 := Split(s[..|s| - 1], sep);
      if s[|s| - 1] == sep then r0 + [[]]
      else r0[..|r0| - 1] + [r0[|r0| - 1] + [s[|s| - 1]]]
  }

  /** The pieces glued back together with one `sep` between neighbours. */
  function Join<T>(pieces: seq<seq<T>>, sep: T): seq<T>
    requires |pieces| >= 1
    decreases |pieces|
  {
    if |pieces| == 1 then pieces[0]
    else Join(pieces[..|pieces| - 1], sep) + [sep] + pieces[|pieces| - 1]
  }

  /** Splitting loses nothing: joining the pieces gives the input back. */
  lemma {:induction false} JoinSplit<T>(s: seq<T>, sep: T)
    ensures Join(Split(s, sep), sep) == s
    decreases |s|
  {
    if s != [] {
      var init := s[..|s| - 1];
      var r0 := Split(init, sep);
      JoinSplit(init, sep);
      if s[|s| - 1] == sep {
        assert Split(s, sep)[..|Split(s, sep)| - 1] == r0;
      } else {
        var r := Split(s, sep);
        assert r[..|r| - 1] == r0[..|r0| - 1];
        if |r0| == 1 {
          assert s == init + [s[|s| - 1]];
        } else {
          assert r0[..|r0| - 1][..|r0| - 2] == r0[..|r0| - 2];
          assert Join(r0, sep) == Join(r0[..|r0| - 1], sep) + [sep] + r0[|r0| - 1];
          assert s == init + [s[|s| - 1]];
        }
      }
    }
  }

  /** Splitting is the inverse of joining pieces that hold no separator. */
  lemma {:induction false} SplitJoin<T>(pieces: seq<seq<T>>, sep: T)
    requires |pieces| >= 1
    requires forall k :: 0 <= k < |pieces| ==> sep !in pieces[k]
    ensures Split(Join(pieces, sep), sep) == pieces
    decreases |pieces|
  {
    if |pieces| == 1 {
      SplitNoSep(pieces[0], sep);
    } else {
      var init := pieces[..|pieces| - 1];
      SplitJoin(init, sep);
      var j := Join(init, sep) + [sep];
      assert Split(j, sep) == init + [[]];
      var last := pieces[|pieces| - 1];
      SplitAppend(j, last, sep);
      assert (init + [[]])[..|init|] == init;
      assert [] + last == last;
      assert init + [last] == pieces;
    }
  }

  /** A sequence without a separator is a single piece. */
  lemma {:induction false} SplitNoSep<T>(s: seq<T>, sep: T)
    requires sep !in s
    ensures Split(s, sep) == [s]
    decreases |s|
  {
    if s != [] {
      assert sep !in s[..|s| - 1];
      SplitNoSep(s[..|s| - 1], sep);
      assert s[..|s| - 1] + [s[|s| - 1]] == s;
    }
  }

  /** One non-separator element extends the last piece. */
  lemma SplitSnoc<T>(s: seq<T>, x: T, sep: T)
    requires x != sep
    ensures var a := Split(s, sep);
            Split(s + [x], sep) == a[..|a| - 1] + [a[|a| - 1] + [x]]
  {
    assert (s + [x])[..|s|] == s;
  }

  /** Appending separator-free elements extends the last piece. */
  lemma {:induction false} SplitAppend<T>(s: seq<T>, t: seq<T>, sep: T)
    requires sep !in t
    ensures var a := Split(s, sep);
            Split(s + t, sep) == a[..|a| - 1] + [a[|a| - 1] + t]
    decreases |t|
  {
    var a := Split(s, sep);
    if t == [] {
      assert s + t == s;
      assert a[|a| - 1] + t == a[|a| - 1];
      assert a[..|a| - 1] + [a[|a| - 1]] == a;
    } else {
      var t0, x := t[..|t| - 1], t[|t| - 1];
      assert t == t0 + [x];
      SplitAppend(s, t0, sep);
      SplitAppendStep(s, t0, x, sep);
    }
  }

  /** The step of SplitAppend: one more non-separator element. */
  lemma SplitAppendStep<T>(s: seq<T>, t0: seq<T>, x: T, sep: T)
    requires x != sep
    ensures var a := Split(s, sep);
            Split(s + t0, sep) == a[..|a| - 1] + [a[|a| - 1] + t0] ==>
            Split(s + (t0 + [x]), sep) == a[..|a| - 1] + [a[|a| - 1] + (t0 + [x])]
  {
    SplitSnoc(s + t0, x, sep);
    assert s + (t0 + [x]) == (s + t0) + [x];
    var a := Split(s, sep);
    assert (a[|a| - 1] + t0) + [x] == a[|a| - 1] + (t0 + [x]);
  }

  /** The number of pieces is one more than the number of separators. */
  lemma {:induction false} SplitCount<T>(s: seq<T>, sep: T)
    ensures |Split(s, sep)| == 1 + multiset(s)[sep]
    decreases |s|
  {
    if s != [] {
      SplitCount(s[..|s| - 1], sep);
      assert s == s[..|s| - 1] + [s[|s| - 1]];
    }
  }

  /** `s` splits into at least two pieces exactly when it holds a separator. */
  lemma SplitHasSecond<T>(s: seq<T>, sep: T)
    ensures |Split(s, sep)| >= 2 <==> sep in s
  {
    SplitCount(s, sep);
    assert sep in s <==> multiset(s)[sep] > 0;
  }

  /** The last piece is empty exactly when `s` is empty or ends with a
      separator. */
  lemma SplitLastEmpty<T>(s: seq<T>, sep: T)
    ensures var r := Split(s, sep); r[|r| - 1] == [] <==> s == [] || s[|s| - 1] == sep
  {
  }

  /** Drops the final piece when it is empty: the convention of Rust's
      `str::lines` (a final line ending is optional) and of the passport
      batch, whose final group goes in only if the input did not end with a
      blank line. Joined with `sep`, the separator the pieces were split at,
      the result lacks exactly the final separator when a piece was
      dropped, and is the input otherwise. */
  function DropFinalEmpty<T>(pieces: seq<seq<T>>, ghost sep: T): (r: seq<seq<T>>)
    requires |pieces| >= 1
    ensures |r| == if pieces[|pieces| - 1] == [] then |pieces| - 1 else |pieces|
    ensures r == pieces[..|r|]
    ensures |pieces| >= 2 && pieces[|pieces| - 1] == [] ==> Join(pieces, sep) == Join(r, sep) + [sep]
    ensures pieces[|pieces| - 1] != [] ==> r == pieces
  {
    if pieces[|pieces| - 1] == [] then pieces[..|pieces| - 1] else pieces
  }

  /** Every element of every piece comes from the split sequence. */
  lemma {:induction false} SplitPiecesFrom<T>(s: seq<T>, sep: T)
    ensures forall k, j :: 0 <= k < |Split(s, sep)| && 0 <= j < |Split(s, sep)[k]| ==> Split(s, sep)[k][j] in s
    decreases |s|
  {
    if s != [] {
      SplitPiecesFrom(s[..|s| - 1], sep);
    }
  }

  predicate IsDigit(c: char)
  {
    '0' <= c <= '9'
  }

  function DigitChar(d: int): (c: char)
    requires 0 <= d < 10
    ensures IsDigit(c)
  {
    ('0' as int + d) as char
  }

  function DigitValue(c: char): (d: int)
    requires IsDigit(c)
    ensures 0 <= d < 10 && DigitChar(d) == c
  {
    c as int - '0' as int
  }

  /** The decimal numeral of n, without leading zeros: Rust's `to_string`
      on an unsigned integer. */
  function Decimal(n: nat): (s: string)
    ensures |s| >= 1 && forall k :: 0 <= k < |s| ==> IsDigit(s[k])
    ensures (|s| == 1) == (n < 10)
  {
    if n < 10 then [DigitChar(n)] else Decimal(n / 10) + [DigitChar(n % 10)]
  }

  /** The value of a string of decimal digits, most significant first. */
  function DigitsValue(s: string): (v: nat)
    requires forall k :: 0 <= k < |s| ==> IsDigit(s[k])
    decreases |s|
  {
    if s == [] then 0 else DigitsValue(s[..|s| - 1]) * 10 + DigitValue(s[|s| - 1])
  }

  /** Reading a printed number back gives the number. */
  lemma {:induction false} DigitsValueDecimal(n: nat)
    ensures DigitsValue(Decimal(n)) == n
  {
    if n >= 10 {
      var s := Decimal(n);
      DigitsValueDecimal(n / 10);
    }
  }
}
