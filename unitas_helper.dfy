/** `col_to_num` and `count_columns_in_range`: spreadsheet column letters
    as bijective base-26 numerals (`A` = 1, ..., `Z` = 26, `AA` = 27). */
module UnitasHelper {
  import opened Common

  /** `ord(c.upper()) - ord('A') + 1`, the letter's place in the alphabet. */
  function LetterIndex(c: char): int {
    Upper(c) as int - 'A' as int + 1
  }

  /** The number a column name stands for, one letter at a time, most
      significant first. */
  function ColValue(col: string): int {
    if col == [] then 0 else 26 * ColValue(col[..|col| - 1]) + LetterIndex(col[|col| - 1])
  }

  /** `col_to_num(col)`. */
  method ColToNum(col: string) returns (num: int)
    ensures num == ColValue(col)
  {
    num := 0;
    var i := 0;
    while i < |col|
      invariant 0 <= i <= |col|
      invariant num == ColValue(col[..i])
    {
      assert col[..i + 1][..i] == col[..i];
      num := num * 26 + LetterIndex(col[i]);
      i := i + 1;
    }
    assert col[..i] == col;
  }

  predicate AllUpper(s: string) {
    forall i :: 0 <= i < |s| ==> IsUpperLetter(s[i])
  }

  predicate AllLetters(s: string) {
    forall i :: 0 <= i < |s| ==> IsUpperLetter(s[i]) || IsLowerLetter(s[i])
  }

  /** The column name of a number: the inverse of `ColValue`. */
  function NumToCol(n: nat): (r: string)
    ensures AllUpper(r)
    ensures n == 0 <==> r == []
  {
    if n == 0 then []
    else
      var r := NumToCol((n - 1) / 26) + [('A' as int + (n - 1) % 26) as char];
      assert IsUpperLetter(r[|r| - 1]);
      r
  }

  lemma ColValueExamples()
    ensures ColValue("A") == 1 && ColValue("Z") == 26 && ColValue("AA") == 27
  {
    assert "AA"[..1] == "A";
  }

  /** Case does not matter. */
  lemma {:induction false} ColValueUpper(s: string)
    ensures ColValue(UpperString(s)) == ColValue(s)
  {
    if s != [] {
      var u := UpperString(s);
      assert u[..|u| - 1] == UpperString(s[..|s| - 1]);
      ColValueUpper(s[..|s| - 1]);
    }
  }

  /** The empty name is 0 and a name of letters is at least 1. */
  lemma {:induction false} ColValuePositive(s: string)
    requires AllLetters(s)
    ensures s == [] ==> ColValue(s) == 0
    ensures s != [] ==> ColValue(s) >= 1
  {
    if s != [] {
      ColValuePositive(s[..|s| - 1]);
      assert IsUpperLetter(s[|s| - 1]) || IsLowerLetter(s[|s| - 1]);
    }
  }

  lemma {:induction false} NumToColValue(n: nat)
    ensures ColValue(NumToCol(n)) == n
  {
    if n > 0 {
      var r := NumToCol(n);
      NumToColValue((n - 1) / 26);
      assert r[..|r| - 1] == NumToCol((n - 1) / 26);
    }
  }

  lemma DivLastLetter(v: int, d: int)
    requires 1 <= d <= 26
    ensures (26 * v + d - 1) / 26 == v && (26 * v + d - 1) % 26 == d - 1
  {
  }

  /** Each uppercase name is the name of its number. */
  lemma {:induction false} ColValueNumToCol(s: string)
    requires AllUpper(s)
    ensures ColValue(s) >= 0 && NumToCol(ColValue(s)) == s
  {
    if s != [] {
      var init, c := s[..|s| - 1], s[|s| - 1];
      ColValueNumToCol(init);
      assert IsUpperLetter(c);
      var v, d := ColValue(init), LetterIndex(c);
      DivLastLetter(v, d);
      assert s == init + [c];
    }
  }

  /** Different uppercase names have different numbers. */
  lemma ColValueInjective(s: string, t: string)
    requires AllUpper(s) && AllUpper(t) && ColValue(s) == ColValue(t)
    ensures s == t
  {
    ColValueNumToCol(s);
    ColValueNumToCol(t);
  }

  // ---------------------------------------------------------------- the range pattern

  /** Length of the leading run of `A`-`Z`. */
  function UpperRun(s: string): (n: nat)
    ensures n <= |s| && AllUpper(s[..n]) && (n < |s| ==> !IsUpperLetter(s[n]))
  {
    if s == [] || !IsUpperLetter(s[0]) then 0
    else
      var n := 1 + UpperRun(s[1..]);
      assert s[..n] == [s[0]] + s[1..][..n - 1];
      n
  }

  /** Length of the leading run of decimal digits. */
  function DigitRun(s: string): (n: nat)
    ensures n <= |s| && AllDigits(s[..n]) && (n < |s| ==> !IsDigit(s[n]))
  {
    if s == [] || !IsDigit(s[0]) then 0
    else
      var n := 1 + DigitRun(s[1..]);
      assert s[..n] == [s[0]] + s[1..][..n - 1];
      n
  }

  /** `([A-Z]+)\d+` at the start of `t`: the letters and what follows the
      digits. Each run is taken whole: a shorter letter run would leave a
      letter where a digit is needed, and a shorter digit run a digit
      where `:` is. */
  function ColumnRow(t: string): (r: Option<(string, string)>)
    ensures r.Some? ==> r.value.0 != [] && AllUpper(r.value.0)
  {
    var a := UpperRun(t);
    var d := DigitRun(t[a..]);
    if a == 0 || d == 0 then None else Some((t[..a], t[a..][d..]))
  }

  /** `!([A-Z]+)\d+:([A-Z]+)\d+` matched at the start of `s`: the two
      letter groups. */
  function MatchAt(s: string): (r: Option<(string, string)>)
    ensures r.Some? ==> r.value.0 != [] && r.value.1 != [] && AllUpper(r.value.0) && AllUpper(r.value.1)
  {
    if s == [] || s[0] != '!' then None
    else
      match ColumnRow(s[1..])
      case None => None
      case Some((startCol, rest)) =>
        if rest == [] || rest[0] != ':' then None
        else
          match ColumnRow(rest[1..])
          case None => None
          case Some((endCol, _)) => Some((startCol, endCol))
  }

  /** `re.search`: the leftmost match. */
  function Search(s: string): (r: Option<(string, string)>)
    ensures r.Some? ==> r.value.0 != [] && r.value.1 != [] && AllUpper(r.value.0) && AllUpper(r.value.1)
  {
    if s == [] then None
    else if MatchAt(s).Some? then MatchAt(s)
    else Search(s[1..])
  }

  /** `count_columns_in_range(range_str)`: the number of columns an A1
      range spans, or ValueError when the text holds no such range. */
  function CountColumnsInRange(rangeStr: string): (r: Result<int>)
    ensures r.Raised? <==> Search(rangeStr).None?
    ensures r.Raised? ==> r.error == ValueError
  {
    match Search(rangeStr)
    case None => Raised(ValueError)
    case Some((startCol, endCol)) => Ok(ColValue(endCol) - ColValue(startCol) + 1)
  }

  /** Text without `!` holds no range. */
  lemma {:induction false} NoBangNoRange(s: string)
    requires '!' !in s
    ensures CountColumnsInRange(s) == Raised(ValueError)
  {
    if s != [] {
      assert '!' !in s[1..];
      NoBangNoRange(s[1..]);
    }
  }

  lemma {:induction false} SearchSkips(name: string, rest: string)
    requires '!' !in name
    ensures Search(name + rest) == Search(rest)
  {
    if name != [] {
      var s := name + rest;
      assert s[0] == name[0] && name[0] in name;
      assert MatchAt(s).None?;
      assert s[1..] == name[1..] + rest;
      assert '!' !in name[1..];
      SearchSkips(name[1..], rest);
      assert Search(s) == Search(s[1..]);
    } else {
      assert name + rest == rest;
    }
  }

  lemma {:induction false} UpperRunOf(a: string, rest: string)
    requires AllUpper(a) && (rest == [] || !IsUpperLetter(rest[0]))
    ensures UpperRun(a + rest) == |a|
  {
    if a != [] {
      UpperRunOf(a[1..], rest);
      assert (a + rest)[1..] == a[1..] + rest;
      assert (a + rest)[0] == a[0];
    }
  }


  lemma {:induction false} DigitRunOf(a: string, rest: string)
    requires AllDigits(a) && (rest == [] || !IsDigit(rest[0]))
    ensures DigitRun(a + rest) == |a|
  {
    if a != [] {
      DigitRunOf(a[1..], rest);
      assert (a + rest)[1..] == a[1..] + rest;
      assert (a + rest)[0] == a[0];
    }
  }


  lemma ColumnRowOf(col: string, row: string, rest: string)
    requires col != [] && AllUpper(col) && row != [] && AllDigits(row)
    requires rest == [] || !IsDigit(rest[0])
    ensures ColumnRow(col + row + rest) == Some((col, rest))
  {
    var t := col + row + rest;
    assert t == col + (row + rest);
    assert IsDigit(row[0]) && (row + rest)[0] == row[0];
    UpperRunOf(col, row + rest);
    assert t[|col|..] == row + rest && t[..|col|] == col;
    DigitRunOf(row, rest);
    assert (row + rest)[|row|..] == rest;
  }

  /** The pattern matches `!`, a column, a row, `:`, a column and a row,
      and its groups are the two columns. */
  lemma MatchOfParts(s: string, startCol: string, row1: string, endCol: string, row2: string)
    requires startCol != [] && AllUpper(startCol) && endCol != [] && AllUpper(endCol)
    requires row1 != [] && AllDigits(row1) && row2 != [] && AllDigits(row2)
    requires s == "!" + startCol + row1 + ":" + endCol + row2
    ensures MatchAt(s) == Some((startCol, endCol))
  {
    var rest := ":" + endCol + row2;
    assert s[1..] == startCol + row1 + rest;
    ColumnRowOf(startCol, row1, rest);
    assert rest[1..] == endCol + row2 + [];
    ColumnRowOf(endCol, row2, []);
  }

  /** A sheet name without `!`, then `!`, the start column, its row, `:`,
      the end column and its row: the count is the end column's number
      minus the start column's, plus one. */
  lemma RangeOfParts(rangeStr: string, sheet: string, range: string,
                     startCol: string, row1: string, endCol: string, row2: string)
    requires '!' !in sheet && rangeStr == sheet + range
    requires startCol != [] && AllUpper(startCol) && endCol != [] && AllUpper(endCol)
    requires row1 != [] && AllDigits(row1) && row2 != [] && AllDigits(row2)
    requires range == "!" + startCol + row1 + ":" + endCol + row2
    ensures CountColumnsInRange(rangeStr) == Ok(ColValue(endCol) - ColValue(startCol) + 1)
  {
    MatchOfParts(range, startCol, row1, endCol, row2);
    CountOfMatch(rangeStr, sheet, range, startCol, endCol);
  }

  /** The count is taken from the first `!` on, when the range pattern
      matches there. */
  lemma CountOfMatch(rangeStr: string, sheet: string, range: string, startCol: string, endCol: string)
    requires '!' !in sheet && rangeStr == sheet + range && MatchAt(range) == Some((startCol, endCol))
    ensures CountColumnsInRange(rangeStr) == Ok(ColValue(endCol) - ColValue(startCol) + 1)
  {
    SearchSkips(sheet, range);
    assert Search(rangeStr) == MatchAt(range);
  }

  /** The range of the Unitas upload row spans 44 columns. */
  lemma SendToBotRange(s: string)
    requires s == "Send_To_Bot!D3:AU3"
    ensures CountColumnsInRange(s) == Ok(44)
  {
    assert s == "Send_To_Bot" + "!D3:AU3";
    assert "!D3:AU3" == "!" + "D" + "3" + ":" + "AU" + "3";
    RangeOfParts(s, "Send_To_Bot", "!D3:AU3", "D", "3", "AU", "3");
    assert "AU"[..1] == "A";
  }
}
