/** Shared vocabulary: optional values, Python exceptions as an error datatype,
    and the Python text operations the data logger relies on (`str.strip`,
    `int()`, `str.split`, `f"{x:02d}"`, `str.zfill`, string comparison). */
module Common {

  datatype Option<+T> = None | Some(value: T)

  /** The Python exception a call raises. */
  datatype PyError =
    | ValueError
    | TypeError
    | IndexError
    | KeyError
    | AttributeError
    | UnboundLocalError
    | FileNotFoundError
    | RuntimeError
    | OSError
    | OverflowError

  /** A Python call either returns a value or raises. */
  datatype Result<+T> = Ok(value: T) | Raised(error: PyError)

  // ---------------------------------------------------------------- characters

  /** Characters Python's `str.strip()` and `int()` treat as white space
      (the ASCII and Latin-1 ones). */
  predicate IsSpace(c: char) {
    (9 <= c as int <= 13) || (28 <= c as int <= 32) || c as int == 0x85 || c as int == 0xA0
  }

  predicate IsDigit(c: char) {
    '0' <= c <= '9'
  }

  predicate AllDigits(s: string) {
    forall i :: 0 <= i < |s| ==> IsDigit(s[i])
  }

  predicate IsUpperLetter(c: char) {
    'A' <= c <= 'Z'
  }

  predicate IsLowerLetter(c: char) {
    'a' <= c <= 'z'
  }

  /** Python `c.upper()` on an ASCII character. */
  function Upper(c: char): (u: char)
    ensures IsLowerLetter(c) ==> IsUpperLetter(u) && u as int == c as int - 32
    ensures !IsLowerLetter(c) ==> u == c
  {
    if IsLowerLetter(c) then (c as int - 32) as char else c
  }

  /** Python `s.upper()` on ASCII text. */
  function UpperString(s: string): (r: string)
    ensures |r| == |s| && forall i :: 0 <= i < |s| ==> r[i] == Upper(s[i])
  {
    seq(|s|, i requires 0 <= i < |s| => Upper(s[i]))
  }

  function DigitValue(c: char): (d: nat)
    requires IsDigit(c)
    ensures d < 10
  {
    c as int - '0' as int
  }

  function DigitChar(d: nat): (c: char)
    requires d < 10
    ensures IsDigit(c) && DigitValue(c) == d
  {
    ('0' as int + d) as char
  }

  // ---------------------------------------------------------------- strip

  function StripLeft(s: string): (r: string)
    ensures |r| <= |s|
    ensures r == [] || !IsSpace(r[0])
  {
    if s == [] || !IsSpace(s[0]) then s else StripLeft(s[1..])
  }

  function StripRight(s: string): (r: string)
    ensures |r| <= |s|
    ensures r == [] || !IsSpace(r[|r| - 1])
  {
    if s == [] || !IsSpace(s[|s| - 1]) then s else StripRight(s[..|s| - 1])
  }

  /** `StripLeft` removes a prefix made of white space only. */
  lemma {:induction false} StripLeftRemovesSpace(s: string)
    ensures var r := StripLeft(s);
      r == s[|s| - |r|..] && forall i :: 0 <= i < |s| - |r| ==> IsSpace(s[i])
  {
    if s != [] && IsSpace(s[0]) {
      StripLeftRemovesSpace(s[1..]);
    }
  }

  /** `StripRight` removes a suffix made of white space only. */
  lemma {:induction false} StripRightRemovesSpace(s: string)
    ensures var r := StripRight(s);
      r == s[..|r|] && forall i :: |r| <= i < |s| ==> IsSpace(s[i])
  {
    if s != [] && IsSpace(s[|s| - 1]) {
      StripRightRemovesSpace(s[..|s| - 1]);
    }
  }

  /** Python `s.strip()`: the text without surrounding white space. */
  function Strip(s: string): (r: string)
    ensures r == [] || (!IsSpace(r[0]) && !IsSpace(r[|r| - 1]))
    ensures |r| <= |s|
  {
    var t := StripLeft(s);
    StripRightRemovesSpace(t);
    StripRight(t)
  }

  lemma StripNoSpace(s: string)
    requires s == [] || (!IsSpace(s[0]) && !IsSpace(s[|s| - 1]))
    ensures Strip(s) == s
  {
    assert StripLeft(s) == s;
    assert StripRight(s) == s;
  }

  lemma StripIdempotent(s: string)
    ensures Strip(Strip(s)) == Strip(s)
  {
    var t := Strip(s);
    assert t == [] || (!IsSpace(t[0]) && !IsSpace(t[|t| - 1]));
    StripNoSpace(t);
  }

  // ---------------------------------------------------------------- decimal digits

  /** The value of a string of decimal digits, most significant first. */
  function DigitsValue(s: string): nat
    requires AllDigits(s)
  {
    if s == [] then 0 else 10 * DigitsValue(s[..|s| - 1]) + DigitValue(s[|s| - 1])
  }

  /** Decimal notation of a natural number, without leading zeros. */
  function NatToString(n: nat): (r: string)
    ensures |r| >= 1 && AllDigits(r)
    ensures r[0] != '0' || n == 0
  {
    if n < 10 then [DigitChar(n)] else NatToString(n / 10) + [DigitChar(n % 10)]
  }

  lemma {:induction false} NatToStringValue(n: nat)
    ensures DigitsValue(NatToString(n)) == n
  {
    var r := NatToString(n);
    if n >= 10 {
      NatToStringValue(n / 10);
      assert r[..|r| - 1] == NatToString(n / 10);
    }
  }

  /** Python `str(i)` for an int. */
  function IntToString(i: int): (r: string)
    ensures |r| >= 1
    ensures i < 0 <==> r[0] == '-'
  {
    if i < 0 then "-" + NatToString(-i) else NatToString(i)
  }

  /** Python `int(s)` on text: surrounding white space, an optional sign,
      then one or more decimal digits. `None` stands for the ValueError. */
  function ParseInt(s: string): Option<int>
  {
    ParseSigned(Strip(s))
  }

  /** An optional sign followed by one or more decimal digits. */
  function ParseSigned(t: string): Option<int>
  {
    if t == [] then None
    else if t[0] == '-' || t[0] == '+' then
      var ds := t[1..];
      if ds != [] && AllDigits(ds) then
        var v: int := DigitsValue(ds);
        Some(if t[0] == '-' then -v else v)
      else None
    else if AllDigits(t) then Some(DigitsValue(t))
    else None
  }

  lemma ParseIntOfDigits(s: string)
    requires s != [] && AllDigits(s)
    ensures ParseInt(s) == Some(DigitsValue(s))
  {
    assert IsDigit(s[0]) && IsDigit(s[|s| - 1]);
    StripNoSpace(s);
  }

  lemma ParseIntOfNegative(ds: string)
    requires ds != [] && AllDigits(ds)
    ensures ParseInt("-" + ds) == Some(-(DigitsValue(ds) as int))
  {
    var t := "-" + ds;
    assert t[1..] == ds;
    assert ParseSigned(t) == Some(-(DigitsValue(ds) as int));
    assert IsDigit(ds[|ds| - 1]) && t[|t| - 1] == ds[|ds| - 1];
    StripNoSpace(t);
  }

  lemma ParseIntOfMinus(n: nat, ds: string)
    requires ds == NatToString(n)
    ensures ParseInt("-" + ds) == Some(-(n as int))
  {
    NatToStringValue(n);
    ParseIntOfNegative(ds);
  }

  lemma ParseIntOfNegativeInt(i: int)
    requires i < 0
    ensures ParseInt(IntToString(i)) == Some(i)
  {
    ParseIntOfMinus(-i, NatToString(-i));
    assert IntToString(i) == "-" + NatToString(-i);
  }

  lemma ParseIntOfNatural(i: int)
    requires i >= 0
    ensures ParseInt(IntToString(i)) == Some(i)
  {
    var ds := NatToString(i);
    assert IntToString(i) == ds;
    NatToStringValue(i);
    ParseIntOfDigits(ds);
  }

  /** `int()` inverts `str()`: the round trip every formatted number relies on. */
  lemma ParseIntOfIntToString(i: int)
    ensures ParseInt(IntToString(i)) == Some(i)
  {
    if i < 0 {
      ParseIntOfNegativeInt(i);
    } else {
      ParseIntOfNatural(i);
    }
  }

  // ---------------------------------------------------------------- formatting

  /** Python `f"{i:02d}"`: at least two characters, zero-filled after the sign. */
  function Format02(i: int): (r: string)
    ensures |r| >= 2
    ensures 0 <= i < 100 ==> |r| == 2 && AllDigits(r) && DigitsValue(r) == i
  {
    if i < 0 then IntToString(i)
    else if i < 10 then
      var r := [DigitChar(0), DigitChar(i)];
      assert r[..1] == [DigitChar(0)] && r[..1][..0] == [];
      assert DigitsValue(r[..1]) == 0;
      r
    else
      var r := NatToString(i);
      NatToStringValue(i);
      r
  }

  /** Python `s.zfill(w)`: pad with zeros to width `w`, after a leading sign. */
  function Zfill(s: string, w: nat): (r: string)
    ensures |r| == if |s| >= w then |s| else w
    ensures |s| >= w ==> r == s
  {
    if |s| >= w then s
    else if s != [] && (s[0] == '+' || s[0] == '-') then [s[0]] + seq(w - |s|, _ => '0') + s[1..]
    else seq(w - |s|, _ => '0') + s
  }

  // ---------------------------------------------------------------- split

  /** Python `s.split(sep)` with a one-character separator. */
  function Split(s: string, sep: char): (r: seq<string>)
    ensures |r| >= 1
    decreases |s|
  {
    var i := FindSep(s, sep);
    if i == |s| then [s] else [s[..i]] + Split(s[i + 1..], sep)
  }

  /** Index of the first `sep` in `s`, or `|s|` when there is none. */
  function FindSep(s: string, sep: char): (i: nat)
    ensures i <= |s|
  {
    if s == [] then 0 else if s[0] == sep then 0 else 1 + FindSep(s[1..], sep)
  }

  lemma {:induction false} FindSepSpec(s: string, sep: char)
    ensures var i := FindSep(s, sep); sep !in s[..i] && (i < |s| ==> s[i] == sep)
  {
    if s != [] && s[0] != sep {
      FindSepSpec(s[1..], sep);
      assert s[..FindSep(s, sep)] == [s[0]] + s[1..][..FindSep(s[1..], sep)];
    }
  }

  lemma {:induction false} FindSepAbsent(s: string, sep: char)
    requires sep !in s
    ensures FindSep(s, sep) == |s|
  {
    if s != [] {
      assert s[0] != sep;
      assert sep !in s[1..];
      FindSepAbsent(s[1..], sep);
    }
  }

  /** No field of a split holds the separator. */
  lemma {:induction false} SplitFieldsHaveNoSeparator(s: string, sep: char)
    ensures forall k :: 0 <= k < |Split(s, sep)| ==> sep !in Split(s, sep)[k]
  {
    var i := FindSep(s, sep);
    FindSepSpec(s, sep);
    if i < |s| {
      SplitFieldsHaveNoSeparator(s[i + 1..], sep);
    }
  }

  lemma SplitNoSeparator(s: string, sep: char)
    requires sep !in s
    ensures Split(s, sep) == [s]
  {
    FindSepAbsent(s, sep);
  }

  lemma {:induction false} FindSepAfter(a: string, b: string, sep: char)
    requires sep !in a
    ensures FindSep(a + [sep] + b, sep) == |a|
  {
    var s := a + [sep] + b;
    if a != [] {
      assert s[0] == a[0];
      assert s[1..] == a[1..] + [sep] + b;
      FindSepAfter(a[1..], b, sep);
    }
  }

  /** The first field of a split is the text before the first separator. */
  lemma SplitCons(a: string, rest: string, sep: char)
    requires sep !in a
    ensures Split(a + [sep] + rest, sep) == [a] + Split(rest, sep)
  {
    var s := a + [sep] + rest;
    FindSepAfter(a, rest, sep);
    assert s[..|a|] == a && s[|a| + 1..] == rest;
  }

  lemma SplitOneSeparator(a: string, b: string, sep: char)
    requires sep !in a && sep !in b
    ensures Split(a + [sep] + b, sep) == [a, b]
  {
    SplitCons(a, b, sep);
    SplitNoSeparator(b, sep);
  }

  /** Python `s.index(c)` for a character known to occur. */
  function IndexOf(s: string, c: char): (i: nat)
    requires c in s
    ensures i < |s| && s[i] == c && c !in s[..i]
  {
    if s[0] == c then 0 else 1 + IndexOf(s[1..], c)
  }

  lemma {:induction false} IndexOfAfter(a: string, b: string, sep: char)
    requires sep !in a
    ensures sep in a + [sep] + b && IndexOf(a + [sep] + b, sep) == |a|
  {
    var s := a + [sep] + b;
    assert s[|a|] == sep;
    if a != [] {
      assert s[1..] == a[1..] + [sep] + b;
      IndexOfAfter(a[1..], b, sep);
    }
  }

  function Join(parts: seq<string>, sep: char): (r: string)
    requires |parts| >= 1
  {
    if |parts| == 1 then parts[0] else parts[0] + [sep] + Join(parts[1..], sep)
  }

  /** Splitting undoes joining when no part holds the separator. */
  lemma {:induction false} SplitJoin(parts: seq<string>, sep: char)
    requires |parts| >= 1
    requires forall k :: 0 <= k < |parts| ==> sep !in parts[k]
    ensures Split(Join(parts, sep), sep) == parts
  {
    if |parts| == 1 {
      SplitNoSeparator(parts[0], sep);
    } else {
      SplitJoin(parts[1..], sep);
      SplitCons(parts[0], Join(parts[1..], sep), sep);
      assert parts == [parts[0]] + parts[1..];
    }
  }

  // ---------------------------------------------------------------- affixes

  predicate StartsWith(s: string, prefix: string) {
    |prefix| <= |s| && s[..|prefix|] == prefix
  }

  predicate EndsWith(s: string, suffix: string) {
    |suffix| <= |s| && s[|s| - |suffix|..] == suffix
  }

  /** Python `s[:n]`: slicing clamps to the length. */
  function Take(s: string, n: nat): (r: string)
    ensures |r| == if n <= |s| then n else |s|
  {
    if n <= |s| then s[..n] else s
  }

  // ---------------------------------------------------------------- order

  /** Python's `<` on strings: code-point lexicographic order. */
  predicate LexLess(a: string, b: string)
  {
    if a == [] then b != []
    else if b == [] then false
    else if a[0] != b[0] then a[0] < b[0]
    else LexLess(a[1..], b[1..])
  }

  /** Python's `<=` on strings. */
  predicate LexLe(a: string, b: string) {
    a == b || LexLess(a, b)
  }

  lemma {:induction false} LexLessIrreflexive(a: string)
    ensures !LexLess(a, a)
  {
    if a != [] {
      LexLessIrreflexive(a[1..]);
    }
  }

  lemma {:induction false} LexLessAsymmetric(a: string, b: string)
    requires LexLess(a, b)
    ensures !LexLess(b, a)
  {
    if a != [] && b != [] && a[0] == b[0] {
      LexLessAsymmetric(a[1..], b[1..]);
    }
  }

  lemma {:induction false} LexLessTransitive(a: string, b: string, c: string)
    requires LexLess(a, b) && LexLess(b, c)
    ensures LexLess(a, c)
  {
    if a != [] && b != [] && c != [] && a[0] == b[0] && b[0] == c[0] {
      LexLessTransitive(a[1..], b[1..], c[1..]);
    }
  }

  lemma {:induction false} LexLessTotal(a: string, b: string)
    ensures a == b || LexLess(a, b) || LexLess(b, a)
  {
    if a != [] && b != [] && a[0] == b[0] {
      LexLessTotal(a[1..], b[1..]);
      if a[1..] == b[1..] {
        assert a == [a[0]] + a[1..] && b == [b[0]] + b[1..];
      }
    }
  }

  lemma LexLeTransitive(a: string, b: string, c: string)
    requires LexLe(a, b) && LexLe(b, c)
    ensures LexLe(a, c)
  {
    if a != b && b != c {
      LexLessTransitive(a, b, c);
    }
  }

  lemma LexLeTotal(a: string, b: string)
    ensures LexLe(a, b) || LexLe(b, a)
  {
    LexLessTotal(a, b);
  }

  lemma LexLeAntisymmetric(a: string, b: string)
    requires LexLe(a, b) && LexLe(b, a)
    ensures a == b
  {
    if a != b {
      LexLessAsymmetric(a, b);
    }
  }

  /** For equal-length digit strings, text order is numeric order; this is why
      zero-padded `HH:MM` and `YYYYMMDD` strings can be compared as text. */
  lemma {:induction false} LexLessDigits(a: string, b: string)
    requires |a| == |b| && AllDigits(a) && AllDigits(b)
    ensures LexLess(a, b) <==> DigitsValue(a) < DigitsValue(b)
    decreases |a|
  {
    if a != [] {
      var n := |a|;
      var a', b' := a[..n - 1], b[..n - 1];
      LexLessDigits(a', b');
      LexLessDigits(b', a');
      LexLessPrefix(a, b);
      LexLessTotal(a', b');
      var va, vb := DigitsValue(a'), DigitsValue(b');
      var da, db := DigitValue(a[n - 1]), DigitValue(b[n - 1]);
      assert DigitsValue(a) == 10 * va + da;
      assert DigitsValue(b) == 10 * vb + db;
      if LexLess(a', b') {
        assert va + 1 <= vb;
        assert 10 * va + 10 <= 10 * vb;
      } else if LexLess(b', a') {
        assert vb + 1 <= va;
        assert 10 * vb + 10 <= 10 * va;
        LexLessAsymmetric(b', a');
      } else {
        LexLessIrreflexive(a');
        assert a[n - 1] < b[n - 1] <==> da < db;
      }
    }
  }

  /** Comparing two equal-length strings: decided by the first n-1 characters
      unless they agree, then by the last one. */
  lemma {:induction false} LexLessPrefix(a: string, b: string)
    requires |a| == |b| > 0
    ensures LexLess(a, b) <==>
      (LexLess(a[..|a| - 1], b[..|b| - 1]) || (a[..|a| - 1] == b[..|b| - 1] && a[|a| - 1] < b[|b| - 1]))
    decreases |a|
  {
    if a[0] == b[0] && |a| > 1 {
      LexLessPrefix(a[1..], b[1..]);
      assert a[1..][..|a| - 2] == a[..|a| - 1][1..];
      assert b[1..][..|b| - 2] == b[..|b| - 1][1..];
      if a[..|a| - 1][1..] == b[..|b| - 1][1..] {
        assert a[..|a| - 1] == [a[0]] + a[..|a| - 1][1..];
        assert b[..|b| - 1] == [b[0]] + b[..|b| - 1][1..];
      }
    }
  }

  lemma {:induction false} DigitsValueBound(s: string)
    requires AllDigits(s)
    ensures DigitsValue(s) < Pow10(|s|)
  {
    if s != [] {
      DigitsValueBound(s[..|s| - 1]);
    }
  }

  /** The value of two digit strings written one after the other. */
  lemma {:induction false} DigitsValueAppend(a: string, b: string)
    requires AllDigits(a) && AllDigits(b)
    ensures AllDigits(a + b) && DigitsValue(a + b) == DigitsValue(a) * Pow10(|b|) + DigitsValue(b)
    decreases |b|
  {
    AllDigitsAppend(a, b);
    if b == [] {
      assert a + b == a;
    } else {
      var b', c := b[..|b| - 1], b[|b| - 1];
      DigitsValueAppend(a, b');
      var ab := a + b;
      assert ab[..|ab| - 1] == a + b';
      assert ab[|ab| - 1] == c;
      var x, p, y, z := DigitsValue(a), Pow10(|b'|), DigitsValue(b'), DigitValue(c);
      assert DigitsValue(ab) == 10 * DigitsValue(a + b') + z;
      assert DigitsValue(b) == 10 * y + z;
      assert Pow10(|b|) == 10 * p;
      ShiftDigit(x, p, y, z);
    }
  }

  lemma AllDigitsAppend(a: string, b: string)
    requires AllDigits(a) && AllDigits(b)
    ensures AllDigits(a + b)
  {
    forall i | 0 <= i < |a + b| ensures IsDigit((a + b)[i]) {
      if i >= |a| { assert (a + b)[i] == b[i - |a|]; }
    }
  }

  lemma ShiftDigit(x: int, p: int, y: int, z: int)
    ensures 10 * (x * p + y) + z == x * (10 * p) + (10 * y + z)
  {
  }

  function Pow10(n: nat): (p: nat)
    ensures p >= 1
  {
    if n == 0 then 1 else 10 * Pow10(n - 1)
  }

  // ---------------------------------------------------------------- sequences

  /** Number of occurrences of `x` in `s`. */
  function Count<T(==)>(s: seq<T>, x: T): (n: nat)
    ensures n <= |s|
    ensures n > 0 <==> x in s
  {
    if s == [] then 0 else Count(s[..|s| - 1], x) + (if s[|s| - 1] == x then 1 else 0)
  }

  lemma CountAppend<T>(s: seq<T>, t: seq<T>, x: T)
    ensures Count(s + t, x) == Count(s, x) + Count(t, x)
    decreases |t|
  {
    if t != [] {
      assert (s + t)[..|s + t| - 1] == s + t[..|t| - 1];
      assert (s + t)[|s + t| - 1] == t[|t| - 1];
      CountAppend(s, t[..|t| - 1], x);
    } else {
      assert s + t == s;
    }
  }
}
