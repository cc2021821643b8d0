/**
 * The handful of Python string operations the modelled code relies on:
 * `str.lower`, `str.strip`, `str.lstrip(c)`, `str.startswith/endswith`,
 * `str.split(sep)`, `str.ljust`, `os.path.join`, `int(str)`, decimal rendering and `%0Nd`
 * padding.  Case mapping and digit classes are restricted to ASCII.
 */
module Text {
  import opened Wrappers

  predicate IsDigit(c: char) { '0' <= c <= '9' }

  predicate AllDigits(s: string) { forall i | 0 <= i < |s| :: IsDigit(s[i]) }

  /** ASCII part of `str.lower()` for a single character. */
  function LowerChar(c: char): char {
    if 'A' <= c <= 'Z' then (c as int + 32) as char else c
  }

  function Lower(s: string): (r: string)
    ensures |r| == |s|
    ensures forall i | 0 <= i < |s| :: r[i] == LowerChar(s[i])
  {
    if s == [] then [] else [LowerChar(s[0])] + Lower(s[1..])
  }

  lemma {:induction false} LowerIdempotent(s: string)
    ensures Lower(Lower(s)) == Lower(s)
  {
  }

  /** Python's `str.isspace()`: the characters `str.strip()` removes. */
  predicate IsSpace(c: char) {
    var n := c as int;
    n == 32 || 9 <= n <= 13 || 28 <= n <= 31 || n == 0x85 || n == 0xA0 || n == 0x1680
    || 0x2000 <= n <= 0x200A || n == 0x2028 || n == 0x2029 || n == 0x202F || n == 0x205F
    || n == 0x3000
  }

  function LStrip(s: string): (r: string)
    ensures |r| <= |s|
  {
    if s != [] && IsSpace(s[0]) then LStrip(s[1..]) else s
  }

  function RStrip(s: string): (r: string)
    ensures |r| <= |s|
  {
    if s != [] && IsSpace(s[|s| - 1]) then RStrip(s[..|s| - 1]) else s
  }

  /** `str.strip()` with no argument. */
  function Strip(s: string): string { RStrip(LStrip(s)) }

  /** `lstrip()` removes the longest run of white space at the front and nothing else. */
  lemma {:induction false} LStripSpec(s: string)
    ensures var r := LStrip(s);
      && r == s[|s| - |r|..]
      && (forall i | 0 <= i < |s| - |r| :: IsSpace(s[i]))
      && (r == [] || !IsSpace(r[0]))
  {
    if s != [] && IsSpace(s[0]) {
      LStripSpec(s[1..]);
    }
  }

  /** `rstrip()` removes the longest run of white space at the end and nothing else. */
  lemma {:induction false} RStripSpec(s: string)
    ensures var r := RStrip(s);
      && r == s[..|r|]
      && (forall i | |r| <= i < |s| :: IsSpace(s[i]))
      && (r == [] || !IsSpace(r[|r| - 1]))
  {
    if s != [] && IsSpace(s[|s| - 1]) {
      RStripSpec(s[..|s| - 1]);
    }
  }

  /** A string none of whose characters is white space is its own strip. */
  lemma {:induction false} StripNoSpace(s: string)
    requires forall i | 0 <= i < |s| :: !IsSpace(s[i])
    ensures Strip(s) == s
  {
    LStripSpec(s);
    RStripSpec(s);
  }

  /** The last position of `x` in `s`, if any (`str.rfind` for one character). */
  function LastPos<T(==)>(s: seq<T>, x: T): (r: Option<nat>)
    ensures r.Some? ==> r.value < |s| && s[r.value] == x
    ensures r.Some? ==> forall k | r.value < k < |s| :: s[k] != x
    ensures r.None? ==> forall k | 0 <= k < |s| :: s[k] != x
  {
    if s == [] then None
    else if s[|s| - 1] == x then Some(|s| - 1)
    else LastPos(s[..|s| - 1], x)
  }

  /** A subset is no larger than its superset. */
  lemma {:induction false} SubsetCard<T>(a: set<T>, b: set<T>)
    requires a <= b
    ensures |a| <= |b|
  {
    assert b == a + (b - a);
  }

  /** A Windows path separator, either slash. */
  predicate IsSep(c: char) { c == '\\' || c == '/' }

  /** A bare drive such as `E:`, whose path part is empty. */
  predicate IsBareDrive(a: string) { |a| == 2 && a[1] == ':' }

  /**
   * Windows `os.path.join(a, b)` (`ntpath`) for a `b` that carries neither a
   * drive nor a leading separator, as every file or folder name joined here.
   * A separator goes in only when `a` has a path part that does not already
   * end in one: `join("", b)` is `b`, `join("E:", b)` is `E:b` and
   * `join("F:\\", b)` is `F:\b`.
   */
  function PathJoin(a: string, b: string): string {
    if a == "" || IsSep(a[|a| - 1]) || IsBareDrive(a) then a + b else a + "\\" + b
  }

  /** An ordinary folder path gets exactly one separator before `b`. */
  lemma PathJoinOrdinary(a: string, b: string)
    requires a != "" && !IsSep(a[|a| - 1]) && !IsBareDrive(a)
    ensures PathJoin(a, b) == a + "\\" + b
    ensures |PathJoin(a, b)| == |a| + 1 + |b|
  {
  }

  /** A root that already ends in a separator, or a bare drive, gets none. */
  lemma PathJoinAtRoot(a: string, b: string)
    requires a != "" && (IsSep(a[|a| - 1]) || IsBareDrive(a))
    ensures PathJoin(a, b) == a + b
  {
  }

  /** Whatever the root, the join starts with `a` and ends with `b`. */
  lemma PathJoinEnds(a: string, b: string)
    ensures StartsWith(PathJoin(a, b), a) && EndsWith(PathJoin(a, b), b)
  {
    var r := PathJoin(a, b);
    assert r[..|a|] == a;
    assert r[|r| - |b|..] == b;
  }

  /** The drive roots a folder dialog returns join without a doubled separator. */
  lemma PathJoinDrives()
    ensures PathJoin("F:\\", "2023") == "F:\\2023"
    ensures PathJoin("E:", "x") == "E:x"
    ensures PathJoin("D:\\Photos", "2023") == "D:\\Photos\\2023"
  {
  }

  /** `str.lstrip(c)` for a one-character argument. */
  function LStripChar(s: string, c: char): (r: string)
    ensures |r| <= |s| && r == s[|s| - |r|..]
    ensures forall i | 0 <= i < |s| - |r| :: s[i] == c
    ensures r == [] || r[0] != c
  {
    if s != [] && s[0] == c then LStripChar(s[1..], c) else s
  }

  predicate StartsWith(s: string, p: string) { |p| <= |s| && s[..|p|] == p }

  predicate EndsWith(s: string, p: string) { |p| <= |s| && s[|s| - |p|..] == p }

  function Spaces(n: nat): (r: string)
    ensures |r| == n && forall i | 0 <= i < n :: r[i] == ' '
  {
    if n == 0 then "" else " " + Spaces(n - 1)
  }

  /** `s.ljust(w)`: pad on the right with spaces up to width `w`. */
  function LJust(s: string, w: nat): (r: string)
    ensures |r| == if |s| >= w then |s| else w
    ensures r[..|s|] == s
    ensures forall i | |s| <= i < |r| :: r[i] == ' '
  {
    if |s| >= w then s else s + Spaces(w - |s|)
  }

  function DigitChar(d: nat): (c: char)
    requires d < 10
    ensures IsDigit(c) && c as int - '0' as int == d
  {
    ('0' as int + d) as char
  }

  function DigitValue(c: char): nat
    requires IsDigit(c)
  {
    c as int - '0' as int
  }

  /** The number an ASCII decimal string denotes (leading zeros allowed). */
  function DecimalValue(s: string): nat
    requires AllDigits(s)
  {
    if s == [] then 0 else 10 * DecimalValue(s[..|s| - 1]) + DigitValue(s[|s| - 1])
  }

  /** `str(n)` for a natural number. */
  function NatToString(n: nat): (r: string)
    ensures |r| >= 1 && AllDigits(r)
  {
    if n < 10 then [DigitChar(n)] else NatToString(n / 10) + [DigitChar(n % 10)]
  }

  function Pow10(k: nat): (r: nat)
    ensures r >= 1
  {
    if k == 0 then 1 else 10 * Pow10(k - 1)
  }

  lemma {:induction false} NatToStringLength(n: nat, k: nat)
    requires 1 <= k && n < Pow10(k)
    ensures |NatToString(n)| <= k
  {
    if n >= 10 {
      assert k != 1 by { assert Pow10(1) == 10; }
      NatToStringLength(n / 10, k - 1);
    }
  }

  lemma {:induction false} DecimalValueOfNatToString(n: nat)
    ensures DecimalValue(NatToString(n)) == n
  {
    if n >= 10 {
      DecimalValueOfNatToString(n / 10);
      var s := NatToString(n);
      assert s[..|s| - 1] == NatToString(n / 10);
    }
  }

  function Repeat(c: char, n: nat): (r: string)
    ensures |r| == n && forall i | 0 <= i < n :: r[i] == c
  {
    if n == 0 then "" else [c] + Repeat(c, n - 1)
  }

  /** `"%0{w}d" % n` for a natural number: left-padded with zeros to width `w`. */
  function ZeroPad(n: nat, w: nat): (r: string)
    ensures AllDigits(r)
    ensures |r| == if |NatToString(n)| >= w then |NatToString(n)| else w
    ensures EndsWith(r, NatToString(n))
  {
    var s := NatToString(n);
    var z := if |s| >= w then "" else Repeat('0', w - |s|);
    assert (z + s)[|z + s| - |s|..] == s;
    z + s
  }

  lemma {:induction false} DecimalValueLeadingZeros(z: string, s: string)
    requires AllDigits(s) && forall i | 0 <= i < |z| :: z[i] == '0'
    ensures AllDigits(z + s) && DecimalValue(z + s) == DecimalValue(s)
  {
    if s == [] {
      assert z + s == z;
      LeadingZerosValue(z);
    } else {
      assert (z + s)[..|z + s| - 1] == z + s[..|s| - 1];
      DecimalValueLeadingZeros(z, s[..|s| - 1]);
    }
  }

  lemma {:induction false} LeadingZerosValue(z: string)
    requires forall i | 0 <= i < |z| :: z[i] == '0'
    ensures AllDigits(z) && DecimalValue(z) == 0
  {
    if z != [] {
      LeadingZerosValue(z[..|z| - 1]);
    }
  }

  /** The value of a zero-padded rendering is the number itself. */
  lemma {:induction false} ZeroPadValue(n: nat, w: nat)
    ensures DecimalValue(ZeroPad(n, w)) == n
  {
    var s := NatToString(n);
    var z := if |s| >= w then "" else Repeat('0', w - |s|);
    assert ZeroPad(n, w) == z + s;
    DecimalValueLeadingZeros(z, s);
    DecimalValueOfNatToString(n);
  }

  // ---------------------------------------------------------------------
  // str.split(sep) and its inverse, str.join
  // ---------------------------------------------------------------------

  /** `s.split(sep)` for a one-character separator: never empty, "" gives [""]. */
  function Split(s: string, sep: char): (r: seq<string>)
    ensures |r| >= 1
    ensures forall i | 0 <= i < |r| :: sep !in r[i]
  {
    if s == [] then [""]
    else
      var rest := Split(s[1..], sep);
      if s[0] == sep then [""] + rest else [[s[0]] + rest[0]] + rest[1..]
  }

  /** `sep.join(parts)`. */
  function Join(parts: seq<string>, sep: char): string
    requires |parts| >= 1
  {
    if |parts| == 1 then parts[0] else parts[0] + [sep] + Join(parts[1..], sep)
  }

  lemma {:induction false} SplitJoinCons(c: char, parts: seq<string>, sep: char)
    requires |parts| >= 1 && c != sep
    ensures Join([[c] + parts[0]] + parts[1..], sep) == [c] + Join(parts, sep)
  {
    var q := [[c] + parts[0]] + parts[1..];
    if |parts| > 1 {
      assert q[1..] == parts[1..];
    }
  }

  /** Splitting the join of separator-free parts gives the parts back. */
  lemma {:induction false} SplitOfJoin(parts: seq<string>, sep: char)
    requires |parts| >= 1
    requires forall i | 0 <= i < |parts| :: sep !in parts[i]
    ensures Split(Join(parts, sep), sep) == parts
    decreases |parts|, |parts[0]|
  {
    if parts[0] == [] {
      if |parts| == 1 {
      } else {
        var tail := parts[1..];
        assert Join(parts, sep) == [sep] + Join(tail, sep);
        assert ([sep] + Join(tail, sep))[1..] == Join(tail, sep);
        SplitOfJoin(tail, sep);
        assert parts == [""] + tail;
      }
    } else {
      var c := parts[0][0];
      var p0 := parts[0][1..];
      var q := [p0] + parts[1..];
      assert parts[0] == [c] + p0;
      assert forall i | 0 <= i < |q| :: sep !in q[i] by {
        forall i | 0 <= i < |q| ensures sep !in q[i] {
          if i == 0 {
            assert forall j | 0 <= j < |p0| :: p0[j] == parts[0][j + 1];
          } else {
            assert q[i] == parts[i];
          }
        }
      }
      SplitOfJoin(q, sep);
      assert c != sep by { assert parts[0][0] == c; }
      assert q[1..] == parts[1..];
      SplitJoinCons(c, q, sep);
      assert [[c] + q[0]] + q[1..] == parts;
      var s := Join(parts, sep);
      assert s == [c] + Join(q, sep);
      assert s[1..] == Join(q, sep);
    }
  }

  // ---------------------------------------------------------------------
  // int(str)
  // ---------------------------------------------------------------------

  /** The body `int()` accepts after the sign: digits, with single underscores between digits. */
  predicate DigitGroups(s: string) {
    && |s| > 0 && IsDigit(s[0]) && IsDigit(s[|s| - 1])
    && (forall i | 0 <= i < |s| :: IsDigit(s[i]) || s[i] == '_')
    && (forall i, j | 0 <= i < |s| && 0 <= j < |s| && j == i + 1 :: s[i] != '_' || s[j] != '_')
  }

  function DropUnderscores(s: string): (r: string)
    requires forall i | 0 <= i < |s| :: IsDigit(s[i]) || s[i] == '_'
    ensures AllDigits(r)
  {
    if s == [] then []
    else if s[0] == '_' then DropUnderscores(s[1..])
    else [s[0]] + DropUnderscores(s[1..])
  }

  lemma {:induction false} DropUnderscoresOfDigits(s: string)
    requires AllDigits(s)
    ensures DropUnderscores(s) == s
  {
    if s != [] {
      DropUnderscoresOfDigits(s[1..]);
    }
  }

  /**
   * `int(s)` for base 10: white space around the number is ignored, one
   * optional sign, then digit groups.  `None` stands for the `ValueError`.
   */
  function ParseInt(s: string): (r: Option<int>)
    ensures var t := Strip(s);
      r.Some? <==> DigitGroups(t) || (|t| > 0 && (t[0] == '+' || t[0] == '-') && DigitGroups(t[1..]))
    ensures var t := Strip(s);
      DigitGroups(t) ==> r == Some(DecimalValue(DropUnderscores(t)))
    ensures var t := Strip(s);
      |t| > 0 && t[0] == '+' && DigitGroups(t[1..]) ==> r == Some(DecimalValue(DropUnderscores(t[1..])))
    ensures var t := Strip(s);
      |t| > 0 && t[0] == '-' && DigitGroups(t[1..]) ==> r.Some? && r.value == -(DecimalValue(DropUnderscores(t[1..])) as int)
  {
    var t := Strip(s);
    if |t| > 0 && (t[0] == '+' || t[0] == '-') then
      var body := t[1..];
      if DigitGroups(body) then
        var v: int := DecimalValue(DropUnderscores(body));
        Some(if t[0] == '-' then -v else v)
      else None
    else if DigitGroups(t) then Some(DecimalValue(DropUnderscores(t)))
    else None
  }

  /** `int(str(n)) == n`. */
  lemma {:induction false} ParseIntOfNatToString(n: nat)
    ensures ParseInt(NatToString(n)) == Some(n)
  {
    ParseIntOfDigits(NatToString(n));
    DecimalValueOfNatToString(n);
  }

  /** A minus sign followed by a non-empty run of digits parses to the negated value. */
  lemma {:induction false} ParseIntOfMinusDigits(d: string)
    requires |d| > 0 && AllDigits(d)
    ensures ParseInt("-" + d) == Some(-(DecimalValue(d) as int))
  {
    var s := "-" + d;
    assert s[1..] == d;
    assert forall i | 0 <= i < |s| :: !IsSpace(s[i]) by {
      forall i | 0 <= i < |s| ensures !IsSpace(s[i]) {
        if i > 0 { assert s[i] == d[i - 1] && IsDigit(d[i - 1]); }
      }
    }
    StripNoSpace(s);
    DigitsAreGroups(d);
    DropUnderscoresOfDigits(d);
    assert Strip(s) == s && s[0] == '-' && DigitGroups(s[1..]);
  }

  /** `int()` of a non-empty run of digits is its decimal value. */
  lemma {:induction false} ParseIntOfDigits(s: string)
    requires |s| > 0 && AllDigits(s)
    ensures ParseInt(s) == Some(DecimalValue(s))
  {
    assert forall i | 0 <= i < |s| :: !IsSpace(s[i]) by {
      forall i | 0 <= i < |s| ensures !IsSpace(s[i]) { assert IsDigit(s[i]); }
    }
    StripNoSpace(s);
    DigitsAreGroups(s);
    DropUnderscoresOfDigits(s);
  }

  /** A non-empty run of digits is a valid `int()` body with no sign. */
  lemma {:induction false} DigitsAreGroups(s: string)
    requires |s| > 0 && AllDigits(s)
    ensures DigitGroups(s) && s[0] != '+' && s[0] != '-'
  {
    assert IsDigit(s[0]);
  }

  /** The empty string is not a number. */
  lemma {:induction false} ParseIntEmpty()
    ensures ParseInt("") == None
  {
  }
}
