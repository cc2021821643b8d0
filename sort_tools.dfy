/**
 * The pure rules of the sorting tool: the log-line layout, the extension
 * split, the three date searches of the file-name normaliser, the canonical
 * name patterns, the EXIF date selection, perceptual-hash similarity and the
 * routing decision that chooses a file's destination.
 */
module SortTools {
  import opened Wrappers
  import opened Text

  // ---------------------------------------------------------------------
  // Log lines
  // ---------------------------------------------------------------------

  /**
   * A log line: the code in brackets, left-justified in a 10-column field,
   * then the action, then a tab, "-> " and the target when there is one.
   */
  function FormatLog(code: string, action: string, target: string): (r: string)
    ensures var w := if |code| + 2 >= 10 then |code| + 2 else 10;
      && |r| == w + |action| + (if target == "" then 0 else 4 + |target|)
      && r[..|code| + 2] == "[" + code + "]"
      && (forall i | |code| + 2 <= i < w :: r[i] == ' ')
      && r[w..w + |action|] == action
      && (target != "" ==> r[w + |action|..] == "\t-> " + target)
  {
    var col := LJust("[" + code + "]", 10);
    assert col[..|code| + 2] == "[" + code + "]";
    var head := col + action;
    assert head[..|col|] == col && head[|col|..] == action;
    assert head[..|code| + 2] == col[..|code| + 2];
    if target != "" then
      var r := head + "\t-> " + target;
      assert r[..|head|] == head && r[|head|..] == "\t-> " + target;
      assert r[..|code| + 2] == head[..|code| + 2];
      assert r[|col|..|col| + |action|] == head[|col|..];
      r
    else
      head
  }

  // ---------------------------------------------------------------------
  // os.path.splitext
  // ---------------------------------------------------------------------

  /** What `splitext` can return as an extension: empty, or a dot and no further dot. */
  predicate ProperExt(e: string) {
    e == "" || (e[0] == '.' && forall k | 1 <= k < |e| :: e[k] != '.')
  }

  /**
   * `os.path.splitext(name)` for a bare file name: the extension starts
   * at the last dot, unless only dots precede that dot (".profile").
   */
  function SplitExt(name: string): (r: (string, string))
    ensures r.0 + r.1 == name
    ensures ProperExt(r.1)
    ensures r.1 == "" <==> !exists i, j | 0 <= i < j < |name| :: name[i] != '.' && name[j] == '.'
  {
    match LastPos(name, '.')
    case None => (name, "")
    case Some(d) =>
      if forall k | 0 <= k < d :: name[k] == '.' then
        assert forall i, j | 0 <= i < j < |name| && name[j] == '.' :: j <= d && name[i] == '.';
        (name, "")
      else
        assert name[..d] + name[d..] == name;
        assert name[d..][0] == '.';
        (name[..d], name[d..])
  }

  /** The lower-cased extension the driver works with. */
  function LowerExt(name: string): string { Lower(SplitExt(name).1) }

  lemma {:induction false} LowerProperExt(e: string)
    requires ProperExt(e)
    ensures ProperExt(Lower(e))
  {
  }

  /** A stem without dots followed by a proper extension splits back into the two. */
  lemma {:induction false} SplitExtOfJoin(b: string, e: string)
    requires |b| > 0 && b[0] != '.' && forall k | 0 <= k < |b| :: b[k] != '.'
    requires ProperExt(e)
    ensures SplitExt(b + e) == (b, e)
  {
    var n := b + e;
    assert forall k | 0 <= k < |b| :: n[k] == b[k];
    assert forall k | |b| <= k < |n| :: n[k] == e[k - |b|];
    if e == "" {
      assert n == b;
      assert LastPos(n, '.') == None;
    } else {
      assert n[|b|] == '.';
      var d := LastPos(n, '.').value;
      assert d == |b|;
      assert n[..d] == b && n[d..] == e;
    }
  }

  // ---------------------------------------------------------------------
  // The fixed-width regular expressions of the normaliser
  // ---------------------------------------------------------------------

  /** One position of a fixed-width pattern: `\d` or a literal character. */
  datatype Atom = Digit | Lit(c: char)

  predicate Fits(c: char, a: Atom) {
    match a
    case Digit => IsDigit(c)
    case Lit(l) => c == l
  }

  /** The pattern matches `s` at position `i`. */
  predicate ShapeAt(s: string, i: nat, shape: seq<Atom>) {
    i + |shape| <= |s| && forall k | 0 <= k < |shape| :: Fits(s[i + k], shape[k])
  }

  /** `i` is the leftmost position where the pattern matches. */
  predicate FirstAt(s: string, i: nat, shape: seq<Atom>) {
    ShapeAt(s, i, shape) && forall j | 0 <= j < i :: !ShapeAt(s, j, shape)
  }

  ghost predicate NoMatch(s: string, shape: seq<Atom>) {
    forall j: nat :: !ShapeAt(s, j, shape)
  }

  function SearchFrom(s: string, shape: seq<Atom>, i: nat): (r: Option<nat>)
    ensures r.Some? ==> i <= r.value && ShapeAt(s, r.value, shape)
    ensures r.Some? ==> forall j | i <= j < r.value :: !ShapeAt(s, j, shape)
    ensures r.None? ==> forall j: nat | i <= j :: !ShapeAt(s, j, shape)
    decreases |s| - i
  {
    if i + |shape| > |s| then None
    else if ShapeAt(s, i, shape) then Some(i)
    else SearchFrom(s, shape, i + 1)
  }

  /** `re.search` for a fixed-width pattern: the leftmost match, if any. */
  function Search(s: string, shape: seq<Atom>): (r: Option<nat>)
    ensures r.Some? ==> FirstAt(s, r.value, shape)
    ensures r.None? ==> NoMatch(s, shape)
  {
    SearchFrom(s, shape, 0)
  }

  /** There is at most one leftmost match. */
  lemma {:induction false} FirstAtUnique(s: string, shape: seq<Atom>)
    ensures forall i: nat, j: nat | FirstAt(s, i, shape) && FirstAt(s, j, shape) :: i == j
  {
  }

  lemma {:induction false} SearchFinds(s: string, shape: seq<Atom>, i: nat)
    requires FirstAt(s, i, shape)
    ensures Search(s, shape) == Some(i)
  {
  }

  /** `(\d{14})` */
  function Run14(): seq<Atom> { seq(14, _ => Digit) }

  /** `(\d{4})-(\d{2})-(\d{2})_(\d{2})-(\d{2})` */
  function DateTimeShape(): seq<Atom> {
    [Digit, Digit, Digit, Digit, Lit('-'), Digit, Digit, Lit('-'), Digit, Digit,
     Lit('_'), Digit, Digit, Lit('-'), Digit, Digit]
  }

  /** `(\d{4})-(\d{2})-(\d{2})` */
  function DateShape(): seq<Atom> {
    [Digit, Digit, Digit, Digit, Lit('-'), Digit, Digit, Lit('-'), Digit, Digit]
  }

  /** The prefix chosen from the lower-cased extension: anything but ".jpg" is a video. */
  function PrefixFor(e: string): string { if e == ".jpg" then "IMG" else "VID" }

  /** Names in the listed directory that already carry a counter for `key`. */
  function Existing(listing: set<string>, key: string, e: string): set<string> {
    set f | f in listing && StartsWith(f, key + "_N") && EndsWith(f, e)
  }

  /** The 12 digits of the `YYYY-MM-DD_HH-MM` match at `i` (groups 1 to 5). */
  function DateTimeDigits(b: string, i: nat): string
    requires i + 16 <= |b|
  {
    b[i..i + 4] + b[i + 5..i + 7] + b[i + 8..i + 10] + b[i + 11..i + 13] + b[i + 14..i + 16]
  }

  lemma {:induction false} DateTimeDigitsShape(b: string, i: nat)
    requires ShapeAt(b, i, DateTimeShape())
    ensures |DateTimeDigits(b, i)| == 12 && AllDigits(DateTimeDigits(b, i))
  {
    var d := DateTimeDigits(b, i);
    forall k | 0 <= k < 12 ensures IsDigit(d[k]) {
      var src := if k < 4 then k else if k < 6 then k + 1 else if k < 8 then k + 2 else if k < 10 then k + 3 else k + 4;
      assert d[k] == b[i + src];
      assert Fits(b[i + src], DateTimeShape()[src]);
    }
  }

  lemma {:induction false} DateDigitsShape(b: string, i: nat)
    requires ShapeAt(b, i, DateShape())
    ensures |DateDigits(b, i)| == 8 && AllDigits(DateDigits(b, i))
  {
    var d := DateDigits(b, i);
    forall k | 0 <= k < 8 ensures IsDigit(d[k]) {
      var src := if k < 4 then k else if k < 6 then k + 1 else k + 2;
      assert d[k] == b[i + src];
      assert Fits(b[i + src], DateShape()[src]);
    }
  }

  /** The 8 digits of the `YYYY-MM-DD` match at `i`. */
  function DateDigits(b: string, i: nat): string
    requires i + 10 <= |b|
  {
    b[i..i + 4] + b[i + 5..i + 7] + b[i + 8..i + 10]
  }

  /**
   * `_normalize_filename(filename, ext)`.  `listing` holds the names of the
   * directory that the date-only branch counts in (the tool's own directory).
   * The four branches, in order: a 14-digit run; `YYYY-MM-DD_HH-MM`, which
   * gives only 12 digits; `YYYY-MM-DD` with a `_N%04d` counter; unchanged.
   */
  function Normalize(filename: string, ext: string, listing: set<string>): string {
    var b := SplitExt(filename).0;
    var e := Lower(ext);
    var p := PrefixFor(e);
    match Search(b, Run14())
    case Some(i) => p + b[i..i + 14] + e
    case None =>
      match Search(b, DateTimeShape())
      case Some(i) => p + DateTimeDigits(b, i) + e
      case None =>
        match Search(b, DateShape())
        case Some(i) =>
          var key := p + DateDigits(b, i);
          key + "_N" + ZeroPad(|Existing(listing, key, e)| + 1, 4) + e
        case None => filename
  }

  /**
   * What `Normalize` gives, branch by branch, in terms of the first match
   * of each pattern in the stem (the name without its extension).
   */
  lemma {:induction false} NormalizeBranches(filename: string, ext: string, listing: set<string>)
    ensures var r := Normalize(filename, ext, listing);
      var b := SplitExt(filename).0; var e := Lower(ext); var p := PrefixFor(e);
      forall i: nat | FirstAt(b, i, Run14()) :: r == p + b[i..i + 14] + e
    ensures var r := Normalize(filename, ext, listing);
      var b := SplitExt(filename).0; var e := Lower(ext); var p := PrefixFor(e);
      forall i: nat | NoMatch(b, Run14()) && FirstAt(b, i, DateTimeShape()) ::
        r == p + DateTimeDigits(b, i) + e && |DateTimeDigits(b, i)| == 12
        && AllDigits(DateTimeDigits(b, i))
    ensures var r := Normalize(filename, ext, listing);
      var b := SplitExt(filename).0; var e := Lower(ext); var p := PrefixFor(e);
      forall i: nat | NoMatch(b, Run14()) && NoMatch(b, DateTimeShape()) && FirstAt(b, i, DateShape()) ::
        var key := p + DateDigits(b, i);
        r == key + "_N" + ZeroPad(|Existing(listing, key, e)| + 1, 4) + e
    ensures var r := Normalize(filename, ext, listing); var b := SplitExt(filename).0;
      NoMatch(b, Run14()) && NoMatch(b, DateTimeShape()) && NoMatch(b, DateShape()) ==> r == filename
  {
    var b := SplitExt(filename).0;
    forall i: nat | FirstAt(b, i, Run14()) ensures Search(b, Run14()) == Some(i) {
      SearchFinds(b, Run14(), i);
    }
    forall i: nat | NoMatch(b, Run14()) && FirstAt(b, i, DateTimeShape())
      ensures Search(b, Run14()) == None && Search(b, DateTimeShape()) == Some(i)
      ensures |DateTimeDigits(b, i)| == 12 && AllDigits(DateTimeDigits(b, i))
    {
      SearchFinds(b, DateTimeShape(), i);
      DateTimeDigitsShape(b, i);
    }
    forall i: nat | NoMatch(b, Run14()) && NoMatch(b, DateTimeShape()) && FirstAt(b, i, DateShape())
      ensures Search(b, Run14()) == None && Search(b, DateTimeShape()) == None
      ensures Search(b, DateShape()) == Some(i)
    {
      SearchFinds(b, DateShape(), i);
    }
  }

  /** The call the driver makes: the extension is the file's own, lower-cased. */
  function NormalizeName(filename: string, listing: set<string>): string {
    Normalize(filename, LowerExt(filename), listing)
  }

  lemma {:induction false} LetterBlocksRun(s: string, j: nat, shape: seq<Atom>, k: nat)
    requires k < |shape| && shape[k] == Digit && j + k < |s| && !IsDigit(s[j + k])
    ensures !ShapeAt(s, j, shape)
  {
  }

  /** A stem without any '-' matches neither dated pattern. */
  lemma {:induction false} NoDashNoDate(s: string)
    requires forall k | 0 <= k < |s| :: s[k] != '-'
    ensures NoMatch(s, DateTimeShape()) && NoMatch(s, DateShape())
  {
    forall j: nat ensures !ShapeAt(s, j, DateTimeShape()) && !ShapeAt(s, j, DateShape()) {
      if j + 16 <= |s| { assert !Fits(s[j + 4], DateTimeShape()[4]); }
      if j + 10 <= |s| { assert !Fits(s[j + 4], DateShape()[4]); }
    }
  }

  predicate NoDot(s: string) { forall k | 0 <= k < |s| :: s[k] != '.' }

  predicate NoDash(s: string) { forall k | 0 <= k < |s| :: s[k] != '-' }

  lemma {:induction false} PrefixFacts(e: string)
    ensures |PrefixFor(e)| == 3 && NoDot(PrefixFor(e)) && NoDash(PrefixFor(e))
    ensures forall k | 0 <= k < 3 :: !IsDigit(PrefixFor(e)[k])
    ensures PrefixFor(e)[0] != '.'
  {
  }

  /** Re-normalising a canonical `{prefix}{14 digits}` stem gives it back. */
  lemma {:induction false} RenormalizeRun(p: string, d: string, e: string, listing: set<string>)
    requires p == PrefixFor(e) && |d| == 14 && AllDigits(d) && ProperExt(e) && Lower(e) == e
    ensures Normalize(p + d + e, e, listing) == p + d + e
  {
    PrefixFacts(e);
    var b := p + d;
    assert NoDot(b) by {
      forall k | 0 <= k < |b| ensures b[k] != '.' {
        if k >= 3 { assert b[k] == d[k - 3]; }
      }
    }
    SplitExtOfJoin(b, e);
    assert SplitExt(p + d + e).0 == b;
    assert ShapeAt(b, 3, Run14()) by {
      forall k | 0 <= k < 14 ensures Fits(b[3 + k], Run14()[k]) { assert b[3 + k] == d[k]; }
    }
    forall j | 0 <= j < 3 ensures !ShapeAt(b, j, Run14()) {
      LetterBlocksRun(b, j, Run14(), 0);
    }
    assert FirstAt(b, 3, Run14());
    assert b[3..17] == d;
  }

  /** A stem too short to hold 14 digits past two adjacent non-digits has no 14-digit run. */
  lemma {:induction false} NoRunIn(s: string, block: nat)
    requires block < 14 && block + 1 < |s| && |s| <= block + 15
    requires !IsDigit(s[block]) && !IsDigit(s[block + 1])
    ensures NoMatch(s, Run14())
  {
    forall j: nat ensures !ShapeAt(s, j, Run14()) {
      if j + 14 <= |s| {
        if j <= block {
          LetterBlocksRun(s, j, Run14(), block - j);
        } else {
          LetterBlocksRun(s, j, Run14(), block + 1 - j);
        }
      }
    }
  }

  /** A stem with no dash and no 14-digit run is left as it is. */
  lemma {:induction false} RenormalizeUnchanged(g: string, b: string, e: string, listing: set<string>)
    requires SplitExt(g).0 == b && NoDash(b) && NoMatch(b, Run14())
    ensures Normalize(g, e, listing) == g
  {
    NoDashNoDate(b);
  }

  /** Facts about an extension as the driver passes it: lower-cased and proper. */
  lemma {:induction false} DriverExt(f: string)
    ensures var e := LowerExt(f); ProperExt(e) && Lower(e) == e
  {
    LowerIdempotent(SplitExt(f).1);
    LowerProperExt(SplitExt(f).1);
  }

  /** Re-normalising `{prefix}{14 digits}{ext}` (the 14-digit branch's output). */
  lemma {:induction false} IdemStamp(p: string, d: string, e: string, listing: set<string>)
    requires p == PrefixFor(e) && |d| == 14 && AllDigits(d) && ProperExt(e) && Lower(e) == e
    ensures NormalizeName(p + d + e, listing) == p + d + e
  {
    PrefixFacts(e);
    SplitExtOfJoin(p + d, e) by {
      forall k | 0 <= k < |p + d| ensures (p + d)[k] != '.' {
        if k >= 3 { assert (p + d)[k] == d[k - 3]; }
      }
    }
    assert LowerExt(p + d + e) == e;
    RenormalizeRun(p, d, e, listing);
  }

  /** Re-normalising `{prefix}{12 digits}{ext}` (the date-and-minute branch's output). */
  lemma {:induction false} IdemMinute(p: string, d: string, e: string, listing: set<string>)
    requires p == PrefixFor(e) && |d| == 12 && AllDigits(d) && ProperExt(e) && Lower(e) == e
    ensures NormalizeName(p + d + e, listing) == p + d + e
  {
    PrefixFacts(e);
    var s := p + d;
    assert NoDot(s) && NoDash(s) by {
      forall k | 0 <= k < |s| ensures s[k] != '.' && s[k] != '-' {
        if k >= 3 { assert s[k] == d[k - 3] && IsDigit(d[k - 3]); }
      }
    }
    SplitExtOfJoin(s, e);
    assert LowerExt(s + e) == e;
    NoRunIn(s, 0);
    RenormalizeUnchanged(s + e, s, e, listing);
  }

  /** Re-normalising `{prefix}{8 digits}_N{counter}{ext}` (the date-only branch's output). */
  lemma {:induction false} IdemCounter(p: string, d: string, pad: string, e: string, listing: set<string>)
    requires p == PrefixFor(e) && |d| == 8 && AllDigits(d) && ProperExt(e) && Lower(e) == e
    requires AllDigits(pad) && |pad| <= 13
    ensures NormalizeName(p + d + "_N" + pad + e, listing) == p + d + "_N" + pad + e
  {
    PrefixFacts(e);
    var s := p + d + "_N" + pad;
    assert s[11] == '_' && s[12] == 'N';
    assert NoDot(s) && NoDash(s) by {
      forall k | 0 <= k < |s| ensures s[k] != '.' && s[k] != '-' {
        if 3 <= k < 11 { assert s[k] == d[k - 3]; }
        if k >= 13 { assert s[k] == pad[k - 13]; }
      }
    }
    SplitExtOfJoin(s, e);
    assert s + e == p + d + "_N" + pad + e;
    assert LowerExt(s + e) == e;
    NoRunIn(s, 11);
    RenormalizeUnchanged(s + e, s, e, listing);
  }

  lemma {:induction false} IdemDateBranch(f: string, listing1: set<string>, listing2: set<string>, i: nat)
    requires |listing1| < 9999999999999
    requires var b := SplitExt(f).0;
      Search(b, Run14()).None? && Search(b, DateTimeShape()).None? && Search(b, DateShape()) == Some(i)
    ensures NormalizeName(NormalizeName(f, listing1), listing2) == NormalizeName(f, listing1)
  {
    var b := SplitExt(f).0;
    var e := LowerExt(f);
    DriverExt(f);
    var p := PrefixFor(e);
    var key := p + DateDigits(b, i);
    DateDigitsShape(b, i);
    var ex := Existing(listing1, key, e);
    SubsetCard(ex, listing1);
    var count := |ex| + 1;
    assert count < Pow10(13) by {
      assert Pow10(13) == 10000000000000;
    }
    NatToStringLength(count, 13);
    var pad := ZeroPad(count, 4);
    assert NormalizeName(f, listing1) == p + DateDigits(b, i) + "_N" + pad + e;
    IdemCounter(p, DateDigits(b, i), pad, e, listing2);
  }

  /**
   * Normalising is idempotent: feeding the result back, with its own
   * lower-cased extension and any directory listing, returns it unchanged.
   * The bound keeps the date-only counter below 14 digits.
   */
  lemma {:induction false} NormalizeIdempotent(f: string, listing1: set<string>, listing2: set<string>)
    requires |listing1| < 9999999999999
    ensures NormalizeName(NormalizeName(f, listing1), listing2) == NormalizeName(f, listing1)
  {
    var b := SplitExt(f).0;
    match Search(b, Run14()) {
      case Some(i) => IdemStampBranch(f, listing1, listing2, i);
      case None =>
        match Search(b, DateTimeShape()) {
          case Some(i) => IdemMinuteBranch(f, listing1, listing2, i);
          case None =>
            match Search(b, DateShape()) {
              case Some(i) => IdemDateBranch(f, listing1, listing2, i);
              case None => assert NormalizeName(f, listing1) == f;
            }
        }
    }
  }

  lemma {:induction false} IdemStampBranch(f: string, listing1: set<string>, listing2: set<string>, i: nat)
    requires Search(SplitExt(f).0, Run14()) == Some(i)
    ensures NormalizeName(NormalizeName(f, listing1), listing2) == NormalizeName(f, listing1)
  {
    var b := SplitExt(f).0;
    var e := LowerExt(f);
    DriverExt(f);
    var d := b[i..i + 14];
    assert AllDigits(d) by {
      forall k | 0 <= k < 14 ensures IsDigit(d[k]) { assert Fits(b[i + k], Run14()[k]); }
    }
    assert NormalizeName(f, listing1) == PrefixFor(e) + d + e;
    IdemStamp(PrefixFor(e), d, e, listing2);
  }

  lemma {:induction false} IdemMinuteBranch(f: string, listing1: set<string>, listing2: set<string>, i: nat)
    requires var b := SplitExt(f).0; Search(b, Run14()).None? && Search(b, DateTimeShape()) == Some(i)
    ensures NormalizeName(NormalizeName(f, listing1), listing2) == NormalizeName(f, listing1)
  {
    var b := SplitExt(f).0;
    var e := LowerExt(f);
    DriverExt(f);
    DateTimeDigitsShape(b, i);
    assert NormalizeName(f, listing1) == PrefixFor(e) + DateTimeDigits(b, i) + e;
    IdemMinute(PrefixFor(e), DateTimeDigits(b, i), e, listing2);
  }

  // ---------------------------------------------------------------------
  // Canonical names: PHOTO_PATTERN and VIDEO_PATTERN
  // ---------------------------------------------------------------------

  datatype Kind = Photo | Video

  function KindPrefix(k: Kind): string { if k == Photo then "IMG" else "VID" }

  function KindExt(k: Kind): string { if k == Photo then ".jpg" else ".mp4" }

  /** Case-insensitive equality of two strings (ASCII case folding). */
  predicate EqIgnoreCase(s: string, t: string) {
    |s| == |t| && forall i | 0 <= i < |s| :: LowerChar(s[i]) == LowerChar(t[i])
  }

  /** `IMG` or `VID`, 14 digits, an optional `_` and two digits, `.jpg` or `.mp4`, exactly. */
  predicate CanonicalBody(name: string, k: Kind) {
    && (|name| == 21 || |name| == 24)
    && EqIgnoreCase(name[..3], KindPrefix(k))
    && AllDigits(name[3..17])
    && (|name| == 24 ==> name[17] == '_' && AllDigits(name[18..20]))
    && EqIgnoreCase(name[|name| - 4..], KindExt(k))
  }

  /**
   * `PATTERN.match(name)` with `^...$` and `re.IGNORECASE`; Python's `$`
   * also accepts one newline at the very end.
   */
  predicate MatchesPattern(name: string, k: Kind) {
    CanonicalBody(name, k)
    || (|name| > 0 && name[|name| - 1] == '\n' && CanonicalBody(name[..|name| - 1], k))
  }

  /** `match.group(1)`: the four year digits. */
  function PatternYear(name: string, k: Kind): (y: string)
    requires MatchesPattern(name, k)
    ensures |y| == 4 && AllDigits(y)
  {
    var c := if CanonicalBody(name, k) then name else name[..|name| - 1];
    assert AllDigits(c[3..17]);
    assert forall i | 0 <= i < 4 :: name[3..7][i] == c[3..17][i];
    name[3..7]
  }

  // ---------------------------------------------------------------------
  // Dates: strptime("%Y:%m:%d %H:%M:%S") and strftime("%Y%m%d%H%M%S")
  // ---------------------------------------------------------------------

  datatype DateTime = DateTime(year: int, month: int, day: int, hour: int, minute: int, second: int)

  predicate IsLeap(y: int) { y % 4 == 0 && (y % 100 != 0 || y % 400 == 0) }

  function DaysInMonth(y: int, m: int): int {
    if m == 2 then (if IsLeap(y) then 29 else 28)
    else if m == 4 || m == 6 || m == 9 || m == 11 then 30
    else 31
  }

  /** What a Python `datetime` can hold. */
  predicate ValidDateTime(d: DateTime) {
    && 1 <= d.year <= 9999 && 1 <= d.month <= 12 && 1 <= d.day <= DaysInMonth(d.year, d.month)
    && 0 <= d.hour <= 23 && 0 <= d.minute <= 59 && 0 <= d.second <= 59
  }

  type Timestamp = d: DateTime | ValidDateTime(d) witness DateTime(1970, 1, 1, 0, 0, 0)

  lemma {:induction false} PadWidth(n: nat, w: nat)
    requires 1 <= w && n < Pow10(w)
    ensures |ZeroPad(n, w)| == w
  {
    NatToStringLength(n, w);
  }

  /** `dt.strftime("%Y")`, zero-padded to four digits. */
  function YearText(d: Timestamp): (r: string)
    ensures |r| == 4 && AllDigits(r) && DecimalValue(r) == d.year
  {
    assert Pow10(4) == 10000;
    PadWidth(d.year, 4);
    ZeroPadValue(d.year, 4);
    ZeroPad(d.year, 4)
  }

  function Two(n: nat): (r: string)
    requires n < 100
    ensures |r| == 2 && AllDigits(r) && DecimalValue(r) == n
  {
    assert Pow10(2) == 100;
    PadWidth(n, 2);
    ZeroPadValue(n, 2);
    ZeroPad(n, 2)
  }

  /**
   * `dt.strftime("%Y%m%d%H%M%S")`: fourteen digits, the year in four, then
   * the month, day, hour, minute and second in two each.
   */
  function Stamp(d: Timestamp): (r: string)
    ensures |r| == 14 && AllDigits(r) && r[..4] == YearText(d)
    ensures DecimalValue(r[..4]) == d.year && DecimalValue(r[4..6]) == d.month && DecimalValue(r[6..8]) == d.day
    ensures DecimalValue(r[8..10]) == d.hour && DecimalValue(r[10..12]) == d.minute && DecimalValue(r[12..14]) == d.second
  {
    var y := YearText(d);
    var m := Two(d.month);
    var da := Two(d.day);
    var h := Two(d.hour);
    var mi := Two(d.minute);
    var se := Two(d.second);
    StampFields(y, m, da, h, mi, se);
    y + m + da + h + mi + se
  }

  /** The six fields of a stamp sit at fixed offsets of their concatenation. */
  lemma {:induction false} StampFields(y: string, m: string, da: string, h: string, mi: string, se: string)
    requires |y| == 4 && |m| == 2 && |da| == 2 && |h| == 2 && |mi| == 2 && |se| == 2
    requires AllDigits(y) && AllDigits(m) && AllDigits(da) && AllDigits(h) && AllDigits(mi) && AllDigits(se)
    ensures var s := y + m + da + h + mi + se;
      && |s| == 14 && AllDigits(s)
      && s[..4] == y && s[4..6] == m && s[6..8] == da && s[8..10] == h && s[10..12] == mi && s[12..14] == se
  {
    var s := y + m + da + h + mi + se;
    assert s[..4] == y;
    assert s[4..6] == m;
    assert s[6..8] == da;
    assert s[8..10] == h;
    assert s[10..12] == mi;
    assert s[12..14] == se;
    forall i | 0 <= i < 14 ensures IsDigit(s[i]) {
      if i < 4 { assert s[i] == y[i]; }
      else if i < 6 { assert s[i] == s[4..6][i - 4]; }
      else if i < 8 { assert s[i] == s[6..8][i - 6]; }
      else if i < 10 { assert s[i] == s[8..10][i - 8]; }
      else if i < 12 { assert s[i] == s[10..12][i - 10]; }
      else { assert s[i] == s[12..14][i - 12]; }
    }
  }

  /** Two timestamps with the same stamp are the same to the second. */
  lemma {:induction false} StampInjective(d1: Timestamp, d2: Timestamp)
    requires Stamp(d1) == Stamp(d2)
    ensures d1 == d2
  {
  }

  /** The layout `YYYY:MM:DD HH:MM:SS`, character by character. */
  predicate ExifLayout(s: string) {
    && |s| == 19
    && AllDigits(s[..4]) && s[4] == ':' && AllDigits(s[5..7]) && s[7] == ':' && AllDigits(s[8..10])
    && s[10] == ' '
    && AllDigits(s[11..13]) && s[13] == ':' && AllDigits(s[14..16]) && s[16] == ':' && AllDigits(s[17..19])
  }

  /**
   * `datetime.strptime(value, "%Y:%m:%d %H:%M:%S")`, fixed-width: `None`
   * for the `ValueError` raised on a wrong layout or an impossible date.
   */
  function ParseExifDate(s: string): (r: Option<Timestamp>)
    ensures r.Some? ==> ExifLayout(s)
  {
    if ExifLayout(s) then
      var d := DateTime(DecimalValue(s[..4]), DecimalValue(s[5..7]), DecimalValue(s[8..10]),
                        DecimalValue(s[11..13]), DecimalValue(s[14..16]), DecimalValue(s[17..19]));
      if ValidDateTime(d) then Some(d) else None
    else None
  }

  /** Six numeric fields laid out as `YYYY:MM:DD HH:MM:SS`. */
  function Layout(y: string, mo: string, da: string, h: string, mi: string, se: string): string {
    y + ":" + mo + ":" + da + " " + h + ":" + mi + ":" + se
  }

  lemma {:induction false} LayoutFields(y: string, mo: string, da: string, h: string, mi: string, se: string)
    requires |y| == 4 && |mo| == 2 && |da| == 2 && |h| == 2 && |mi| == 2 && |se| == 2
    requires AllDigits(y) && AllDigits(mo) && AllDigits(da) && AllDigits(h) && AllDigits(mi) && AllDigits(se)
    ensures var s := Layout(y, mo, da, h, mi, se);
      && ExifLayout(s)
      && s[..4] == y && s[5..7] == mo && s[8..10] == da
      && s[11..13] == h && s[14..16] == mi && s[17..19] == se
  {
    var s := Layout(y, mo, da, h, mi, se);
    assert s[..4] == y;
    assert s[5..7] == mo;
    assert s[8..10] == da;
    assert s[11..13] == h;
    assert s[14..16] == mi;
    assert s[17..19] == se;
  }

  /** `dt.strftime("%Y:%m:%d %H:%M:%S")`, the form EXIF stores. */
  function ExifText(d: Timestamp): string {
    Layout(YearText(d), Two(d.month), Two(d.day), Two(d.hour), Two(d.minute), Two(d.second))
  }

  /** Parsing what EXIF stores for a date gives the date back. */
  lemma {:induction false} ParseExifText(d: Timestamp)
    ensures ParseExifDate(ExifText(d)) == Some(d)
  {
    LayoutFields(YearText(d), Two(d.month), Two(d.day), Two(d.hour), Two(d.minute), Two(d.second));
  }

  /** The key `TAGS.get(tag_id, tag_id)` yields: a tag name, or the bare id. */
  datatype TagKey = Named(name: string) | Unnamed(id: int)

  /** An EXIF value: text, or anything else (which `strptime` rejects). */
  datatype ExifValue = TextValue(text: string) | OtherValue

  datatype ExifItem = ExifItem(key: TagKey, value: ExifValue)

  predicate IsDateTag(k: TagKey) {
    k.Named? && (k.name == "DateTimeOriginal" || k.name == "DateTime")
  }

  function ParseExifValue(v: ExifValue): Option<Timestamp> {
    match v
    case TextValue(t) => ParseExifDate(t)
    case OtherValue => None
  }

  /** `k` is the first item, in iteration order, whose tag is a date tag. */
  predicate FirstDateIndex(items: seq<ExifItem>, k: nat) {
    k < |items| && IsDateTag(items[k].key) && forall j | 0 <= j < k :: !IsDateTag(items[j].key)
  }

  /** The loop over `exif_data.items()` returning at the first date tag. */
  function FirstDateTag(items: seq<ExifItem>): (r: Option<Timestamp>)
    ensures forall k: nat | FirstDateIndex(items, k) :: r == ParseExifValue(items[k].value)
    ensures (forall k | 0 <= k < |items| :: !IsDateTag(items[k].key)) ==> r == None
  {
    if items == [] then None
    else if IsDateTag(items[0].key) then ParseExifValue(items[0].value)
    else
      var r := FirstDateTag(items[1..]);
      assert forall k: nat | FirstDateIndex(items, k) :: k >= 1 && FirstDateIndex(items[1..], k - 1);
      r
  }

  /**
   * `_get_exif_datetime`: `None` when the image or its EXIF block cannot be
   * read (`exif == None`), when the block is empty, when no date tag exists,
   * or when the first date tag fails to parse (the other tag is not tried).
   */
  function ExifDateTime(exif: Option<seq<ExifItem>>): (r: Option<Timestamp>)
    ensures exif.None? ==> r == None
    ensures exif.Some? ==> forall k: nat | FirstDateIndex(exif.value, k) :: r == ParseExifValue(exif.value[k].value)
    ensures exif.Some? && (forall k | 0 <= k < |exif.value| :: !IsDateTag(exif.value[k].key)) ==> r == None
  {
    match exif
    case None => None
    case Some(items) => if items == [] then None else FirstDateTag(items)
  }

  // ---------------------------------------------------------------------
  // Perceptual hashes and digests
  // ---------------------------------------------------------------------

  /** `imagehash.phash` with its default size: an 8 x 8 bit matrix. */
  const HashBits: nat := 64

  type Hash = h: seq<bool> | |h| == HashBits witness seq(64, _ => false)

  /** `h1 - h2` on image hashes: the number of differing bits. */
  function Hamming(a: seq<bool>, b: seq<bool>): (d: nat)
    requires |a| == |b|
    ensures d <= |a|
  {
    if a == [] then 0 else (if a[0] != b[0] then 1 else 0) + Hamming(a[1..], b[1..])
  }

  /** `1 - distance / hash_size >= 0.98`, over the integers. */
  predicate Similar(h1: Hash, h2: Hash) { 50 * Hamming(h1, h2) <= |h1| }

  /** With 64-bit hashes, similar means at most one differing bit. */
  lemma {:induction false} SimilarMeansOneBit(h1: Hash, h2: Hash)
    ensures Similar(h1, h2) <==> Hamming(h1, h2) <= 1
  {
  }

  lemma {:induction false} HammingSelf(a: seq<bool>)
    ensures Hamming(a, a) == 0
  {
    if a != [] { HammingSelf(a[1..]); }
  }

  lemma {:induction false} HammingSymmetric(a: seq<bool>, b: seq<bool>)
    requires |a| == |b|
    ensures Hamming(a, b) == Hamming(b, a)
  {
    if a != [] { HammingSymmetric(a[1..], b[1..]); }
  }

  /** Similarity is reflexive and symmetric. */
  lemma {:induction false} SimilarReflSym(h1: Hash, h2: Hash)
    ensures Similar(h1, h1)
    ensures Similar(h1, h2) <==> Similar(h2, h1)
  {
    HammingSelf(h1);
    HammingSymmetric(h1, h2);
  }

  /** The hashes of the image turned by 90, 180 and 270 degrees. */
  datatype Rotations = Rotations(r90: Hash, r180: Hash, r270: Hash)

  /**
   * A file of the staging directory, reduced to what the tool observes of it:
   * its perceptual hash (`None` when PIL cannot open it), the hashes of its
   * rotations, its MD5 digest, its EXIF items (`None` when there is no
   * readable EXIF block) and its modification time.
   */
  datatype MediaFile = MediaFile(
    phash: Option<Hash>,
    rotations: Rotations,
    md5: string,
    exif: Option<seq<ExifItem>>,
    mtime: Option<Timestamp>)

  /** The test made against one retained hash: straight, then each rotation. */
  predicate MatchesRetained(h: Hash, rot: Rotations, prev: Hash) {
    Similar(h, prev) || Similar(rot.r90, prev) || Similar(rot.r180, prev) || Similar(rot.r270, prev)
  }

  /**
   * The scan of `seen_images` in insertion order: the index of the first
   * retained image that the candidate matches.
   */
  function FirstSimilar(h: Hash, rot: Rotations, seen: seq<(string, Hash)>): (r: Option<nat>)
    ensures r.Some? ==> r.value < |seen| && MatchesRetained(h, rot, seen[r.value].1)
    ensures r.Some? ==> forall j | 0 <= j < r.value :: !MatchesRetained(h, rot, seen[j].1)
    ensures r.None? <==> forall j | 0 <= j < |seen| :: !MatchesRetained(h, rot, seen[j].1)
  {
    if seen == [] then None
    else if MatchesRetained(h, rot, seen[0].1) then Some(0)
    else
      match FirstSimilar(h, rot, seen[1..])
      case None => None
      case Some(k) => Some(k + 1)
  }

  /** `[k for k, v in seen_videos.items() if v == h][0]`, as an index. */
  function FirstDigest(d: string, seen: seq<(string, string)>): (r: Option<nat>)
    ensures r.Some? ==> r.value < |seen| && seen[r.value].1 == d
    ensures r.Some? ==> forall j | 0 <= j < r.value :: seen[j].1 != d
    ensures r.None? <==> forall j | 0 <= j < |seen| :: seen[j].1 != d
  {
    if seen == [] then None
    else if seen[0].1 == d then Some(0)
    else
      match FirstDigest(d, seen[1..])
      case None => None
      case Some(k) => Some(k + 1)
  }

  /** The keys of an insertion-ordered dict held as a sequence of pairs. */
  function Keys<V>(d: seq<(string, V)>): set<string> { set i | 0 <= i < |d| :: d[i].0 }

  lemma {:induction false} KeysCons<V>(p: (string, V), d: seq<(string, V)>)
    ensures Keys([p] + d) == {p.0} + Keys(d)
  {
    var s := [p] + d;
    forall x | x in Keys(d) ensures x in Keys(s) {
      var i :| 0 <= i < |d| && d[i].0 == x;
      assert s[i + 1].0 == x;
    }
    forall x | x in Keys(s) ensures x in {p.0} + Keys(d) {
      var i :| 0 <= i < |s| && s[i].0 == x;
      if i > 0 { assert d[i - 1].0 == x; }
    }
    assert s[0].0 == p.0;
  }

  /** `d[k] = v` on an insertion-ordered dict: an existing key keeps its place, a new one goes last. */
  function Put<V>(d: seq<(string, V)>, k: string, v: V): (r: seq<(string, V)>)
    ensures Keys(r) == Keys(d) + {k}
    ensures k !in Keys(d) ==> r == d + [(k, v)]
  {
    if d == [] then
      KeysCons((k, v), []);
      assert [(k, v)] + [] == [(k, v)];
      [(k, v)]
    else
      KeysCons(d[0], d[1..]);
      assert d == [d[0]] + d[1..];
      if d[0].0 == k then
        KeysCons((k, v), d[1..]);
        [(k, v)] + d[1..]
      else
        var rest := Put(d[1..], k, v);
        KeysCons(d[0], rest);
        assert forall i | 1 <= i < |d| :: d[i] == d[1..][i - 1];
        [d[0]] + rest
  }

  // ---------------------------------------------------------------------
  // Routing of a surviving file
  // ---------------------------------------------------------------------

  /** Where a file that was not a duplicate is sent. */
  datatype Route =
    | ToPhotos(year: string, name: string)
    | ToVideos(year: string, name: string)
    | Undated(name: string)
    | Unsupported

  /** A name that is neither canonical nor `.jpg`/`.mp4`: the file is left where it is. */
  predicate UnsupportedName(filename: string) {
    !MatchesPattern(filename, Photo) && !MatchesPattern(filename, Video) && LowerExt(filename) !in {".jpg", ".mp4"}
  }

  /** The date used for a non-canonical name: EXIF for `.jpg`, the modification time otherwise. */
  function DateFor(e: string, f: MediaFile): Option<Timestamp> {
    if e == ".jpg" then ExifDateTime(f.exif) else f.mtime
  }

  /**
   * The classification of one file: canonical photo names go to
   * `photos/<year>`, canonical video names to `videos/<year>`, other `.jpg`
   * and `.mp4` files are renamed from their date or, without one, sent to
   * the quarantine directory; every other extension is left alone.
   */
  function RouteOf(filename: string, f: MediaFile): (r: Route)
    ensures MatchesPattern(filename, Photo) ==> r == ToPhotos(PatternYear(filename, Photo), filename)
    ensures !MatchesPattern(filename, Photo) && MatchesPattern(filename, Video) ==>
      r == ToVideos(PatternYear(filename, Video), filename)
    ensures r.Undated? <==>
      && !MatchesPattern(filename, Photo) && !MatchesPattern(filename, Video)
      && LowerExt(filename) in {".jpg", ".mp4"} && DateFor(LowerExt(filename), f).None?
    ensures r.Undated? ==> r.name == filename
    ensures r.Unsupported? <==> UnsupportedName(filename)
  {
    var e := LowerExt(filename);
    if MatchesPattern(filename, Photo) then ToPhotos(PatternYear(filename, Photo), filename)
    else if MatchesPattern(filename, Video) then ToVideos(PatternYear(filename, Video), filename)
    else if e == ".jpg" || e == ".mp4" then
      match DateFor(e, f)
      case Some(d) =>
        var name := PrefixFor(e) + Stamp(d) + e;
        if e == ".jpg" then ToPhotos(YearText(d), name) else ToVideos(YearText(d), name)
      case None => Undated(filename)
    else Unsupported
  }

  /**
   * A dated `.jpg` or `.mp4` without a canonical name goes to the year of
   * its date, under the photo or the video root by its extension, renamed
   * `IMG` or `VID` followed by the stamp of that date.
   */
  lemma {:induction false} RouteOfDated(filename: string, f: MediaFile)
    requires !MatchesPattern(filename, Photo) && !MatchesPattern(filename, Video)
    ensures LowerExt(filename) == ".jpg" && ExifDateTime(f.exif).Some? ==>
      var d := ExifDateTime(f.exif).value;
      RouteOf(filename, f) == ToPhotos(YearText(d), "IMG" + Stamp(d) + ".jpg")
    ensures LowerExt(filename) == ".mp4" && f.mtime.Some? ==>
      var d := f.mtime.value;
      RouteOf(filename, f) == ToVideos(YearText(d), "VID" + Stamp(d) + ".mp4")
  {
  }

  /** The shape of the name synthesised from a date. */
  lemma {:induction false} SynthesisedNameMatches(k: Kind, d: Timestamp)
    ensures MatchesPattern(KindPrefix(k) + Stamp(d) + KindExt(k), k)
    ensures PatternYear(KindPrefix(k) + Stamp(d) + KindExt(k), k) == YearText(d)
  {
    CanonicalOf(k, Stamp(d));
  }

  lemma {:induction false} CanonicalOf(k: Kind, t: string)
    requires |t| == 14 && AllDigits(t)
    ensures MatchesPattern(KindPrefix(k) + t + KindExt(k), k)
    ensures PatternYear(KindPrefix(k) + t + KindExt(k), k) == t[..4]
  {
    var n := KindPrefix(k) + t + KindExt(k);
    assert n[..3] == KindPrefix(k);
    assert n[3..17] == t;
    assert n[|n| - 4..] == KindExt(k);
    assert CanonicalBody(n, k);
    assert n[3..7] == t[..4];
  }

  /**
   * Every file sent to `photos/<y>` or `videos/<y>` carries a canonical name
   * of that kind, and `y` is the year written in that name.
   */
  lemma {:induction false} RouteDestinationSound(filename: string, f: MediaFile)
    ensures var r := RouteOf(filename, f);
      r.ToPhotos? ==> MatchesPattern(r.name, Photo) && r.year == PatternYear(r.name, Photo)
    ensures var r := RouteOf(filename, f);
      r.ToVideos? ==> MatchesPattern(r.name, Video) && r.year == PatternYear(r.name, Video)
  {
    var e := LowerExt(filename);
    if !MatchesPattern(filename, Photo) && !MatchesPattern(filename, Video) && (e == ".jpg" || e == ".mp4") {
      match DateFor(e, f)
      case Some(d) =>
        if e == ".jpg" {
          SynthesisedNameMatches(Photo, d);
        } else {
          SynthesisedNameMatches(Video, d);
        }
      case None =>
    }
  }

  /** A file already carrying a canonical name keeps it: routing does not rename it. */
  lemma {:induction false} RouteKeepsCanonicalName(filename: string, f: MediaFile, k: Kind)
    requires MatchesPattern(filename, k)
    ensures RouteOf(filename, f).ToPhotos? || RouteOf(filename, f).ToVideos?
    ensures RouteOf(filename, f).name == filename
  {
  }
}
