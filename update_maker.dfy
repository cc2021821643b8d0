/**
 * The version check of `update_maker.py`: the local version string, the
 * parsing of a dotted version into a tuple of integers, the comparison of
 * two such tuples as Python compares tuples, and the decision taken on the
 * release record published with the application.
 */
module UpdateMaker {
  import opened Wrappers
  import opened Text

  // ---------------------------------------------------------------------
  // normalize_version
  // ---------------------------------------------------------------------

  /** `int(x)` for every part in turn; `None` as soon as one of them raises `ValueError`. */
  function ParseParts(parts: seq<string>): (r: Option<seq<int>>)
    ensures r.Some? <==> forall i | 0 <= i < |parts| :: ParseInt(parts[i]).Some?
    ensures r.Some? ==> |r.value| == |parts| && forall i | 0 <= i < |parts| :: r.value[i] == ParseInt(parts[i]).value
  {
    if parts == [] then Some([])
    else
      var rest := ParseParts(parts[1..]);
      assert forall i | 1 <= i < |parts| :: parts[1..][i - 1] == parts[i];
      var head := ParseInt(parts[0]);
      if head.None? || rest.None? then None else Some([head.value] + rest.value)
  }

  /**
   * `normalize_version`: the stripped version split at the dots, each part
   * read as an integer (white space around it and single underscores
   * between digits allowed, as `int()` allows them); `(0, 0, 0)` when any
   * part, an empty one included, is not an integer.
   */
  function NormalizeVersion(v: string): (r: seq<int>)
    ensures |r| >= 1
    ensures var parts := Split(Strip(v), '.');
      if forall i | 0 <= i < |parts| :: ParseInt(parts[i]).Some?
      then |r| == |parts| && forall i | 0 <= i < |parts| :: r[i] == ParseInt(parts[i]).value
      else r == [0, 0, 0]
  {
    match ParseParts(Split(Strip(v), '.'))
    case Some(ns) => ns
    case None => [0, 0, 0]
  }

  /** `".".join(str(n) for n in ns)`: the canonical spelling of a version. */
  function Render(ns: seq<nat>): (r: string)
    requires |ns| >= 1
  {
    Join(NatStrings(ns), '.')
  }

  function NatStrings(ns: seq<nat>): (r: seq<string>)
    ensures |r| == |ns| && forall i | 0 <= i < |ns| :: r[i] == NatToString(ns[i])
  {
    if ns == [] then [] else [NatToString(ns[0])] + NatStrings(ns[1..])
  }

  /** Every character of a join of digit strings is a digit or the separator, and it starts with a digit. */
  lemma {:induction false} JoinOfDigits(parts: seq<string>)
    requires |parts| >= 1 && forall i | 0 <= i < |parts| :: |parts[i]| >= 1 && AllDigits(parts[i])
    ensures var s := Join(parts, '.');
      && |s| >= 1 && IsDigit(s[0])
      && forall i | 0 <= i < |s| :: IsDigit(s[i]) || s[i] == '.'
  {
    var s := Join(parts, '.');
    if |parts| == 1 {
      assert s == parts[0];
    } else {
      var tail := parts[1..];
      assert forall i | 0 <= i < |tail| :: tail[i] == parts[i + 1];
      JoinOfDigits(tail);
      var t := Join(tail, '.');
      assert s == parts[0] + ['.'] + t;
      assert AllDigits(parts[0]);
      forall i | 0 <= i < |s| ensures IsDigit(s[i]) || s[i] == '.' {
        if i < |parts[0]| {
          assert s[i] == parts[0][i];
        } else if i > |parts[0]| {
          assert s[i] == t[i - |parts[0]| - 1];
        }
      }
      assert s[0] == parts[0][0];
    }
  }

  /** A rendered version is digits and dots only, and starts with a digit. */
  lemma RenderChars(ns: seq<nat>)
    requires |ns| >= 1
    ensures var s := Render(ns);
      && |s| >= 1 && IsDigit(s[0])
      && forall i | 0 <= i < |s| :: IsDigit(s[i]) || s[i] == '.'
  {
    JoinOfDigits(NatStrings(ns));
  }

  /** Parsing the canonical spelling of a version gives the version back. */
  lemma NormalizeRender(ns: seq<nat>)
    requires |ns| >= 1
    ensures NormalizeVersion(Render(ns)) == ns
  {
    SplitRender(ns);
    ParseNatStrings(ns);
    var r := NormalizeVersion(Render(ns));
    assert |r| == |ns| && forall i | 0 <= i < |ns| :: r[i] == ns[i];
  }

  /** The canonical spelling of a version splits back into the spellings of its numbers. */
  lemma SplitRender(ns: seq<nat>)
    requires |ns| >= 1
    ensures Split(Strip(Render(ns)), '.') == NatStrings(ns)
  {
    var s := Render(ns);
    var parts := NatStrings(ns);
    RenderChars(ns);
    assert forall i | 0 <= i < |s| :: !IsSpace(s[i]) by {
      forall i | 0 <= i < |s| ensures !IsSpace(s[i]) {
        assert IsDigit(s[i]) || s[i] == '.';
      }
    }
    StripNoSpace(s);
    assert forall i | 0 <= i < |parts| :: '.' !in parts[i] by {
      forall i | 0 <= i < |parts| ensures '.' !in parts[i] {
        assert AllDigits(parts[i]);
      }
    }
    SplitOfJoin(parts, '.');
  }

  /** Each number's spelling parses back to the number. */
  lemma ParseNatStrings(ns: seq<nat>)
    ensures forall i | 0 <= i < |ns| :: ParseInt(NatStrings(ns)[i]) == Some(ns[i] as int)
  {
    forall i | 0 <= i < |ns| ensures ParseInt(NatStrings(ns)[i]) == Some(ns[i] as int) {
      ParseIntOfNatToString(ns[i]);
    }
  }

  // ---------------------------------------------------------------------
  // Tuple order and is_update_available
  // ---------------------------------------------------------------------

  /** Python's `<` on tuples of integers. */
  predicate TupleLess(a: seq<int>, b: seq<int>) {
    if a == [] then b != []
    else if b == [] then false
    else if a[0] != b[0] then a[0] < b[0]
    else TupleLess(a[1..], b[1..])
  }

  /** `a < b` decided at position `k`: equal before it, and there `a` ends first or holds the smaller item. */
  ghost predicate LessAt(a: seq<int>, b: seq<int>, k: nat) {
    && k <= |a| && k <= |b| && a[..k] == b[..k]
    && ((k == |a| && k < |b|) || (k < |a| && k < |b| && a[k] < b[k]))
  }

  /** The tuple order is the lexicographic order in which a proper prefix is smaller. */
  lemma {:induction false} TupleLessIff(a: seq<int>, b: seq<int>)
    ensures TupleLess(a, b) <==> exists k: nat :: LessAt(a, b, k)
    decreases |a|
  {
    if a == [] {
      if b != [] {
        assert LessAt(a, b, 0);
      }
    } else if b == [] {
      forall k: nat ensures !LessAt(a, b, k) {}
    } else if a[0] != b[0] {
      if a[0] < b[0] {
        assert LessAt(a, b, 0);
      }
      forall k: nat | LessAt(a, b, k) ensures k == 0 {}
    } else {
      TupleLessIff(a[1..], b[1..]);
      if TupleLess(a[1..], b[1..]) {
        var k: nat :| LessAt(a[1..], b[1..], k);
        assert a[..k + 1] == [a[0]] + a[1..][..k];
        assert b[..k + 1] == [b[0]] + b[1..][..k];
        assert LessAt(a, b, k + 1);
      }
      forall k: nat | LessAt(a, b, k) ensures LessAt(a[1..], b[1..], k - 1) {
        assert k != 0;
        assert a[1..][..k - 1] == a[..k][1..];
        assert b[1..][..k - 1] == b[..k][1..];
      }
    }
  }

  lemma {:induction false} TupleLessIrreflexive(a: seq<int>)
    ensures !TupleLess(a, a)
    decreases |a|
  {
    if a != [] {
      TupleLessIrreflexive(a[1..]);
    }
  }

  lemma {:induction false} TupleLessAsymmetric(a: seq<int>, b: seq<int>)
    ensures !(TupleLess(a, b) && TupleLess(b, a))
    decreases |a|
  {
    if a != [] && b != [] && a[0] == b[0] {
      TupleLessAsymmetric(a[1..], b[1..]);
    }
  }

  lemma {:induction false} TupleLessTransitive(a: seq<int>, b: seq<int>, c: seq<int>)
    ensures TupleLess(a, b) && TupleLess(b, c) ==> TupleLess(a, c)
    decreases |a|
  {
    if a != [] && b != [] && c != [] && a[0] == b[0] == c[0] {
      TupleLessTransitive(a[1..], b[1..], c[1..]);
    }
  }

  /** Two different tuples are always ordered one way or the other. */
  lemma {:induction false} TupleLessTotal(a: seq<int>, b: seq<int>)
    ensures a != b ==> TupleLess(a, b) || TupleLess(b, a)
    decreases |a|
  {
    if a != [] && b != [] && a[0] == b[0] {
      TupleLessTotal(a[1..], b[1..]);
      if a[1..] == b[1..] {
        assert a == [a[0]] + a[1..] && b == [b[0]] + b[1..];
      }
    }
  }

  /** `is_update_available`: the remote version is strictly newer than the local one. */
  predicate IsUpdateAvailable(local: string, remote: string) {
    TupleLess(NormalizeVersion(local), NormalizeVersion(remote))
  }

  /** No version is an update over itself. */
  lemma UpdateIrreflexive(v: string)
    ensures !IsUpdateAvailable(v, v)
  {
    TupleLessIrreflexive(NormalizeVersion(v));
  }

  /** Of two versions, at most one is an update over the other. */
  lemma UpdateAsymmetric(l: string, r: string)
    ensures !(IsUpdateAvailable(l, r) && IsUpdateAvailable(r, l))
  {
    TupleLessAsymmetric(NormalizeVersion(l), NormalizeVersion(r));
  }

  /** On canonical spellings the decision is the tuple order of the versions themselves. */
  lemma UpdateOfRendered(ls: seq<nat>, rs: seq<nat>)
    requires |ls| >= 1 && |rs| >= 1
    ensures IsUpdateAvailable(Render(ls), Render(rs)) <==> TupleLess(ls, rs)
  {
    NormalizeRender(ls);
    NormalizeRender(rs);
  }

  /** The tenth minor release comes after the ninth: the parts compare as numbers, not as text. */
  lemma TenAfterNine()
    ensures IsUpdateAvailable("1.9.3", "1.10.0")
  {
    assert Render([1, 9, 3]) == "1.9.3";
    assert Render([1, 10, 0]) == "1.10.0";
    UpdateOfRendered([1, 9, 3], [1, 10, 0]);
  }

  /** A version that is a proper prefix of another is older: `1.2` before `1.2.0`. */
  lemma PrefixIsOlder()
    ensures IsUpdateAvailable("1.2", "1.2.0")
  {
    assert Render([1, 2]) == "1.2";
    assert Render([1, 2, 0]) == "1.2.0";
    UpdateOfRendered([1, 2], [1, 2, 0]);
  }

  // ---------------------------------------------------------------------
  // get_local_version
  // ---------------------------------------------------------------------

  /**
   * `get_local_version`: the contents of `assets/version.txt` (`None` when
   * opening or reading it raises), stripped and then rid of every leading
   * `v`; `"0.0.0"` when the file cannot be read.
   */
  function LocalVersion(contents: Option<string>): (r: string)
    ensures contents.None? ==> r == "0.0.0"
    ensures contents.Some? ==>
      && (r == [] || r[0] != 'v')
      && exists k: nat | k <= |Strip(contents.value)| :: Strip(contents.value) == Repeat('v', k) + r
  {
    match contents
    case None => "0.0.0"
    case Some(text) =>
      var s := Strip(text);
      var r := LStripChar(s, 'v');
      var k := |s| - |r|;
      assert s == Repeat('v', k) + r by {
        assert s[..k] == Repeat('v', k);
        assert s == s[..k] + s[k..];
      }
      r
  }

  lemma LStripRepeat(k: nat, s: string)
    requires s == [] || s[0] != 'v'
    ensures LStripChar(Repeat('v', k) + s, 'v') == s
  {
    var t := Repeat('v', k) + s;
    var r := LStripChar(t, 'v');
    // Fewer than k characters stripped would leave a `v` in front, more
    // would have stripped the first character of `s`.
    assert s != [] ==> t[k] == s[0];
    if |t| - |r| < k {
      assert false;
    } else if |t| - |r| > k {
      assert false;
    }
  }

  /**
   * A version file holding a canonical version behind any number of `v`s,
   * followed by a line break, gives that version.
   */
  lemma LocalVersionOfFile(k: nat, ns: seq<nat>)
    requires |ns| >= 1
    ensures LocalVersion(Some(Repeat('v', k) + Render(ns) + "\n")) == Render(ns)
    ensures NormalizeVersion(LocalVersion(Some(Repeat('v', k) + Render(ns) + "\n"))) == ns
  {
    var v := Render(ns);
    RenderChars(ns);
    var x := Repeat('v', k) + v;
    assert forall i | 0 <= i < |x| :: !IsSpace(x[i]) by {
      forall i | 0 <= i < |x| ensures !IsSpace(x[i]) {
        if i >= k {
          assert x[i] == v[i - k];
          assert IsDigit(v[i - k]) || v[i - k] == '.';
        }
      }
    }
    var text := x + "\n";
    assert LStrip(text) == text by { assert text[0] == x[0]; }
    assert RStrip(text) == RStrip(x) by {
      assert IsSpace(text[|text| - 1]);
      assert text[..|text| - 1] == x;
    }
    StripNoSpace(x);
    assert RStrip(x) == x by { LStripSpec(x); }
    assert Strip(text) == x;
    LStripRepeat(k, v);
    NormalizeRender(ns);
  }

  // ---------------------------------------------------------------------
  // check_for_update
  // ---------------------------------------------------------------------

  /**
   * The release record `latest.json` as far as the check reads it: the
   * value under each key it looks up (`None`: the key is missing) and the
   * other keys present.
   */
  datatype Release = Release(version: Option<string>, url: Option<string>, changelog: Option<seq<string>>,
                             mandatory: Option<bool>, otherKeys: set<string>)

  /** Python's truth value of the record: a dictionary is false exactly when it is empty. */
  predicate NonEmpty(rel: Release) {
    rel.version.Some? || rel.url.Some? || rel.changelog.Some? || rel.mandatory.Some? || rel.otherKeys != {}
  }

  /** The dictionary `check_for_update` returns when an update is offered. */
  datatype UpdateInfo = UpdateInfo(newVersion: string, url: Option<string>, changelog: seq<string>, mandatory: bool)

  /** The triple `(info, local, remote_version)`; `None` stands for Python's `None`. */
  datatype UpdateCheck = UpdateCheck(info: Option<UpdateInfo>, local: string, remoteVersion: Option<string>)

  /**
   * `check_for_update`, given the contents of the local version file and
   * what `get_remote_info` returned (`None` when the request failed, gave
   * another status than 200, or raised).
   */
  function CheckForUpdate(localFile: Option<string>, remote: Option<Release>): (r: UpdateCheck)
    ensures r.local == LocalVersion(localFile)
    ensures r.remoteVersion.None? <==> remote.None? || !NonEmpty(remote.value)
    ensures r.remoteVersion.Some? ==>
      r.remoteVersion.value == if remote.value.version.Some? then remote.value.version.value else "0.0.0"
    ensures r.info.Some? <==> r.remoteVersion.Some? && IsUpdateAvailable(r.local, r.remoteVersion.value)
    ensures r.info.Some? ==>
      && TupleLess(NormalizeVersion(r.local), NormalizeVersion(r.info.value.newVersion))
      && r.info.value.newVersion == r.remoteVersion.value
      && r.info.value.url == remote.value.url
      && r.info.value.changelog == (if remote.value.changelog.Some? then remote.value.changelog.value else [])
      && r.info.value.mandatory == (remote.value.mandatory.Some? && remote.value.mandatory.value)
  {
    var local := LocalVersion(localFile);
    if remote.None? || !NonEmpty(remote.value) then UpdateCheck(None, local, None)
    else
      var rel := remote.value;
      var version := match rel.version case Some(v) => v case None => "0.0.0";
      if IsUpdateAvailable(local, version) then
        var changelog := match rel.changelog case Some(c) => c case None => [];
        var mandatory := match rel.mandatory case Some(m) => m case None => false;
        UpdateCheck(Some(UpdateInfo(version, rel.url, changelog, mandatory)), local, Some(version))
      else UpdateCheck(None, local, Some(version))
  }

  /** A release naming the version already installed offers nothing. */
  lemma NoUpdateToSameVersion(localFile: Option<string>, rel: Release)
    requires rel.version == Some(LocalVersion(localFile))
    ensures CheckForUpdate(localFile, Some(rel)).info.None?
  {
    UpdateIrreflexive(LocalVersion(localFile));
  }

  /** Without a version file and without a version in the release, both sides are `0.0.0`: no update. */
  lemma NoUpdateWithoutVersions(rel: Release)
    requires rel.version.None?
    ensures CheckForUpdate(None, Some(rel)).info.None?
  {
    UpdateIrreflexive("0.0.0");
  }

  /**
   * A version file spelling `ls` and a release spelling `rs` offer the
   * update exactly when `rs` is the newer tuple, and it names `rs`.
   */
  lemma UpdateOffered(k: nat, ls: seq<nat>, rs: seq<nat>, rel: Release)
    requires |ls| >= 1 && |rs| >= 1 && rel.version == Some(Render(rs))
    ensures var r := CheckForUpdate(Some(Repeat('v', k) + Render(ls) + "\n"), Some(rel));
      && r.local == Render(ls) && r.remoteVersion == Some(Render(rs))
      && (r.info.Some? <==> TupleLess(ls, rs))
      && (r.info.Some? ==> r.info.value.newVersion == Render(rs))
  {
    LocalVersionOfFile(k, ls);
    UpdateOfRendered(ls, rs);
  }

  /** Once an update from `a` to `b` is offered, none from `b` back to `a` is. */
  lemma NoUpdateBack(fa: string, fb: string, ra: Release, rb: Release)
    requires ra.version == Some(LocalVersion(Some(fa))) && rb.version == Some(LocalVersion(Some(fb)))
    ensures !(CheckForUpdate(Some(fa), Some(rb)).info.Some? && CheckForUpdate(Some(fb), Some(ra)).info.Some?)
  {
    UpdateAsymmetric(LocalVersion(Some(fa)), LocalVersion(Some(fb)));
  }
}
