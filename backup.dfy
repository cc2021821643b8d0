/**
 * `run_backup` (backup.py): mirrors the photo source tree into
 * `<backup_dest>\MemorEase_backup\Photos` and the video source tree into
 * `<backup_dest>\MemorEase_backup\Videos`.  `mirror` first copies every
 * source file that is missing from the destination or whose MD5 differs,
 * then deletes every destination file the source does not have.
 *
 * A tree is the dict `mirror` builds from `os.walk`: relative path to file
 * content, iterated in the order the walk inserted the paths.  The MD5
 * digest, the walk order and the cancel flag come from outside.
 */
module Backup {
  import opened Wrappers
  import opened Text

  type Bytes = seq<bv8>

  /** A directory tree: relative path of every file under the root, to its content. */
  type Tree = map<string, Bytes>

  /** `md5sum`: the hex digest of a file's content. */
  type Digest = Bytes -> string

  /** A walked directory: its tree, and the relative paths in the order `os.walk` yields them. */
  datatype Dir = Dir(files: Tree, walk: seq<string>)

  /** The walk lists every file of the tree, and each once. */
  predicate Walked(d: Dir) {
    && NoRepeats(d.walk)
    && (forall i | 0 <= i < |d.walk| :: d.walk[i] in d.files)
    && (forall k | k in d.files :: k in d.walk)
  }

  /** No path is listed twice. */
  predicate NoRepeats(vs: seq<string>) {
    vs == [] || (NoRepeats(vs[..|vs| - 1]) && vs[|vs| - 1] !in vs[..|vs| - 1])
  }

  /** One line passed to `log_callback`. */
  datatype Entry = Ignored(rel: string) | Copied(rel: string) | Removed(rel: string) | Stop

  /** `count_files`: every file of the tree, wherever it sits. */
  function CountFiles(t: Tree): nat { |t.Keys| }

  /** A destination that may not exist yet (`None` when `os.path.isdir` is false) reads as an empty walk. */
  function Existing(d: Option<Dir>): Dir { if d.Some? then d.value else Dir(map[], []) }

  /** `count_files(dst) if os.path.isdir(dst) else 0`. */
  function ExistingCount(d: Option<Dir>): nat { CountFiles(Existing(d).files) }

  // ---------------------------------------------------------------------
  // What `mirror` leaves behind
  // ---------------------------------------------------------------------

  /** The source files already present in the destination with the same digest. */
  function Unchanged(src: Tree, dst: Tree, digest: Digest): set<string> {
    set k | k in src.Keys && SameFile(src, dst, digest, k)
  }

  /** `rel in dst_files` and `md5sum(src_path) == md5sum(dst_path)`. */
  predicate SameFile(src: Tree, dst: Tree, digest: Digest, k: string) {
    k in src.Keys && k in dst.Keys && digest(src[k]) == digest(dst[k])
  }

  /** The destination once the copy loop has handled every source file. */
  ghost predicate CopiedAll(src: Tree, dst0: Tree, digest: Digest, d: Tree) {
    && (forall k :: k in d <==> k in dst0 || k in src)
    && (forall k | k in d :: d[k] == if k in src && !SameFile(src, dst0, digest, k) then src[k] else dst0[k])
  }

  /** The tree once the deletion loop has handled every file in `before`. */
  ghost predicate PrunedAll(t0: Tree, src: Tree, before: set<string>, t: Tree) {
    && (forall k :: k in t <==> k in t0 && (k !in before || k in src))
    && (forall k | k in t :: t[k] == t0[k])
  }

  /** The destination a completed `mirror` leaves: the source's files, old ones kept where the digests agree. */
  function Mirrored(src: Tree, dst: Tree, digest: Digest): Tree {
    map k | k in src.Keys :: if SameFile(src, dst, digest, k) then dst[k] else src[k]
  }

  /**
   * After a completed mirror the destination has exactly the source's
   * relative paths and each file has its source's digest; when the digest
   * tells contents apart, the destination is the source.
   */
  lemma {:induction false} MirroredMatchesSource(src: Tree, dst: Tree, digest: Digest)
    ensures Mirrored(src, dst, digest).Keys == src.Keys
    ensures forall k | k in src.Keys :: digest(Mirrored(src, dst, digest)[k]) == digest(src[k])
    ensures (forall a, b :: digest(a) == digest(b) ==> a == b) ==> Mirrored(src, dst, digest) == src
  {
    var m := Mirrored(src, dst, digest);
    forall k | k in src.Keys ensures digest(m[k]) == digest(src[k]) {
      if SameFile(src, dst, digest, k) { assert m[k] == dst[k]; }
    }
    if forall a, b :: digest(a) == digest(b) ==> a == b {
      forall k | k in src.Keys ensures m[k] == src[k] {
        assert digest(m[k]) == digest(src[k]);
      }
    }
  }

  /** Backing up again right after a completed backup copies nothing and deletes nothing. */
  lemma {:induction false} MirroredStable(src: Tree, dst: Tree, digest: Digest)
    ensures Unchanged(src, Mirrored(src, dst, digest), digest) == src.Keys
    ensures Mirrored(src, Mirrored(src, dst, digest), digest) == Mirrored(src, dst, digest)
  {
    MirroredMatchesSource(src, dst, digest);
  }

  /** The copy loop over every source file followed by the deletion loop over every old destination file. */
  lemma {:induction false} MirrorStages(src: Tree, dst0: Tree, digest: Digest, d1: Tree, d2: Tree)
    requires CopiedAll(src, dst0, digest, d1) && PrunedAll(d1, src, dst0.Keys, d2)
    ensures d2 == Mirrored(src, dst0, digest)
  {
    assert d2.Keys == src.Keys;
  }

  /** Skipped files and deleted files are disjoint parts of the old destination. */
  lemma {:induction false} WorkBound(src: Tree, dst: Tree, digest: Digest)
    ensures |Unchanged(src, dst, digest)| + |dst.Keys - src.Keys| <= |dst.Keys|
  {
    var u := Unchanged(src, dst, digest);
    assert u * (dst.Keys - src.Keys) == {};
    SubsetCard(u + (dst.Keys - src.Keys), dst.Keys);
  }


  // ---------------------------------------------------------------------
  // The two loops of `mirror`, file by file
  // ---------------------------------------------------------------------

  /** What `mirror` has reported so far: `done`, the log lines and the progress reports. */
  datatype MirrorState = MirrorState(done: nat, log: seq<Entry>, progress: seq<nat>)

  /**
   * One turn of the copy loop, on source file `rel`: leave it (`done` + 2)
   * when it is among the files `same` whose digests agree, else copy it
   * (`done` + 1).
   */
  function CopyStep(same: set<string>, st: MirrorState, rel: string): MirrorState {
    if rel in same then
      MirrorState(st.done + 2, st.log + [Ignored(rel)], st.progress + [st.done + 2])
    else
      MirrorState(st.done + 1, st.log + [Copied(rel)], st.progress + [st.done + 1])
  }

  /** The copy loop's reports after the first `n` source files of `vs`. */
  function CopyPrefix(same: set<string>, done0: nat, vs: seq<string>, n: nat): MirrorState
    requires n <= |vs|
  {
    if n == 0 then MirrorState(done0, [], [])
    else CopyStep(same, CopyPrefix(same, done0, vs, n - 1), vs[n - 1])
  }

  /**
   * The destination after the copy loop has handled the first `n` source
   * files of `vs`.  (The walk only lists source files; the test `rel in src`
   * only keeps the function total.)
   */
  function CopyTree(src: Tree, dst0: Tree, same: set<string>, vs: seq<string>, n: nat): Tree
    requires n <= |vs|
  {
    if n == 0 then dst0
    else
      var t, rel := CopyTree(src, dst0, same, vs, n - 1), vs[n - 1];
      if rel in same || rel !in src then t else t[rel := src[rel]]
  }

  /** One turn of the deletion loop, on destination file `rel`: deleted (`done` + 1) when the source lacks it. */
  function PruneStep(src: Tree, st: MirrorState, rel: string): MirrorState {
    if rel in src then st
    else MirrorState(st.done + 1, st.log + [Removed(rel)], st.progress + [st.done + 1])
  }

  /** The deletion loop's reports after the first `n` destination files of `vs`. */
  function PrunePrefix(src: Tree, done0: nat, vs: seq<string>, n: nat): MirrorState
    requires n <= |vs|
  {
    if n == 0 then MirrorState(done0, [], [])
    else PruneStep(src, PrunePrefix(src, done0, vs, n - 1), vs[n - 1])
  }

  /** The destination after the deletion loop has handled the first `n` files of `vs`. */
  function PruneTree(src: Tree, t0: Tree, vs: seq<string>, n: nat): Tree
    requires n <= |vs|
  {
    if n == 0 then t0
    else
      var t, rel := PruneTree(src, t0, vs, n - 1), vs[n - 1];
      if rel in src then t else t - {rel}
  }

  /** The files among the first `n` of `vs` that the copy loop leaves alone. */
  function Matching(same: set<string>, vs: seq<string>, n: nat): set<string>
    requires n <= |vs|
  {
    set k | k in vs[..n] && k in same
  }

  /** The files among the first `n` of `vs` that the deletion loop removes. */
  function Orphans(src: Tree, vs: seq<string>, n: nat): set<string>
    requires n <= |vs|
  {
    set k | k in vs[..n] && k !in src
  }

  /** Progress reports: nondecreasing, and all between `lo` and `hi`. */
  predicate Reports(p: seq<nat>, lo: nat, hi: nat) {
    && (forall i | 0 <= i < |p| :: lo <= p[i] <= hi)
    && (forall i, j | 0 <= i < j < |p| :: p[i] <= p[j])
  }

  lemma {:induction false} ReportsExtend(p: seq<nat>, lo: nat, hi: nat, x: nat)
    requires Reports(p, lo, hi) && lo <= hi <= x
    ensures Reports(p + [x], lo, x)
  {
  }

  lemma {:induction false} AddCard<T>(s: set<T>, x: T)
    requires x !in s
    ensures |s + {x}| == |s| + 1
  {
  }

  /** The first `n + 1` paths are the first `n` and one more. */
  lemma {:induction false} PrefixGrows(vs: seq<string>, n: nat)
    requires n < |vs|
    ensures forall k :: k in vs[..n + 1] <==> k in vs[..n] || k == vs[n]
  {
    assert vs[..n + 1] == vs[..n] + [vs[n]];
  }

  /** In a walk without repeats no path occurs again later. */
  lemma {:induction false} NoRepeatsAt(vs: seq<string>, n: nat)
    requires NoRepeats(vs) && n < |vs|
    ensures vs[n] !in vs[..n]
    decreases |vs|
  {
    if n < |vs| - 1 {
      var init := vs[..|vs| - 1];
      NoRepeatsAt(init, n);
      assert init[..n] == vs[..n];
    }
  }

  /** The copy loop gives each visited file the source's content, or keeps the old one when it is among `same`. */
  lemma {:induction false} CopyTreeFacts(src: Tree, dst0: Tree, same: set<string>, vs: seq<string>, n: nat)
    requires n <= |vs|
    ensures var d := CopyTree(src, dst0, same, vs, n);
      && (forall k :: k in d <==> k in dst0 || (k in vs[..n] && k in src && k !in same))
      && (forall k | k in d :: d[k] == if k in vs[..n] && k in src && k !in same then src[k] else dst0[k])
  {
    if n > 0 {
      CopyTreeFacts(src, dst0, same, vs, n - 1);
      PrefixGrows(vs, n - 1);
    }
  }

  /** One more file counts among those left alone exactly when it belongs to `same`. */
  lemma {:induction false} MatchingGrows(same: set<string>, vs: seq<string>, n: nat)
    requires NoRepeats(vs) && n < |vs|
    ensures |Matching(same, vs, n + 1)| == |Matching(same, vs, n)| + (if vs[n] in same then 1 else 0)
  {
    PrefixGrows(vs, n);
    NoRepeatsAt(vs, n);
    if vs[n] in same {
      assert Matching(same, vs, n + 1) == Matching(same, vs, n) + {vs[n]};
      AddCard(Matching(same, vs, n), vs[n]);
    } else {
      assert Matching(same, vs, n + 1) == Matching(same, vs, n);
    }
  }

  /** The copy loop adds 1 to `done` per file and 1 more per file left alone, and reports every new value. */
  lemma {:induction false} CopyPrefixDone(same: set<string>, done0: nat, vs: seq<string>, n: nat)
    requires NoRepeats(vs) && n <= |vs|
    ensures var st := CopyPrefix(same, done0, vs, n);
      && st.done == done0 + n + |Matching(same, vs, n)|
      && Reports(st.progress, done0, st.done)
  {
    if n > 0 {
      CopyPrefixDone(same, done0, vs, n - 1);
      MatchingGrows(same, vs, n - 1);
      var prev := CopyPrefix(same, done0, vs, n - 1);
      ReportsExtend(prev.progress, done0, prev.done, if vs[n - 1] in same then prev.done + 2 else prev.done + 1);
    }
  }

  /** The copy loop logs one line per file, saying whether it was left or copied. */
  lemma {:induction false} CopyPrefixLog(same: set<string>, done0: nat, vs: seq<string>, n: nat)
    requires n <= |vs|
    ensures var log := CopyPrefix(same, done0, vs, n).log;
      && (forall k :: Copied(k) in log <==> k in vs[..n] && k !in same)
      && (forall k :: Ignored(k) in log <==> k in vs[..n] && k in same)
      && (forall e | e in log :: e.Ignored? || e.Copied?)
      && |log| == n
  {
    if n > 0 {
      CopyPrefixLog(same, done0, vs, n - 1);
      PrefixGrows(vs, n - 1);
    }
  }

  /** The deletion loop removes exactly the visited files the source lacks and touches nothing else. */
  lemma {:induction false} PruneTreeFacts(src: Tree, t0: Tree, vs: seq<string>, n: nat)
    requires n <= |vs|
    ensures var d := PruneTree(src, t0, vs, n);
      && (forall k :: k in d <==> k in t0 && (k !in vs[..n] || k in src))
      && (forall k | k in d :: d[k] == t0[k])
  {
    if n > 0 {
      PruneTreeFacts(src, t0, vs, n - 1);
      PrefixGrows(vs, n - 1);
    }
  }

  /** One more file counts among the orphans exactly when the source lacks it. */
  lemma {:induction false} OrphansGrow(src: Tree, vs: seq<string>, n: nat)
    requires NoRepeats(vs) && n < |vs|
    ensures |Orphans(src, vs, n + 1)| == |Orphans(src, vs, n)| + (if vs[n] in src then 0 else 1)
  {
    PrefixGrows(vs, n);
    NoRepeatsAt(vs, n);
    if vs[n] in src {
      assert Orphans(src, vs, n + 1) == Orphans(src, vs, n);
    } else {
      assert Orphans(src, vs, n + 1) == Orphans(src, vs, n) + {vs[n]};
      AddCard(Orphans(src, vs, n), vs[n]);
    }
  }

  /** The deletion loop adds 1 to `done` and one report per deleted file. */
  lemma {:induction false} PrunePrefixDone(src: Tree, done0: nat, vs: seq<string>, n: nat)
    requires NoRepeats(vs) && n <= |vs|
    ensures var st := PrunePrefix(src, done0, vs, n);
      && st.done == done0 + |Orphans(src, vs, n)|
      && Reports(st.progress, done0, st.done)
  {
    if n > 0 {
      PrunePrefixDone(src, done0, vs, n - 1);
      OrphansGrow(src, vs, n - 1);
      var prev := PrunePrefix(src, done0, vs, n - 1);
      if vs[n - 1] !in src {
        ReportsExtend(prev.progress, done0, prev.done, prev.done + 1);
      }
    }
  }

  /** The deletion loop logs one line per deleted file. */
  lemma {:induction false} PrunePrefixLog(src: Tree, done0: nat, vs: seq<string>, n: nat)
    requires n <= |vs|
    ensures var st := PrunePrefix(src, done0, vs, n);
      && (forall k :: Removed(k) in st.log <==> k in vs[..n] && k !in src)
      && (forall e | e in st.log :: e.Removed?)
      && done0 + |st.log| == st.done
  {
    if n > 0 {
      PrunePrefixLog(src, done0, vs, n - 1);
      PrefixGrows(vs, n - 1);
    }
  }

  /** The paths of a walk, as a set. */
  function Listed(vs: seq<string>): set<string> { set k | k in vs }

  lemma {:induction false} ListedCount(vs: seq<string>)
    requires NoRepeats(vs)
    ensures |Listed(vs)| == |vs|
  {
    if vs != [] {
      var init, last := vs[..|vs| - 1], vs[|vs| - 1];
      ListedCount(init);
      assert forall k :: k in vs <==> k in init || k == last;
      assert Listed(vs) == Listed(init) + {last};
      AddCard(Listed(init), last);
    }
  }

  /** `count_files` adds up the files of every directory the walk visits: one per path of the walk. */
  lemma {:induction false} WalkCount(d: Dir)
    requires Walked(d)
    ensures |d.walk| == CountFiles(d.files)
  {
    ListedCount(d.walk);
    assert Listed(d.walk) == d.files.Keys;
  }

  lemma {:induction false} ReportsConcat(p1: seq<nat>, p2: seq<nat>, lo: nat, mid: nat, hi: nat)
    requires Reports(p1, lo, mid) && Reports(p2, mid, hi) && lo <= mid <= hi
    ensures Reports(p1 + p2, lo, hi)
  {
    var p := p1 + p2;
    forall i | 0 <= i < |p| ensures lo <= p[i] <= hi {
      if i < |p1| { assert p[i] == p1[i]; } else { assert p[i] == p2[i - |p1|]; }
    }
    forall i, j | 0 <= i < j < |p| ensures p[i] <= p[j] {
      if j < |p1| {
        assert p[i] == p1[i] && p[j] == p1[j];
      } else if i < |p1| {
        assert p[i] == p1[i] && p[j] == p2[j - |p1|];
      } else {
        assert p[i] == p2[i - |p1|] && p[j] == p2[j - |p1|];
      }
    }
  }

  // ---------------------------------------------------------------------
  // The cancel flag and what each loop returns
  // ---------------------------------------------------------------------

  /**
   * How many of `n` files a loop handles that reads the flag before each
   * one, starting with read `from`: up to the first read that finds the
   * flag set, or all `n`.  `cancelled(r)` is what the `r`-th read saw.
   */
  function Reached(cancelled: nat -> bool, from: nat, n: nat): (m: nat)
    ensures m <= n
    decreases n
  {
    if n == 0 || cancelled(from) then 0 else 1 + Reached(cancelled, from + 1, n - 1)
  }

  /** The reads before the loop stops find the flag down, and the read it stops at finds it set. */
  lemma {:induction false} ReachedStops(cancelled: nat -> bool, from: nat, n: nat)
    ensures var m := Reached(cancelled, from, n);
      && (forall r | from <= r < from + m :: !cancelled(r))
      && (m < n ==> cancelled(from + m))
    decreases n
  {
    if n > 0 && !cancelled(from) {
      ReachedStops(cancelled, from + 1, n - 1);
    }
  }

  /** Those two facts determine how far the loop gets. */
  lemma {:induction false} ReachedAt(cancelled: nat -> bool, from: nat, n: nat, i: nat)
    requires i <= n && (forall r | from <= r < from + i :: !cancelled(r)) && (i < n ==> cancelled(from + i))
    ensures Reached(cancelled, from, n) == i
    decreases n
  {
    if i > 0 {
      assert !cancelled(from);
      ReachedAt(cancelled, from + 1, n - 1, i - 1);
    }
  }

  /** No read in `[lo, hi)` finds the flag set exactly when none in `[lo, mid)` and none in `[mid, hi)` does. */
  lemma {:induction false} ReadsJoin(cancelled: nat -> bool, lo: nat, mid: nat, hi: nat)
    requires lo <= mid <= hi
    ensures (forall r | lo <= r < hi :: !cancelled(r)) <==>
            (forall r | lo <= r < mid :: !cancelled(r)) && (forall r | mid <= r < hi :: !cancelled(r))
  {
  }

  /**
   * What a loop of `mirror` returns: whether it completed, what it reported,
   * the destination tree it leaves, and how often it read the flag.
   */
  datatype Outcome = Outcome(ok: bool, st: MirrorState, tree: Tree, checks: nat)

  /** The state at a cancel: the `[STOP]` line is logged. */
  function Stopped(st: MirrorState): MirrorState { st.(log := st.log + [Stop]) }

  /** The copy loop over the source paths `order`, leaving the files of `same` alone. */
  function CopyRun(src: Tree, order: seq<string>, dst0: Tree, same: set<string>, cancelled: nat -> bool, checks0: nat, done0: nat): Outcome {
    var m := Reached(cancelled, checks0, |order|);
    var st, t := CopyPrefix(same, done0, order, m), CopyTree(src, dst0, same, order, m);
    if m == |order| then Outcome(true, st, t, checks0 + m) else Outcome(false, Stopped(st), t, checks0 + m + 1)
  }

  /** The deletion loop over the old destination paths `order`, on the tree `t0` the copy loop left. */
  function PruneRun(src: Tree, t0: Tree, order: seq<string>, cancelled: nat -> bool, checks0: nat, done0: nat): Outcome {
    var m := Reached(cancelled, checks0, |order|);
    var st, t := PrunePrefix(src, done0, order, m), PruneTree(src, t0, order, m);
    if m == |order| then Outcome(true, st, t, checks0 + m) else Outcome(false, Stopped(st), t, checks0 + m + 1)
  }

  /** `mirror(src_root, dst_root)`: the copy loop, then, unless it was cancelled, the deletion loop. */
  function MirrorRun(src: Dir, dst: Option<Dir>, digest: Digest, cancelled: nat -> bool, checks0: nat, done0: nat): Outcome {
    var d0 := Existing(dst);
    var o1 := CopyRun(src.files, src.walk, d0.files, Unchanged(src.files, d0.files, digest), cancelled, checks0, done0);
    if !o1.ok then o1
    else
      var o2 := PruneRun(src.files, o1.tree, d0.walk, cancelled, o1.checks, o1.st.done);
      Outcome(o2.ok, MirrorState(o2.st.done, o1.st.log + o2.st.log, o1.st.progress + o2.st.progress), o2.tree, o2.checks)
  }

  // ---------------------------------------------------------------------
  // What each loop guarantees
  // ---------------------------------------------------------------------

  /** However far the copy loop gets, `done` rises by at most 1 per source file and 1 more per file left alone. */
  lemma {:induction false} CopyRunBound(src: Dir, dst0: Tree, same: set<string>, cancelled: nat -> bool, checks0: nat, done0: nat)
    requires Walked(src)
    ensures var o := CopyRun(src.files, src.walk, dst0, same, cancelled, checks0, done0);
      && done0 <= o.st.done <= done0 + CountFiles(src.files) + |same|
      && Reports(o.st.progress, done0, o.st.done)
  {
    WalkCount(src);
    var m := Reached(cancelled, checks0, |src.walk|);
    CopyPrefixDone(same, done0, src.walk, m);
    SubsetCard(Matching(same, src.walk, m), same);
  }

  /** A completed copy loop adds 2 per file left alone and 1 per file copied, and logs one line per source file. */
  lemma {:induction false} CopyRunWork(src: Dir, dst0: Tree, same: set<string>, cancelled: nat -> bool, checks0: nat, done0: nat)
    requires Walked(src) && same <= src.files.Keys
    ensures var o := CopyRun(src.files, src.walk, dst0, same, cancelled, checks0, done0);
      o.ok ==> o.st.done == done0 + CountFiles(src.files) + |same| && |o.st.log| == CountFiles(src.files)
  {
    var m := Reached(cancelled, checks0, |src.walk|);
    if m == |src.walk| {
      WalkCount(src);
      assert src.walk[..m] == src.walk;
      CopyPrefixDone(same, done0, src.walk, m);
      CopyPrefixLog(same, done0, src.walk, m);
      assert Matching(same, src.walk, m) == same;
    }
  }

  /** A completed copy loop logs "left" for the files of `same` and "copied" for the other source files, and nothing else. */
  lemma {:induction false} CopyRunLog(src: Dir, dst0: Tree, same: set<string>, cancelled: nat -> bool, checks0: nat, done0: nat)
    requires Walked(src) && same <= src.files.Keys
    ensures var o := CopyRun(src.files, src.walk, dst0, same, cancelled, checks0, done0);
      o.ok ==>
        && (forall k :: Ignored(k) in o.st.log <==> k in same)
        && (forall k :: Copied(k) in o.st.log <==> k in src.files.Keys - same)
        && (forall k :: Removed(k) !in o.st.log)
        && Stop !in o.st.log
  {
    var m := Reached(cancelled, checks0, |src.walk|);
    if m == |src.walk| {
      assert src.walk[..m] == src.walk;
      CopyPrefixLog(same, done0, src.walk, m);
    }
  }

  /** A completed copy loop has given every source file whose digest differs the source's content. */
  lemma {:induction false} CopyRunTree(src: Dir, dst0: Tree, digest: Digest, cancelled: nat -> bool, checks0: nat, done0: nat)
    requires Walked(src)
    ensures var o := CopyRun(src.files, src.walk, dst0, Unchanged(src.files, dst0, digest), cancelled, checks0, done0);
      o.ok ==> CopiedAll(src.files, dst0, digest, o.tree)
  {
    var m := Reached(cancelled, checks0, |src.walk|);
    if m == |src.walk| {
      assert src.walk[..m] == src.walk;
      CopyTreeFacts(src.files, dst0, Unchanged(src.files, dst0, digest), src.walk, m);
    }
  }

  /** However far the deletion loop gets, `done` rises by at most 1 per old file the source lacks. */
  lemma {:induction false} PruneRunBound(src: Tree, t0: Tree, d: Dir, cancelled: nat -> bool, checks0: nat, done0: nat)
    requires Walked(d)
    ensures var o := PruneRun(src, t0, d.walk, cancelled, checks0, done0);
      && done0 <= o.st.done <= done0 + |d.files.Keys - src.Keys|
      && Reports(o.st.progress, done0, o.st.done)
  {
    var m := Reached(cancelled, checks0, |d.walk|);
    PrunePrefixDone(src, done0, d.walk, m);
    forall k | k in Orphans(src, d.walk, m) ensures k in d.files.Keys - src.Keys {
      var i :| 0 <= i < m && d.walk[..m][i] == k;
      assert d.walk[i] == k;
    }
    SubsetCard(Orphans(src, d.walk, m), d.files.Keys - src.Keys);
  }

  /** A completed deletion loop adds 1 and logs one line per old file the source lacks. */
  lemma {:induction false} PruneRunWork(src: Tree, t0: Tree, d: Dir, cancelled: nat -> bool, checks0: nat, done0: nat)
    requires Walked(d)
    ensures var o := PruneRun(src, t0, d.walk, cancelled, checks0, done0);
      o.ok ==> o.st.done == done0 + |d.files.Keys - src.Keys| && |o.st.log| == |d.files.Keys - src.Keys|
  {
    var m := Reached(cancelled, checks0, |d.walk|);
    if m == |d.walk| {
      assert d.walk[..m] == d.walk;
      PrunePrefixDone(src, done0, d.walk, m);
      PrunePrefixLog(src, done0, d.walk, m);
      assert Orphans(src, d.walk, m) == d.files.Keys - src.Keys;
    }
  }

  /** A completed deletion loop logs "deleted" for exactly the old files the source lacks, and nothing else. */
  lemma {:induction false} PruneRunLog(src: Tree, t0: Tree, d: Dir, cancelled: nat -> bool, checks0: nat, done0: nat)
    requires Walked(d)
    ensures var o := PruneRun(src, t0, d.walk, cancelled, checks0, done0);
      o.ok ==>
        && (forall k :: Removed(k) in o.st.log <==> k in d.files.Keys - src.Keys)
        && (forall k :: Ignored(k) !in o.st.log && Copied(k) !in o.st.log)
        && Stop !in o.st.log
  {
    var m := Reached(cancelled, checks0, |d.walk|);
    if m == |d.walk| {
      assert d.walk[..m] == d.walk;
      PrunePrefixLog(src, done0, d.walk, m);
    }
  }

  /** A completed deletion loop has removed exactly the old files the source lacks. */
  lemma {:induction false} PruneRunTree(src: Tree, t0: Tree, d: Dir, cancelled: nat -> bool, checks0: nat, done0: nat)
    requires Walked(d)
    ensures var o := PruneRun(src, t0, d.walk, cancelled, checks0, done0);
      o.ok ==> PrunedAll(t0, src, d.files.Keys, o.tree)
  {
    var m := Reached(cancelled, checks0, |d.walk|);
    if m == |d.walk| {
      assert d.walk[..m] == d.walk;
      PruneTreeFacts(src, t0, d.walk, m);
    }
  }

  // ---------------------------------------------------------------------
  // What `mirror` guarantees
  // ---------------------------------------------------------------------

  /**
   * `mirror` reads the flag once before each source file and each old
   * destination file, and returns True exactly when none of those reads
   * finds the flag set.
   */
  lemma {:induction false} MirrorRunChecks(src: Dir, dst: Option<Dir>, digest: Digest, cancelled: nat -> bool, checks0: nat, done0: nat)
    requires Walked(src) && Walked(Existing(dst))
    ensures var o := MirrorRun(src, dst, digest, cancelled, checks0, done0);
      var n := CountFiles(src.files) + ExistingCount(dst);
      && checks0 <= o.checks <= checks0 + n
      && (o.ok <==> forall r | checks0 <= r < checks0 + n :: !cancelled(r))
      && (o.ok ==> o.checks == checks0 + n)
  {
    var d0 := Existing(dst);
    var o1 := CopyRun(src.files, src.walk, d0.files, Unchanged(src.files, d0.files, digest), cancelled, checks0, done0);
    WalkCount(src);
    WalkCount(d0);
    ReachedStops(cancelled, checks0, |src.walk|);
    if o1.ok {
      ReachedStops(cancelled, o1.checks, |d0.walk|);
      ReadsJoin(cancelled, checks0, o1.checks, checks0 + CountFiles(src.files) + ExistingCount(dst));
    }
  }

  /** An interrupted `mirror` logs `[STOP]` last. */
  lemma {:induction false} MirrorRunStop(src: Dir, dst: Option<Dir>, digest: Digest, cancelled: nat -> bool, checks0: nat, done0: nat)
    ensures var o := MirrorRun(src, dst, digest, cancelled, checks0, done0);
      !o.ok ==> o.st.log != [] && o.st.log[|o.st.log| - 1] == Stop
  {
    var d0 := Existing(dst);
    var o1 := CopyRun(src.files, src.walk, d0.files, Unchanged(src.files, d0.files, digest), cancelled, checks0, done0);
    if o1.ok {
      var o2 := PruneRun(src.files, o1.tree, d0.walk, cancelled, o1.checks, o1.st.done);
      if !o2.ok {
        var log := o1.st.log + o2.st.log;
        assert log[|log| - 1] == o2.st.log[|o2.st.log| - 1];
      }
    }
  }

  /** However far `mirror` gets, `done` rises by at most one per source file and per old destination file, and each report is new. */
  lemma {:induction false} MirrorRunBound(src: Dir, dst: Option<Dir>, digest: Digest, cancelled: nat -> bool, checks0: nat, done0: nat)
    requires Walked(src) && Walked(Existing(dst))
    ensures var o := MirrorRun(src, dst, digest, cancelled, checks0, done0);
      && done0 <= o.st.done <= done0 + CountFiles(src.files) + ExistingCount(dst)
      && Reports(o.st.progress, done0, o.st.done)
  {
    var d0 := Existing(dst);
    var same := Unchanged(src.files, d0.files, digest);
    CopyRunBound(src, d0.files, same, cancelled, checks0, done0);
    WorkBound(src.files, d0.files, digest);
    var o1 := CopyRun(src.files, src.walk, d0.files, same, cancelled, checks0, done0);
    if o1.ok {
      PruneRunBound(src.files, o1.tree, d0, cancelled, o1.checks, o1.st.done);
      var o2 := PruneRun(src.files, o1.tree, d0.walk, cancelled, o1.checks, o1.st.done);
      ReportsConcat(o1.st.progress, o2.st.progress, done0, o1.st.done, o2.st.done);
    }
  }

  /**
   * A completed `mirror` adds 2 to `done` per file left alone, 1 per file
   * copied and 1 per file deleted, and logs one line for each of them.
   */
  lemma {:induction false} MirrorRunWork(src: Dir, dst: Option<Dir>, digest: Digest, cancelled: nat -> bool, checks0: nat, done0: nat)
    requires Walked(src) && Walked(Existing(dst))
    ensures var o := MirrorRun(src, dst, digest, cancelled, checks0, done0);
      var d0 := Existing(dst).files;
      o.ok ==>
        && o.st.done == done0 + CountFiles(src.files) + |Unchanged(src.files, d0, digest)| + |d0.Keys - src.files.Keys|
        && |o.st.log| == CountFiles(src.files) + |d0.Keys - src.files.Keys|
  {
    var d0 := Existing(dst);
    var same := Unchanged(src.files, d0.files, digest);
    CopyRunWork(src, d0.files, same, cancelled, checks0, done0);
    var o1 := CopyRun(src.files, src.walk, d0.files, same, cancelled, checks0, done0);
    if o1.ok {
      PruneRunWork(src.files, o1.tree, d0, cancelled, o1.checks, o1.st.done);
    }
  }

  /** A completed `mirror` logs exactly which files it left, copied and deleted, and no `[STOP]`. */
  lemma {:induction false} MirrorRunLog(src: Dir, dst: Option<Dir>, digest: Digest, cancelled: nat -> bool, checks0: nat, done0: nat)
    requires Walked(src) && Walked(Existing(dst))
    ensures var o := MirrorRun(src, dst, digest, cancelled, checks0, done0);
      var d0 := Existing(dst).files;
      o.ok ==>
        && (forall k :: Ignored(k) in o.st.log <==> k in Unchanged(src.files, d0, digest))
        && (forall k :: Copied(k) in o.st.log <==> k in src.files.Keys - Unchanged(src.files, d0, digest))
        && (forall k :: Removed(k) in o.st.log <==> k in d0.Keys - src.files.Keys)
        && Stop !in o.st.log
  {
    var d0 := Existing(dst);
    var same := Unchanged(src.files, d0.files, digest);
    CopyRunLog(src, d0.files, same, cancelled, checks0, done0);
    var o1 := CopyRun(src.files, src.walk, d0.files, same, cancelled, checks0, done0);
    if o1.ok {
      PruneRunLog(src.files, o1.tree, d0, cancelled, o1.checks, o1.st.done);
    }
  }

  /** A completed `mirror` leaves the destination as `Mirrored` describes it. */
  lemma {:induction false} MirrorRunMirrored(src: Dir, dst: Option<Dir>, digest: Digest, cancelled: nat -> bool, checks0: nat, done0: nat)
    requires Walked(src) && Walked(Existing(dst))
    ensures var o := MirrorRun(src, dst, digest, cancelled, checks0, done0);
      o.ok ==> o.tree == Mirrored(src.files, Existing(dst).files, digest)
  {
    var d0 := Existing(dst);
    CopyRunTree(src, d0.files, digest, cancelled, checks0, done0);
    var o1 := CopyRun(src.files, src.walk, d0.files, Unchanged(src.files, d0.files, digest), cancelled, checks0, done0);
    if o1.ok {
      PruneRunTree(src.files, o1.tree, d0, cancelled, o1.checks, o1.st.done);
      var o2 := PruneRun(src.files, o1.tree, d0.walk, cancelled, o1.checks, o1.st.done);
      if o2.ok {
        MirrorStages(src.files, d0.files, digest, o1.tree, o2.tree);
      }
    }
  }

  /** Even when interrupted, `mirror` leaves only files holding their source's content or their own old content. */
  lemma {:induction false} MirrorRunFrame(src: Dir, dst: Option<Dir>, digest: Digest, cancelled: nat -> bool, checks0: nat, done0: nat)
    ensures var o, d0 := MirrorRun(src, dst, digest, cancelled, checks0, done0), Existing(dst).files;
      forall k | k in o.tree :: (k in src.files && o.tree[k] == src.files[k]) || (k in d0 && o.tree[k] == d0[k])
  {
    var d0 := Existing(dst);
    var same := Unchanged(src.files, d0.files, digest);
    var m1 := Reached(cancelled, checks0, |src.walk|);
    CopyTreeFacts(src.files, d0.files, same, src.walk, m1);
    var o1 := CopyRun(src.files, src.walk, d0.files, same, cancelled, checks0, done0);
    if o1.ok {
      PruneTreeFacts(src.files, o1.tree, d0.walk, Reached(cancelled, o1.checks, |d0.walk|));
    }
  }

  // ---------------------------------------------------------------------
  // The loops and `mirror`, step by step
  // ---------------------------------------------------------------------

  /** The first loop of `mirror`: for each source file, stop if cancelled, else leave it (`done` + 2) or copy it (`done` + 1). */
  method CopyLoop(src: Tree, order: seq<string>, dst0: Tree, digest: Digest, cancelled: nat -> bool, checks0: nat, done0: nat)
    returns (ok: bool, dst: Tree, checks: nat, done: nat, log: seq<Entry>, progress: seq<nat>)
    requires forall i | 0 <= i < |order| :: order[i] in src
    ensures var o := CopyRun(src, order, dst0, Unchanged(src, dst0, digest), cancelled, checks0, done0);
      && ok == o.ok && dst == o.tree && checks == o.checks
      && done == o.st.done && log == o.st.log && progress == o.st.progress
  {
    ghost var same := Unchanged(src, dst0, digest);
    dst, checks, done, log, progress := dst0, checks0, done0, [], [];
    var i := 0;
    while i < |order|
      invariant 0 <= i <= |order|
      invariant checks == checks0 + i
      invariant forall r | checks0 <= r < checks :: !cancelled(r)
      invariant MirrorState(done, log, progress) == CopyPrefix(same, done0, order, i)
      invariant dst == CopyTree(src, dst0, same, order, i)
    {
      if cancelled(checks) {
        ReachedAt(cancelled, checks0, |order|, i);
        log := log + [Stop];
        checks := checks + 1;
        ok := false;
        return;
      }
      checks := checks + 1;
      var rel := order[i];
      if rel in dst0 && digest(src[rel]) == digest(dst0[rel]) {
        done := done + 2;
        log := log + [Ignored(rel)];
      } else {
        dst := dst[rel := src[rel]];
        done := done + 1;
        log := log + [Copied(rel)];
      }
      progress := progress + [done];
      i := i + 1;
    }
    ReachedAt(cancelled, checks0, |order|, i);
    ok := true;
  }

  /** The second loop of `mirror`: for each old destination file, stop if cancelled, else delete it (`done` + 1) when the source lacks it. */
  method PruneLoop(src: Tree, t0: Tree, order: seq<string>, cancelled: nat -> bool, checks0: nat, done0: nat)
    returns (ok: bool, t: Tree, checks: nat, done: nat, log: seq<Entry>, progress: seq<nat>)
    ensures var o := PruneRun(src, t0, order, cancelled, checks0, done0);
      && ok == o.ok && t == o.tree && checks == o.checks
      && done == o.st.done && log == o.st.log && progress == o.st.progress
  {
    t, checks, done, log, progress := t0, checks0, done0, [], [];
    var i := 0;
    while i < |order|
      invariant 0 <= i <= |order|
      invariant checks == checks0 + i
      invariant forall r | checks0 <= r < checks :: !cancelled(r)
      invariant MirrorState(done, log, progress) == PrunePrefix(src, done0, order, i)
      invariant t == PruneTree(src, t0, order, i)
    {
      if cancelled(checks) {
        ReachedAt(cancelled, checks0, |order|, i);
        log := log + [Stop];
        checks := checks + 1;
        ok := false;
        return;
      }
      checks := checks + 1;
      var rel := order[i];
      if rel !in src {
        t := t - {rel};
        done := done + 1;
        progress := progress + [done];
        log := log + [Removed(rel)];
      }
      i := i + 1;
    }
    ReachedAt(cancelled, checks0, |order|, i);
    ok := true;
  }

  /** `mirror`: returns whether it completed, and leaves the new destination tree, the counter, the log and the reports. */
  method Mirror(src: Dir, dst: Option<Dir>, digest: Digest, cancelled: nat -> bool, checks0: nat, done0: nat)
    returns (ok: bool, t: Tree, checks: nat, done: nat, log: seq<Entry>, progress: seq<nat>)
    requires Walked(src)
    ensures var o := MirrorRun(src, dst, digest, cancelled, checks0, done0);
      && ok == o.ok && t == o.tree && checks == o.checks
      && done == o.st.done && log == o.st.log && progress == o.st.progress
  {
    var d0 := Existing(dst);
    var log1, p1;
    ok, t, checks, done, log1, p1 := CopyLoop(src.files, src.walk, d0.files, digest, cancelled, checks0, done0);
    if !ok {
      log, progress := log1, p1;
      return;
    }
    var log2, p2;
    ok, t, checks, done, log2, p2 := PruneLoop(src.files, t, d0.walk, cancelled, checks, done);
    log, progress := log1 + log2, p1 + p2;
  }

  // ---------------------------------------------------------------------
  // `run_backup`
  // ---------------------------------------------------------------------

  /**
   * What `run_backup` returns, `(success, done, total)`, with the two
   * destination trees it leaves (the video one absent if it never existed
   * and was not reached) and the log and reports it passed to its callbacks.
   */
  datatype Report = Report(success: bool, done: nat, total: nat, photos: Tree, videos: Option<Tree>, log: seq<Entry>, progress: seq<nat>)

  function FilesOf(d: Option<Dir>): Option<Tree> { if d.Some? then Some(d.value.files) else None }

  /** All the files `run_backup` counts before it starts. */
  function Total(photoSrc: Dir, videoSrc: Dir, photosDst: Option<Dir>, videosDst: Option<Dir>): nat {
    CountFiles(photoSrc.files) + CountFiles(videoSrc.files) + ExistingCount(photosDst) + ExistingCount(videosDst)
  }

  /**
   * How `run_backup` puts its result together from the photo mirror `o1`
   * and the video mirror `o2` that follows it: `o2` only counts when `o1`
   * completed, `down` is the last read of the flag, and `videos0` the video
   * destination as it was.
   */
  function Combine(total: nat, o1: Outcome, o2: Outcome, down: bool, videos0: Option<Tree>): Report {
    if !o1.ok then Report(false, o1.st.done, total, o1.tree, videos0, o1.st.log, [0] + o1.st.progress)
    else Report(o2.ok && down, o2.st.done, total, o1.tree, Some(o2.tree), o1.st.log + o2.st.log, [0] + o1.st.progress + o2.st.progress)
  }

  /**
   * `run_backup`: report 0, mirror the photos, then, unless that was
   * interrupted, the videos from where the photos left the counter and the
   * flag; success needs both to complete and the flag to be down at one last
   * read.
   */
  function BackupRun(photoSrc: Dir, videoSrc: Dir, photosDst: Option<Dir>, videosDst: Option<Dir>, digest: Digest, cancelled: nat -> bool): Report {
    var o1 := MirrorRun(photoSrc, photosDst, digest, cancelled, 0, 0);
    var o2 := MirrorRun(videoSrc, videosDst, digest, cancelled, o1.checks, o1.st.done);
    Combine(Total(photoSrc, videoSrc, photosDst, videosDst), o1, o2, !cancelled(o2.checks), FilesOf(videosDst))
  }

  /** Two mirrors that each keep their reports in bounds give reports from 0 to `total`. */
  lemma {:induction false} CombineProgress(total: nat, o1: Outcome, o2: Outcome, down: bool, videos0: Option<Tree>, n1: nat, n2: nat)
    requires o1.st.done <= n1 && Reports(o1.st.progress, 0, o1.st.done)
    requires o1.st.done <= o2.st.done <= o1.st.done + n2 && Reports(o2.st.progress, o1.st.done, o2.st.done)
    requires n1 + n2 <= total
    ensures var b := Combine(total, o1, o2, down, videos0);
      && b.done <= b.total
      && b.progress != [] && b.progress[0] == 0
      && Reports(b.progress, 0, b.total)
  {
    ReportsConcat([0], o1.st.progress, 0, 0, o1.st.done);
    if o1.ok {
      ReportsConcat([0] + o1.st.progress, o2.st.progress, 0, o1.st.done, o2.st.done);
    }
  }

  /** Success needs both mirrors to complete and the read after them to find the flag down. */
  lemma {:induction false} CombineSuccess(total: nat, o1: Outcome, o2: Outcome, cancelled: nat -> bool, videos0: Option<Tree>, n1: nat, n2: nat)
    requires o1.ok <==> forall r | 0 <= r < n1 :: !cancelled(r)
    requires o1.ok ==> o1.checks == n1
    requires o2.ok <==> forall r | o1.checks <= r < o1.checks + n2 :: !cancelled(r)
    requires o2.ok ==> o2.checks == o1.checks + n2
    requires total == n1 + n2
    ensures Combine(total, o1, o2, !cancelled(o2.checks), videos0).success <==> forall r | 0 <= r <= total :: !cancelled(r)
  {
    if !o1.ok {
      var r :| 0 <= r < n1 && cancelled(r);
    } else if !o2.ok {
      var r :| o1.checks <= r < o1.checks + n2 && cancelled(r);
    } else if !cancelled(o2.checks) {
      forall r | 0 <= r <= total ensures !cancelled(r) {
        if r < n1 {
          assert 0 <= r < n1;
        } else if r < total {
          assert o1.checks <= r < o1.checks + n2;
        }
      }
    }
  }

  method RunBackup(photoSrc: Dir, videoSrc: Dir, photosDst: Option<Dir>, videosDst: Option<Dir>, digest: Digest, cancelled: nat -> bool)
    returns (success: bool, done: nat, total: nat, photos: Tree, videos: Option<Tree>, log: seq<Entry>, progress: seq<nat>)
    requires Walked(photoSrc) && Walked(videoSrc)
    ensures var b := BackupRun(photoSrc, videoSrc, photosDst, videosDst, digest, cancelled);
      && success == b.success && done == b.done && total == b.total
      && photos == b.photos && videos == b.videos && log == b.log && progress == b.progress
  {
    total := Total(photoSrc, videoSrc, photosDst, videosDst);
    var ok1, checks, log1, p1;
    ok1, photos, checks, done, log1, p1 := Mirror(photoSrc, photosDst, digest, cancelled, 0, 0);
    if ok1 {
      var ok2, v, log2, p2;
      ok2, v, checks, done, log2, p2 := Mirror(videoSrc, videosDst, digest, cancelled, checks, done);
      success := ok2 && !cancelled(checks);
      videos, log, progress := Some(v), log1 + log2, [0] + p1 + p2;
    } else {
      success := false;
      videos, log, progress := FilesOf(videosDst), log1, [0] + p1;
    }
  }

  /** `done` never passes `total`: the reports start at 0 and never fall or exceed it. */
  lemma {:induction false} BackupProgress(photoSrc: Dir, videoSrc: Dir, photosDst: Option<Dir>, videosDst: Option<Dir>, digest: Digest, cancelled: nat -> bool)
    requires Walked(photoSrc) && Walked(videoSrc) && Walked(Existing(photosDst)) && Walked(Existing(videosDst))
    ensures var b := BackupRun(photoSrc, videoSrc, photosDst, videosDst, digest, cancelled);
      && b.done <= b.total
      && b.progress != [] && b.progress[0] == 0
      && Reports(b.progress, 0, b.total)
  {
    var o1 := MirrorRun(photoSrc, photosDst, digest, cancelled, 0, 0);
    var o2 := MirrorRun(videoSrc, videosDst, digest, cancelled, o1.checks, o1.st.done);
    MirrorRunBound(photoSrc, photosDst, digest, cancelled, 0, 0);
    MirrorRunBound(videoSrc, videosDst, digest, cancelled, o1.checks, o1.st.done);
    CombineProgress(Total(photoSrc, videoSrc, photosDst, videosDst), o1, o2, !cancelled(o2.checks), FilesOf(videosDst),
                    CountFiles(photoSrc.files) + ExistingCount(photosDst), CountFiles(videoSrc.files) + ExistingCount(videosDst));
  }

  /** `run_backup` succeeds exactly when no read of the flag finds it set: one before each file of the four trees, and one at the end. */
  lemma {:induction false} BackupSuccess(photoSrc: Dir, videoSrc: Dir, photosDst: Option<Dir>, videosDst: Option<Dir>, digest: Digest, cancelled: nat -> bool)
    requires Walked(photoSrc) && Walked(videoSrc) && Walked(Existing(photosDst)) && Walked(Existing(videosDst))
    ensures var b := BackupRun(photoSrc, videoSrc, photosDst, videosDst, digest, cancelled);
      b.success <==> forall r | 0 <= r <= b.total :: !cancelled(r)
  {
    var o1 := MirrorRun(photoSrc, photosDst, digest, cancelled, 0, 0);
    var o2 := MirrorRun(videoSrc, videosDst, digest, cancelled, o1.checks, o1.st.done);
    MirrorRunChecks(photoSrc, photosDst, digest, cancelled, 0, 0);
    MirrorRunChecks(videoSrc, videosDst, digest, cancelled, o1.checks, o1.st.done);
    CombineSuccess(Total(photoSrc, videoSrc, photosDst, videosDst), o1, o2, cancelled, FilesOf(videosDst),
                   CountFiles(photoSrc.files) + ExistingCount(photosDst), CountFiles(videoSrc.files) + ExistingCount(videosDst));
  }

  /**
   * The photo tree is mirrored unless a read during the photo mirror finds
   * the flag set, in which case the video destination is left as it was;
   * after a success the video tree is mirrored too.
   */
  lemma {:induction false} BackupTrees(photoSrc: Dir, videoSrc: Dir, photosDst: Option<Dir>, videosDst: Option<Dir>, digest: Digest, cancelled: nat -> bool)
    requires Walked(photoSrc) && Walked(videoSrc) && Walked(Existing(photosDst)) && Walked(Existing(videosDst))
    ensures var b := BackupRun(photoSrc, videoSrc, photosDst, videosDst, digest, cancelled);
      var n1 := CountFiles(photoSrc.files) + ExistingCount(photosDst);
      && ((forall r | 0 <= r < n1 :: !cancelled(r)) ==>
            b.photos == Mirrored(photoSrc.files, Existing(photosDst).files, digest) && b.videos.Some?)
      && ((exists r | 0 <= r < n1 :: cancelled(r)) ==> b.videos == FilesOf(videosDst))
      && (b.success ==> b.videos == Some(Mirrored(videoSrc.files, Existing(videosDst).files, digest)))
  {
    MirrorRunChecks(photoSrc, photosDst, digest, cancelled, 0, 0);
    MirrorRunMirrored(photoSrc, photosDst, digest, cancelled, 0, 0);
    var o1 := MirrorRun(photoSrc, photosDst, digest, cancelled, 0, 0);
    if o1.ok {
      MirrorRunMirrored(videoSrc, videosDst, digest, cancelled, o1.checks, o1.st.done);
    }
  }

  /** After a success, `done` is `total` less the files found on both sides, plus the files left alone. */
  lemma {:induction false} BackupWork(photoSrc: Dir, videoSrc: Dir, photosDst: Option<Dir>, videosDst: Option<Dir>, digest: Digest, cancelled: nat -> bool)
    requires Walked(photoSrc) && Walked(videoSrc) && Walked(Existing(photosDst)) && Walked(Existing(videosDst))
    ensures var b := BackupRun(photoSrc, videoSrc, photosDst, videosDst, digest, cancelled);
      var p0, v0 := Existing(photosDst).files, Existing(videosDst).files;
      b.success ==> b.done == b.total - |p0.Keys * photoSrc.files.Keys| - |v0.Keys * videoSrc.files.Keys|
                                      + |Unchanged(photoSrc.files, p0, digest)| + |Unchanged(videoSrc.files, v0, digest)|
  {
    var o1 := MirrorRun(photoSrc, photosDst, digest, cancelled, 0, 0);
    if o1.ok {
      MirrorRunWork(photoSrc, photosDst, digest, cancelled, 0, 0);
      MirrorRunWork(videoSrc, videosDst, digest, cancelled, o1.checks, o1.st.done);
      PartitionCount(Existing(photosDst).files.Keys, photoSrc.files.Keys);
      PartitionCount(Existing(videosDst).files.Keys, videoSrc.files.Keys);
    }
  }

  /** A set splits into its part inside `b` and its part outside. */
  lemma {:induction false} PartitionCount<T>(a: set<T>, b: set<T>)
    ensures |a - b| == |a| - |a * b|
  {
    assert a == (a - b) + (a * b);
    assert (a - b) * (a * b) == {};
  }
}
