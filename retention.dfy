/**
 * The retention rule of the runner's cleanup pass: which job folders of the
 * output root are deleted before a new job starts.
 *
 * The output root is a listing of entries in `os.listdir` order. `list.sort`
 * with `key=os.path.getctime` is modelled by a stable insertion sort on the
 * creation time.
 */
module Retention {
  import opened PosixPath

  /** How many job folders the output root may hold before the oldest are deleted. */
  const MaxGenerations: nat := 50

  /** One name in the output root, whether it is a directory, and its creation time. */
  datatype Entry = Entry(name: string, isDir: bool, ctime: int)

  /** A job folder as cleanup sees it: its full path and its creation time. */
  datatype Folder = Folder(path: string, ctime: int)

  /** A name that a directory listing can hold. */
  predicate ValidName(name: string) {
    name != "" && name != "." && name != ".." && '/' !in name
  }

  /** A directory listing: valid names, no name twice. */
  predicate WellFormed(listing: seq<Entry>) {
    (forall i :: 0 <= i < |listing| ==> ValidName(listing[i].name)) &&
    (forall i, j :: 0 <= i < j < |listing| ==> listing[i].name != listing[j].name)
  }

  /** `os.path.join(OUTPUT_DIR, d)` for the entry named `d`. */
  function PathOf(root: string, e: Entry): string {
    Join(root, e.name)
  }

  /** In a well-formed listing, two entries with the same path are the same entry. */
  lemma SamePathSameEntry(root: string, listing: seq<Entry>, e1: Entry, e2: Entry)
    requires WellFormed(listing) && e1 in listing && e2 in listing
    requires PathOf(root, e1) == PathOf(root, e2)
    ensures e1 == e2
  {
    JoinInjective(root, e1.name, e2.name);
  }

  /** The directories of a listing, in listing order (`os.path.isdir`). */
  function Dirs(listing: seq<Entry>): (ds: seq<Entry>)
    ensures |ds| <= |listing|
  {
    if listing == [] then []
    else (if listing[0].isDir then [listing[0]] else []) + Dirs(listing[1..])
  }

  /** The directories are exactly the entries that are directories. */
  lemma {:induction false} DirsMembers(listing: seq<Entry>, e: Entry)
    ensures e in Dirs(listing) <==> e in listing && e.isDir
  {
    if listing != [] {
      DirsMembers(listing[1..], e);
    }
  }

  /** Keeping only the directories keeps a listing well formed. */
  lemma {:induction false} DirsWellFormed(listing: seq<Entry>)
    requires WellFormed(listing)
    ensures WellFormed(Dirs(listing))
  {
    if listing != [] {
      var x, rest := listing[0], listing[1..];
      WellFormedTail(listing);
      DirsWellFormed(rest);
      if x.isDir {
        forall e | e in Dirs(rest) ensures e in rest {
          DirsMembers(rest, e);
        }
        ConsWellFormed(x, Dirs(rest), rest);
      }
    }
  }

  /**
   * Putting an entry with a valid name in front of a well-formed listing drawn
   * from `rest`, none of whose names it shares, gives a well-formed listing.
   */
  lemma ConsWellFormed(x: Entry, kept: seq<Entry>, rest: seq<Entry>)
    requires WellFormed(kept) && ValidName(x.name)
    requires forall e :: e in kept ==> e in rest
    requires forall e :: e in rest ==> e.name != x.name
    ensures WellFormed([x] + kept)
  {
    var r := [x] + kept;
    forall i, j | 0 <= i < j < |r| ensures r[i].name != r[j].name {
      assert r[j] == kept[j - 1];
      if i > 0 {
        assert r[i] == kept[i - 1];
      }
    }
    forall i | 0 <= i < |r| ensures ValidName(r[i].name) {
      if i > 0 {
        assert r[i] == kept[i - 1];
      }
    }
  }

  /** The list comprehension of the cleanup pass: the job folders, in listing order. */
  function Folders(root: string, listing: seq<Entry>): (fs: seq<Folder>)
    ensures |fs| == |Dirs(listing)|
  {
    var ds := Dirs(listing);
    seq(|ds|, i requires 0 <= i < |ds| => Folder(PathOf(root, ds[i]), ds[i].ctime))
  }

  /** No two folders share a path. */
  predicate DistinctPaths(fs: seq<Folder>) {
    forall i, j :: 0 <= i < j < |fs| ==> fs[i].path != fs[j].path
  }

  /** The folders of a well-formed listing have distinct paths, each that of a directory entry. */
  lemma FoldersOfListing(root: string, listing: seq<Entry>)
    requires WellFormed(listing)
    ensures DistinctPaths(Folders(root, listing))
    ensures forall f :: f in Folders(root, listing) ==> f.path in DirPaths(root, listing)
  {
    var ds := Dirs(listing);
    DirsWellFormed(listing);
    forall i, j | 0 <= i < j < |ds| ensures PathOf(root, ds[i]) != PathOf(root, ds[j]) {
      if PathOf(root, ds[i]) == PathOf(root, ds[j]) {
        JoinInjective(root, ds[i].name, ds[j].name);
      }
    }
    forall f | f in Folders(root, listing) ensures f.path in DirPaths(root, listing) {
      FolderIsDir(root, listing, f);
    }
  }

  /** Every folder is the path of a directory entry of the listing. */
  lemma FolderIsDir(root: string, listing: seq<Entry>, f: Folder)
    requires f in Folders(root, listing)
    ensures f.path in DirPaths(root, listing)
  {
    var ds := Dirs(listing);
    var i :| 0 <= i < |ds| && Folders(root, listing)[i] == f;
    DirsMembers(listing, ds[i]);
  }

  /** The paths of the directory entries of a listing. */
  function DirPaths(root: string, listing: seq<Entry>): set<string> {
    set e | e in listing && e.isDir :: PathOf(root, e)
  }

  /** Every folder of `fs` is no newer than any later one. */
  predicate SortedByCtime(fs: seq<Folder>) {
    forall i, j :: 0 <= i < j < |fs| ==> fs[i].ctime <= fs[j].ctime
  }

  /** Puts `f` just before the first folder of `fs` that is not older than it. */
  function InsertByCtime(f: Folder, fs: seq<Folder>): (r: seq<Folder>)
    ensures |r| == |fs| + 1
    ensures multiset(r) == multiset(fs) + multiset{f}
  {
    if fs == [] || f.ctime <= fs[0].ctime then [f] + fs
    else
      assert fs == [fs[0]] + fs[1..];
      [fs[0]] + InsertByCtime(f, fs[1..])
  }

  /** `folders.sort(key=os.path.getctime)`: a stable sort, oldest first. */
  function SortByCtime(fs: seq<Folder>): (r: seq<Folder>)
    ensures |r| == |fs|
    ensures multiset(r) == multiset(fs)
  {
    if fs == [] then []
    else
      assert fs == [fs[0]] + fs[1..];
      InsertByCtime(fs[0], SortByCtime(fs[1..]))
  }

  lemma {:induction false} InsertByCtimeSorted(f: Folder, fs: seq<Folder>)
    requires SortedByCtime(fs)
    ensures SortedByCtime(InsertByCtime(f, fs))
  {
    if fs == [] || f.ctime <= fs[0].ctime {
      ConsSorted(f, fs);
    } else {
      var rest := InsertByCtime(f, fs[1..]);
      InsertByCtimeSorted(f, fs[1..]);
      forall x | x in rest ensures fs[0].ctime <= x.ctime {
        InsertByCtimeMembers(f, fs[1..], x);
      }
      ConsSorted(fs[0], rest);
    }
  }

  /** What the insertion holds is the inserted folder and the folders it was given. */
  lemma InsertByCtimeMembers(f: Folder, fs: seq<Folder>, x: Folder)
    requires x in InsertByCtime(f, fs)
    ensures x == f || x in fs
  {
    assert x in multiset(InsertByCtime(f, fs));
  }

  /** A folder no newer than any of a sorted sequence can go in front of it. */
  lemma ConsSorted(f: Folder, fs: seq<Folder>)
    requires SortedByCtime(fs)
    requires forall x :: x in fs ==> f.ctime <= x.ctime
    ensures SortedByCtime([f] + fs)
  {
    var r := [f] + fs;
    forall i, j | 0 <= i < j < |r| ensures r[i].ctime <= r[j].ctime {
      assert r[j] == fs[j - 1];
      if i > 0 {
        assert r[i] == fs[i - 1];
      }
    }
  }

  /** The sort puts the folders in ascending order of creation time. */
  lemma {:induction false} SortByCtimeSorted(fs: seq<Folder>)
    ensures SortedByCtime(SortByCtime(fs))
  {
    if fs != [] {
      SortByCtimeSorted(fs[1..]);
      InsertByCtimeSorted(fs[0], SortByCtime(fs[1..]));
    }
  }

  /** The folders of `fs` created at time `t`, in their order in `fs`. */
  function CreatedAt(fs: seq<Folder>, t: int): seq<Folder> {
    if fs == [] then []
    else (if fs[0].ctime == t then [fs[0]] else []) + CreatedAt(fs[1..], t)
  }

  lemma {:induction false} InsertByCtimeCreatedAt(f: Folder, fs: seq<Folder>, t: int)
    ensures CreatedAt(InsertByCtime(f, fs), t) == (if f.ctime == t then [f] else []) + CreatedAt(fs, t)
  {
    if fs == [] || f.ctime <= fs[0].ctime {
      assert ([f] + fs)[1..] == fs;
    } else {
      var rest := InsertByCtime(f, fs[1..]);
      assert ([fs[0]] + rest)[1..] == rest;
      InsertByCtimeCreatedAt(f, fs[1..], t);
      var a, b := (if fs[0].ctime == t then [fs[0]] else []), (if f.ctime == t then [f] else []);
      assert a == [] || b == [];
      calc {
        CreatedAt(InsertByCtime(f, fs), t);
        a + CreatedAt(rest, t);
        a + (b + CreatedAt(fs[1..], t));
        { assert a + (b + CreatedAt(fs[1..], t)) == b + (a + CreatedAt(fs[1..], t)); }
        b + (a + CreatedAt(fs[1..], t));
        b + CreatedAt(fs, t);
      }
    }
  }

  /**
   * The sort is stable: the folders created at any one time keep the order
   * they had in the listing.
   */
  lemma {:induction false} SortByCtimeStable(fs: seq<Folder>, t: int)
    ensures CreatedAt(SortByCtime(fs), t) == CreatedAt(fs, t)
  {
    if fs != [] {
      SortByCtimeStable(fs[1..], t);
      InsertByCtimeCreatedAt(fs[0], SortByCtime(fs[1..]), t);
    }
  }

  lemma {:induction false} InsertByCtimeDistinct(f: Folder, fs: seq<Folder>)
    requires DistinctPaths(fs)
    requires forall g :: g in fs ==> g.path != f.path
    ensures DistinctPaths(InsertByCtime(f, fs))
  {
    if fs == [] || f.ctime <= fs[0].ctime {
      ConsDistinct(f, fs);
    } else {
      var rest := InsertByCtime(f, fs[1..]);
      InsertByCtimeDistinct(f, fs[1..]);
      forall x | x in rest ensures x.path != fs[0].path {
        InsertByCtimeMembers(f, fs[1..], x);
      }
      ConsDistinct(fs[0], rest);
    }
  }

  /** A folder whose path none of `fs` has can go in front of it. */
  lemma ConsDistinct(f: Folder, fs: seq<Folder>)
    requires DistinctPaths(fs)
    requires forall g :: g in fs ==> g.path != f.path
    ensures DistinctPaths([f] + fs)
  {
    var r := [f] + fs;
    forall i, j | 0 <= i < j < |r| ensures r[i].path != r[j].path {
      assert r[j] == fs[j - 1];
      if i > 0 {
        assert r[i] == fs[i - 1];
      }
    }
  }

  /** A prefix of folders with distinct paths has distinct paths. */
  lemma DistinctPrefix(fs: seq<Folder>, n: nat)
    requires DistinctPaths(fs) && n <= |fs|
    ensures DistinctPaths(fs[..n])
  {
    var p := fs[..n];
    forall i, j | 0 <= i < j < |p| ensures p[i].path != p[j].path {
      assert p[i] == fs[i] && p[j] == fs[j];
    }
  }

  /** Sorting keeps folder paths distinct. */
  lemma {:induction false} SortByCtimeDistinct(fs: seq<Folder>)
    requires DistinctPaths(fs)
    ensures DistinctPaths(SortByCtime(fs))
  {
    if fs != [] {
      var rest := SortByCtime(fs[1..]);
      SortByCtimeDistinct(fs[1..]);
      forall g | g in rest ensures g.path != fs[0].path {
        assert g in multiset(rest);
      }
      InsertByCtimeDistinct(fs[0], rest);
    }
  }

  /**
   * How many folders a cleanup pass deletes when the root holds `count`:
   * none below the ceiling, otherwise enough to leave one slot free.
   */
  function NumToDelete(count: nat): (k: nat)
    ensures k <= count
    ensures count < MaxGenerations ==> k == 0
    ensures count >= MaxGenerations ==> count - k == MaxGenerations - 1
  {
    if count >= MaxGenerations then count - MaxGenerations + 1 else 0
  }

  /** The folders a cleanup pass deletes, in deletion order. */
  function Victims(root: string, listing: seq<Entry>): (vs: seq<Folder>)
    ensures |vs| == NumToDelete(|Dirs(listing)|)
  {
    var sorted := SortByCtime(Folders(root, listing));
    sorted[..NumToDelete(|sorted|)]
  }

  /** The folders a cleanup pass keeps. */
  function Survivors(root: string, listing: seq<Entry>): (ss: seq<Folder>)
    ensures |ss| + NumToDelete(|Dirs(listing)|) == |Dirs(listing)|
  {
    var sorted := SortByCtime(Folders(root, listing));
    sorted[NumToDelete(|sorted|)..]
  }

  /**
   * The retention rule: with `n` job folders, nothing is selected below the
   * ceiling and `n - MaxGenerations + 1` otherwise; the selection and the
   * kept folders split the folders between them, every selected folder is a
   * directory of the root, and none is newer than a kept one.
   */
  lemma RetentionRule(root: string, listing: seq<Entry>)
    ensures var n := |Dirs(listing)|;
      |Victims(root, listing)| == NumToDelete(n) &&
      (n < MaxGenerations ==> Victims(root, listing) == []) &&
      (n >= MaxGenerations ==> |Survivors(root, listing)| == MaxGenerations - 1)
    ensures multiset(Victims(root, listing)) + multiset(Survivors(root, listing))
      == multiset(Folders(root, listing))
    ensures forall v, w :: v in Victims(root, listing) && w in Survivors(root, listing) ==> v.ctime <= w.ctime
    ensures forall v :: v in Victims(root, listing) ==> v.path in DirPaths(root, listing)
  {
    RetentionCount(root, listing);
    RetentionSplit(root, listing);
    VictimsOlder(root, listing);
    VictimsAreDirs(root, listing);
  }

  lemma RetentionCount(root: string, listing: seq<Entry>)
    ensures var n := |Dirs(listing)|;
      |Victims(root, listing)| == NumToDelete(n) &&
      (n < MaxGenerations ==> Victims(root, listing) == []) &&
      (n >= MaxGenerations ==> |Survivors(root, listing)| == MaxGenerations - 1)
  {
    var sorted := SortByCtime(Folders(root, listing));
    assert |sorted| == |Dirs(listing)|;
  }

  lemma RetentionSplit(root: string, listing: seq<Entry>)
    ensures multiset(Victims(root, listing)) + multiset(Survivors(root, listing))
      == multiset(Folders(root, listing))
  {
    var sorted := SortByCtime(Folders(root, listing));
    SplitMultiset(sorted, NumToDelete(|sorted|));
  }

  lemma SplitMultiset(s: seq<Folder>, k: nat)
    requires k <= |s|
    ensures multiset(s[..k]) + multiset(s[k..]) == multiset(s)
  {
    assert s[..k] + s[k..] == s;
  }

  lemma VictimsOlder(root: string, listing: seq<Entry>)
    ensures forall v, w :: v in Victims(root, listing) && w in Survivors(root, listing) ==> v.ctime <= w.ctime
  {
    var fs := Folders(root, listing);
    var sorted := SortByCtime(fs);
    var k := NumToDelete(|sorted|);
    SortByCtimeSorted(fs);
    forall v, w | v in sorted[..k] && w in sorted[k..] ensures v.ctime <= w.ctime {
      var i :| 0 <= i < k && sorted[i] == v;
      var j :| k <= j < |sorted| && sorted[j] == w;
    }
  }

  lemma VictimsAreDirs(root: string, listing: seq<Entry>)
    ensures forall v :: v in Victims(root, listing) ==> v.path in DirPaths(root, listing)
  {
    var fs := Folders(root, listing);
    var sorted := SortByCtime(fs);
    var k := NumToDelete(|sorted|);
    forall v | v in sorted[..k] ensures v.path in DirPaths(root, listing) {
      assert v in multiset(sorted);
      FolderIsDir(root, listing, v);
    }
  }

  /** Fifty-two job folders under a ceiling of fifty: the three oldest go, forty-nine stay. */
  lemma RetentionOfFiftyTwo(root: string, listing: seq<Entry>)
    requires |Dirs(listing)| == 52
    ensures |Victims(root, listing)| == 3 && |Survivors(root, listing)| == 49
  {
    RetentionRule(root, listing);
  }

  /** The listing once every entry whose path is in `gone` has been deleted (`shutil.rmtree`). */
  function Prune(root: string, listing: seq<Entry>, gone: set<string>): (r: seq<Entry>)
    ensures |r| <= |listing|
  {
    if listing == [] then []
    else (if PathOf(root, listing[0]) in gone then [] else [listing[0]]) + Prune(root, listing[1..], gone)
  }

  /** An entry survives deletion exactly when its path is not among the deleted ones. */
  lemma {:induction false} PruneKeeps(root: string, listing: seq<Entry>, gone: set<string>, e: Entry)
    ensures e in Prune(root, listing, gone) <==> e in listing && PathOf(root, e) !in gone
  {
    if listing != [] {
      PruneKeeps(root, listing[1..], gone, e);
    }
  }

  /** Deleting `gone1` and then `gone2` is deleting both. */
  lemma {:induction false} PruneTwice(root: string, listing: seq<Entry>, gone1: set<string>, gone2: set<string>)
    ensures Prune(root, Prune(root, listing, gone1), gone2) == Prune(root, listing, gone1 + gone2)
  {
    if listing != [] {
      var x, rest := listing[0], listing[1..];
      var once := Prune(root, rest, gone1);
      PruneTwice(root, rest, gone1, gone2);
      if PathOf(root, x) in gone1 {
        assert Prune(root, listing, gone1) == once;
        assert Prune(root, listing, gone1 + gone2) == Prune(root, rest, gone1 + gone2);
      } else {
        var p := [x] + once;
        assert Prune(root, listing, gone1) == p;
        assert p[0] == x && p[1..] == once;
        assert Prune(root, p, gone2) == (if PathOf(root, x) in gone2 then [] else [x]) + Prune(root, once, gone2);
      }
    }
  }

  /** Deleting keeps a listing well formed. */
  lemma {:induction false} PruneWellFormed(root: string, listing: seq<Entry>, gone: set<string>)
    requires WellFormed(listing)
    ensures WellFormed(Prune(root, listing, gone))
  {
    if listing != [] {
      var x, rest := listing[0], listing[1..];
      var kept := Prune(root, rest, gone);
      WellFormedTail(listing);
      PruneWellFormed(root, rest, gone);
      if PathOf(root, x) !in gone {
        forall e | e in kept ensures e in rest {
          PruneKeeps(root, rest, gone, e);
        }
        ConsWellFormed(x, kept, rest);
        assert Prune(root, listing, gone) == [x] + kept;
      } else {
        assert Prune(root, listing, gone) == kept;
      }
    }
  }

  /** Deleting paths that name no entry changes nothing. */
  lemma {:induction false} PruneAbsent(root: string, listing: seq<Entry>, gone: set<string>)
    requires forall e :: e in listing ==> PathOf(root, e) !in gone
    ensures Prune(root, listing, gone) == listing
  {
    if listing != [] {
      PruneAbsent(root, listing[1..], gone);
    }
  }

  /** The tail of a well-formed listing is well formed and does not repeat the head's name. */
  lemma WellFormedTail(listing: seq<Entry>)
    requires WellFormed(listing) && listing != []
    ensures WellFormed(listing[1..])
    ensures forall e :: e in listing[1..] ==> e.name != listing[0].name
  {
    var rest := listing[1..];
    forall i, j | 0 <= i < j < |rest| ensures rest[i].name != rest[j].name {
      assert rest[i] == listing[i + 1] && rest[j] == listing[j + 1];
    }
    forall e | e in rest ensures e.name != listing[0].name {
      var j :| 0 <= j < |rest| && rest[j] == e;
      assert listing[j + 1] == e;
    }
  }

  /** No entry of a well-formed listing shares its path with an entry of another name. */
  lemma OtherPaths(root: string, listing: seq<Entry>, d: Entry)
    requires WellFormed(listing) && ValidName(d.name)
    requires forall e :: e in listing ==> e.name != d.name
    ensures forall e :: e in listing ==> PathOf(root, e) != PathOf(root, d)
  {
    forall e | e in listing ensures PathOf(root, e) != PathOf(root, d) {
      if PathOf(root, e) == PathOf(root, d) {
        JoinInjective(root, e.name, d.name);
      }
    }
  }

  /** Deleting the path of one directory entry removes exactly one directory. */
  lemma {:induction false} PruneOneDir(root: string, listing: seq<Entry>, d: Entry)
    requires WellFormed(listing) && d in listing && d.isDir
    ensures |Dirs(Prune(root, listing, {PathOf(root, d)}))| + 1 == |Dirs(listing)|
    decreases |listing|, 1
  {
    var x, rest := listing[0], listing[1..];
    var gone := {PathOf(root, d)};
    assert Dirs(listing) == (if x.isDir then [x] else []) + Dirs(rest);
    WellFormedTail(listing);
    if x == d {
      OtherPaths(root, rest, d);
      PruneAbsent(root, rest, gone);
      assert Prune(root, listing, gone) == rest;
    } else {
      assert d in rest;
      PruneOneDirLater(root, listing, d);
    }
  }

  lemma {:induction false} PruneOneDirLater(root: string, listing: seq<Entry>, d: Entry)
    requires WellFormed(listing) && listing != [] && d in listing[1..] && d.isDir
    ensures |Dirs(Prune(root, listing, {PathOf(root, d)}))| + 1 == |Dirs(listing)|
    decreases |listing|, 0
  {
    var x, rest := listing[0], listing[1..];
    var gone := {PathOf(root, d)};
    WellFormedTail(listing);
    OtherPaths(root, [x], d);
    var p := Prune(root, rest, gone);
    assert Prune(root, listing, gone) == [x] + p;
    assert ([x] + p)[0] == x && ([x] + p)[1..] == p;
    assert Dirs(listing) == (if x.isDir then [x] else []) + Dirs(rest);
    PruneOneDir(root, rest, d);
  }

  /** The set of a sequence's elements. */
  function SetOf(s: seq<string>): set<string> {
    set p | p in s
  }

  /** The paths of some folders. */
  function PathSet(fs: seq<Folder>): set<string> {
    set f | f in fs :: f.path
  }

  lemma PathSetAppend(fs: seq<Folder>, f: Folder)
    ensures PathSet(fs + [f]) == PathSet(fs) + {f.path}
  {
  }

  /**
   * Pruning a well-formed listing of the paths of some of its directories,
   * no two alike, takes away exactly one directory per path.
   */
  lemma {:induction false} PruneCount(root: string, listing: seq<Entry>, fs: seq<Folder>)
    requires WellFormed(listing) && DistinctPaths(fs)
    requires PathSet(fs) <= DirPaths(root, listing)
    ensures |Dirs(Prune(root, listing, PathSet(fs)))| + |fs| == |Dirs(listing)|
    decreases |fs|
  {
    if fs == [] {
      assert PathSet(fs) == {};
      PruneAbsent(root, listing, {});
    } else {
      var r, x := fs[..|fs| - 1], fs[|fs| - 1];
      DistinctLast(fs);
      PruneCount(root, listing, r);
      PruneOneMore(root, listing, PathSet(r), x.path);
    }
  }

  /** Dropping the last of some folders with distinct paths drops exactly its path. */
  lemma DistinctLast(fs: seq<Folder>)
    requires DistinctPaths(fs) && fs != []
    ensures var r, x := fs[..|fs| - 1], fs[|fs| - 1];
      DistinctPaths(r) && x.path !in PathSet(r) && PathSet(fs) == PathSet(r) + {x.path}
  {
    var r, x := fs[..|fs| - 1], fs[|fs| - 1];
    assert fs == r + [x];
    PathSetAppend(r, x);
    forall k | 0 <= k < |r| ensures r[k].path != x.path {
      assert fs[k] == r[k];
    }
  }

  /** Deleting one more directory path, not yet deleted, takes away one more directory. */
  lemma PruneOneMore(root: string, listing: seq<Entry>, gone: set<string>, p: string)
    requires WellFormed(listing) && p in DirPaths(root, listing) && p !in gone
    ensures |Dirs(Prune(root, listing, gone + {p}))| + 1 == |Dirs(Prune(root, listing, gone))|
  {
    var e :| e in listing && e.isDir && PathOf(root, e) == p;
    PruneKeeps(root, listing, gone, e);
    PruneWellFormed(root, listing, gone);
    PruneOneDir(root, Prune(root, listing, gone), e);
    PruneTwice(root, listing, gone, {p});
  }

  /** Deleting only directory paths leaves every plain file in place. */
  lemma PrunePlainFiles(root: string, listing: seq<Entry>, gone: set<string>)
    requires WellFormed(listing)
    requires gone <= DirPaths(root, listing)
    ensures forall e :: e in listing && !e.isDir ==> e in Prune(root, listing, gone)
  {
    forall e | e in listing && !e.isDir ensures e in Prune(root, listing, gone) {
      if PathOf(root, e) in gone {
        var d :| d in listing && d.isDir && PathOf(root, d) == PathOf(root, e);
        SamePathSameEntry(root, listing, d, e);
      }
      PruneKeeps(root, listing, gone, e);
    }
  }
}
