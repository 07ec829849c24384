/**
 * One generation job: the runner validates the input, runs the cleanup pass,
 * creates the job folder, launches `sharp predict`, looks for the produced
 * `.ply` file and reports one of five outcomes.
 *
 * The subprocess and the directory walk are oracles: the exit status and
 * standard error of the tool, and the (root, files) steps `os.walk` yields
 * over the job folder, are parameters.
 */
module SharpRunner {
  import opened Wrappers
  import opened Text
  import opened PosixPath
  import opened Retention

  /** Python truthiness of an optional string: present and not empty. */
  predicate Provided(s: Option<string>) {
    s.Some? && s.value != ""
  }

  /** How the `sharp predict` subprocess ended. */
  datatype ToolRun =
    | Exited(code: int, stderr: string)  // it ran; exit status and captured standard error
    | LaunchFailed(reason: string)       // it could not be started; the text of the exception

  /** One directory `os.walk` visits: its path and the names of the files directly in it. */
  datatype WalkStep = WalkStep(root: string, files: seq<string>)

  /** How a job ends. */
  datatype Outcome =
    | MissingInput
    | ToolFailed(stderr: string)
    | SystemError(reason: string)
    | NoOutput(baseName: string)
    | Generated(path: string, baseName: string)

  /** What the runner returns: the path of the produced model, if any, and a status message. */
  datatype JobResult = JobResult(model: Option<string>, message: string)

  /** The job name: the input's basename without its final extension. */
  function BaseName(inputPath: string): (b: string)
    ensures '/' !in b
    ensures StartsWith(Basename(inputPath), b)
  {
    var parts := SplitExt(Basename(inputPath));
    assert Basename(inputPath)[..|parts.0|] == parts.0;
    parts.0
  }

  /** The job folder, `OUTPUT_DIR/<base_name>`. */
  function JobDir(outputDir: string, inputPath: string): (d: string)
    ensures StartsWith(d, outputDir)
    ensures EndsWith(d, BaseName(inputPath))
  {
    var b := BaseName(inputPath);
    NoSlashNoLeadingSlash(b);
    Join(outputDir, b)
  }

  /** The job folder depends on the input's file name only, never on its parent directories. */
  lemma JobDirIgnoresParents(outputDir: string, dir: string, name: string)
    requires '/' !in name
    ensures JobDir(outputDir, dir + "/" + name) == JobDir(outputDir, name)
  {
    BasenameAfterSlash(dir, name);
  }

  /** The last '.' of `stem.ext` is the one before `ext`. */
  lemma LastDotBeforeExtension(stem: string, ext: string)
    requires '.' !in ext
    ensures LastIndexOf(stem + "." + ext, '.') == Some(|stem|)
  {
    var name := stem + "." + ext;
    assert name[|stem|] == '.';
    assert name[|stem| + 1..] == ext;
  }

  /** Only the final extension is removed: `stem.ext` names the job `stem`. */
  lemma BaseNameDropsFinalExtension(stem: string, ext: string)
    requires '/' !in stem && '/' !in ext && '.' !in ext
    requires !AllDots(stem)
    ensures BaseName(stem + "." + ext) == stem
  {
    var name := stem + "." + ext;
    assert '/' !in name;
    BasenameUnique(name, name);
    LastDotBeforeExtension(stem, ext);
    assert name[..|stem|] == stem;
  }

  /**
   * Two inputs with the same stem and a plain extension share one job
   * folder, whatever their parent directories and extensions.
   */
  lemma SameStemSameJobDir(outputDir: string, dir1: string, dir2: string, stem: string, ext1: string, ext2: string)
    requires '/' !in stem && !AllDots(stem)
    requires '/' !in ext1 && '.' !in ext1 && '/' !in ext2 && '.' !in ext2
    ensures JobDir(outputDir, dir1 + "/" + stem + "." + ext1) == Join(outputDir, stem)
    ensures JobDir(outputDir, dir2 + "/" + stem + "." + ext2) == Join(outputDir, stem)
  {
    StemBaseName(dir1, stem, ext1);
    StemBaseName(dir2, stem, ext2);
  }

  /** The job name of `dir/stem.ext` is `stem`. */
  lemma StemBaseName(dir: string, stem: string, ext: string)
    requires '/' !in stem && !AllDots(stem)
    requires '/' !in ext && '.' !in ext
    ensures BaseName(dir + "/" + stem + "." + ext) == stem
  {
    var name := stem + "." + ext;
    assert dir + "/" + stem + "." + ext == dir + "/" + name;
    assert '/' !in name;
    BasenameAfterSlash(dir, name);
    BaseNameDropsFinalExtension(stem, ext);
  }

  /** A file the search accepts. */
  predicate IsPly(file: string) {
    EndsWith(file, ".ply")
  }

  /** The index of the first `.ply` name in `files`, where the inner loop breaks. */
  function FirstPly(files: seq<string>): (k: Option<nat>)
    ensures k.None? ==> forall j :: 0 <= j < |files| ==> !IsPly(files[j])
    ensures k.Some? ==> k.value < |files| && IsPly(files[k.value])
    ensures k.Some? ==> forall j :: 0 <= j < k.value ==> !IsPly(files[j])
  {
    if files == [] then None
    else if IsPly(files[0]) then Some(0)
    else match FirstPly(files[1..])
      case None => None
      case Some(k) => Some(k + 1)
  }

  /** The first `.ply` name is the one with no `.ply` name before it. */
  lemma FirstPlyIs(files: seq<string>, j: nat)
    requires j < |files| && IsPly(files[j])
    requires forall k :: 0 <= k < j ==> !IsPly(files[k])
    ensures FirstPly(files) == Some(j)
  {
    match FirstPly(files)
    case None =>
    case Some(k) =>
      if k < j {
      } else if k > j {
      }
  }

  /**
   * What the nested search loop leaves in `found_ply`: the `break` leaves
   * only the loop over files, so the walk goes on and the LAST directory
   * holding a `.ply` decides, with its first `.ply`.
   */
  function Search(walk: seq<WalkStep>): (found: Option<string>)
    ensures found.Some? ==> IsPly(found.value)
  {
    if walk == [] then None
    else
      var last := walk[|walk| - 1];
      match FirstPly(last.files)
      case Some(k) =>
        EndsWithTrans(Join(last.root, last.files[k]), last.files[k], ".ply");
        Some(Join(last.root, last.files[k]))
      case None => Search(walk[..|walk| - 1])
  }

  /** Some walked directory holds a `.ply` file. */
  predicate HasPly(walk: seq<WalkStep>) {
    exists i, j :: 0 <= i < |walk| && 0 <= j < |walk[i].files| && IsPly(walk[i].files[j])
  }

  /** The search finds a file exactly when the walk holds a `.ply` file. */
  lemma {:induction false} SearchFindsAny(walk: seq<WalkStep>)
    ensures Search(walk).Some? <==> HasPly(walk)
  {
    if walk != [] {
      var n := |walk| - 1;
      var init := walk[..n];
      SearchFindsAny(init);
      match FirstPly(walk[n].files)
      case Some(k) =>
        assert IsPly(walk[n].files[k]);
      case None =>
        if HasPly(walk) {
          var i, j :| 0 <= i < |walk| && 0 <= j < |walk[i].files| && IsPly(walk[i].files[j]);
          assert i < n;
          assert init[i] == walk[i];
        }
        if HasPly(init) {
          var i, j :| 0 <= i < |init| && 0 <= j < |init[i].files| && IsPly(init[i].files[j]);
          assert walk[i] == init[i];
        }
    }
  }

  /**
   * The search result is the first `.ply` of the last walked directory that
   * holds one: given that directory `i` and its first `.ply` `j`, the search
   * returns `root_i/files_i[j]`.
   */
  lemma {:induction false} SearchPicksLastDirectory(walk: seq<WalkStep>, i: nat, j: nat)
    requires i < |walk| && j < |walk[i].files| && IsPly(walk[i].files[j])
    requires forall k :: 0 <= k < j ==> !IsPly(walk[i].files[k])
    requires forall d, k :: i < d < |walk| && 0 <= k < |walk[d].files| ==> !IsPly(walk[d].files[k])
    ensures Search(walk) == Some(Join(walk[i].root, walk[i].files[j]))
  {
    var n := |walk| - 1;
    if i == n {
      FirstPlyIs(walk[n].files, j);
    } else {
      var last := walk[n];
      assert FirstPly(last.files).None?;
      var init := walk[..n];
      assert Search(walk) == Search(init);
      forall d, k | i < d < |init| && 0 <= k < |init[d].files| ensures !IsPly(init[d].files[k]) {
        assert init[d] == walk[d];
      }
      assert init[i] == walk[i];
      SearchPicksLastDirectory(init, i, j);
    }
  }

  /**
   * The order quirk: with `a.ply` in the job folder and `b.ply` in a
   * sub-folder walked after it, the search returns the sub-folder's file,
   * not the first `.ply` in walk order.
   */
  lemma SearchPrefersLaterDirectory()
    ensures Search([WalkStep("/out/cat", ["a.ply"]), WalkStep("/out/cat/sub", ["b.ply"])])
      == Some("/out/cat/sub/b.ply")
  {
    var walk := [WalkStep("/out/cat", ["a.ply"]), WalkStep("/out/cat/sub", ["b.ply"])];
    assert IsPly("b.ply") by { assert "b.ply"[1..] == ".ply"; }
    SearchPicksLastDirectory(walk, 1, 0);
    assert !StartsWith("b.ply", "/") by { assert "b.ply"[0] != '/'; }
    assert !EndsWith("/out/cat/sub", "/") by { assert "/out/cat/sub"[11] != '/'; }
    assert "/out/cat/sub" + "/" + "b.ply" == "/out/cat/sub/b.ply";
  }

  /**
   * The search loop of the runner: for each walked directory, the first
   * `.ply` among its files replaces whatever was found before.
   */
  method FindPly(walk: seq<WalkStep>) returns (found: Option<string>)
    ensures found == Search(walk)
  {
    found := None;
    var s := 0;
    while s < |walk|
      invariant 0 <= s <= |walk|
      invariant found == Search(walk[..s])
    {
      var root, files := walk[s].root, walk[s].files;
      assert walk[..s + 1][..s] == walk[..s];
      var j := 0;
      while j < |files|
        invariant 0 <= j <= |files|
        invariant forall k :: 0 <= k < j ==> !IsPly(files[k])
        invariant found == Search(walk[..s])
      {
        if IsPly(files[j]) {
          FirstPlyIs(files, j);
          found := Some(Join(root, files[j]));
          break;
        }
        j := j + 1;
      }
      s := s + 1;
    }
    assert walk[..|walk|] == walk;
  }

  const MissingInputMessage: string := "Error: You didn't provide an input image."

  /**
   * The opening of the message for a run that produced no `.ply` file, in
   * two pieces: the verifier reads the characters of a short literal only.
   */
  const NoPlyMessageStart: string := "Error: SHARP finished, " + "but I couldn't find a .ply file in "

  /** The runner's return value for each outcome. */
  function Render(o: Outcome): (r: JobResult)
    ensures r.model.Some? <==> o.Generated?
    ensures o.Generated? ==> r.model.value == o.path
    ensures o.ToolFailed? ==> EndsWith(r.message, o.stderr)
  {
    match o
    case MissingInput => JobResult(None, MissingInputMessage)
    case ToolFailed(stderr) =>
      var m := "Error running SHARP:\n" + stderr;
      assert m[|m| - |stderr|..] == stderr;
      JobResult(None, m)
    case SystemError(reason) => JobResult(None, "System Error: " + reason)
    case NoOutput(b) => JobResult(None, NoPlyMessageStart + b + ".")
    case Generated(path, b) => JobResult(Some(path), "Success! Generated " + b + ".ply")
  }

  /**
   * The decision of the runner: no input, then the tool's exit, then
   * whether the search found a file.
   */
  function Classify(input: Option<string>, tool: ToolRun, found: Option<string>): (o: Outcome)
    ensures o.MissingInput? <==> !Provided(input)
    ensures o.ToolFailed? <==> Provided(input) && tool.Exited? && tool.code != 0
    ensures o.SystemError? <==> Provided(input) && tool.LaunchFailed?
    ensures o.Generated? <==> Provided(input) && tool.Exited? && tool.code == 0 && Provided(found)
    ensures o.Generated? ==> o.path == found.value && o.baseName == BaseName(input.value)
    ensures o.NoOutput? ==> o.baseName == BaseName(input.value)
  {
    if !Provided(input) then MissingInput
    else JobOutcome(tool, found, BaseName(input.value))
  }

  /** How a launched job for `baseName` ends. */
  function JobOutcome(tool: ToolRun, found: Option<string>, baseName: string): (o: Outcome)
    ensures !o.MissingInput?
    ensures o.ToolFailed? <==> tool.Exited? && tool.code != 0
    ensures o.SystemError? <==> tool.LaunchFailed?
    ensures o.Generated? <==> tool.Exited? && tool.code == 0 && Provided(found)
    ensures o.Generated? ==> o.path == found.value && o.baseName == baseName
    ensures o.NoOutput? ==> o.baseName == baseName
  {
    match tool
    case LaunchFailed(reason) => SystemError(reason)
    case Exited(code, stderr) =>
      if code != 0 then ToolFailed(stderr)
      else if Provided(found) then Generated(found.value, baseName)
      else NoOutput(baseName)
  }

  lemma PrefixOfConcat(a: string, b: string, k: nat)
    requires k <= |a|
    ensures (a + b)[..k] == a[..k]
    ensures forall i :: 0 <= i < k ==> (a + b)[i] == a[i]
  {
  }

  /** The kind of an outcome, without its payload. */
  datatype Kind = KMissingInput | KToolFailed | KSystemError | KNoOutput | KGenerated

  function KindOf(o: Outcome): Kind {
    match o
    case MissingInput => KMissingInput
    case ToolFailed(_) => KToolFailed
    case SystemError(_) => KSystemError
    case NoOutput(_) => KNoOutput
    case Generated(_, _) => KGenerated
  }

  /** Reads the kind of outcome back from a status message by its fixed opening words. */
  function KindOfMessage(message: string): Kind {
    if StartsWith(message, "Success! ") then KGenerated
    else if StartsWith(message, "Error running ") then KToolFailed
    else if StartsWith(message, "System Error: ") then KSystemError
    else if StartsWith(message, "Error: SHARP ") then KNoOutput
    else KMissingInput
  }

  /**
   * The messages tell the outcomes apart: the kind of every outcome can be
   * read back from its message, whatever the tool printed.
   */
  lemma MessageIdentifiesOutcome(o: Outcome)
    ensures KindOfMessage(Render(o).message) == KindOf(o)
  {
    match o
    case MissingInput => MissingInputKind();
    case ToolFailed(stderr) => ToolFailedKind(stderr);
    case SystemError(reason) => SystemErrorKind(reason);
    case NoOutput(b) => NoOutputKind(b);
    case Generated(_, b) => GeneratedKind(b);
  }

  lemma MissingInputKind()
    ensures KindOfMessage(MissingInputMessage) == KMissingInput
  {
    var m := MissingInputMessage;
    assert m[1] == 'r' && m[5] == ':' && m[7] == 'Y';
    DiffersAt(m, "Success! ", 1);
    DiffersAt(m, "Error running ", 5);
    DiffersAt(m, "System Error: ", 1);
    DiffersAt(m, "Error: SHARP ", 7);
  }

  /** A string that differs from `prefix` at position `k` does not start with it. */
  lemma DiffersAt(s: string, prefix: string, k: nat)
    requires k < |s| && k < |prefix| && s[k] != prefix[k]
    ensures !StartsWith(s, prefix)
  {
    if |prefix| <= |s| {
      assert s[..|prefix|][k] == s[k];
    }
  }

  lemma ToolFailedKind(stderr: string)
    ensures KindOfMessage("Error running SHARP:\n" + stderr) == KToolFailed
  {
    var m := "Error running SHARP:\n" + stderr;
    PrefixOfConcat("Error running SHARP:\n", stderr, 14);
    assert m[1] == 'r';
  }

  lemma SystemErrorKind(reason: string)
    ensures KindOfMessage("System Error: " + reason) == KSystemError
  {
    var m := "System Error: " + reason;
    PrefixOfConcat("System Error: ", reason, 14);
    assert m[1] == 'y';
  }

  lemma NoOutputKind(b: string)
    ensures KindOfMessage(NoPlyMessageStart + b + ".") == KNoOutput
  {
    var m := NoPlyMessageStart + b + ".";
    assert m == NoPlyMessageStart + (b + ".");
    PrefixOfConcat(NoPlyMessageStart, b + ".", 13);
    assert m[1] == 'r' && m[5] == ':';
  }

  lemma GeneratedKind(b: string)
    ensures KindOfMessage("Success! Generated " + b + ".ply") == KGenerated
  {
    var m := "Success! Generated " + b + ".ply";
    assert m == "Success! Generated " + (b + ".ply");
    PrefixOfConcat("Success! Generated ", b + ".ply", 9);
  }

  /**
   * The four outcomes of a job with an input: a launch failure is a system
   * error; a non-zero exit fails with a message ending in the tool's
   * standard error; a zero exit without any `.ply` fails with the
   * "couldn't find" message; otherwise the search result, a `.ply` path, is
   * returned with "Success! Generated <base_name>.ply".
   */
  lemma JobOutcomes(input: Option<string>, tool: ToolRun, walk: seq<WalkStep>)
    ensures var r := Render(Classify(input, tool, Search(walk)));
      && (!Provided(input) ==> r == JobResult(None, MissingInputMessage))
      && (r.model.Some? <==> Provided(input) && tool.Exited? && tool.code == 0 && HasPly(walk))
      && (Provided(input) && tool.Exited? && tool.code != 0 ==>
            r.model == None && EndsWith(r.message, tool.stderr))
      && (Provided(input) && tool.Exited? && tool.code == 0 && !HasPly(walk) ==>
            r == JobResult(None, NoPlyMessageStart + BaseName(input.value) + "."))
      && (r.model.Some? ==>
            r.model == Search(walk) && IsPly(r.model.value) &&
            r.message == "Success! Generated " + BaseName(input.value) + ".ply")
  {
    SearchFindsAny(walk);
    if Provided(input) && tool.Exited? && tool.code != 0 {
      var m := "Error running SHARP:\n" + tool.stderr;
      assert m[|m| - |tool.stderr|..] == tool.stderr;
    }
    match Search(walk)
    case None =>
    case Some(p) =>
      assert p != "" by { assert IsPly(p); }
  }

  /**
   * A successful job for `dir/stem.ext`: the job folder is `OUTPUT_DIR/stem`
   * and the message names `stem.ply`.
   */
  lemma SuccessScenario(outputDir: string, dir: string, stem: string, ext: string, walk: seq<WalkStep>)
    requires '/' !in stem && !AllDots(stem)
    requires '/' !in ext && '.' !in ext
    requires HasPly(walk)
    ensures JobDir(outputDir, dir + "/" + stem + "." + ext) == Join(outputDir, stem)
    ensures Render(Classify(Some(dir + "/" + stem + "." + ext), Exited(0, ""), Search(walk)))
      == JobResult(Search(walk), "Success! Generated " + stem + ".ply")
  {
    StemBaseName(dir, stem, ext);
    SearchFindsAny(walk);
    var p := Search(walk).value;
    assert Provided(Search(walk)) by { assert IsPly(p); }
    var input := dir + "/" + stem + "." + ext;
    assert Provided(Some(input)) by { assert |input| > 0; }
  }

  /** The names in a listing. */
  function Names(listing: seq<Entry>): set<string> {
    set e | e in listing :: e.name
  }

  /**
   * `os.makedirs(job_dir, exist_ok=True)` for a job named `name`: a new
   * directory entry unless the name is already listed or names the root
   * itself or its parent.
   */
  function WithJobDir(listing: seq<Entry>, name: string, now: int): (r: seq<Entry>)
    ensures forall e :: e in listing ==> e in r
    ensures forall e :: e in r ==> e in listing || e == Entry(name, true, now)
    ensures ValidName(name) ==> name in Names(r)
  {
    if ValidName(name) && name !in Names(listing) then
      var r := listing + [Entry(name, true, now)];
      assert Entry(name, true, now) in r;
      r
    else listing
  }

  /** Creating the job folder keeps the listing well formed and adds at most one directory. */
  lemma WithJobDirKeeps(listing: seq<Entry>, name: string, now: int)
    requires WellFormed(listing)
    ensures WellFormed(WithJobDir(listing, name, now))
    ensures |Dirs(WithJobDir(listing, name, now))| <= |Dirs(listing)| + 1
  {
    if ValidName(name) && name !in Names(listing) {
      var x := Entry(name, true, now);
      var l := listing + [x];
      forall i, j | 0 <= i < j < |l| ensures l[i].name != l[j].name {
        if j == |listing| {
          assert l[i] in listing;
        }
      }
      DirsAppend(listing, x);
    }
  }

  lemma {:induction false} DirsAppend(listing: seq<Entry>, x: Entry)
    ensures Dirs(listing + [x]) == Dirs(listing) + (if x.isDir then [x] else [])
  {
    var tail := if x.isDir then [x] else [];
    if listing == [] {
      assert [] + [x] == [x];
      assert Dirs([x]) == tail + Dirs([]);
    } else {
      var l := listing + [x];
      assert l[0] == listing[0] && l[1..] == listing[1..] + [x];
      var head := if listing[0].isDir then [listing[0]] else [];
      DirsAppend(listing[1..], x);
      calc {
        Dirs(l);
        head + Dirs(listing[1..] + [x]);
        head + (Dirs(listing[1..]) + tail);
        (head + Dirs(listing[1..])) + tail;
        Dirs(listing) + tail;
      }
    }
  }

  /**
   * One deletion of the cleanup pass: removing the next victim from the
   * listing pruned of the earlier ones is pruning the original listing of
   * all of them.
   */
  lemma CleanupStep(dir: string, before: seq<Entry>, removed: seq<string>, current: seq<Entry>, victim: string)
    requires current == Prune(dir, before, SetOf(removed))
    ensures Prune(dir, current, {victim}) == Prune(dir, before, SetOf(removed + [victim]))
  {
    PruneTwice(dir, before, SetOf(removed), {victim});
    assert SetOf(removed + [victim]) == SetOf(removed) + {victim};
  }

  /** Deleting the next folder of the sorted selection extends the paths deleted so far, in order. */
  lemma DeletedInOrder(removed: seq<string>, folders: seq<Folder>, undeletable: set<string>, victim: string)
    requires |removed| < |folders| && folders[|removed|].path == victim && victim !in undeletable
    requires forall k :: 0 <= k < |removed| ==> removed[k] == folders[k].path && removed[k] !in undeletable
    ensures var r := removed + [victim];
      forall k :: 0 <= k < |r| ==> r[k] == folders[k].path && r[k] !in undeletable
  {
    var r := removed + [victim];
    forall k | 0 <= k < |r| ensures r[k] == folders[k].path && r[k] !in undeletable {
      if k < |removed| {
        assert r[k] == removed[k];
      }
    }
  }

  /** The paths deleted by a pass that stopped after `removed` are those of a prefix of the selection. */
  lemma RemovedPaths(dir: string, before: seq<Entry>, removed: seq<string>)
    requires |removed| <= |Victims(dir, before)|
    requires forall k :: 0 <= k < |removed| ==> removed[k] == Victims(dir, before)[k].path
    ensures SetOf(removed) == PathSet(Victims(dir, before)[..|removed|])
  {
    var fs := Victims(dir, before)[..|removed|];
    forall p ensures p in SetOf(removed) <==> p in PathSet(fs) {
      if p in SetOf(removed) {
        var k :| 0 <= k < |removed| && removed[k] == p;
        assert fs[k] in fs;
      }
      if p in PathSet(fs) {
        var f :| f in fs && f.path == p;
        var k :| 0 <= k < |fs| && fs[k] == f;
        assert removed[k] == p;
      }
    }
  }

  /**
   * What a cleanup pass that deleted the `n` oldest of its selected folders
   * leaves behind: a well-formed listing short of exactly `n` directories,
   * with every plain file still in place; a root below the ceiling is left
   * as it was, and a completed pass leaves `MaxGenerations - 1` folders.
   */
  lemma CleanupEffect(dir: string, before: seq<Entry>, n: nat)
    requires WellFormed(before)
    requires n <= |Victims(dir, before)|
    ensures var after := Prune(dir, before, PathSet(Victims(dir, before)[..n]));
      && WellFormed(after)
      && |Dirs(after)| + n == |Dirs(before)|
      && (forall e :: e in before && !e.isDir ==> e in after)
      && (|Dirs(before)| < MaxGenerations ==> after == before)
      && (|Dirs(before)| >= MaxGenerations && n == |Victims(dir, before)| ==>
            |Dirs(after)| == MaxGenerations - 1)
  {
    var gone := PathSet(Victims(dir, before)[..n]);
    VictimPrefix(dir, before, n);
    PruneCount(dir, before, Victims(dir, before)[..n]);
    PrunePlainFiles(dir, before, gone);
    PruneWellFormed(dir, before, gone);
    RetentionCount(dir, before);
    if |Dirs(before)| < MaxGenerations {
      assert gone == {};
      PruneAbsent(dir, before, {});
    }
  }

  /** The oldest `n` selected folders have distinct paths, each that of a directory of the root. */
  lemma VictimPrefix(dir: string, before: seq<Entry>, n: nat)
    requires WellFormed(before)
    requires n <= |Victims(dir, before)|
    ensures DistinctPaths(Victims(dir, before)[..n])
    ensures PathSet(Victims(dir, before)[..n]) <= DirPaths(dir, before)
  {
    var victims := Victims(dir, before);
    VictimsDistinct(dir, before);
    DistinctPrefix(victims, n);
    VictimsAreDirs(dir, before);
    forall p | p in PathSet(victims[..n]) ensures p in DirPaths(dir, before) {
      var f :| f in victims[..n] && f.path == p;
      assert f in victims;
    }
  }

  /** The selected folders of a well-formed listing have distinct paths. */
  lemma VictimsDistinct(dir: string, before: seq<Entry>)
    requires WellFormed(before)
    ensures DistinctPaths(Victims(dir, before))
  {
    var sorted := SortByCtime(Folders(dir, before));
    FoldersOfListing(dir, before);
    SortByCtimeDistinct(Folders(dir, before));
    DistinctPrefix(sorted, NumToDelete(|sorted|));
  }

  /** A cleanup pass that deleted everything it selected leaves room for one more job folder. */
  lemma CleanupLeavesRoom(dir: string, before: seq<Entry>, removed: seq<string>)
    requires WellFormed(before)
    requires |removed| == |Victims(dir, before)|
    requires forall k :: 0 <= k < |removed| ==> removed[k] == Victims(dir, before)[k].path
    ensures |Dirs(Prune(dir, before, SetOf(removed)))| < MaxGenerations
  {
    RemovedPaths(dir, before, removed);
    CleanupEffect(dir, before, |removed|);
    assert Victims(dir, before)[..|removed|] == Victims(dir, before);
  }

  /**
   * The paths a cleanup pass deletes from its selection `victims`: oldest
   * first, up to the first folder `rmtree` fails on.
   */
  function Deleted(victims: seq<Folder>, undeletable: set<string>): (removed: seq<string>)
    ensures |removed| <= |victims|
  {
    if victims == [] || victims[0].path in undeletable then []
    else [victims[0].path] + Deleted(victims[1..], undeletable)
  }

  /**
   * `Deleted` is the longest prefix of the selection's paths that avoids the
   * undeletable ones, and no other sequence is.
   */
  lemma DeletedIsLongestPrefix(victims: seq<Folder>, undeletable: set<string>, removed: seq<string>)
    ensures removed == Deleted(victims, undeletable) <==>
      && |removed| <= |victims|
      && (forall k :: 0 <= k < |removed| ==> removed[k] == victims[k].path && removed[k] !in undeletable)
      && (|removed| < |victims| ==> victims[|removed|].path in undeletable)
  {
    DeletedStopsAtFailure(victims, undeletable);
    if && |removed| <= |victims|
       && (forall k :: 0 <= k < |removed| ==> removed[k] == victims[k].path && removed[k] !in undeletable)
       && (|removed| < |victims| ==> victims[|removed|].path in undeletable)
    {
      DeletedUnique(victims, undeletable, removed);
    }
  }

  /** `Deleted` deletes selected folders in order and stops only at an undeletable one. */
  lemma {:induction false} DeletedStopsAtFailure(victims: seq<Folder>, undeletable: set<string>)
    ensures var removed := Deleted(victims, undeletable);
      && (forall k :: 0 <= k < |removed| ==> removed[k] == victims[k].path && removed[k] !in undeletable)
      && (|removed| < |victims| ==> victims[|removed|].path in undeletable)
    decreases |victims|
  {
    if victims != [] && victims[0].path !in undeletable {
      var tail := victims[1..];
      DeletedStopsAtFailure(tail, undeletable);
      var removed := Deleted(victims, undeletable);
      assert removed == [victims[0].path] + Deleted(tail, undeletable);
      forall k | 0 <= k < |removed| ensures removed[k] == victims[k].path && removed[k] !in undeletable {
        if k > 0 {
          assert removed[k] == Deleted(tail, undeletable)[k - 1] && victims[k] == tail[k - 1];
        }
      }
    }
  }

  /** A pass's deleted paths are fixed by its selection and the folders it cannot delete. */
  lemma {:induction false} DeletedUnique(victims: seq<Folder>, undeletable: set<string>, removed: seq<string>)
    requires |removed| <= |victims|
    requires forall k :: 0 <= k < |removed| ==> removed[k] == victims[k].path && removed[k] !in undeletable
    requires |removed| < |victims| ==> victims[|removed|].path in undeletable
    ensures removed == Deleted(victims, undeletable)
    decreases |victims|
  {
    if removed == [] {
      if victims != [] {
        assert victims[0].path in undeletable;
      }
    } else {
      assert removed[0] == victims[0].path && victims[0].path !in undeletable;
      var tail, rest := victims[1..], removed[1..];
      forall k | 0 <= k < |rest| ensures rest[k] == tail[k].path && rest[k] !in undeletable {
        assert rest[k] == removed[k + 1] && tail[k] == victims[k + 1];
      }
      if |rest| < |tail| {
        assert tail[|rest|] == victims[|removed|];
      }
      DeletedUnique(tail, undeletable, rest);
      assert removed == [removed[0]] + rest;
    }
  }

  /**
   * The output root after `run_sharp_generation(input)`: untouched for a
   * missing input; otherwise pruned by the cleanup pass, then holding the
   * job folder.
   */
  function ListingAfter(dir: string, listing: seq<Entry>, input: Option<string>, undeletable: set<string>, now: int): seq<Entry> {
    if !Provided(input) then listing
    else
      var removed := Deleted(Victims(dir, listing), undeletable);
      WithJobDir(Prune(dir, listing, SetOf(removed)), BaseName(input.value), now)
  }

  /**
   * A job keeps the listing well formed and, when no deletion fails, leaves
   * at most `MAX_GENERATIONS` folders.
   */
  lemma ListingAfterKeeps(dir: string, listing: seq<Entry>, input: Option<string>, undeletable: set<string>, now: int)
    requires WellFormed(listing)
    ensures WellFormed(ListingAfter(dir, listing, input, undeletable, now))
    ensures undeletable == {} && (Provided(input) || |Dirs(listing)| <= MaxGenerations) ==>
      |Dirs(ListingAfter(dir, listing, input, undeletable, now))| <= MaxGenerations
  {
    if Provided(input) {
      var removed := Deleted(Victims(dir, listing), undeletable);
      PruneWellFormed(dir, listing, SetOf(removed));
      WithJobDirKeeps(Prune(dir, listing, SetOf(removed)), BaseName(input.value), now);
      if undeletable == {} {
        DeletedStopsAtFailure(Victims(dir, listing), undeletable);
        CleanupLeavesRoom(dir, listing, removed);
      }
    }
  }

  /**
   * The `try` block of `run_sharp_generation` once the command is built:
   * `tool` is how the subprocess ends and `walk` what `os.walk(job_dir)`
   * yields after it.
   */
  method ExecuteJob(tool: ToolRun, walk: seq<WalkStep>, baseName: string) returns (outcome: Outcome)
    ensures outcome == JobOutcome(tool, Search(walk), baseName)
  {
    match tool
    case LaunchFailed(reason) =>
      outcome := SystemError(reason);
    case Exited(code, stderr) =>
      if code != 0 {
        outcome := ToolFailed(stderr);
      } else {
        var foundPly := FindPly(walk);
        if Provided(foundPly) {
          outcome := Generated(foundPly.value, baseName);
        } else {
          outcome := NoOutput(baseName);
        }
      }
  }

  /** The output root: its path and what is in it. */
  class OutputRoot {
    /** `OUTPUT_DIR` */
    const dir: string
    /** `os.listdir(OUTPUT_DIR)`, with `os.path.isdir` and `os.path.getctime` of every name */
    var listing: seq<Entry>

    ghost predicate Valid()
      reads this
    {
      WellFormed(listing)
    }

    constructor(dir: string, listing: seq<Entry>)
      requires WellFormed(listing)
      ensures Valid() && this.dir == dir && this.listing == listing
    {
      this.dir := dir;
      this.listing := listing;
    }

    /**
     * `cleanup_old_generations`: deletes the selected folders oldest first.
     * `shutil.rmtree` raises on the paths in `undeletable`; the first such
     * failure ends the pass, and the exception goes no further.
     */
    method CleanupOldGenerations(undeletable: set<string>) returns (removed: seq<string>, failed: bool)
      requires Valid()
      modifies this
      ensures Valid()
      ensures var victims := Victims(dir, old(listing));
        && |removed| <= |victims|
        && (forall k :: 0 <= k < |removed| ==> removed[k] == victims[k].path && removed[k] !in undeletable)
        && (failed <==> |removed| < |victims|)
        && (failed ==> victims[|removed|].path in undeletable)
      ensures listing == Prune(dir, old(listing), SetOf(removed))
      ensures removed == Deleted(Victims(dir, old(listing)), undeletable)
    {
      ghost var before := listing;
      var folders := SortByCtime(Folders(dir, listing));
      var numToDelete := NumToDelete(|folders|);
      removed, failed := [], false;
      assert SetOf(removed) == {};
      PruneAbsent(dir, before, {});
      var i := 0;
      while i < numToDelete && !failed
        invariant i <= numToDelete <= |folders|
        invariant |removed| == i
        invariant forall k :: 0 <= k < i ==> removed[k] == folders[k].path && removed[k] !in undeletable
        invariant failed ==> i < numToDelete && folders[i].path in undeletable
        invariant listing == Prune(dir, before, SetOf(removed))
        decreases numToDelete - i, !failed
      {
        var victim := folders[i].path;
        if victim in undeletable {
          failed := true;
        } else {
          CleanupStep(dir, before, removed, listing, victim);
          listing := Prune(dir, listing, {victim});
          DeletedInOrder(removed, folders, undeletable, victim);
          removed := removed + [victim];
          i := i + 1;
        }
      }
      assert Victims(dir, before) == folders[..numToDelete];
      PruneWellFormed(dir, before, SetOf(removed));
      DeletedUnique(Victims(dir, before), undeletable, removed);
    }

    /**
     * `run_sharp_generation`: the job for one input. `now` is the creation
     * time a new job folder gets; `tool` is how the subprocess ends and
     * `walk` what `os.walk(job_dir)` yields after it. `command` is the
     * argument vector launched (empty when nothing is launched).
     */
    method RunSharpGeneration(inputImagePath: Option<string>, undeletable: set<string>, now: int,
                              tool: ToolRun, walk: seq<WalkStep>)
      returns (result: JobResult, command: seq<string>, removed: seq<string>)
      requires Valid()
      modifies this
      ensures Valid()
      ensures result == Render(Classify(inputImagePath, tool, Search(walk)))
      ensures !Provided(inputImagePath) ==> listing == old(listing) && command == [] && removed == []
      ensures Provided(inputImagePath) ==> var victims := Victims(dir, old(listing));
        && |removed| <= |victims|
        && (forall k :: 0 <= k < |removed| ==> removed[k] == victims[k].path && removed[k] !in undeletable)
        && (|removed| < |victims| ==> victims[|removed|].path in undeletable)
      ensures Provided(inputImagePath) ==>
        listing == WithJobDir(Prune(dir, old(listing), SetOf(removed)), BaseName(inputImagePath.value), now)
      ensures Provided(inputImagePath) ==> removed == Deleted(Victims(dir, old(listing)), undeletable)
      ensures listing == ListingAfter(dir, old(listing), inputImagePath, undeletable, now)
      ensures Provided(inputImagePath) ==>
        command == ["sharp", "predict", "-i", inputImagePath.value, "-o", JobDir(dir, inputImagePath.value)]
      ensures Provided(inputImagePath) && ValidName(BaseName(inputImagePath.value)) ==>
        BaseName(inputImagePath.value) in Names(listing)
      ensures Provided(inputImagePath) && undeletable == {} ==> |Dirs(listing)| <= MaxGenerations
    {
      if !Provided(inputImagePath) {
        assert Classify(inputImagePath, tool, Search(walk)) == MissingInput;
        return Render(MissingInput), [], [];
      }
      var inputPath := inputImagePath.value;

      ghost var before := listing;
      var failed;
      removed, failed := CleanupOldGenerations(undeletable);
      if undeletable == {} {
        CleanupLeavesRoom(dir, before, removed);
      }

      var filename := Basename(inputPath);
      var baseName := SplitExt(filename).0;
      assert baseName == BaseName(inputPath);
      var jobDir := Join(dir, baseName);
      WithJobDirKeeps(listing, baseName, now);
      listing := WithJobDir(listing, baseName, now);

      command := ["sharp", "predict", "-i", inputPath, "-o", jobDir];

      var outcome := ExecuteJob(tool, walk, baseName);
      result := Render(outcome);
    }
  }
}
