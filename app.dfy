/**
 * The web front end's logic: the generation loop over the uploaded images,
 * the status log, the archive of several models, the model selector and the
 * viewer page that previews the selected model.
 *
 * A Gradio component update `gr.update(...)` sets only the properties it
 * names; `Update` holds one optional value per property the front end sets.
 */
module App {
  import opened Wrappers
  import opened Text
  import opened PosixPath
  import opened Retention
  import opened SharpRunner

  /** One property of a component update: left as it is, or given a new value. */
  datatype Prop<T> = Unset | Given(v: T)

  /** A selector choice: the caption shown and the value it stands for. */
  datatype Choice = Choice(caption: string, value: string)

  /** `gr.update(value=..., visible=..., choices=...)` */
  datatype Update = Update(value: Prop<Option<string>>, visible: Prop<bool>, choices: Prop<seq<Choice>>)

  /** The content of the preview pane. */
  datatype Html =
    | Placeholder          // the black "Select a model to preview" box
    | Viewer(src: string)  // the viewer page in an iframe with this `src`

  /** The five outputs of a generation: log, archive, selector, preview, download. */
  datatype Outputs = Outputs(log: string, zip: Update, selector: Update, preview: Option<Html>, download: Update)

  /** One entry written to the archive: the file read and the name it is stored under. */
  datatype ZipEntry = ZipEntry(source: string, arcname: string)

  /** An uploaded file as the batch input hands it over; `name` is its temporary path. */
  datatype FileObj = FileObj(name: string)

  /** What the environment does during the runner's job for one image. */
  datatype Job = Job(undeletable: set<string>, now: int, tool: ToolRun, walk: seq<WalkStep>)

  const UploadPrompt: string := "Please upload an image."

  // ---------------------------------------------------------------------------
  // Viewer

  /**
   * The iframe's `src`: the viewer page behind the file server, with the
   * model's web path as its `url` parameter; forward slashes only.
   */
  function ViewerSrc(cwd: string, plyPath: string): (src: string)
    ensures '\\' !in src
    ensures StartsWith(src, "/file=")
    ensures EndsWith(src, "?url=/file=" + ReplaceBackslashes(plyPath))
  {
    var viewer := ReplaceBackslashes(Join(AssetsDir(cwd), "viewer.html"));
    RoutesHaveNoBackslash();
    FourParts("/file=", viewer, "?url=/file=", ReplaceBackslashes(plyPath));
    "/file=" + viewer + "?url=/file=" + ReplaceBackslashes(plyPath)
  }

  /**
   * `load_selected_model`: the preview and the download for the selected
   * model; the placeholder and no download when nothing is selected.
   */
  function LoadSelectedModel(cwd: string, plyPath: Option<string>): (r: (Html, Option<string>))
    ensures !Provided(plyPath) ==> r == (Placeholder, None)
    ensures Provided(plyPath) ==>
      && r.1 == plyPath
      && r.0 == Viewer(ViewerSrc(cwd, plyPath.value))
      && '\\' !in r.0.src
      && StartsWith(r.0.src, "/file=")
      && EndsWith(r.0.src, "?url=/file=" + ReplaceBackslashes(plyPath.value))
  {
    if !Provided(plyPath) then (Placeholder, None)
    else (Viewer(ViewerSrc(cwd, plyPath.value)), plyPath)
  }

  lemma RoutesHaveNoBackslash()
    ensures '\\' !in "/file=" && '\\' !in "?url=/file="
  {
  }

  /** A string made of four parts starts with the first and ends with the last two. */
  lemma FourParts(a: string, b: string, c: string, d: string)
    ensures StartsWith(a + b + c + d, a)
    ensures EndsWith(a + b + c + d, c + d)
    ensures '\\' !in a && '\\' !in b && '\\' !in c && '\\' !in d ==> '\\' !in a + b + c + d
  {
    var s := a + b + c + d;
    assert s == (a + b) + (c + d);
    assert s[..|a|] == a;
    assert s[|a + b|..] == c + d;
  }

  /**
   * The viewer shows the model that was selected: two models whose paths
   * hold no backslash get two different viewer addresses.
   */
  lemma ViewerShowsSelection(cwd: string, p1: string, p2: string)
    requires '\\' !in p1 && '\\' !in p2
    requires ViewerSrc(cwd, p1) == ViewerSrc(cwd, p2)
    ensures p1 == p2
  {
    var prefix := "/file=" + ReplaceBackslashes(Join(AssetsDir(cwd), "viewer.html")) + "?url=/file=";
    ReplaceBackslashesFixes(p1);
    ReplaceBackslashesFixes(p2);
    assert ViewerSrc(cwd, p1) == prefix + p1;
    assert ViewerSrc(cwd, p2) == prefix + p2;
    assert p1 == (prefix + p1)[|prefix|..];
    assert p2 == (prefix + p2)[|prefix|..];
  }

  // ---------------------------------------------------------------------------
  // Archive

  /** The archive's file name in the output root. */
  const ArchiveName: string := "batch_results.zip"

  /** `os.path.join(OUTPUT_DIR, "batch_results.zip")` */
  function ZipPath(cwd: string): (z: string)
    ensures StartsWith(z, OutputDir(cwd)) && EndsWith(z, ArchiveName)
  {
    Join(OutputDir(cwd), ArchiveName)
  }

  /** The entries of an archive of `files`: one per file, in order. */
  function ZipEntries(files: seq<string>): (entries: seq<ZipEntry>)
    ensures |entries| == |files|
  {
    seq(|files|, i requires 0 <= i < |files| => ZipEntry(files[i], Basename(files[i])))
  }

  /**
   * The archive is flat and keeps every file's own name: each entry is
   * stored under the last component of the path it was read from.
   */
  lemma ZipEntriesFlat(files: seq<string>)
    ensures forall i :: 0 <= i < |files| ==>
      && ZipEntries(files)[i].source == files[i]
      && '/' !in ZipEntries(files)[i].arcname
      && EndsWith(files[i], ZipEntries(files)[i].arcname)
      && (|files[i]| == |ZipEntries(files)[i].arcname| || files[i][|files[i]| - |ZipEntries(files)[i].arcname| - 1] == '/')
  {
  }

  /**
   * The output root once the archive has been written into it: a new plain
   * file unless the name is already listed, in which case the file is
   * overwritten and the listing stays as it was.
   */
  function WithArchive(listing: seq<Entry>, now: int): (r: seq<Entry>)
    ensures ArchiveName in Names(r)
    ensures forall e :: e in listing ==> e in r
    ensures forall e :: e in r ==> e in listing || e == Entry(ArchiveName, false, now)
  {
    if ArchiveName in Names(listing) then listing
    else
      var r := listing + [Entry(ArchiveName, false, now)];
      assert Entry(ArchiveName, false, now) in r;
      r
  }

  /** Writing the archive keeps the listing well formed and its directories as they were. */
  lemma WithArchiveKeeps(listing: seq<Entry>, now: int)
    requires WellFormed(listing)
    ensures WellFormed(WithArchive(listing, now))
    ensures Dirs(WithArchive(listing, now)) == Dirs(listing)
  {
    if ArchiveName !in Names(listing) {
      var x := Entry(ArchiveName, false, now);
      var l := listing + [x];
      ArchiveNameValid();
      forall i, j | 0 <= i < j < |l| ensures l[i].name != l[j].name {
        if j == |listing| {
          assert l[i] in listing;
        }
      }
      DirsAppend(listing, x);
    }
  }

  lemma ArchiveNameValid()
    ensures ValidName(ArchiveName)
  {
  }

  /**
   * `create_zip_of_files`: nothing for no files; otherwise every file is
   * written, in order, under its own basename into the archive at
   * `ZipPath(cwd)`, whose path is returned.
   */
  method CreateZipOfFiles(cwd: string, filePaths: seq<string>) returns (zipPath: Option<string>, entries: seq<ZipEntry>)
    ensures zipPath.None? <==> filePaths == []
    ensures zipPath.Some? ==> zipPath.value == ZipPath(cwd)
    ensures entries == ZipEntries(filePaths)
  {
    if filePaths == [] {
      return None, [];
    }
    var path := ZipPath(cwd);
    ghost var all := ZipEntries(filePaths);
    entries := [];
    var i := 0;
    while i < |filePaths|
      invariant i <= |filePaths|
      invariant entries == all[..i]
    {
      var file := filePaths[i];
      assert all[..i + 1] == all[..i] + [ZipEntry(file, Basename(file))];
      entries := entries + [ZipEntry(file, Basename(file))];
      i := i + 1;
    }
    assert all[..i] == all;
    zipPath := Some(path);
  }

  // ---------------------------------------------------------------------------
  // Generation

  /** What the runner returns for one image, whatever the output root held before. */
  function ResultOf(path: string, job: Job): JobResult {
    Render(Classify(Some(path), job.tool, Search(job.walk)))
  }

  /** The runner's results for the images, one per image. */
  function Results(paths: seq<string>, jobs: seq<Job>): (rs: seq<JobResult>)
    requires |jobs| == |paths|
    ensures |rs| == |paths|
  {
    seq(|paths|, i requires 0 <= i < |paths| => ResultOf(paths[i], jobs[i]))
  }

  /** Python truthiness of the runner's model path. */
  predicate Succeeded(r: JobResult) {
    Provided(r.model)
  }

  /** The log line of one image. */
  function LogLine(path: string, r: JobResult): (line: string)
    ensures |line| > |Basename(path)| && StartsWith(line, Basename(path)) && line[|Basename(path)|] == ':'
  {
    var b := Basename(path);
    if Succeeded(r) then
      ColonAfter(b, ": Success");
      b + ": Success"
    else
      ColonAfter(b, ": Failed (" + r.message + ")");
      b + (": Failed (" + r.message + ")")
  }


  /** A name followed by text that opens with a colon. */
  lemma ColonAfter(name: string, rest: string)
    requires |rest| > 0 && rest[0] == ':'
    ensures |name + rest| > |name| && StartsWith(name + rest, name) && (name + rest)[|name|] == ':'
  {
    assert (name + rest)[..|name|] == name;
  }

  /** The log lines of the images, one per image. */
  function LogLines(paths: seq<string>, results: seq<JobResult>): (lines: seq<string>)
    requires |results| == |paths|
    ensures |lines| == |paths|
  {
    seq(|paths|, i requires 0 <= i < |paths| => LogLine(paths[i], results[i]))
  }

  /** The models the runner produced, in image order. */
  function Produced(results: seq<JobResult>): (gen: seq<string>)
    ensures |gen| <= |results|
  {
    if results == [] then []
    else
      var last := results[|results| - 1];
      Produced(results[..|results| - 1]) + (if Succeeded(last) then [last.model.value] else [])
  }

  /** The selector's choices: each model captioned with its basename. */
  function Choices(gen: seq<string>): (cs: seq<Choice>)
    ensures |cs| == |gen|
  {
    seq(|gen|, i requires 0 <= i < |gen| => Choice(Basename(gen[i]), gen[i]))
  }

  /** The outputs when there is no model to show: the log alone, everything else hidden or cleared. */
  function NothingToShow(log: string): Outputs {
    Outputs(log,
            Update(Unset, Given(false), Unset),
            Update(Given(None), Unset, Given([])),
            None,
            Update(Unset, Given(false), Unset))
  }

  /** What `core_generation_logic` shows for the images given the runner's results. */
  function Report(cwd: string, paths: seq<string>, results: seq<JobResult>): (out: Outputs)
    requires |results| == |paths|
    ensures out.log == UploadPrompt <==> paths == []
    ensures paths != [] ==> out.log == JoinLines(LogLines(paths, results))
    ensures out.preview.Some? <==> Produced(results) != []
    ensures out.zip.visible == Given(|Produced(results)| > 1)
  {
    if paths == [] then NothingToShow(UploadPrompt)
    else
      LogIsNotPrompt(paths, results);
      Show(cwd, JoinLines(LogLines(paths, results)), Produced(results))
  }

  /** The outputs for a log and the models produced: the archive for several, the first one selected. */
  function Show(cwd: string, log: string, gen: seq<string>): (out: Outputs)
    ensures out.log == log
    ensures out.preview.Some? <==> gen != []
    ensures out.zip.visible == Given(|gen| > 1)
    ensures gen != [] && gen[0] != "" ==> out.download == Update(Given(Some(gen[0])), Given(true), Unset)
  {
    if gen == [] then NothingToShow(log)
    else
      var zip := if |gen| > 1 then Update(Given(Some(ZipPath(cwd))), Given(true), Unset)
                 else Update(Given(None), Given(false), Unset);
      var (html, download) := LoadSelectedModel(cwd, Some(gen[0]));
      Outputs(log, zip,
              Update(Given(Some(gen[0])), Unset, Given(Choices(gen))),
              Some(html),
              Update(Given(download), Given(true), Unset))
  }

  /** The archive written for the produced models: only when there are several. */
  function ArchiveOf(gen: seq<string>): seq<ZipEntry> {
    if |gen| > 1 then ZipEntries(gen) else []
  }

  /**
   * The output root after the generation loop: each image's run of
   * `run_sharp_generation`, in image order, starting from `listing`.
   */
  function BatchListing(dir: string, listing: seq<Entry>, paths: seq<string>, jobs: seq<Job>): seq<Entry>
    requires |jobs| == |paths|
    decreases |paths|
  {
    if paths == [] then listing
    else
      var n := |paths| - 1;
      ListingAfter(dir, BatchListing(dir, listing, paths[..n], jobs[..n]), Some(paths[n]), jobs[n].undeletable, jobs[n].now)
  }

  /** The output root once the whole batch has run, with the archive written when there is one. */
  function FinalListing(dir: string, listing: seq<Entry>, paths: seq<string>, jobs: seq<Job>): seq<Entry>
    requires |jobs| == |paths|
  {
    var batch := BatchListing(dir, listing, paths, jobs);
    if paths != [] && |Produced(Results(paths, jobs))| > 1 then WithArchive(batch, jobs[|jobs| - 1].now) else batch
  }

  /**
   * The batch keeps the listing well formed and, when no deletion fails,
   * a root at most at the ceiling stays there.
   */
  lemma {:induction false} BatchListingKeeps(dir: string, listing: seq<Entry>, paths: seq<string>, jobs: seq<Job>)
    requires |jobs| == |paths| && WellFormed(listing)
    ensures WellFormed(BatchListing(dir, listing, paths, jobs))
    ensures |Dirs(listing)| <= MaxGenerations && (forall j :: 0 <= j < |jobs| ==> jobs[j].undeletable == {}) ==>
      |Dirs(BatchListing(dir, listing, paths, jobs))| <= MaxGenerations
    decreases |paths|
  {
    if paths != [] {
      var n := |paths| - 1;
      var init := jobs[..n];
      BatchListingKeeps(dir, listing, paths[..n], init);
      ListingAfterKeeps(dir, BatchListing(dir, listing, paths[..n], init), Some(paths[n]), jobs[n].undeletable, jobs[n].now);
      assert forall j :: 0 <= j < n ==> init[j] == jobs[j];
    }
  }

  /**
   * A batch of one image has one result and at most one model, so no
   * archive, and leaves the listing of that one job.
   */
  lemma SingleImage(cwd: string, dir: string, listing: seq<Entry>, path: string, job: Job)
    ensures Results([path], [job]) == [ResultOf(path, job)]
    ensures ArchiveOf(Produced(Results([path], [job]))) == []
    ensures Report(cwd, [path], Results([path], [job])).zip.visible != Given(true)
    ensures FinalListing(dir, listing, [path], [job]) == ListingAfter(dir, listing, Some(path), job.undeletable, job.now)
  {
    var paths, jobs := [path], [job];
    assert paths[..0] == [] && jobs[..0] == [];
    assert BatchListing(dir, listing, paths[..0], jobs[..0]) == listing;
    assert |Results(paths, jobs)| == 1;
  }

  lemma BatchListingStep(dir: string, listing: seq<Entry>, paths: seq<string>, jobs: seq<Job>, i: nat)
    requires |jobs| == |paths| && i < |paths|
    ensures BatchListing(dir, listing, paths[..i + 1], jobs[..i + 1]) ==
      ListingAfter(dir, BatchListing(dir, listing, paths[..i], jobs[..i]), Some(paths[i]), jobs[i].undeletable, jobs[i].now)
  {
    assert paths[..i + 1][..i] == paths[..i];
    assert jobs[..i + 1][..i] == jobs[..i];
  }

  lemma ProducedStep(results: seq<JobResult>, i: nat)
    requires i < |results|
    ensures Produced(results[..i + 1]) ==
      Produced(results[..i]) + (if Succeeded(results[i]) then [results[i].model.value] else [])
  {
    assert results[..i + 1][..i] == results[..i];
  }

  lemma LogLinesStep(paths: seq<string>, results: seq<JobResult>, i: nat)
    requires |results| == |paths| && i < |paths|
    ensures LogLines(paths[..i + 1], results[..i + 1]) ==
      LogLines(paths[..i], results[..i]) + [LogLine(paths[i], results[i])]
  {
    var a, b := LogLines(paths[..i + 1], results[..i + 1]), LogLines(paths[..i], results[..i]) + [LogLine(paths[i], results[i])];
    forall k | 0 <= k < |a| ensures a[k] == b[k] {
      if k < i {
        assert a[k] == LogLine(paths[k], results[k]);
      }
    }
  }

  /** One more image: its model, if any, is appended to the models and its log line to the log. */
  lemma GenerationStep(paths: seq<string>, results: seq<JobResult>, i: nat, gen: seq<string>, log: seq<string>)
    requires |results| == |paths| && i < |paths|
    requires gen == Produced(results[..i]) && log == LogLines(paths[..i], results[..i])
    ensures Provided(results[i].model) ==>
      && gen + [results[i].model.value] == Produced(results[..i + 1])
      && log + [Basename(paths[i]) + ": Success"] == LogLines(paths[..i + 1], results[..i + 1])
    ensures !Provided(results[i].model) ==>
      && gen == Produced(results[..i + 1])
      && log + [Basename(paths[i]) + (": Failed (" + results[i].message + ")")] == LogLines(paths[..i + 1], results[..i + 1])
  {
    ProducedStep(results, i);
    LogLinesStep(paths, results, i);
  }

  /**
   * The end of `core_generation_logic`, once the log is joined: nothing to
   * show without models; otherwise the archive of several models and the
   * first model selected, previewed and offered for download.
   */
  method ShowModels(cwd: string, fullLog: string, generatedFiles: seq<string>) returns (out: Outputs, archive: seq<ZipEntry>)
    ensures out == Show(cwd, fullLog, generatedFiles)
    ensures archive == ArchiveOf(generatedFiles)
  {
    if generatedFiles == [] {
      return NothingToShow(fullLog), [];
    }
    var zipUpdate;
    archive := [];
    if |generatedFiles| > 1 {
      var zipPath;
      zipPath, archive := CreateZipOfFiles(cwd, generatedFiles);
      zipUpdate := Update(Given(zipPath), Given(true), Unset);
    } else {
      zipUpdate := Update(Given(None), Given(false), Unset);
    }
    var dropdownChoices := Choices(generatedFiles);
    var firstModel := generatedFiles[0];
    var (firstViewerHtml, firstDownloadPath) := LoadSelectedModel(cwd, Some(firstModel));
    out := Outputs(fullLog, zipUpdate,
                   Update(Given(Some(firstModel)), Unset, Given(dropdownChoices)),
                   Some(firstViewerHtml),
                   Update(Given(firstDownloadPath), Given(true), Unset));
  }

  /**
   * The call `sharp_runner.run_sharp_generation(path)` of the generation
   * loop, in the environment `job`: the result depends on the image and the
   * job only, whatever the output root held, and a job without deletion
   * failures leaves the root at most at the ceiling.
   */
  method RunJob(root: OutputRoot, path: string, job: Job) returns (r: JobResult)
    requires root.Valid()
    modifies root
    ensures root.Valid()
    ensures r == ResultOf(path, job)
    ensures root.listing == ListingAfter(root.dir, old(root.listing), Some(path), job.undeletable, job.now)
    ensures job.undeletable == {} && |Dirs(old(root.listing))| <= MaxGenerations ==> |Dirs(root.listing)| <= MaxGenerations
  {
    var command, removed;
    r, command, removed := root.RunSharpGeneration(Some(path), job.undeletable, job.now, job.tool, job.walk);
  }

  /**
   * One turn of the generation loop: the run for image `i` adds its model
   * and its log line, and extends the batch's listing by one job.
   */
  method RunNext(root: OutputRoot, imagePaths: seq<string>, jobs: seq<Job>, i: nat, ghost before: seq<Entry>,
                 generatedFiles: seq<string>, logMessages: seq<string>)
    returns (gen: seq<string>, log: seq<string>)
    requires root.Valid() && |jobs| == |imagePaths| && i < |imagePaths|
    requires root.listing == BatchListing(root.dir, before, imagePaths[..i], jobs[..i])
    requires generatedFiles == Produced(Results(imagePaths, jobs)[..i])
    requires logMessages == LogLines(imagePaths[..i], Results(imagePaths, jobs)[..i])
    modifies root
    ensures root.Valid()
    ensures gen == Produced(Results(imagePaths, jobs)[..i + 1])
    ensures log == LogLines(imagePaths[..i + 1], Results(imagePaths, jobs)[..i + 1])
    ensures root.listing == BatchListing(root.dir, before, imagePaths[..i + 1], jobs[..i + 1])
  {
    ghost var results := Results(imagePaths, jobs);
    BatchListingStep(root.dir, before, imagePaths, jobs, i);
    GenerationStep(imagePaths, results, i, generatedFiles, logMessages);
    var path := imagePaths[i];
    var r := RunJob(root, path, jobs[i]);
    assert r == results[i];
    if Provided(r.model) {
      gen := generatedFiles + [r.model.value];
      log := logMessages + [Basename(path) + ": Success"];
    } else {
      gen := generatedFiles;
      log := logMessages + [Basename(path) + (": Failed (" + r.message + ")")];
    }
  }

  /**
   * The loop of `core_generation_logic`: runs the runner on every image in
   * turn and collects the produced models and the log lines.
   */
  method RunImages(root: OutputRoot, imagePaths: seq<string>, jobs: seq<Job>)
    returns (generatedFiles: seq<string>, logMessages: seq<string>)
    requires root.Valid() && |jobs| == |imagePaths|
    modifies root
    ensures root.Valid()
    ensures generatedFiles == Produced(Results(imagePaths, jobs))
    ensures logMessages == LogLines(imagePaths, Results(imagePaths, jobs))
    ensures root.listing == BatchListing(root.dir, old(root.listing), imagePaths, jobs)
    ensures |Dirs(old(root.listing))| <= MaxGenerations && (forall j :: 0 <= j < |jobs| ==> jobs[j].undeletable == {}) ==>
      |Dirs(root.listing)| <= MaxGenerations
  {
    ghost var results := Results(imagePaths, jobs);
    ghost var before := root.listing;
    generatedFiles, logMessages := [], [];
    var i := 0;
    while i < |imagePaths|
      invariant i <= |imagePaths|
      invariant root.Valid()
      invariant generatedFiles == Produced(results[..i])
      invariant logMessages == LogLines(imagePaths[..i], results[..i])
      invariant root.listing == BatchListing(root.dir, before, imagePaths[..i], jobs[..i])
    {
      generatedFiles, logMessages := RunNext(root, imagePaths, jobs, i, before, generatedFiles, logMessages);
      i := i + 1;
    }
    assert imagePaths[..i] == imagePaths && results[..i] == results && jobs[..i] == jobs;
    BatchListingKeeps(root.dir, before, imagePaths, jobs);
  }

  /**
   * `core_generation_logic`: the upload prompt without images; otherwise
   * the runner's results for every image, the archive written into the
   * output root when there are several models, and the first one selected.
   */
  method CoreGenerationLogic(root: OutputRoot, cwd: string, imagePaths: seq<string>, jobs: seq<Job>)
    returns (out: Outputs, archive: seq<ZipEntry>)
    requires root.Valid() && root.dir == OutputDir(cwd) && |jobs| == |imagePaths|
    modifies root
    ensures root.Valid()
    ensures out == Report(cwd, imagePaths, Results(imagePaths, jobs))
    ensures archive == ArchiveOf(Produced(Results(imagePaths, jobs)))
    ensures imagePaths == [] ==> root.listing == old(root.listing)
    ensures root.listing == FinalListing(root.dir, old(root.listing), imagePaths, jobs)
    ensures archive != [] ==> ArchiveName in Names(root.listing)
    ensures |Dirs(old(root.listing))| <= MaxGenerations && (forall j :: 0 <= j < |jobs| ==> jobs[j].undeletable == {}) ==>
      |Dirs(root.listing)| <= MaxGenerations
  {
    if imagePaths == [] {
      return NothingToShow(UploadPrompt), [];
    }
    var generatedFiles, logMessages := RunImages(root, imagePaths, jobs);
    var fullLog := JoinLines(logMessages);
    out, archive := ShowModels(cwd, fullLog, generatedFiles);
    if |generatedFiles| > 1 {
      // `create_zip_of_files` writes the archive into the output root.
      var now := jobs[|jobs| - 1].now;
      WithArchiveKeeps(root.listing, now);
      root.listing := WithArchive(root.listing, now);
    }
  }

  // ---------------------------------------------------------------------------
  // Buttons

  /** `process_single`: the one uploaded image, or the upload prompt without one. */
  method ProcessSingle(root: OutputRoot, cwd: string, imagePath: Option<string>, job: Job)
    returns (out: Outputs, archive: seq<ZipEntry>)
    requires root.Valid() && root.dir == OutputDir(cwd)
    modifies root
    ensures root.Valid()
    ensures !Provided(imagePath) ==> out == NothingToShow(UploadPrompt) && root.listing == old(root.listing)
    ensures Provided(imagePath) ==> out == Report(cwd, [imagePath.value], [ResultOf(imagePath.value, job)])
    ensures root.listing == ListingAfter(root.dir, old(root.listing), imagePath, job.undeletable, job.now)
    ensures archive == [] && out.zip.visible != Given(true)
  {
    if !Provided(imagePath) {
      out, archive := CoreGenerationLogic(root, cwd, [], []);
      return;
    }
    SingleImage(cwd, root.dir, root.listing, imagePath.value, job);
    out, archive := CoreGenerationLogic(root, cwd, [imagePath.value], [job]);
  }

  /** `[f.name for f in file_objs]` */
  function FileNames(fileObjs: seq<FileObj>): (paths: seq<string>)
    ensures |paths| == |fileObjs|
    ensures forall i :: 0 <= i < |paths| ==> paths[i] == fileObjs[i].name
  {
    seq(|fileObjs|, i requires 0 <= i < |fileObjs| => fileObjs[i].name)
  }

  /** `process_batch`: every uploaded file in upload order, or the upload prompt without any. */
  method ProcessBatch(root: OutputRoot, cwd: string, fileObjs: Option<seq<FileObj>>, jobs: seq<Job>)
    returns (out: Outputs, archive: seq<ZipEntry>)
    requires root.Valid() && root.dir == OutputDir(cwd)
    requires fileObjs.Some? ==> |jobs| == |fileObjs.value|
    modifies root
    ensures root.Valid()
    ensures fileObjs.None? || fileObjs.value == [] ==>
      out == NothingToShow(UploadPrompt) && archive == [] && root.listing == old(root.listing)
    ensures fileObjs.Some? ==>
      var paths := FileNames(fileObjs.value);
      out == Report(cwd, paths, Results(paths, jobs)) &&
      archive == ArchiveOf(Produced(Results(paths, jobs))) &&
      root.listing == FinalListing(root.dir, old(root.listing), paths, jobs)
  {
    if fileObjs.None? || fileObjs.value == [] {
      out, archive := CoreGenerationLogic(root, cwd, [], []);
      return;
    }
    var paths := FileNames(fileObjs.value);
    out, archive := CoreGenerationLogic(root, cwd, paths, jobs);
  }

  // ---------------------------------------------------------------------------
  // Properties of the outputs

  /**
   * The archive is offered exactly when more than one image produced a
   * model, and is then written with one entry per produced model.
   */
  lemma ArchiveNeedsSeveral(cwd: string, paths: seq<string>, results: seq<JobResult>)
    requires |results| == |paths|
    ensures var out := Report(cwd, paths, results);
      && (out.zip.visible == Given(true) <==> |Successes(results)| > 1)
      && (out.zip.visible == Given(true) ==> out.zip.value == Given(Some(ZipPath(cwd))))
      && (ArchiveOf(Produced(results)) != [] <==> |Successes(results)| > 1)
      && (ArchiveOf(Produced(results)) != [] ==> |ArchiveOf(Produced(results))| == |Successes(results)|)
  {
    ProducedCount(results);
    if paths == [] {
      assert results == [];
    }
  }

  /** Without a produced model the archive, the viewer and the download are hidden and the selector emptied. */
  lemma NoModelShowsNothing(cwd: string, paths: seq<string>, results: seq<JobResult>)
    requires |results| == |paths|
    requires Produced(results) == []
    ensures var out := Report(cwd, paths, results);
      && out.zip.visible == Given(false)
      && out.selector == Update(Given(None), Unset, Given([]))
      && out.preview == None
      && out.download.visible == Given(false)
      && (paths == [] <==> out.log == UploadPrompt)
  {
    if paths != [] {
      var lines := LogLines(paths, results);
      assert |lines| >= 1;
      LogIsNotPrompt(paths, results);
    }
  }

  /** The log of at least one image is never the upload prompt: it starts with a file's basename and a colon. */
  lemma LogIsNotPrompt(paths: seq<string>, results: seq<JobResult>)
    requires |results| == |paths| && paths != []
    ensures JoinLines(LogLines(paths, results)) != UploadPrompt
  {
    var lines := LogLines(paths, results);
    var line := lines[0];
    assert line == LogLine(paths[0], results[0]);
    SplitLinesHead(lines);
    LineHasColon(paths[0], results[0]);
    PromptHasNoColon();
    var k :| 0 <= k < |line| && line[k] == ':';
    assert JoinLines(lines)[k] == ':';
  }

  lemma PromptHasNoColon()
    ensures ':' !in UploadPrompt
  {
  }

  /** Every log line has a colon after the basename. */
  lemma LineHasColon(path: string, r: JobResult)
    ensures exists k :: 0 <= k < |LogLine(path, r)| && LogLine(path, r)[k] == ':'
  {
    var b := Basename(path);
    var line := LogLine(path, r);
    assert line[|b|] == ':';
  }

  /** The joined text starts with the first line. */
  lemma SplitLinesHead(lines: seq<string>)
    requires lines != []
    ensures StartsWith(JoinLines(lines), lines[0])
  {
    if |lines| > 1 {
      var s := JoinLines(lines);
      assert s == lines[0] + ("\n" + JoinLines(lines[1..]));
      assert s[..|lines[0]|] == lines[0];
    }
  }

  /**
   * With at least one produced model, the first one is selected, previewed
   * in the viewer and offered for download, and the selector lists every
   * produced model in order, captioned with its file name.
   */
  lemma FirstModelSelected(cwd: string, paths: seq<string>, results: seq<JobResult>)
    requires |results| == |paths|
    requires Produced(results) != []
    ensures var out, gen := Report(cwd, paths, results), Produced(results);
      && out.selector.value == Given(Some(gen[0]))
      && out.selector.choices.Given?
      && |out.selector.choices.v| == |gen|
      && (forall i :: 0 <= i < |gen| ==>
            out.selector.choices.v[i].value == gen[i] &&
            out.selector.choices.v[i].caption == Basename(gen[i]) &&
            '/' !in out.selector.choices.v[i].caption)
      && out.preview == Some(Viewer(ViewerSrc(cwd, gen[0])))
      && out.download == Update(Given(Some(gen[0])), Given(true), Unset)
  {
    assert paths != [];
    ChoicesCaptioned(Produced(results));
    ProducedAreModels(results);
    assert Produced(results)[0] in Produced(results);
  }

  lemma ChoicesCaptioned(gen: seq<string>)
    ensures forall i :: 0 <= i < |gen| ==>
      Choices(gen)[i].value == gen[i] &&
      Choices(gen)[i].caption == Basename(gen[i]) &&
      '/' !in Choices(gen)[i].caption
  {
  }

  /** The produced models are the model paths of the successful results; none is empty. */
  lemma ProducedAreModels(results: seq<JobResult>)
    ensures forall m :: m in Produced(results) <==>
      exists i :: 0 <= i < |results| && Succeeded(results[i]) && results[i].model.value == m
    ensures forall m :: m in Produced(results) ==> m != ""
  {
    forall m ensures m in Produced(results) <==>
      exists i :: 0 <= i < |results| && Succeeded(results[i]) && results[i].model.value == m
    {
      if m in Produced(results) {
        ProducedFromResults(results, m);
      }
      if exists i :: 0 <= i < |results| && Succeeded(results[i]) && results[i].model.value == m {
        var i :| 0 <= i < |results| && Succeeded(results[i]) && results[i].model.value == m;
        ProducedInOrder(results, i);
      }
    }
  }

  /** Every produced model comes from a successful result. */
  lemma {:induction false} ProducedFromResults(results: seq<JobResult>, m: string)
    requires m in Produced(results)
    ensures exists i :: 0 <= i < |results| && Succeeded(results[i]) && results[i].model.value == m
    decreases |results|
  {
    var n := |results| - 1;
    var init := results[..n];
    if m in Produced(init) {
      ProducedFromResults(init, m);
      var i :| 0 <= i < |init| && Succeeded(init[i]) && init[i].model.value == m;
      assert results[i] == init[i];
    } else {
      assert Succeeded(results[n]) && results[n].model.value == m;
    }
  }

  /** The models produced by the first `j` images open the list of all the produced models. */
  lemma {:induction false} ProducedPrefix(results: seq<JobResult>, j: nat)
    requires j <= |results|
    ensures Produced(results[..j]) <= Produced(results)
    decreases |results| - j
  {
    if j == |results| {
      assert results[..j] == results;
    } else {
      ProducedStep(results, j);
      ProducedPrefix(results, j + 1);
      var a, b := Produced(results[..j]), Produced(results[..j + 1]);
      assert b[..|a|] == a;
      assert Produced(results)[..|a|] == b[..|a|];
    }
  }

  /**
   * The models keep image order and repetitions: the model of a successful
   * image `i` stands in the list right after the models of the images
   * before it.
   */
  lemma ProducedInOrder(results: seq<JobResult>, i: nat)
    requires i < |results| && Succeeded(results[i])
    ensures |Produced(results[..i])| < |Produced(results)|
    ensures Produced(results)[|Produced(results[..i])|] == results[i].model.value
  {
    ProducedStep(results, i);
    ProducedPrefix(results, i + 1);
    var a := Produced(results[..i]);
    assert Produced(results[..i + 1]) == a + [results[i].model.value];
    assert Produced(results)[..|a| + 1] == a + [results[i].model.value];
    assert (a + [results[i].model.value])[|a|] == results[i].model.value;
  }

  /** The images whose runs produced a model, by position. */
  function Successes(results: seq<JobResult>): set<int> {
    set i | 0 <= i < |results| && Succeeded(results[i])
  }

  /** There are as many produced models as successful images. */
  lemma {:induction false} ProducedCount(results: seq<JobResult>)
    ensures |Produced(results)| == |Successes(results)|
    decreases |results|
  {
    if results == [] {
      assert Successes(results) == {};
    } else {
      var n := |results| - 1;
      var init := results[..n];
      ProducedCount(init);
      assert forall i :: 0 <= i < n ==> init[i] == results[i];
      if Succeeded(results[n]) {
        assert Successes(results) == Successes(init) + {n};
        assert n !in Successes(init);
      } else {
        assert Successes(results) == Successes(init);
      }
    }
  }

  /**
   * An image yields a model exactly when it names a file, the tool exits
   * with status 0 and a `.ply` file turns up in the job folder; the model
   * is then the `.ply` file the search picks.
   */
  lemma ResultOfSucceeds(path: string, job: Job)
    ensures Succeeded(ResultOf(path, job)) <==>
      path != "" && job.tool.Exited? && job.tool.code == 0 && HasPly(job.walk)
    ensures Succeeded(ResultOf(path, job)) ==> ResultOf(path, job).model == Search(job.walk)
  {
    JobOutcomes(Some(path), job.tool, job.walk);
    var r := ResultOf(path, job);
    if r.model.Some? {
      assert IsPly(r.model.value);
      assert r.model.value != "" by { assert |r.model.value| >= 4; }
    }
  }

  /**
   * A log line says "Success" exactly for an image that produced a model:
   * a failure line ends with the closing parenthesis around the runner's
   * message.
   */
  lemma LogLineSaysSuccess(path: string, r: JobResult)
    ensures EndsWith(LogLine(path, r), ": Success") <==> Succeeded(r)
  {
    var line := LogLine(path, r);
    if Succeeded(r) {
      assert line == Basename(path) + ": Success";
      assert line[|line| - 9..] == ": Success";
    } else {
      assert line[|line| - 1] == ')';
    }
  }

  /**
   * When no basename and no runner message holds a newline, the log splits
   * back into exactly one line per image, in image order.
   */
  lemma LogHasOneLinePerImage(cwd: string, paths: seq<string>, results: seq<JobResult>)
    requires |results| == |paths| && paths != []
    requires forall i :: 0 <= i < |paths| ==> '\n' !in Basename(paths[i]) && '\n' !in results[i].message
    ensures SplitLines(Report(cwd, paths, results).log) == LogLines(paths, results)
  {
    var lines := LogLines(paths, results);
    forall k | 0 <= k < |lines| ensures '\n' !in lines[k] {
      NoNewlineInLine(paths[k], results[k]);
    }
    SplitJoinLines(lines);
  }

  lemma NoNewlineInLine(path: string, r: JobResult)
    requires '\n' !in Basename(path) && '\n' !in r.message
    ensures '\n' !in LogLine(path, r)
  {
    var b := Basename(path);
    LogWordsHaveNoNewline();
    if Succeeded(r) {
      CharNotInConcat('\n', b, ": Success");
    } else {
      CharNotInConcat('\n', ": Failed (", r.message);
      CharNotInConcat('\n', ": Failed (" + r.message, ")");
      CharNotInConcat('\n', b, ": Failed (" + r.message + ")");
    }
  }

  lemma LogWordsHaveNoNewline()
    ensures '\n' !in ": Success" && '\n' !in ": Failed (" && '\n' !in ")"
  {
  }

  lemma CharNotInConcat(c: char, x: string, y: string)
    requires c !in x && c !in y
    ensures c !in x + y
  {
  }

  /**
   * A failed run of the tool breaks its image's log line in two: the
   * runner's message puts the tool's standard error on a line of its own.
   */
  lemma ToolFailureSplitsLogLine(path: string, job: Job)
    requires path != "" && job.tool.Exited? && job.tool.code != 0
    ensures |SplitLines(LogLine(path, ResultOf(path, job)))| >= 2
  {
    var r := ResultOf(path, job);
    var msg := "Error running SHARP:\n" + job.tool.stderr;
    assert r == JobResult(None, msg);
    assert msg[20] == '\n';
    CharInConcat('\n', ": Failed (", msg);
    CharInConcat('\n', ": Failed (" + msg, ")");
    CharInConcat('\n', Basename(path), ": Failed (" + msg + ")");
    NewlineSplits(LogLine(path, r));
  }

  lemma CharInConcat(c: char, x: string, y: string)
    requires c in x || c in y
    ensures c in x + y
  {
    if c in y {
      var k :| 0 <= k < |y| && y[k] == c;
      assert (x + y)[|x| + k] == c;
    }
  }

  /** Text that holds a newline splits into at least two lines. */
  lemma NewlineSplits(s: string)
    requires '\n' in s
    ensures |SplitLines(s)| >= 2
  {
    var i := IndexOf(s, '\n').value;
    assert SplitLines(s) == [s[..i]] + SplitLines(s[i + 1..]);
  }
}
