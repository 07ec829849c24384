# Sharp Web UI — a verified model of the runner and the front-end logic

Sharp Web UI is a small web front end around the `sharp predict` command,
which turns one image into a 3D Gaussian-splat model (`.ply`). This project
models the two parts of the program that hold logic of their own.

- **The runner** (`sharp_runner.py`). `cleanup_old_generations` deletes the
  oldest job folders of the output root `generated_splats`, by creation time,
  once it holds `MAX_GENERATIONS` (50) or more. A pass that deletes every
  folder it selects leaves at most 49. A deletion failure ends the pass early and
  can leave more. Once the new job folder is created, the root then holds at
  most 50 folders. `run_sharp_generation` runs one job:
  - it checks the input and runs the cleanup pass;
  - it derives the job name (the basename without its final extension) and
    creates `generated_splats/<job name>`;
  - it launches the tool and searches the job folder for the `.ply` it
    produced;
  - it reports one of five outcomes as a `(model path or None, message)` pair.
- **The front end** (`app.py`).
  - `core_generation_logic` runs the runner over the uploaded images in turn.
    It builds the status log and the list of produced models. It writes an
    archive when there are several models and selects the first one for
    preview and download.
  - `load_selected_model` builds the viewer iframe's address.
  - `create_zip_of_files` names the archive's entries.
  - `process_single` and `process_batch` are the two buttons' entry points.

Modules:

- `Wrappers`: `Option`.
- `Text`: string operations.
  - The program's own: `replace("\\", "/")`, `"\n".join` and
    `endswith(".ply")`.
  - The library's: `startswith`, `endswith` and `rfind` of one character,
    which `os.path` uses.
  - `IndexOf` (`find` of one character) and `SplitLines` (`split("\n")`).
    The program calls neither. They serve only to state how many lines the
    joined log holds (`LogHasOneLinePerImage`).
- `PosixPath`: `os.path.basename`, `os.path.splitext` and `os.path.join` on
  '/'-separated paths, plus the two configured folders.
- `Retention`: the cleanup pass's selection:
  - the output root is a listing of entries (name, is-directory, creation
    time);
  - `folders.sort(key=os.path.getctime)` is a stable insertion sort;
  - deleting paths is `Prune`.
- `SharpRunner`:
  - the class `OutputRoot` holds the output root's listing. Its method
    `CleanupOldGenerations` deletes in a loop, proved against the function
    `Deleted`, and `RunSharpGeneration` runs one job, proved against
    `ListingAfter`;
  - the `.ply` search loop `FindPly` is proved against the function
    `Search`;
  - the outcome and its message are the functions `Classify` and `Render`.
- `App`:
  - `RunImages` is the loop of `core_generation_logic`; each turn,
    `RunNext`, calls `OutputRoot.RunSharpGeneration` once. `CoreGenerationLogic`
    is proved against the function `Report`, which gives the five outputs in
    terms of the runner's results, and against `FinalListing`, the output
    root after every image's job and the archive write;
  - the three front-end methods take the runner's output root, which must
    be `OutputDir(cwd)`: app.py:8 and sharp_runner.py:6 compute the same
    folder;
  - `CreateZipOfFiles` is a loop proved against `ZipEntries`;
  - `LoadSelectedModel` is a function.

The environment of each job is a parameter. It consists of:

- the paths `shutil.rmtree` fails on;
- the creation time of a new folder;
- how the subprocess ends (`Exited(code, stderr)`, or `LaunchFailed(reason)`
  for an exception other than `CalledProcessError`);
- the `(root, files)` steps `os.walk` yields over the job folder.

Three behaviours of the code are easy to misread:

- The `.ply` search: the `break` at sharp_runner.py:83 leaves only the loop
  over one directory's files. The walk goes on, so the result is the first
  `.ply` of the *last* walked directory that holds one, not the first `.ply`
  in walk order. See `SearchPicksLastDirectory` and
  `SearchPrefersLaterDirectory`.
- The `try` block of `run_sharp_generation` starts at the subprocess call.
  An exception from the cleanup pass is swallowed inside the pass. The
  directory creation sits outside the `try` block.
- The code builds one log entry per input, but a tool failure's message is
  `"Error running SHARP:\n" + stderr`.
  That message puts a newline inside the entry, so the joined log then has
  more lines than inputs. `LogHasOneLinePerImage` states when the log does
  split back into one line per image, and `ToolFailureSplitsLogLine` shows
  the case where it does not.

## Model

| member | source | states |
|---|---|---|
| PosixPath.Basename | sharp_runner.py:52 | the basename holds no '/', is a suffix of the path, and is the whole path or follows a '/' |
| PosixPath.BasenameUnique | sharp_runner.py:52 | exactly one string has those three properties, so they define the basename |
| PosixPath.SplitExt | sharp_runner.py:53 | the two parts concatenate to the name; the extension is empty or one '.' with no further '.', and never splits off a run of leading dots |
| PosixPath.Join | sharp_runner.py:56 | the joined path ends with the second part and, unless that is absolute, starts with the first |
| PosixPath.OutputDir | sharp_runner.py:6 | the output root lies in the working directory and ends with `generated_splats`; app.py:8 computes the same folder |
| PosixPath.AssetsDir | app.py:7 | the viewer's folder lies in the working directory and ends with `assets` |
| PosixPath.JoinInjective | sharp_runner.py:20 | two relative names joined to the same folder give the same path only if they are equal |
| Text.ReplaceBackslashes | app.py:26-27 | same length, every '\\' becomes '/', every other character stays, and no backslash remains |
| Text.ReplaceBackslashesFixes | app.py:26-27 | a string without backslashes is left as it is (the replacement is idempotent) |
| Text.JoinLines | app.py:69 | the lines joined by "\n"; `SplitJoinLines` gives them back |
| Text.SplitJoinLines | app.py:69 | splitting the "\n"-joined lines gives them back when none holds a newline |
| Retention.PathOf | sharp_runner.py:20 | an entry's path in the output root; `SamePathSameEntry` shows that in a well-formed listing the path identifies the entry |
| Retention.SamePathSameEntry | sharp_runner.py:20 | two entries of a well-formed listing with the same path are the same entry |
| Retention.DirsMembers | sharp_runner.py:19-23 | an entry is counted as a job folder exactly when it is a directory entry of the root |
| Retention.Dirs | sharp_runner.py:19-23 | there are never more directories than entries; `DirsMembers` says which entries they are |
| Retention.Folders | sharp_runner.py:19-23 | one folder per directory entry; `FoldersOfListing` gives their paths |
| Retention.FoldersOfListing | sharp_runner.py:19-23 | the folder paths are distinct and each is the path of a directory entry |
| Retention.SortByCtime | sharp_runner.py:26 | the sort is a permutation of the folders (same multiset, same length) |
| Retention.SortByCtimeSorted | sharp_runner.py:26 | the sorted folders are in ascending order of creation time |
| Retention.SortByCtimeStable | sharp_runner.py:26 | for every creation time, the folders created then keep their listing order |
| Retention.SortByCtimeDistinct | sharp_runner.py:26 | sorting keeps the paths distinct |
| Retention.NumToDelete | sharp_runner.py:29-30 | none below the ceiling; otherwise the deletion leaves exactly `MAX_GENERATIONS - 1` |
| Retention.Victims | sharp_runner.py:26-34 | the pass selects `NumToDelete` of the number of directories; `RetentionRule` says which |
| Retention.Survivors | sharp_runner.py:26-30 | the kept folders and the selected ones together number the directories |
| Retention.RetentionRule | sharp_runner.py:26-34 | with n folders: `NumToDelete(n)` are selected, none below the ceiling, 49 kept otherwise; selected and kept split the folders; no selected folder is newer than a kept one; every selected path is a directory of the root |
| Retention.RetentionOfFiftyTwo | sharp_runner.py:29-30 | 52 folders: 3 deleted, 49 kept |
| Retention.Prune | sharp_runner.py:36 | deleting never adds entries; `PruneKeeps` says which entries survive |
| Retention.PruneKeeps | sharp_runner.py:36 | an entry survives the deletions exactly when its path was not deleted |
| Retention.PruneTwice | sharp_runner.py:33-36 | deleting one set of paths after another is deleting their union |
| Retention.PruneWellFormed | sharp_runner.py:36 | deleting keeps the listing's names valid and distinct |
| Retention.PruneCount | sharp_runner.py:33-36 | deleting k distinct directory paths removes exactly k directories |
| Retention.PrunePlainFiles | sharp_runner.py:19-23 | deleting directory paths never removes a plain file |
| SharpRunner.BaseName | sharp_runner.py:52-53 | the job name holds no '/' and is a prefix of the input's basename |
| SharpRunner.BaseNameDropsFinalExtension | sharp_runner.py:53 | only the final extension is removed: `stem.ext` gives `stem` |
| SharpRunner.JobDir | sharp_runner.py:56 | the job folder starts with the output root's path and ends with the job name |
| SharpRunner.JobDirIgnoresParents | sharp_runner.py:52-56 | the job folder does not depend on the input's parent directories |
| SharpRunner.SameStemSameJobDir | sharp_runner.py:52-57 | two inputs with the same stem in different folders and with different extensions share one job folder `OUTPUT_DIR/stem` |
| SharpRunner.IsPly | sharp_runner.py:81 | a file is a model when its name ends in `.ply`; `FirstPly` and `Search` are stated with it |
| SharpRunner.FirstPly | sharp_runner.py:80-83 | the index where the inner loop breaks: a `.ply` with none before it, or none at all |
| SharpRunner.Search | sharp_runner.py:78-83 | whatever the search returns ends in `.ply` |
| SharpRunner.SearchFindsAny | sharp_runner.py:78-85 | the search finds a file exactly when some walked directory holds a `.ply` |
| SharpRunner.SearchPicksLastDirectory | sharp_runner.py:78-83 | the result is the first `.ply` of the last walked directory that holds one |
| SharpRunner.SearchPrefersLaterDirectory | sharp_runner.py:79-83 | with `a.ply` in the job folder and `b.ply` in a sub-folder walked later, the result is the sub-folder's `b.ply` |
| SharpRunner.FindPly | sharp_runner.py:78-83 | the nested loop leaves in `found_ply` exactly what `Search` specifies |
| SharpRunner.JobOutcome | sharp_runner.py:68-96 | a launched job ends in a system error exactly when the tool cannot start, and in a tool failure exactly for a non-zero exit; it yields a model exactly when the tool exits 0 and the search finds a file, which is then the model, named for the job; otherwise no output, named for the job |
| SharpRunner.Classify | sharp_runner.py:45-96 | missing input exactly when the input is absent or empty; otherwise the outcomes of `JobOutcome`, each exactly in its case, with the input's job name |
| SharpRunner.Render | sharp_runner.py:45-96 | a model path comes back exactly for a generated outcome, and it is the file found; a tool failure's message ends with the tool's standard error |
| SharpRunner.MessageIdentifiesOutcome | sharp_runner.py:45-96 | the five messages are told apart by their opening words, whatever the tool printed |
| SharpRunner.JobOutcomes | sharp_runner.py:68-96 | missing input gives the fixed error; a model comes back exactly for an input with exit 0 and a `.ply` in the walk, and it is the search result with "Success! Generated <base_name>.ply"; a non-zero exit gives no model and a message ending in stderr; exit 0 without a `.ply` gives the "couldn't find" message |
| SharpRunner.SuccessScenario | sharp_runner.py:52-86 | for `dir/stem.ext` with a `.ply` produced, the job folder is `OUTPUT_DIR/stem` and the message is "Success! Generated stem.ply" |
| SharpRunner.WithJobDir | sharp_runner.py:56-57 | every entry stays, the only entry that can appear is a directory with the job's name created now, and a valid job name is then listed |
| SharpRunner.WithJobDirKeeps | sharp_runner.py:56-57 | creating the job folder keeps the listing well formed and adds at most one directory |
| SharpRunner.CleanupStep | sharp_runner.py:33-36 | one more `rmtree` on the listing pruned so far is pruning the original listing of one more path |
| SharpRunner.CleanupEffect | sharp_runner.py:12-39 | after deleting the n oldest selected folders: the listing is well formed, has n fewer directories and every plain file; a root below the ceiling is unchanged; a completed pass leaves 49 folders |
| SharpRunner.CleanupLeavesRoom | sharp_runner.py:29-36 | a pass that deleted everything it selected leaves fewer than `MAX_GENERATIONS` folders |
| SharpRunner.ExecuteJob | sharp_runner.py:68-96 | the `try` block decides the outcome `JobOutcome` from the tool's end and the search |
| SharpRunner.OutputRoot.constructor | sharp_runner.py:6-7 | the output root starts with a well-formed listing |
| SharpRunner.Deleted | sharp_runner.py:33-39 | never more paths than the selection; `DeletedIsLongestPrefix` says which |
| SharpRunner.DeletedIsLongestPrefix | sharp_runner.py:33-39 | a sequence is the deleted paths exactly when it is a prefix of the selection's paths, avoids the undeletable folders, and stops short only at an undeletable one |
| SharpRunner.DeletedStopsAtFailure | sharp_runner.py:33-39 | the pass deletes the selected folders in order and stops only at a folder `rmtree` fails on |
| SharpRunner.DeletedUnique | sharp_runner.py:33-39 | the selection and the undeletable folders fix the deleted paths: any prefix that stops only at a failure is `Deleted` |
| SharpRunner.ListingAfter | sharp_runner.py:41-57 | the output root after one call: untouched for a missing input, otherwise pruned of `Deleted` of the selection, then holding the job folder; `ListingAfterKeeps` gives what it preserves |
| SharpRunner.ListingAfterKeeps | sharp_runner.py:12-57 | a job keeps the listing well formed; with no deletion failures, a job for a provided input leaves at most `MAX_GENERATIONS` folders whatever the root held, and a missing input leaves a root at most at the ceiling there |
| SharpRunner.OutputRoot.CleanupOldGenerations | sharp_runner.py:12-39 | deletes the selected folders oldest first and stops at the first `rmtree` failure, without raising; the deleted paths are a prefix of the selection; it stops early exactly when a failure happened, at the first undeletable folder; the listing is pruned of exactly the deleted paths, which are `Deleted` of the selection |
| SharpRunner.OutputRoot.RunSharpGeneration | sharp_runner.py:41-96 | returns `Render(Classify(...))` whatever the cleanup pass did; missing input touches nothing, deletes nothing and launches nothing; otherwise the deleted paths are `Deleted` of the selection, a prefix that stops only at an undeletable folder, and the new listing is exactly the old one pruned of them with the job folder created, which is `ListingAfter`; the command is `sharp predict -i <input> -o OUTPUT_DIR/<base_name>`; the job folder is then listed; with no deletion failures the root holds at most `MAX_GENERATIONS` folders |
| App.LoadSelectedModel | app.py:20-41 | no selection: the placeholder and no download; otherwise the download is the selection unchanged and the iframe's `src` has no backslash, starts with `/file=` and ends with `?url=/file=` and the model's web path |
| App.ViewerSrc | app.py:25-29 | the viewer address has no backslash, starts with `/file=` and ends with the model's `url` parameter |
| App.ViewerShowsSelection | app.py:27-29 | different backslash-free models get different viewer addresses |
| App.ZipPath | app.py:13 | the archive lies in the output root and is named `batch_results.zip` |
| App.ZipEntries | app.py:15-16 | one entry per file; `ZipEntriesFlat` gives each entry's source and name |
| App.ZipEntriesFlat | app.py:15-16 | every entry reads its file and is stored under that file's last path component, with no '/' |
| App.CreateZipOfFiles | app.py:11-17 | `None` exactly for no files; otherwise the archive path `OUTPUT_DIR/batch_results.zip`, and the loop writes one entry per file, in order, named by its basename |
| App.WithArchive | app.py:13-14 | writing the archive keeps every entry, can add only the plain file `batch_results.zip`, and leaves that name listed |
| App.WithArchiveKeeps | app.py:13-14 | writing the archive keeps the listing well formed and its directories unchanged |
| App.ResultOf | app.py:61 | the runner's result for one image and its job's environment; `ResultOfSucceeds` says when it holds a model |
| App.Results | app.py:57-61 | one result per image |
| App.LogLine | app.py:63-67 | every log line starts with its image's basename followed by a colon |
| App.LogLines | app.py:57-67 | the log has one line per image |
| App.Produced | app.py:61-64 | there are never more models than results; `ProducedAreModels` says which they are, `ProducedInOrder` where each stands and `ProducedCount` how many there are |
| App.Choices | app.py:80 | one choice per model; `ChoicesCaptioned` gives each caption and value |
| App.NothingToShow | app.py:46-52 | the outputs without a model; `NoModelShowsNothing` states what they hide |
| App.Show | app.py:71-91 | the log is shown as given; there is a preview exactly when there is a model; the archive is shown exactly for several models; a first model that is not empty is offered for download |
| App.Report | app.py:44-91 | the log is the upload prompt exactly when there are no images, otherwise the joined log lines; there is a preview exactly when some model was produced; the archive is shown exactly when more than one was |
| App.RunJob | app.py:61 | the runner's result for an image depends only on the image and its job's environment, whatever the output root held; the new listing is `ListingAfter` of the old one; without deletion failures, a root at most at the ceiling stays there |
| App.BatchListing | app.py:57-61 | each image's job applied in image order; `BatchListingKeeps` gives what it preserves |
| App.FinalListing | app.py:57-75 | the batch's listing, then the archive written when more than one model was produced |
| App.BatchListingKeeps | app.py:57-61 | the batch's runs keep the listing well formed and, when no deletion fails, a root at most at the ceiling stays there |
| App.RunNext | app.py:57-67 | one turn of the loop adds the image's model (when it has one) and its log line, and runs the image's job on the listing |
| App.RunImages | app.py:54-67 | the loop collects exactly the produced models, in order, and one log line per image; the new listing is `BatchListing`, each image's job in turn; the listing stays well formed and, without deletion failures, within the ceiling |
| App.ShowModels | app.py:71-91 | the outputs after the loop are `Show` of the log and the produced models; the archive is written only for several models |
| App.CoreGenerationLogic | app.py:44-91 | the outputs are `Report` of the runner's results for the images; without images the output root is untouched; the archive holds the produced models when there are several, and `batch_results.zip` is then listed in the output root; the new listing is exactly `FinalListing`: every image's job in turn, then the archive when there is one; with no deletion failures and at most 50 folders before, the root still holds at most 50 |
| App.ProcessSingle | app.py:94-96 | no image: the upload prompt, and the output root untouched; one image: the report of that single result, and the listing of that one job; never an archive |
| App.SingleImage | app.py:94-96 | a batch of one image has one result, no archive, and leaves the listing of that one job |
| App.ProcessBatch | app.py:98-101 | no files: the upload prompt, no archive, and the output root untouched; otherwise the report, the archive and the final listing for the files' names in upload order |
| App.ArchiveNeedsSeveral | app.py:74-78 | the archive is shown, at `batch_results.zip`, and written exactly when more than one image produced a model; it then holds one entry per such image |
| App.NoModelShowsNothing | app.py:45-72 | without a model the archive, preview and download are hidden and the selector emptied; the log is the upload prompt exactly when there were no images |
| App.LogIsNotPrompt | app.py:57-69 | the log of at least one image is never the upload prompt |
| App.FirstModelSelected | app.py:80-91 | the first produced model is selected, previewed at its viewer address and offered for download; the choices are every produced model in order, captioned with its basename |
| App.ProducedAreModels | app.py:61-64 | the produced models are exactly the model paths of the successful results, and none is empty |
| App.ProducedFromResults | app.py:61-64 | every produced model is the model path of some successful result |
| App.ProducedPrefix | app.py:57-64 | the models produced by the first images open the list of all the models |
| App.ProducedInOrder | app.py:57-64 | the model of each successful image stands right after the models of the images before it, so the list keeps image order and repeats a path once per image that produced it |
| App.ProducedCount | app.py:57-64 | there are exactly as many models as images whose run produced one |
| App.ResultOfSucceeds | app.py:61-64 | an image yields a model exactly when it names a file, the tool exits 0 and the walk holds a `.ply`; the model is the search result |
| App.LogLineSaysSuccess | app.py:63-67 | a log line ends in ": Success" exactly when its image produced a model |
| App.LogHasOneLinePerImage | app.py:57-69 | when no basename and no message holds a newline, the log splits back into exactly one line per image, in order |
| App.ToolFailureSplitsLogLine | app.py:67-69 | a tool failure's log line spans at least two lines, because the message carries the tool's standard error on its own line |

## Left out

- The Gradio layout, CSS, event wiring and `demo.launch` (app.py:104-184).
  They are presentation and server plumbing.
- The `sharp` subprocess itself (sharp_runner.py:70-75) is not modelled. Its
  exit status, standard error or launch failure is a parameter. Any other
  exception inside the `try` block (sharp_runner.py:95-96) is modelled only
  as a launch failure.
- Filesystem effects are abstracted to a listing of the output root (name,
  is-directory, creation time). The listing is updated as `rmtree`,
  `makedirs` and the archive write would update it. The walk of the job folder is a parameter. The
  module-level `makedirs` of the output root (sharp_runner.py:7) is assumed
  to have happened.
- Creation times are integers, not floats.
- A reused job folder keeps the creation time it was listed with. On POSIX,
  `os.path.getctime` (sharp_runner.py:26) is the inode-change time. The
  tool's writes into a reused folder refresh it, and the model does not, so
  a later pass may select a reused folder sooner than the program would.
- The archive's listing entry takes the creation time of the last job. The
  cleanup pass reads the times of directories only.
- A directory named `batch_results.zip` in the output root would make the
  archive write (app.py:14) raise `IsADirectoryError`, which nothing
  catches: it escapes `core_generation_logic`, which then returns no
  outputs. The model keeps the listing as it is instead and reports
  normally.
- `rmtree` either deletes a whole folder or fails on it. Partial deletion is
  not modelled.
- Failures of `os.listdir` or `os.path.getctime` inside the cleanup pass are
  not modelled.
- A plain file with the job's name in the output root would make `makedirs`
  (sharp_runner.py:57) raise `FileExistsError`, outside the `try` block. The
  exception escapes `run_sharp_generation` and `core_generation_logic`: the
  tool is not launched, the remaining images are not processed and no
  outputs are returned. The model keeps the listing as it is instead,
  launches the tool, goes on with the batch and reports normally.
- The archive's bytes and compression are not modelled, only its entries.
  Entries with the same basename are all written, in order.
- `print` output is not modelled (sharp_runner.py:31, 35, 39, 59, 92;
  app.py:58-59).
- The HTML is not modelled beyond the iframe's `src`: the placeholder markup
  and the iframe's other attributes are constants.
- Paths use '/' as the only separator. Windows separators are not modelled
  (backslashes matter only in the viewer address, where they are replaced).
- Concurrent button presses are not modelled: jobs run one after another on
  one output root.
- App.CoreGenerationLogic: a job's cleanup pass can delete the job folder
  of an earlier image of the same batch, with the `.ply` found in it. In a
  batch of more than 50 images, the 51st job deletes the first job's folder
  even from an empty root. With a root near `MAX_GENERATIONS`, an earlier
  image whose job folder existed before the batch keeps that folder's old
  creation time and can be among the oldest. `zipf.write`
  (app.py:16) then raises `FileNotFoundError` for the missing model, which
  nothing catches, and `core_generation_logic` returns no outputs. The model
  does not tie the walked files to the job folder or to the listing. It
  still reports the model and writes an archive entry for it, so
  `CoreGenerationLogic`, `ArchiveNeedsSeveral` and `ProcessBatch` promise a
  report where the program raises. The listing itself is stated exactly
  (`FinalListing`), so whether the batch deleted one of its own job folders
  can be read from it.
- App.ArchiveNeedsSeveral: it promises an archive with one entry per
  successful image also where the program raises `FileNotFoundError`, as
  described for `App.CoreGenerationLogic`.
- App.ProcessBatch: it inherits the same gap from `App.CoreGenerationLogic`.
