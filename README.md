# Confined file tools of a coding agent, in Dafny

The agent gets four tools. Each takes a working directory and a path from the
model, and each returns one formatted string:

- `get_files_info` lists a directory;
- `get_file_content` reads a file and truncates it at 10000 characters;
- `write_file` creates or overwrites a file;
- `run_python_file` runs a `.py` script and reports what it printed.

Each tool is meant to refuse paths outside the working directory. Two of them
(write and run) use the shared predicate `is_file_outside_workdir`. The other two
(list and read) use their own test: the joined path must exist and its string
must not contain `..`.

This project models:

- the confinement predicate;
- the path arithmetic underneath it:
  - `os.path.join`, `normpath`, `abspath` and `commonpath`;
  - `pathlib`'s `PurePosixPath`, `joinpath`, `str()`, `.name` and `.suffix`;
  - `str.strip`, `str.split` and `str.join`;
- each tool's check sequence and its exact result strings;
- the file system the tools see. It is a map from absolute paths (lists of
  components) to `File(content)` or `Dir(entries)`. The system resolves a path
  string in it component by component.

Modules, one file each:

| file | module | models |
|---|---|---|
| text.dfy | `Text` | `split`, `join`, `strip`, `startswith`, `in`, `str(int)` |
| posix_path.dfy | `PosixPath` | `os.path` (POSIX): `join`, `normpath`, `abspath`, `commonpath` |
| pure_path.dfy | `PurePaths` | `pathlib.PurePosixPath` |
| file_store.dfy | `FileStore` | files and directories; resolution of a path string |
| file_path_utils.dfy | `FilePathUtils` | `is_file_outside_workdir` |
| get_files_info.dfy | `GetFilesInfo` | `get_files_info` (check sequence as functions, the entry loop as a method) |
| get_file_content.dfy | `GetFileContent` | `get_file_content` (a function of the file store) |
| write_file.dfy | `WriteFile` | `write_file` (a `FileSystem` class whose methods update the store) |
| run_python.dfy | `RunPython` | `run_python_file` (checks as functions, `results_str +=` as a method) |

The process's current directory is a parameter `cwd`, always absolute. The
separator is `/`. Things the code cannot see are inputs:

- file sizes (`size`);
- the order in which a directory is enumerated (the order of `Dir.entries`);
- the outcome of running a script (`Run`);
- the text of exceptions raised by the system or by `subprocess`.

Main results:

- **The guard, exactly.** `is_file_outside_workdir` answers "inside" exactly when
  `Confined(root, full)` holds for the normal forms of the two paths.
  - Whenever it answers "inside", the candidate's components extend the root's.
  - It admits nothing but itself below a double-slashed root.
  - Below a root of `/` it admits no relative candidate but the root itself.
    An absolute candidate written with two leading slashes, such as `//x`,
    is admitted: `join` keeps it, `abspath` keeps both slashes, and it starts
    with `/` + `/`.
  - The `commonpath` conjunct is redundant unless the root is double-slashed.
    For the root `//a` it is not redundant: `//a/b` starts with `//a/`, yet the
    predicate rejects it.
- **Reading translates line ends.** `get_file_content` reads in text mode, so
  "\r\n" and a lone "\r" come back as "\n". A write followed by a read returns
  the content with its line ends translated; content without "\r" comes back
  as written. This holds only when the joined path string has no "..". A
  `file_path` such as "a/../b" passes the write guard and is written, but the
  read refuses it as outside.
- **A NUL character in the written path raises.** `touch()` fails with a
  `ValueError` that nothing catches, so `write_file` raises instead of
  returning a message.
- **The list and read tools are confined** by their `..` substring test and by
  stripping slashes. Whatever they list or read resolves to a path at or below
  the working directory.
- **The run tool is confined** by the guard. The guard and the join see the same
  path.
- **The write tool is confined only for relative paths.** It guards the raw path
  but writes the stripped one. An absolute path such as `/../a/b/x` passes the
  guard for working directory `/a/b`, yet it writes `/a/a/b/x` (see Findings). A
  guard on the stripped path is confined for every input.
- **With `check=True`, the exit-code branch is dead.** A script that exits with a
  non-zero code is reported only through the exception text. Its output is lost.

## Model

| member | source | states |
|---|---|---|
| PosixPath.PathJoin | functions/file_path_utils.py:20 | `os.path.join`: the result is absolute when either side is; an absolute right-hand side replaces the left, and otherwise the result starts with the left side and ends with the right |
| PosixPath.Normalize | functions/file_path_utils.py:19-20 | `normpath` of an absolute path keeps only proper components (no "", ".", ".." or separator) |
| PosixPath.CommonPrefix | functions/file_path_utils.py:21 | the compared components are a prefix of both paths and the paths differ right after it |
| PosixPath.CommonPath | functions/file_path_utils.py:21 | `commonpath` of two absolute paths is absolute |
| PosixPath.AbsNormal | functions/file_path_utils.py:19-20 | the components of `abspath` are all proper names (no "", ".", ".." or separator) |
| PosixPath.AbsNormalOfRelativeJoin | functions/file_path_utils.py:19-20 | `abspath(join(wd, fp))` for a relative `fp` is `abspath(wd)` with `fp`'s components applied on top, and it keeps the root's double slash |
| PosixPath.RenderInjective | functions/file_path_utils.py:23-27 | different normal forms render to different strings, so string equality of the two `abspath`s is equality of paths |
| PosixPath.CleanSplitStrip | functions/get_files_info.py:30 | `strip("/")` changes no component, apart from "" pieces |
| Text.Strip | functions/write_file.py:31 | `strip("/")` leaves no "/" at either end |
| Text.StripSlice | functions/get_file_content.py:23 | `strip("/")` keeps one contiguous piece of the string and removes only "/" before and after it |
| PurePaths.Parse | functions/get_files_info.py:29 | `Path(s)` is well formed, and it has an anchor exactly when `s` is absolute |
| PurePaths.JoinPath | functions/get_files_info.py:30 | `joinpath` keeps paths well formed |
| PurePaths.Str | functions/get_file_content.py:26 | `str(p)` of a well-formed path is never empty, and it is absolute exactly when `p` has an anchor |
| PurePaths.Suffix | functions/run_python.py:38 | a non-empty suffix is a tail of the name, shorter than it, that starts with its only "." and has at least one character after it |
| PurePaths.PySuffix | functions/run_python.py:38 | `suffix == ".py"` holds exactly when the name ends in ".py" and has at least one character before it |
| PurePaths.Name | functions/run_python.py:38 | the name of a well-formed path is its last part, and "" when it has none |
| PurePaths.CleanSplitStr | functions/get_file_content.py:26 | splitting `str(p)` and dropping "" and "." gives back `p`'s parts |
| PurePaths.ParentPartInStr | functions/get_file_content.py:26 | a ".." part of `p` shows up as the substring ".." in `str(p)` |
| FileStore.Walk | functions/get_file_content.py:26 | resolution by the system only ever lands on an existing entry |
| FileStore.PathQueries | functions/get_file_content.py:26-30 | `exists()` holds exactly when `is_dir()` or `is_file()` does, never both, and none holds for a path with a NUL character |
| FileStore.WalkIsFold | functions/get_file_content.py:26 | a successful resolution lands where `normpath` would (no symbolic links) |
| FileStore.LookupIsLexical | functions/get_file_content.py:26 | what `str(p)` resolves to is `p` read lexically from the cwd |
| FileStore.LexicalOfParse | functions/get_files_info.py:29 | `Path(s)` read lexically is `abspath(s)` |
| FileStore.LexicalOfJoin | functions/run_python.py:27 | `Path(wd).joinpath(s)` read lexically is `abspath(join(wd, s))`, for absolute `s` too |
| FileStore.LexicalOfStrippedJoin | functions/get_file_content.py:23 | `Path(wd).joinpath(s.strip("/"))` applies `s`'s components to the working directory, even when `s` is absolute |
| FileStore.NoParentStaysBelow | functions/get_file_content.py:26 | if the joined path string has no "..", what it resolves to lies at or below the working directory |
| FilePathUtils.IsFileOutsideWorkdir | functions/file_path_utils.py:4-27 | the guard: "outside" holds exactly when the root and the candidate's normal forms are not `Confined` (both directions) |
| FilePathUtils.CommonPathRender | functions/file_path_utils.py:21 | `commonpath` of two `abspath` results is "/" followed by their common leading components |
| FilePathUtils.AdmitsIffConfined | functions/file_path_utils.py:21-27 | on two normal forms, the string test (`commonpath` is the root and the path starts with `root + "/"`, or the two are equal) holds exactly when `Confined` does |
| FilePathUtils.GuardSound | functions/file_path_utils.py:23-27 | "inside" implies the candidate's components extend the root's |
| FilePathUtils.CommonPathRedundant | functions/file_path_utils.py:21-27 | for a root without a double slash, "outside" holds exactly when the full path is neither the root nor starts with `root + "/"` |
| FilePathUtils.CommonPathNeededForDoubleSlash | functions/file_path_utils.py:21-25 | for root "//a", "//a/b" starts with `root + "/"` and is still judged outside |
| FilePathUtils.DoubleSlashRootAdmitsOnlyItself | functions/file_path_utils.py:23-27 | below a double-slashed root, only the root itself is inside |
| FilePathUtils.SlashRootRejectsChildren | functions/file_path_utils.py:25 | with root "/", a relative candidate is inside exactly when it normalises to "/" itself |
| FilePathUtils.SlashRootAdmitsDoubleSlashed | functions/file_path_utils.py:19-27 | with root "/", the absolute candidate "//<name>" is inside |
| FilePathUtils.RelativeCandidate | functions/file_path_utils.py:20-27 | a relative candidate is outside exactly when applying its components to the root leaves the root |
| FilePathUtils.EmptyOrDotInside | functions/file_path_utils.py:19-20 | "" and "." are inside |
| FilePathUtils.EscapeIsOutside | functions/file_path_utils.py:20 | a relative candidate that climbs out through ".." is outside |
| FilePathUtils.ParentEscape | functions/file_path_utils.py:20 | "../name" is outside unless `name` is the root's own last component |
| FilePathUtils.SiblingWithSharedPrefix | functions/file_path_utils.py:25 | "../calcX" under root ".../calc" is outside, although its string starts with the root's |
| FilePathUtils.AbsoluteCandidate | functions/file_path_utils.py:20 | an absolute candidate is judged on its own normal form against the root |
| FilePathUtils.AbsoluteNameRejected | functions/file_path_utils.py:20 | "/name" is outside exactly when the root is not "/name" |
| FilePathUtils.LexicallyEquivalent | functions/file_path_utils.py:19-20 | relative candidates that normalise alike on the root get the same answer |
| FilePathUtils.DotDotExample | functions/file_path_utils.py:19-20 | for any names `a` and `b` and any working directory, "<a>/./../<b>" and "<b>" get the same answer |
| GetFilesInfo.ListingTarget | functions/get_files_info.py:29-30 | the listed path is well formed |
| GetFilesInfo.GetFilesInfo | functions/get_files_info.py:4-50 | the loop builds the listing line by line and returns the spec `FilesInfo` (checks, the listing, or the stat error) |
| GetFilesInfo.LinesExtend | functions/get_files_info.py:44-47 | one more iteration over a present entry appends exactly that entry's line |
| GetFilesInfo.CheckOrder | functions/get_files_info.py:33-39 | a target that is not a directory gets "is not a directory" even when it is outside; a directory whose path string contains ".." gets "Cannot list"; messages quote `directory` as given |
| GetFilesInfo.ReachedListing | functions/get_files_info.py:42-50 | once both checks pass, the result is the joined entry lines, or "Error: " plus the stat error |
| GetFilesInfo.ConsistentTreeLists | functions/get_files_info.py:42-50 | when every listed name exists, a listing past both checks is the joined entry lines, never the stat error |
| GetFilesInfo.LinesAt | functions/get_files_info.py:43-47 | there is one line per entry, and line k is entry k's `- name: file_size=n bytes, is_dir=b` |
| GetFilesInfo.EntryLineHoldsName | functions/get_files_info.py:46 | an entry's line contains the entry's name |
| GetFilesInfo.ListingLines | functions/get_files_info.py:43-48 | splitting a successful listing on "\n" gives exactly one formatted line per entry, in enumeration order |
| GetFilesInfo.EmptyDirectoryListing | functions/get_files_info.py:48 | an empty directory lists as "" |
| GetFilesInfo.EveryEntryListed | functions/get_files_info.py:43-48 | every entry's name and its whole line appear in the listing |
| GetFilesInfo.ListingConfined | functions/get_files_info.py:29-39 | a result that is not an error lists a directory at or below the working directory |
| GetFilesInfo.NoneListsWorkingDirectory | functions/get_files_info.py:30 | with `directory = None`, the working directory itself is listed |
| GetFilesInfo.DotsInNameRejected | functions/get_files_info.py:38-39 | an existing directory named like "a..b" is refused as outside |
| GetFilesInfo.BinExample | tests.py:18-20 | `("calculator", "/bin")` with no "calculator/bin" directory gives exactly `Error: "/bin" is not a directory` |
| GetFilesInfo.BinTarget | functions/get_files_info.py:30 | "/bin" strips to "bin" and is joined below the working directory |
| GetFilesInfo.ParentExample | tests.py:22-27 | `("calculator", "../")` gives exactly `Error: Cannot list "../" as it is outside the permitted working directory` |
| GetFilesInfo.ParentTarget | functions/get_files_info.py:30 | "../" strips to ".." and stays a part of the joined path |
| PurePaths.StrippedJoin | functions/get_file_content.py:23 | `Path(wd).joinpath(s.strip("/"))`, the path read and written, keeps the working directory's anchor and parts and only appends to them |
| GetFileContent.FileContent | functions/get_file_content.py:6-41 | a target that is not reached (missing, containing "..", or not a regular file) gets one of the two refusals; a successful read is at most 10000 characters plus the note |
| GetFileContent.Universal | functions/get_file_content.py:35-36 | text-mode reading leaves no "\r", never lengthens the text, and leaves text without "\r" unchanged |
| GetFileContent.UniversalCrLf | functions/get_file_content.py:35-36 | a "\r\n" reads as one "\n", with the text on either side read on its own |
| GetFileContent.ReadCheckOrder | functions/get_file_content.py:26-31 | a missing target, or one whose path string has "..", gets "Cannot read ... outside"; an existing non-file gets "File not found or is not a regular file" |
| GetFileContent.LeadingSlashIgnored | functions/get_file_content.py:23 | "/x" reads the same path as "x" |
| GetFileContent.ReadTargetBelowRoot | functions/get_file_content.py:23 | the read path is the working directory with `file_path`'s components applied |
| GetFileContent.AbsoluteNameReadBelowRoot | functions/get_file_content.py:23 | "/name" is read as "<working directory>/name" |
| GetFileContent.MaxContentLengthText | functions/get_file_content.py:3 | the limit prints as "10000" |
| Text.DecimalRoundTrip | functions/write_file.py:45 | the decimal text of a count reads back as that count |
| GetFileContent.Truncated | functions/get_file_content.py:37-38 | the result keeps the first 10000 characters (or all of shorter content) and is at most 10000 characters plus the note |
| GetFileContent.TruncationExact | functions/get_file_content.py:37-39 | content up to 10000 characters is unchanged; longer content is its first 10000 characters, then exactly `...File "<file_path>" truncated at 10000 characters`, and the length is 10000 plus that note |
| GetFileContent.ReadConfined | functions/get_file_content.py:23-39 | a read that gets past the checks is of a regular file at or below the working directory, and returns its content, line ends translated and truncated, or the read error |
| FileStore.StrippedJoinAppends | functions/write_file.py:31 | the stripped join is the working directory's path followed by the non-empty, non-"." components of `s` |
| WriteFile.FileSystem.Touch | functions/write_file.py:38 | `touch()` fails on a path string holding a NUL character, leaves an existing path alone, creates a missing one in an existing directory, and otherwise fails; a failure changes nothing |
| WriteFile.FileSystem.Overwrite | functions/write_file.py:42-43 | `open(p, "w").write(content)` sets the resolved file to exactly `content`, and fails on a directory or a refusal |
| WriteFile.FileSystem.TouchAndWrite | functions/write_file.py:38-48 | touch, then write: a failed touch propagates (`Raised`); a failed open returns "Could not write"; success returns the character count |
| WriteFile.FileSystem.WriteFile | functions/write_file.py:6-48 | the guard on the raw `file_path` comes first; the new store and the result are `WriteFileResult` |
| WriteFile.FileSystem.WriteFileStripped | functions/write_file.py:31-35 | the corrected tool: the guard sees the stripped path that is written |
| WriteFile.TouchedTarget | functions/write_file.py:38 | after a touch the path resolves: to what was there, or to a new empty file that is the only change besides its directory's listing |
| WriteFile.TouchCreates | functions/write_file.py:38 | a touch of a path that does not resolve creates its last component, missing until then, a proper name without NUL, in the directory the parent resolves to |
| WriteFile.CreatedTarget | functions/write_file.py:38 | after that creation the path resolves to the new empty file, which is the only change besides its directory's listing |
| WriteFile.CreatedValid | functions/write_file.py:38 | creating a missing entry with a proper name without NUL keeps the tree consistent |
| WriteFile.TouchedValid | functions/write_file.py:38 | a touch keeps the tree consistent |
| WriteFile.OverwrittenValid | functions/write_file.py:42-43 | an overwrite keeps the tree consistent |
| WriteFile.WritePreservesValid | functions/write_file.py:38-43 | a whole write keeps the tree consistent |
| WriteFile.RejectedWriteChangesNothing | functions/write_file.py:34-35 | a rejected path leaves the store unchanged, and the message quotes `file_path` |
| WriteFile.FailedWriteEffects | functions/write_file.py:38-48 | a failed touch changes nothing; a failed open leaves at most the new empty file |
| WriteFile.SuccessfulWrite | functions/write_file.py:38-46 | on success the target holds exactly `content`, and nothing else changes but the listing of its directory |
| WriteFile.NulInPathRaises | functions/write_file.py:38 | a written path string holding a NUL character makes `touch` raise, and nothing changes |
| WriteFile.ReadAfterWrite | functions/write_file.py:42-43 | after a successful write whose joined path string contains no "..", `get_file_content` on the same `file_path` returns the written content with its line ends translated, truncated; content without "\r" comes back as written |
| WriteFile.TouchAndWriteKeys | functions/write_file.py:38-43 | every file created or changed lies at or below any directory that the target's lexical path starts with |
| WriteFile.RelativeWriteConfined | functions/write_file.py:31-43 | with a relative `file_path`, every file created or changed lies at or below the working directory |
| WriteFile.StrippedWriteConfined | functions/write_file.py:31-43 | with the corrected guard, every file created or changed lies at or below the working directory, for every `file_path` |
| WriteFile.AbsoluteNameRefused | functions/write_file.py:31-35 | "/name" is refused although the path that would be written is "<working directory>/name" |
| WriteFile.AbsolutePathWriteEscapes | functions/write_file.py:31-43 | for names `a`, `b`, `x` without NUL, the guard passes "/../a/b/x" for working directory "/a/b", and the write creates "/a/a/b/x" outside it |
| WriteFile.EscapeTouchAndWrite | functions/write_file.py:38-46 | for any names `a` != `b` and `x` without NUL, writing "/../a/b/x" under "/a/b" reports success and creates "/a/a/b/x" with the content |
| WriteFile.StrippedGuardRefusesEscape | functions/write_file.py:31-35 | the corrected guard refuses that call and leaves the tree unchanged |
| WriteFile.EscapeStrippedOutside | functions/file_path_utils.py:19-27 | the guard judges the stripped "../a/b/x" outside "/a/b" |
| RunPython.RunTarget | functions/run_python.py:27 | the script path is well formed |
| RunPython.Preflight | functions/run_python.py:27-39 | every refusal before running is an "Error: " text |
| RunPython.Report | functions/run_python.py:47-54 | the output part of the report is never empty |
| RunPython.ExitNote | functions/run_python.py:56-57 | the exit note is empty exactly when the exit code is 0 |
| RunPython.FormatResults | functions/run_python.py:47-57 | the `results_str +=` steps build the report followed by the exit note |
| RunPython.RunPythonFile | functions/run_python.py:7-61 | the checks, the run and the report, as `RunPythonResult` |
| RunPython.RunPythonFileUnchecked | functions/run_python.py:43-57 | the corrected tool, as `RunPythonUncheckedResult` |
| RunPython.RunCheckOrder | functions/run_python.py:27-39 | "not found" comes first, then "Cannot execute", then "not a Python file" for an existing, inside script not named `*.py`; the script runs exactly when it exists, is inside, and is named `*.py` |
| RunPython.NoOutputExactly | functions/run_python.py:48-54 | "No output produced" exactly when both streams are empty |
| RunPython.ReportLayout | functions/run_python.py:49-52 | `STDOUT: out` (if any) immediately followed by `STDERR: err` (if any), with no separator |
| RunPython.CheckedRunDropsFailure | functions/run_python.py:43-61 | with `check=True`, a non-zero exit gives only the exception text, and the exit note is never added |
| RunPython.StartFailureReported | functions/run_python.py:60-61 | a script that fails to start or times out is reported as "Error: executing Python file: " followed by the exception text |
| RunPython.FailingOutputLost | functions/run_python.py:43-61 | two failing runs with different stderr give the same text, which differs from the corrected report |
| RunPython.UncheckedRunReportsExit | functions/run_python.py:56-57 | the corrected tool reports a non-zero exit as the output followed by `Process exited with code <code> ` |
| RunPython.RunConfined | functions/run_python.py:27-35 | a script that is run resolves to a path at or below the working directory |

## Left out

- Symbolic links, permissions and mount points. Resolution walks the map. Only
  a system refusal to open a file for writing is modelled (`refused`).
- Text decoding and encoding. Contents and process output are strings, and
  `read()` and `decode()` failures are the opaque error text.
- Byte sizes (`st_size`) are an input function. The enumeration order of
  `iterdir()` is the order of `Dir.entries`.
- The real subprocess, the `python` executable and the 30-second timeout. The
  outcome is an input `Run`, and the `CalledProcessError` text is `checkError`.
- PosixPath.CommonPath requires both paths to be absolute or both relative, so
  the `ValueError` `commonpath` raises for a mix is not modelled. The guard
  only passes it two `abspath` results.
- Exception messages of `stat`, `open`, `read`, `write` and `subprocess` are
  opaque strings.
- WriteFile.FileSystem.Overwrite: a `write()` that fails after `open(p, "w")`
  succeeded, leaving the file truncated, is not modelled. Only a refusal to
  open is (`refused`).
- WriteFile.FileSystem.Touch puts a created file last in its directory's
  `entries`, so a later listing shows it last. The order in which a real
  directory enumerates a new entry is not specified.
- The race between `iterdir()` and `stat()` is modelled only as an entry that
  has disappeared from the map (`AllPresent`).
- `FileStore.Walk` treats each component as a name. A listed name is assumed to
  contain no "/", which `Valid` guarantees.
- Reading changes nothing by construction. `get_file_content` is a function of
  the store and returns only a string.
- A failing `touch()` in `write_file` is outside the `try`. It is modelled as
  the outcome `Raised`, not as a message.
- main.py (the model client, argument parsing, printing) and
  function_declarations.py (schema objects) are not part of this model.
- Python's `str(path)` of a Windows path, and `os.sep` other than "/", are not
  part of this model.

## Findings

| source | as written | input that shows it | evidently intended | confidence | as-written member | corrected member |
|---|---|---|---|---|---|---|
| functions/write_file.py:31-34 | the guard checks the raw `file_path`, but the stripped `file_path.strip("/")` is written | working directory "/a/b", `file_path` "/../a/b/x", with directory "/a/a/b" present: the guard passes and "/a/a/b/x" is created | the guard checks the path that is written, so nothing outside the working directory is ever written | not executed | WriteFile.AbsolutePathWriteEscapes | WriteFile.StrippedWriteConfined |
| functions/run_python.py:44-57 | `check=True` makes a non-zero exit raise, so the `returncode != 0` branch never runs and the script's output is lost | a script that prints a traceback to stderr and exits with 1 | a non-zero exit is reported with the output and "Process exited with code N " | not executed | RunPython.FailingOutputLost | RunPython.UncheckedRunReportsExit |
