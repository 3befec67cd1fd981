# dbSNP download core, modelled in Dafny

`pyvariantdb/download.py` fetches the dbSNP variant archive and its `.tbi`
index into a local cache directory. It does this by running the external
`aria2c` downloader once per file. This project models the deterministic part
of that code:

- `download_with_aria2(url, output_dir, filename)` builds the `aria2c`
  argument vector by mutating a list. It runs the transport once. It raises on
  a non-zero exit status, and otherwise returns the output path. The path is
  `output_dir / filename` for a truthy file name, and
  `output_dir / url.split("/")[-1]` otherwise.
- `download_dbsnp()` walks an ordered URL list. It passes each URL's basename
  as the file name, and re-raises the first failure, so no later URL is tried.

Modules:

- `Wrappers` (`wrappers.dfy`): `Option`, `Result`, `Outcome`.
- `Strings` (`strings.dfy`): Python's `str.split("/")` and `"/".join`, and
  `Basename(url)`, which is `url.split("/")[-1]`.
- `Paths` (`paths.dfy`): the part of POSIX `pathlib` the code relies on. A
  `Path` is rooted or relative plus its components. `Str` is `str(path)`,
  `Parse` is `PurePosixPath(text)`, and `Join` is the `/` operator, which drops
  empty and `.` components and lets a rooted name replace the directory.
- `Aria2` (`aria2.dfy`): the argument vector, the transport oracle, the
  raised errors and their messages, the output path, and the method
  `DownloadWithAria2`.
- `Dbsnp` (`dbsnp.dfy`): the fail-fast loop `DownloadDbsnp`, over an arbitrary
  URL list and destination directory, and a two-file data-plus-index scenario.

The transport is an oracle: a function from the argument vector to a
`ProcessResult`. That is either `Completed(returncode, stderr)` or
`LaunchFailed(reason)`, the second being `subprocess.run` raising because
`aria2c` cannot be started. The operating system is the class `Aria2.Host`.
It holds the transport as `reply`, and a ghost log `events` of the side
effects requested from it, in order. `MakeDirs` (line 26) appends a
`MakeDir(dir)` entry, and `Run` (line 48) appends a `Spawn(cmd)` entry and
answers with `reply(cmd)`. `DownloadWithAria2` and `DownloadDbsnp` take the
host and state the whole new log. `DownloadDbsnp` also returns the paths that
each success reports (the value logged at line 87).

Things the model makes explicit:

- "The URL appears exactly once in the command" holds only when the URL differs
  from the program name, every option, the directory text and the file name.
  `UrlOccurrences` states this as an if-and-only-if.
- `--out` is absent for `filename=None` and for `filename=""` alike
  (Python truthiness).
- A URL ending in `/` has an empty basename. `pathlib` drops the empty
  component, so the "downloaded" path returned is then the output directory
  itself (`OutputPathInDir`).
- The docstring says a missing `aria2c` raises `RuntimeError`. The code lets
  the `OSError` from `subprocess.run` propagate instead. The model follows the
  code: that case is `ToolUnavailable(reason)`, whose message is the OS
  error's text and not "Failed to download ...".

## Model

| member | source | states |
|---|---|---|
| `Strings.Split` | pyvariantdb/download.py:58 | `url.split("/")` always has at least one element |
| `Strings.SplitSegments` | pyvariantdb/download.py:58 | no element of the split contains `/`, and there is one element more than the URL has `/` characters |
| `Strings.JoinSplit` | pyvariantdb/download.py:58 | joining the split back with `/` gives the original URL |
| `Strings.SplitJoin` | pyvariantdb/download.py:58 | splitting the `/`-join of slash-free segments gives those segments back |
| `Strings.BasenameHasNoSlash` | pyvariantdb/download.py:58 | `url.split("/")[-1]` never contains `/`, so it is never a rooted name |
| `Strings.BasenameIsLastSegment` | pyvariantdb/download.py:58 | the basename has no `/`, is a suffix of the URL, and what precedes it is empty or ends in `/` |
| `Strings.BasenameUnique` | pyvariantdb/download.py:84 | any slash-free suffix that is the whole URL or follows a `/` is the basename |
| `Strings.BasenameWithoutSlash` | pyvariantdb/download.py:58 | a URL without `/` is its own basename |
| `Strings.BasenameAfterTrailingSlash` | pyvariantdb/download.py:58 | a URL ending in `/` has the empty basename |
| `Paths.Parse` | pyvariantdb/download.py:56 | a parsed path never holds an empty, `.` or `/`-containing component |
| `Paths.Str` | pyvariantdb/download.py:32 | the text of a well-formed path is never empty, and starts with `/` if and only if the path is rooted |
| `Paths.ParseStr` | pyvariantdb/download.py:32 | parsing `str(path)` gives the path back |
| `Paths.Join` | pyvariantdb/download.py:56-58 | `dir / name` is well-formed when `dir` is; a name starting with `/` replaces the directory; any other name keeps the directory's root and components as a prefix |
| `Paths.JoinSegment` | pyvariantdb/download.py:56 | `dir / name` for a plain name is `dir` with exactly that component appended |
| `Paths.JoinNothing` | pyvariantdb/download.py:58 | `dir / ""` and `dir / "."` are `dir` |
| `Aria2.Host.MakeDirs` | pyvariantdb/download.py:26 | the host's log grows by exactly one directory-creation entry for that directory |
| `Aria2.Host.Run` | pyvariantdb/download.py:48 | the host's log grows by exactly one spawn of that command, and the reply is the transport's answer to it |
| `Aria2.CommandLayout` | pyvariantdb/download.py:29-44 | the command is `aria2c --dir <dir>`, then the six fixed options in source order, then `--out <filename>` only for a truthy file name, then the URL last (12 or 10 elements) |
| `Aria2.OutFlagIffFilename` | pyvariantdb/download.py:41-42 | `--out` occurs before the URL if and only if the file name is truthy, `None` and `""` both being false (or the directory text is itself `--out`) |
| `Aria2.UrlOccurrences` | pyvariantdb/download.py:44 | the URL is the last element; it occurs exactly once if and only if it differs from the program name, every option, the directory text and a truthy file name |
| `Aria2.DirArgumentNamesOutputDir` | pyvariantdb/download.py:31-32 | the `--dir` argument reads back as the output directory |
| `Aria2.ErrorFor` | pyvariantdb/download.py:48-52 | a failed run raises the transfer error (carrying the URL and the captured stderr) if and only if the process ran, and otherwise the launch error carrying the OS reason |
| `Aria2.Message` | pyvariantdb/download.py:52 | a transfer failure's message is `Failed to download `, then the URL, then `: `, then the captured stderr |
| `Aria2.OutputPath` | pyvariantdb/download.py:54-58 | a truthy file name starting with `/` gives that path alone; otherwise the path keeps the output directory's root and components as a prefix, which the URL's basename always does |
| `Aria2.OutputPathInDir` | pyvariantdb/download.py:55-58 | with the chosen name (the file name if truthy, else the URL's basename): a name starting with `/` replaces the directory; a single plain component (`IsSegment`: non-empty, not `.`, no `/`) is appended to the directory; an empty or `.` name gives the directory itself |
| `Aria2.DownloadWithAria2` | pyvariantdb/download.py:10-60 | the host's log grows by the directory creation and then exactly the command of `CommandLayout`, and by nothing else; succeeds if and only if the process ran and exited 0; on success returns the output path; otherwise raises the transfer error (URL and stderr) or the launch error, and returns no path |
| `Dbsnp.FirstFailure` | pyvariantdb/download.py:82-90 | the index of the first URL whose download fails: every earlier one succeeds, and the one at that index, if any, fails |
| `Dbsnp.FirstFailureStep` | pyvariantdb/download.py:82-90 | from a position not past the first failure, a failing URL there is the first failure and a succeeding one lies before it |
| `Dbsnp.BasenameFilenameAgrees` | pyvariantdb/download.py:84-86 | passing the basename as the file name yields `destination_dir / basename(url)` through either branch of lines 55-58, the empty basename included |
| `Dbsnp.JobCommandNamesBasename` | pyvariantdb/download.py:84-86 | the job's command ends with the URL and carries `--out basename` right before it when the basename is non-empty |
| `Dbsnp.JobSpawnsUrls` | pyvariantdb/download.py:82-86 | the job's log for the first n URLs spawns one command per URL, for exactly those n URLs, in list order |
| `Dbsnp.JobEventsAt` | pyvariantdb/download.py:82-86 | the job's log for n URLs has 2n entries: entry 2j creates the directory and entry 2j+1 spawns the command for URL j |
| `Dbsnp.DownloadOne` | pyvariantdb/download.py:83-86 | one turn of the loop: the log grows by the directory creation and the spawn of the job's command; it succeeds if and only if that URL does not fail, returning `destination_dir / basename(url)`, and otherwise returns that URL's error |
| `Dbsnp.DownloadDbsnp` | pyvariantdb/download.py:63-92 | with k the first failing index: the job succeeds if and only if no download fails; on failure it re-raises the exact error for URL k; the host's log grows by the entries for URLs 0..k (all URLs on success) in order and by nothing else, so no later URL is attempted; the reported paths are `destination_dir / basename(url)` for URLs before k |
| `Dbsnp.IndexFailureScenario` | pyvariantdb/download.py:82-90 | when the data file's reply is a success, whatever its output, and the index exits non-zero: the job raises the index's transfer error, the data file's path was reported, and the host's log grows by exactly the data file's directory creation and spawn, then the index's |

`Strings.Basename`, `Aria2.HasFilename` and `Aria2.Command` are plain
definitions. Their properties are stated by `BasenameIsLastSegment`,
`OutFlagIffFilename` and `CommandLayout` respectively.

## Left out

- Running `aria2c` through `subprocess.run` (line 48) is replaced by the
  transport oracle. The oracle depends only on the argument vector, so two
  identical commands get the same reply.
- Segmented, parallel, resumed and overwriting transfer, and reassembly, all
  happen inside `aria2c`. The model proves only that the flags for them are
  passed (`CommandLayout`).
- `output_dir.mkdir(parents=True, exist_ok=True)` (line 26) is
  `Host.MakeDirs`, which appends a `MakeDir` entry to the host's log ahead of
  the spawn. Its failure (a directory that cannot be created) is not modelled,
  and neither is the file system's state.
- All `logger` calls (lines 47, 51, 73, 80, 85, 87, 89, 92) are left out. They
  have no effect on behaviour. The path logged at line 87 is returned as
  `downloaded`.
- `get_cache_dir()` (line 79) is a parameter, `destinationDir`. Its module,
  `pyvariantdb/const.py`, is not part of this model.
- The two hard-coded NCBI URLs (lines 75-78) are a parameter, `urls`.
  `IndexFailureScenario` is the two-file instance.
- `pyvariantdb/__init__.py` only reads the package version.
- The `__main__` entry point (lines 95-96).
- Exceptions other than a non-zero exit status or a failed launch (an
  interrupt, an error inside logging) are not modelled.
- `pathlib` details outside POSIX relative and `/`-rooted paths are not
  modelled: the preserved `//` root and Windows paths.
