/** One download: the `aria2c` argument vector, the transport call, the error
    raised on failure and the path returned on success. */
module Aria2 {
  import opened Wrappers
  import opened Strings
  import opened Paths

  /** The executable that performs the transfer. */
  const Program: string := "aria2c"

  /** The options that switch on segmented, resumable, overwriting downloads. */
  const FixedOptions: seq<string> := [
    "--max-connection-per-server=16",
    "--split=16",
    "--min-split-size=1M",
    "--continue=true",
    "--allow-overwrite=true",
    "--auto-file-renaming=false"
  ]

  /** What the operating system reports for one run of the transport: the
      process ran and exited with a status and captured stderr, or it could not
      be started at all (the executable is missing, for one). */
  datatype ProcessResult =
    | Completed(returncode: int, stderr: string)
    | LaunchFailed(reason: string)

  /** The transport oracle: what running a given argument vector reports. */
  type Transport = seq<string> -> ProcessResult

  /** The exceptions a download can raise. */
  datatype DownloadError =
    | TransferFailed(url: string, stderr: string)  // non-zero exit status
    | ToolUnavailable(reason: string)               // the process did not start

  /** A side effect the download code requests from the operating system. */
  datatype Effect = MakeDir(dir: Path) | Spawn(cmd: seq<string>)

  /** The operating system as the download code sees it: what running a
      command reports, and a record of every effect requested so far. */
  class Host {
    const reply: Transport
    ghost var events: seq<Effect>

    constructor (reply: Transport)
      ensures this.reply == reply && events == []
    {
      this.reply := reply;
      events := [];
    }

    /** `dir.mkdir(parents=True, exist_ok=True)`. */
    method MakeDirs(dir: Path)
      modifies this
      ensures events == old(events) + [MakeDir(dir)]
    {
      events := events + [MakeDir(dir)];
    }

    /** `subprocess.run(cmd, capture_output=True, text=True)`. */
    method Run(cmd: seq<string>) returns (r: ProcessResult)
      modifies this
      ensures events == old(events) + [Spawn(cmd)]
      ensures r == reply(cmd)
    {
      r := reply(cmd);
      events := events + [Spawn(cmd)];
    }
  }

  /** Python truthiness of the optional file name: `None` and `""` are false. */
  predicate HasFilename(filename: Option<string>)
  {
    filename.Some? && filename.value != ""
  }

  /** The `--out` pair, present only for a truthy file name. */
  function OutOption(filename: Option<string>): seq<string>
  {
    if HasFilename(filename) then ["--out", filename.value] else []
  }

  /** The argument vector for downloading `url` into the directory whose text
      is `dirText`. */
  function Command(url: string, dirText: string, filename: Option<string>): seq<string>
  {
    [Program, "--dir", dirText] + FixedOptions + OutOption(filename) + [url]
  }

  /** The fixed layout: program, directory, the six options in order, then the
      optional `--out` pair right before the URL, which comes last. */
  lemma CommandLayout(url: string, dirText: string, filename: Option<string>)
    ensures var cmd := Command(url, dirText, filename);
      && |cmd| == (if HasFilename(filename) then 12 else 10)
      && cmd[..3] == [Program, "--dir", dirText]
      && cmd[3..9] == FixedOptions
      && cmd[9..] == (if HasFilename(filename) then ["--out", filename.value, url] else [url])
      && cmd[|cmd| - 1] == url
  {
  }

  /** `--out` occurs before the URL exactly when a truthy file name was given,
      unless the directory text itself is `--out`. */
  lemma OutFlagIffFilename(url: string, dirText: string, filename: Option<string>)
    ensures var cmd := Command(url, dirText, filename);
      ("--out" in cmd[..|cmd| - 1]) <==> (HasFilename(filename) || dirText == "--out")
  {
    var cmd := Command(url, dirText, filename);
    assert cmd[..|cmd| - 1] == [Program, "--dir", dirText] + FixedOptions + OutOption(filename);
    assert "--out" !in FixedOptions by {
      forall k | 0 <= k < |FixedOptions| ensures FixedOptions[k] != "--out" {
        assert FixedOptions[k][2] != "--out"[2];
      }
    }
  }

  /** The URL is the last argument; it occurs nowhere else unless it coincides
      with the program name, an option, the directory text or the file name. */
  lemma UrlOccurrences(url: string, dirText: string, filename: Option<string>)
    ensures var cmd := Command(url, dirText, filename);
      && cmd[|cmd| - 1] == url
      && (multiset(cmd)[url] == 1 <==>
            url != Program && url != "--dir" && url != dirText && url !in FixedOptions
            && !(HasFilename(filename) && (url == "--out" || url == filename.value)))
  {
    var cmd := Command(url, dirText, filename);
    var head := [Program, "--dir", dirText] + FixedOptions;
    var prefix := head + OutOption(filename);
    assert cmd == prefix + [url];
    assert multiset(cmd) == multiset(prefix) + multiset{url};
    assert multiset(prefix)[url] == 0 <==> url !in prefix;
    assert url in head <==> url == Program || url == "--dir" || url == dirText || url in FixedOptions;
    assert url in prefix <==> url in head || url in OutOption(filename);
  }

  /** Whether the transport reported success. */
  predicate Succeeded(reply: ProcessResult)
  {
    reply.Completed? && reply.returncode == 0
  }

  /** The exception raised for a failed run of the transport. */
  function ErrorFor(url: string, reply: ProcessResult): (e: DownloadError)
    requires !Succeeded(reply)
    ensures e.TransferFailed? <==> reply.Completed?
    ensures e.TransferFailed? ==> e.url == url && e.stderr == reply.stderr
    ensures e.ToolUnavailable? ==> e.reason == reply.reason
  {
    match reply
    case Completed(_, stderr) => TransferFailed(url, stderr)
    case LaunchFailed(reason) => ToolUnavailable(reason)
  }

  const FailurePrefix: string := "Failed to download "

  /** The text of the raised exception: a transfer failure's message names
      the URL right after the prefix and ends with the captured stderr. */
  function Message(e: DownloadError): (m: string)
    ensures e.TransferFailed? ==>
      && |m| == |FailurePrefix| + |e.url| + 2 + |e.stderr|
      && m[..|FailurePrefix|] == FailurePrefix
      && m[|FailurePrefix|..|FailurePrefix| + |e.url|] == e.url
      && m[|FailurePrefix| + |e.url|..|m| - |e.stderr|] == ": "
      && m[|m| - |e.stderr|..] == e.stderr
  {
    match e
    case TransferFailed(url, stderr) => FailurePrefix + url + ": " + stderr
    case ToolUnavailable(reason) => reason
  }

  /** The path a successful download returns: `output_dir / filename` for a
      truthy file name, otherwise `output_dir / url.split("/")[-1]`. It lies
      inside the output directory unless a file name starting with `/` replaces
      the directory; the URL's basename never does. */
  function OutputPath(url: string, outputDir: Path, filename: Option<string>): (p: Path)
    ensures HasFilename(filename) && filename.value[0] == '/' ==> p == Parse(filename.value)
    ensures !(HasFilename(filename) && filename.value[0] == '/') ==>
      && p.absolute == outputDir.absolute
      && |outputDir.parts| <= |p.parts| && p.parts[..|outputDir.parts|] == outputDir.parts
  {
    BasenameHasNoSlash(url);
    if HasFilename(filename) then Join(outputDir, filename.value)
    else Join(outputDir, Basename(url))
  }

  /** The name actually appended to the directory. */
  function ChosenName(url: string, filename: Option<string>): string
  {
    if HasFilename(filename) then filename.value else Basename(url)
  }

  /** When the chosen name is a single plain component, the returned path is
      the directory with that one component more; when the name is empty or `.`
      (a URL ending in `/`, say), it is the directory itself; a name starting
      with `/` replaces the directory. */
  lemma OutputPathInDir(url: string, outputDir: Path, filename: Option<string>)
    ensures var name := ChosenName(url, filename);
      && (|name| > 0 && name[0] == '/' ==> OutputPath(url, outputDir, filename) == Parse(name))
      && (IsSegment(name) ==>
            OutputPath(url, outputDir, filename) == Path(outputDir.absolute, outputDir.parts + [name]))
      && (name == "" || name == "." ==> OutputPath(url, outputDir, filename) == outputDir)
  {
    var name := ChosenName(url, filename);
    assert OutputPath(url, outputDir, filename) == Join(outputDir, name);
    if IsSegment(name) {
      JoinSegment(outputDir, name);
    } else if name == "" || name == "." {
      JoinNothing(outputDir, name);
    }
  }

  /** The `--dir` argument is the text of the output directory, and reading it
      back gives that same directory: `aria2c` writes where the returned path
      points. */
  lemma DirArgumentNamesOutputDir(url: string, outputDir: Path, filename: Option<string>)
    requires Valid(outputDir)
    ensures var cmd := Command(url, Str(outputDir), filename);
      cmd[1] == "--dir" && Parse(cmd[2]) == outputDir
  {
    ParseStr(outputDir);
  }

  /** `download_with_aria2(url, output_dir, filename)`: request the directory,
      build the argument vector, run the transport once, raise on failure, and
      otherwise return the output path. */
  method DownloadWithAria2(url: string, outputDir: Path, filename: Option<string>, host: Host)
    returns (result: Result<Path, DownloadError>)
    modifies host
    ensures host.events == old(host.events) + [MakeDir(outputDir), Spawn(Command(url, Str(outputDir), filename))]
    ensures var reply := host.reply(Command(url, Str(outputDir), filename));
      && (result.Success? <==> Succeeded(reply))
      && (result.Success? ==> result.value == OutputPath(url, outputDir, filename))
      && (result.Failure? ==> result.error == ErrorFor(url, reply))
  {
    host.MakeDirs(outputDir);
    var cmd := [
      "aria2c",
      "--dir",
      Str(outputDir),
      "--max-connection-per-server=16",
      "--split=16",
      "--min-split-size=1M",
      "--continue=true",
      "--allow-overwrite=true",
      "--auto-file-renaming=false"
    ];
    if HasFilename(filename) {
      cmd := cmd + ["--out", filename.value];
    }
    cmd := cmd + [url];
    assert cmd == Command(url, Str(outputDir), filename) by {
      assert cmd[..9] == [Program, "--dir", Str(outputDir)] + FixedOptions;
      assert cmd == cmd[..9] + OutOption(filename) + [url];
    }
    var reply := host.Run(cmd);
    match reply {
      case LaunchFailed(reason) =>
        result := Failure(ToolUnavailable(reason));
      case Completed(returncode, stderr) =>
        if returncode != 0 {
          result := Failure(TransferFailed(url, stderr));
        } else {
          result := Success(OutputPath(url, outputDir, filename));
        }
    }
  }
}
