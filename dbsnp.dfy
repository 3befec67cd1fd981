/** The multi-file job: download every URL of an ordered list into one
    directory, one at a time, each under its own basename, stopping at the
    first failure and re-raising its exception. */
module Dbsnp {
  import opened Wrappers
  import opened Strings
  import opened Paths
  import opened Aria2

  /** The path the job expects for `url`: `destination_dir / basename(url)`. */
  function JobPath(url: string, destinationDir: Path): Path
  {
    Join(destinationDir, Basename(url))
  }

  /** The argument vector the job hands to the transport for `url`. */
  function JobCommand(url: string, destinationDir: Path): seq<string>
  {
    Command(url, Str(destinationDir), Some(Basename(url)))
  }

  /** Whether the transport reports failure for the job's download of `url`. */
  predicate Fails(url: string, destinationDir: Path, run: Transport)
  {
    !Succeeded(run(JobCommand(url, destinationDir)))
  }

  /** The index of the first URL whose download fails, or `|urls|` when none
      does. */
  function FirstFailure(urls: seq<string>, destinationDir: Path, run: Transport): (k: nat)
    ensures k <= |urls|
    ensures forall j :: 0 <= j < k ==> !Fails(urls[j], destinationDir, run)
    ensures k < |urls| ==> Fails(urls[k], destinationDir, run)
    decreases |urls|
  {
    if urls == [] then 0
    else if Fails(urls[0], destinationDir, run) then 0
    else 1 + FirstFailure(urls[1..], destinationDir, run)
  }

  /** Where the first failure lies, seen from a position not past it. */
  lemma FirstFailureStep(urls: seq<string>, destinationDir: Path, run: Transport, i: nat)
    requires i < |urls| && i <= FirstFailure(urls, destinationDir, run)
    ensures Fails(urls[i], destinationDir, run) ==> FirstFailure(urls, destinationDir, run) == i
    ensures !Fails(urls[i], destinationDir, run) ==> i < FirstFailure(urls, destinationDir, run)
  {
  }

  /** Passing the URL's own basename as the file name gives
      `destination_dir / basename(url)` whichever branch of the output-path
      choice is taken, the empty basename included. */
  lemma BasenameFilenameAgrees(url: string, destinationDir: Path)
    ensures OutputPath(url, destinationDir, Some(Basename(url))) == JobPath(url, destinationDir)
  {
  }

  /** The job's argument vector for `url` carries `--out basename` right before
      the URL when the basename is non-empty, and ends with the URL. */
  lemma JobCommandNamesBasename(url: string, destinationDir: Path)
    ensures var cmd := JobCommand(url, destinationDir);
      && |cmd| > 0 && cmd[|cmd| - 1] == url
      && (Basename(url) != "" ==> |cmd| == 12 && cmd[9..] == ["--out", Basename(url), url])
      && (Basename(url) == "" ==> |cmd| == 10)
  {
    CommandLayout(url, Str(destinationDir), Some(Basename(url)));
  }

  /** `downloaded` holds the expected path of each of the first
      `|downloaded|` URLs, in order. */
  predicate PathsFor(downloaded: seq<Path>, urls: seq<string>, destinationDir: Path)
  {
    |downloaded| <= |urls|
    && forall j :: 0 <= j < |downloaded| ==> downloaded[j] == JobPath(urls[j], destinationDir)
  }

  /** One more expected path keeps `PathsFor`. */
  lemma PathsForAppend(downloaded: seq<Path>, urls: seq<string>, destinationDir: Path)
    requires PathsFor(downloaded, urls, destinationDir) && |downloaded| < |urls|
    ensures PathsFor(downloaded + [JobPath(urls[|downloaded|], destinationDir)], urls, destinationDir)
  {
  }

  /** The effects the job requests for the first `n` URLs, in order: for
      each URL, the directory creation and then the spawn of its command. */
  function JobEvents(urls: seq<string>, n: nat, destinationDir: Path): seq<Effect>
    requires n <= |urls|
  {
    if n == 0 then []
    else JobEvents(urls, n - 1, destinationDir)
         + [MakeDir(destinationDir), Spawn(JobCommand(urls[n - 1], destinationDir))]
  }

  /** The URL of every spawned command in `events`, in order: the URLs that
      were attempted. */
  function SpawnedUrls(events: seq<Effect>): seq<string>
    decreases |events|
  {
    if events == [] then []
    else
      SpawnedUrls(events[..|events| - 1])
      + match events[|events| - 1]
        case Spawn(cmd) => if cmd == [] then [] else [cmd[|cmd| - 1]]
        case MakeDir(_) => []
  }

  /** Appending to a log in two steps is appending once. */
  lemma AppendAssoc<T>(a: seq<T>, b: seq<T>, c: seq<T>)
    ensures (a + b) + c == a + (b + c)
  {
  }

  /** One more directory creation and spawn add the URL that ends the
      spawned command to the attempted URLs. */
  lemma SpawnedAfterAttempt(events: seq<Effect>, dir: Path, cmd: seq<string>)
    requires cmd != []
    ensures SpawnedUrls(events + [MakeDir(dir), Spawn(cmd)]) == SpawnedUrls(events) + [cmd[|cmd| - 1]]
  {
    var withDir := events + [MakeDir(dir)];
    AppendAssoc(events, [MakeDir(dir)], [Spawn(cmd)]);
    assert [MakeDir(dir)] + [Spawn(cmd)] == [MakeDir(dir), Spawn(cmd)];
    assert (withDir + [Spawn(cmd)])[..|withDir|] == withDir;
    assert withDir[..|events|] == events;
  }

  /** The last element of a non-empty prefix, appended to the shorter prefix,
      gives that prefix. */
  lemma PrefixStep<T>(xs: seq<T>, n: nat)
    requires 0 < n <= |xs|
    ensures xs[..n - 1] + [xs[n - 1]] == xs[..n]
  {
  }

  /** The job spawns one command per URL, in list order: the URLs attempted
      for the first `n` are exactly those `n`, each once. */
  lemma {:induction false} JobSpawnsUrls(urls: seq<string>, n: nat, destinationDir: Path)
    requires n <= |urls|
    ensures SpawnedUrls(JobEvents(urls, n, destinationDir)) == urls[..n]
  {
    if n > 0 {
      JobSpawnsUrls(urls, n - 1, destinationDir);
      JobCommandNamesBasename(urls[n - 1], destinationDir);
      SpawnedAfterAttempt(JobEvents(urls, n - 1, destinationDir), destinationDir,
                          JobCommand(urls[n - 1], destinationDir));
      PrefixStep(urls, n);
    }
  }

  /** Position `2j` of the job's effects creates the directory and position
      `2j + 1` spawns the command for URL `j`: every spawn comes right after a
      directory creation. */
  lemma {:induction false} JobEventsAt(urls: seq<string>, n: nat, destinationDir: Path, j: nat)
    requires j < n <= |urls|
    ensures |JobEvents(urls, n, destinationDir)| == 2 * n
    ensures JobEvents(urls, n, destinationDir)[2 * j] == MakeDir(destinationDir)
    ensures JobEvents(urls, n, destinationDir)[2 * j + 1] == Spawn(JobCommand(urls[j], destinationDir))
  {
    if j < n - 1 {
      JobEventsAt(urls, n - 1, destinationDir, j);
    } else if n > 1 {
      JobEventsAt(urls, n - 1, destinationDir, 0);
    }
  }

  /** One turn of the job's loop: take the URL's basename and download the
      URL under that name into `destinationDir`. */
  method DownloadOne(url: string, destinationDir: Path, host: Host)
    returns (result: Result<Path, DownloadError>)
    modifies host
    ensures host.events == old(host.events) + [MakeDir(destinationDir), Spawn(JobCommand(url, destinationDir))]
    ensures result.Success? <==> !Fails(url, destinationDir, host.reply)
    ensures result.Success? ==> result.value == JobPath(url, destinationDir)
    ensures result.Failure? ==> result.error == ErrorFor(url, host.reply(JobCommand(url, destinationDir)))
  {
    var filename := Basename(url);
    result := DownloadWithAria2(url, destinationDir, Some(filename), host);
    BasenameFilenameAgrees(url, destinationDir);
  }

  /** `download_dbsnp` over the list `urls` and the cache directory
      `destinationDir`: the outcome and the paths reported for the files that
      were downloaded; the host records every directory creation and spawn. */
  method DownloadDbsnp(urls: seq<string>, destinationDir: Path, host: Host)
    returns (outcome: Outcome<DownloadError>, downloaded: seq<Path>)
    modifies host
    ensures var k := FirstFailure(urls, destinationDir, host.reply);
      && (outcome.Pass? <==> k == |urls|)
      && (outcome.Fail? ==> outcome.error == ErrorFor(urls[k], host.reply(JobCommand(urls[k], destinationDir))))
      && |downloaded| == k && PathsFor(downloaded, urls, destinationDir)
      && host.events == old(host.events) + JobEvents(urls, if k < |urls| then k + 1 else k, destinationDir)
  {
    outcome, downloaded := Pass, [];
    ghost var start := host.events;
    var i := 0;
    while i < |urls|
      invariant 0 <= i <= |urls|
      invariant i <= FirstFailure(urls, destinationDir, host.reply)
      invariant |downloaded| == i && PathsFor(downloaded, urls, destinationDir)
      invariant host.events == start + JobEvents(urls, i, destinationDir)
    {
      var result := DownloadOne(urls[i], destinationDir, host);
      AppendAssoc(start, JobEvents(urls, i, destinationDir),
                  [MakeDir(destinationDir), Spawn(JobCommand(urls[i], destinationDir))]);
      FirstFailureStep(urls, destinationDir, host.reply, i);
      match result {
        case Failure(e) =>
          outcome := Fail(e);
          return;
        case Success(outputPath) =>
          PathsForAppend(downloaded, urls, destinationDir);
          downloaded := downloaded + [outputPath];
      }
      i := i + 1;
    }
  }

  /** A data file and its index: when the data file arrives and the index
      transfer exits with a non-zero status, the job raises the index's
      transfer error, the data file's path was reported, and both were
      attempted, the data file first. */
  method IndexFailureScenario(dataUrl: string, indexUrl: string, destinationDir: Path,
                              host: Host, stderr: string, status: int)
    returns (outcome: Outcome<DownloadError>, downloaded: seq<Path>)
    requires Succeeded(host.reply(JobCommand(dataUrl, destinationDir)))
    requires status != 0 && host.reply(JobCommand(indexUrl, destinationDir)) == Completed(status, stderr)
    modifies host
    ensures outcome == Fail(TransferFailed(indexUrl, stderr))
    ensures downloaded == [JobPath(dataUrl, destinationDir)]
    ensures host.events == old(host.events)
      + [MakeDir(destinationDir), Spawn(JobCommand(dataUrl, destinationDir)),
         MakeDir(destinationDir), Spawn(JobCommand(indexUrl, destinationDir))]
  {
    var urls := [dataUrl, indexUrl];
    assert urls[1..] == [indexUrl];
    assert FirstFailure(urls, destinationDir, host.reply) == 1;
    ghost var start := host.events;
    outcome, downloaded := DownloadDbsnp(urls, destinationDir, host);
    ghost var first := [MakeDir(destinationDir), Spawn(JobCommand(dataUrl, destinationDir))];
    ghost var second := [MakeDir(destinationDir), Spawn(JobCommand(indexUrl, destinationDir))];
    assert JobEvents(urls, 1, destinationDir) == first;
    AppendAssoc(start, first, second);
    assert first + second == [MakeDir(destinationDir), Spawn(JobCommand(dataUrl, destinationDir)),
                              MakeDir(destinationDir), Spawn(JobCommand(indexUrl, destinationDir))];
  }
}
