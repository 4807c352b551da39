/**
 * `download_file`: skip a file that exists, simulate in a dry run, otherwise create the
 * directory and run wget. The filesystem is the set of existing paths; the directory
 * creation and the wget run are recorded as effects; wget's exit code is an input.
 */
module Download {
  import opened Paths

  const WgetPath := @"C:\\Users\\local-user\\wget.exe"

  /** The two things `download_file` does to the world outside the model. */
  datatype Effect = MakeDirs(dir: string) | RunTool(argv: seq<string>)

  /** The four outcomes, in the order of precedence the function checks them. */
  datatype DownloadOutcome = Skipped | DryRun(url: string) | Failed(url: string) | Downloaded(name: string)

  /** One call of `download_file`: its arguments, its outcome and its effects. */
  datatype Download = Download(url: string, path: string, outcome: DownloadOutcome, effects: seq<Effect>)

  /** The line `download_file` returns for each outcome. */
  function Message(outcome: DownloadOutcome): string {
    match outcome
    case Skipped => "[SKIP] Already exists"
    case DryRun(url) => "[DRY-RUN] Would download " + url
    case Failed(url) => "[FAIL] Download failed: " + url
    case Downloaded(name) => "[OK] Downloaded: " + name
  }

  /** The wget command line: no certificate check, forced bar progress, output to `path`. */
  function WgetCommand(path: string, url: string): seq<string> {
    [WgetPath, "--no-check-certificate", "--progress=bar:force:noscroll", "-O", path, url]
  }

  /**
   * The precedence of `download_file`: an existing path is skipped whatever the dry-run flag,
   * a dry run on a missing path is simulated, and in neither case is a directory created or
   * a process run; otherwise the parent directory is created, wget runs once, and its exit
   * code decides between failure (non-zero, naming the URL) and success (naming the file).
   */
  predicate FollowsPrecedence(d: Download, dryRun: bool, exitCode: int, existing: set<string>) {
    if d.path in existing then
      d.outcome == Skipped && d.effects == []
    else if dryRun then
      d.outcome == DryRun(d.url) && d.effects == []
    else
      && d.effects == [MakeDirs(Dirname(d.path)), RunTool(WgetCommand(d.path, d.url))]
      && d.outcome == if exitCode != 0 then Failed(d.url) else Downloaded(Basename(d.path))
  }

  method DownloadFile(url: string, path: string, dryRun: bool, existing: set<string>, exitCode: int)
    returns (outcome: DownloadOutcome, effects: seq<Effect>)
    ensures FollowsPrecedence(Download(url, path, outcome, effects), dryRun, exitCode, existing)
  {
    effects := [];
    if path in existing {
      return Skipped, effects;
    }
    if dryRun {
      return DryRun(url), effects;
    }
    effects := effects + [MakeDirs(Dirname(path))];
    effects := effects + [RunTool(WgetCommand(path, url))];
    if exitCode != 0 {
      return Failed(url), effects;
    }
    return Downloaded(Basename(path)), effects;
  }

  /**
   * Effects happen exactly when wget is run: skip and dry run leave the world alone, and a
   * run creates one directory and starts one process. The outcome is determined by the inputs.
   */
  lemma PrecedenceEffects(d: Download, e: Download, dryRun: bool, exitCode: int, existing: set<string>)
    requires FollowsPrecedence(d, dryRun, exitCode, existing)
    requires FollowsPrecedence(e, dryRun, exitCode, existing) && e.url == d.url && e.path == d.path
    ensures d.outcome.Skipped? <==> d.path in existing
    ensures d.effects == [] <==> d.outcome.Skipped? || d.outcome.DryRun?
    ensures d.outcome.Failed? || d.outcome.Downloaded? ==> |d.effects| == 2 && d.effects[1].RunTool?
    ensures e == d
  {
  }

  /**
   * When the path is a directory joined with a plain file name, a successful download
   * reports that file name.
   */
  lemma DownloadedNamesFile(url: string, dir: string, name: string, outcome: DownloadOutcome,
                            effects: seq<Effect>, exitCode: int, existing: set<string>)
    requires '/' !in name
    requires FollowsPrecedence(Download(url, Join(dir, name), outcome, effects), false, exitCode, existing)
    requires Join(dir, name) !in existing && exitCode == 0
    ensures Message(outcome) == "[OK] Downloaded: " + name
    ensures effects[0] == MakeDirs(dir)
  {
    JoinSplits(dir, name);
  }
}
