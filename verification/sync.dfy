/**
 * `sync`: for every target subdirectory and, inside it, every month in order, list the
 * remote directory and hand each listed file to `download_file`. The listing of a URL and
 * wget's exit code for a file URL are inputs (`fetch`, `exitCode`); the filesystem is the
 * set of existing paths, which grows by every file downloaded.
 */
module Sync {
  import opened Wrappers
  import opened Calendar
  import opened Months
  import opened Paths
  import opened Instruments
  import opened Listing
  import opened Download
  import opened Plan

  /** A file `download_file` is called for: `urljoin(remote_url, file)` and its local path. */
  datatype Request = Request(url: string, path: string)

  /** One (subdirectory, month) pair: the directories it names and its listing. */
  datatype Visit = Visit(subdir: string, month: YearMonth, remoteUrl: string, localDir: string,
                         listing: Listing)
  {
    /** The files handed to `download_file`: none unless the listing is ok. */
    function Requests(): seq<Request> {
      if listing.ListOk? then FileRequests(listing.files, remoteUrl, localDir) else []
    }
  }

  /** A finished run: the visits in order, every `download_file` call in order, and the files present afterwards. */
  datatype SyncRun = SyncRun(visits: seq<Visit>, log: seq<Download>, present: set<string>)

  predicate AllValid(months: seq<YearMonth>) {
    forall k :: 0 <= k < |months| ==> months[k].Valid()
  }

  predicate ValidPairs(pairs: seq<Pair>) {
    forall k :: 0 <= k < |pairs| ==> pairs[k].month.Valid()
  }

  /** The requests for the files of one listing, in listing order. */
  function FileRequests(files: seq<string>, remoteUrl: string, localDir: string): (r: seq<Request>)
    ensures |r| == |files|
  {
    if files == [] then []
    else
      var name := files[|files| - 1];
      FileRequests(files[..|files| - 1], remoteUrl, localDir) + [Request(remoteUrl + name, Join(localDir, name))]
  }

  /** Request `k` downloads file `k` of the listing into the local directory. */
  lemma {:induction false} FileRequestsAt(files: seq<string>, remoteUrl: string, localDir: string)
    ensures |FileRequests(files, remoteUrl, localDir)| == |files|
    ensures forall k :: 0 <= k < |files| ==>
      FileRequests(files, remoteUrl, localDir)[k] == Request(remoteUrl + files[k], Join(localDir, files[k]))
    decreases |files|
  {
    if files != [] {
      FileRequestsAt(files[..|files| - 1], remoteUrl, localDir);
    }
  }

  /** What one iteration of the inner loop of `sync` looks at and asks for. */
  function VisitOf(instrument: string, subdir: string, ym: YearMonth, fetch: string -> Response): Visit
    requires ym.Valid()
  {
    var remoteUrl := RemoteDir(instrument, subdir, ym);
    var localDir := LocalDir(instrument, subdir, ym);
    Visit(subdir, ym, remoteUrl, localDir, ListRemoteFiles(fetch(remoteUrl)))
  }


  /** The visits for a sequence of pairs, in order. */
  function VisitsOf(instrument: string, pairs: seq<Pair>, fetch: string -> Response): seq<Visit>
    requires ValidPairs(pairs)
  {
    if pairs == [] then []
    else
      var last := pairs[|pairs| - 1];
      VisitsOf(instrument, pairs[..|pairs| - 1], fetch) + [VisitOf(instrument, last.subdir, last.month, fetch)]
  }

  lemma {:induction false} VisitsOfAt(instrument: string, pairs: seq<Pair>, fetch: string -> Response)
    requires ValidPairs(pairs)
    ensures |VisitsOf(instrument, pairs, fetch)| == |pairs|
    ensures forall k :: 0 <= k < |pairs| ==>
      VisitsOf(instrument, pairs, fetch)[k] == VisitOf(instrument, pairs[k].subdir, pairs[k].month, fetch)
    decreases |pairs|
  {
    if pairs != [] {
      var init := pairs[..|pairs| - 1];
      VisitsOfAt(instrument, init, fetch);
      var visits := VisitsOf(instrument, pairs, fetch);
      assert visits == VisitsOf(instrument, init, fetch) + [visits[|pairs| - 1]];
      forall k | 0 <= k < |init|
        ensures visits[k] == VisitOf(instrument, pairs[k].subdir, pairs[k].month, fetch)
      {
        assert pairs[k] == init[k];
      }
    }
  }

  /** Every request of a sequence of visits, in visiting order. */
  function AllRequests(visits: seq<Visit>): seq<Request> {
    if visits == [] then [] else AllRequests(visits[..|visits| - 1]) + visits[|visits| - 1].Requests()
  }

  /** The arguments of a sequence of `download_file` calls. */
  function CallArgs(log: seq<Download>): seq<Request> {
    if log == [] then [] else CallArgs(log[..|log| - 1]) + [Request(log[|log| - 1].url, log[|log| - 1].path)]
  }

  lemma {:induction false} CallArgsAt(log: seq<Download>)
    ensures |CallArgs(log)| == |log|
    ensures forall k :: 0 <= k < |log| ==> CallArgs(log)[k] == Request(log[k].url, log[k].path)
    decreases |log|
  {
    if log != [] {
      CallArgsAt(log[..|log| - 1]);
    }
  }

  /** The files present after a sequence of calls: the initial ones and those downloaded. */
  function Written(existing: set<string>, log: seq<Download>): set<string> {
    if log == [] then existing
    else
      var last := log[|log| - 1];
      Written(existing, log[..|log| - 1]) + if last.outcome.Downloaded? then {last.path} else {}
  }

  /** Every call followed the precedence of `download_file` against the files present at that moment. */
  predicate LogFollowsPrecedence(log: seq<Download>, dryRun: bool, exitCode: string -> int, existing: set<string>) {
    forall k :: 0 <= k < |log| ==>
      FollowsPrecedence(log[k], dryRun, exitCode(log[k].url), Written(existing, log[..k]))
  }

  lemma WrittenAppend(existing: set<string>, log: seq<Download>, d: Download)
    ensures Written(existing, log + [d]) == Written(existing, log) + if d.outcome.Downloaded? then {d.path} else {}
  {
    assert (log + [d])[..|log|] == log;
  }

  /** The files present only grow: earlier files stay, and every downloaded file is present. */
  lemma {:induction false} WrittenGrows(existing: set<string>, log: seq<Download>, k: nat)
    requires k <= |log|
    ensures existing <= Written(existing, log[..k]) <= Written(existing, log)
    ensures forall i :: 0 <= i < |log| && log[i].outcome.Downloaded? ==> log[i].path in Written(existing, log)
    decreases |log|
  {
    if log != [] {
      var init := log[..|log| - 1];
      if k < |log| {
        WrittenGrows(existing, init, k);
        assert log[..k] == init[..k];
      } else {
        WrittenGrows(existing, init, 0);
        assert log[..k] == log;
      }
    }
  }

  lemma FollowsAppend(log: seq<Download>, d: Download, dryRun: bool, exitCode: string -> int, existing: set<string>)
    requires LogFollowsPrecedence(log, dryRun, exitCode, existing)
    requires FollowsPrecedence(d, dryRun, exitCode(d.url), Written(existing, log))
    ensures LogFollowsPrecedence(log + [d], dryRun, exitCode, existing)
  {
    var log' := log + [d];
    forall k | 0 <= k < |log'|
      ensures FollowsPrecedence(log'[k], dryRun, exitCode(log'[k].url), Written(existing, log'[..k]))
    {
      if k < |log| {
        assert log'[..k] == log[..k];
      } else {
        assert log'[..k] == log;
      }
    }
  }

  /**
   * Each visit lists its remote directory; its local directory has the same
   * instrument/subdir/year/month segments; an auth or error listing leads to no download,
   * and a file listing to one request per file, in order.
   */
  lemma VisitProperties(instrument: string, subdir: string, ym: YearMonth, fetch: string -> Response)
    requires ym.Valid()
    ensures var v := VisitOf(instrument, subdir, ym, fetch);
      && v.listing == ListRemoteFiles(fetch(v.remoteUrl))
      && v.remoteUrl == BaseUrl + v.localDir[|LocalRoot|..] + "/"
      && AllDigits(Basename(v.localDir)) && ParseDecimal(Basename(v.localDir)) == ym.month
      && AllDigits(Basename(Dirname(v.localDir))) && ParseDecimal(Basename(Dirname(v.localDir))) == ym.year
      && Dirname(Dirname(v.localDir)) == LocalRoot + instrument + "/" + subdir
      && (!v.listing.ListOk? ==> v.Requests() == [])
      && (v.listing.ListOk? ==>
            && |v.Requests()| == |v.listing.files|
            && forall k :: 0 <= k < |v.Requests()| ==>
                 v.Requests()[k] == Request(v.remoteUrl + v.listing.files[k], Join(v.localDir, v.listing.files[k])))
  {
    var v := VisitOf(instrument, subdir, ym, fetch);
    DirsAreParallel(instrument, subdir, ym);
    if v.listing.ListOk? {
      FileRequestsAt(v.listing.files, v.remoteUrl, v.localDir);
    }
  }

  /**
   * The pairs `sync` visits for a range that did not overflow all have valid months, and
   * no (subdirectory, month) pair is visited twice.
   */
  lemma SyncPairs(instrument: string, start: YearMonth, end: YearMonth)
    requires start.Valid() && end.Valid()
    ensures AllValid(MonthRange(start, end))
    ensures var pairs := PlanPairs(TargetDirs(instrument), MonthRange(start, end));
      && ValidPairs(pairs)
      && (forall i, j :: 0 <= i < j < |pairs| ==> pairs[i] != pairs[j])
  {
    var dirs := TargetDirs(instrument);
    var months := MonthRange(start, end);
    MonthRangeProperties(start, end);
    PlanPairsFrom(dirs, months);
    PlanPairsOnce(dirs, months);
  }

  lemma ConcatAssoc<T>(a: seq<T>, b: seq<T>, c: seq<T>)
    ensures a + b + c == a + (b + c)
  {
  }

  lemma CallArgsAppend(log: seq<Download>, d: Download)
    ensures CallArgs(log + [d]) == CallArgs(log) + [Request(d.url, d.path)]
  {
    assert (log + [d])[..|log|] == log;
  }

  /**
   * The loop over the files of one listing: call `download_file` for each in listing order,
   * against the files present at that moment.
   */
  method DownloadFiles(files: seq<string>, remoteUrl: string, localDir: string, dryRun: bool,
                       exitCode: string -> int, existing: set<string>,
                       log: seq<Download>, present: set<string>)
    returns (log': seq<Download>, present': set<string>)
    requires LogFollowsPrecedence(log, dryRun, exitCode, existing) && present == Written(existing, log)
    ensures CallArgs(log') == CallArgs(log) + FileRequests(files, remoteUrl, localDir)
    ensures LogFollowsPrecedence(log', dryRun, exitCode, existing) && present' == Written(existing, log')
  {
    log', present' := log, present;
    for k := 0 to |files|
      invariant CallArgs(log') == CallArgs(log) + FileRequests(files[..k], remoteUrl, localDir)
      invariant LogFollowsPrecedence(log', dryRun, exitCode, existing)
      invariant present' == Written(existing, log')
    {
      var fileUrl := remoteUrl + files[k];
      var filePath := Join(localDir, files[k]);
      var outcome, effects := DownloadFile(fileUrl, filePath, dryRun, present', exitCode(fileUrl));
      var call := Download(fileUrl, filePath, outcome, effects);
      FollowsAppend(log', call, dryRun, exitCode, existing);
      WrittenAppend(existing, log', call);
      CallArgsAppend(log', call);
      assert files[..k + 1][..k] == files[..k];
      assert FileRequests(files[..k + 1], remoteUrl, localDir)
          == FileRequests(files[..k], remoteUrl, localDir) + [Request(fileUrl, filePath)];
      ConcatAssoc(CallArgs(log), FileRequests(files[..k], remoteUrl, localDir), [Request(fileUrl, filePath)]);
      log' := log' + [call];
      if outcome.Downloaded? {
        present' := present' + {filePath};
      }
    }
    assert files[..|files|] == files;
  }

  /**
   * The body of the inner loop of `sync` for one pair: build the remote URL and the local
   * directory, list the URL, and unless the listing is auth or error download each listed file.
   */
  method VisitPair(instrument: string, subdir: string, ym: YearMonth, dryRun: bool,
                   fetch: string -> Response, exitCode: string -> int, existing: set<string>,
                   log: seq<Download>, present: set<string>)
    returns (visit: Visit, log': seq<Download>, present': set<string>)
    requires ym.Valid()
    requires LogFollowsPrecedence(log, dryRun, exitCode, existing) && present == Written(existing, log)
    ensures visit == VisitOf(instrument, subdir, ym, fetch)
    ensures CallArgs(log') == CallArgs(log) + visit.Requests()
    ensures LogFollowsPrecedence(log', dryRun, exitCode, existing) && present' == Written(existing, log')
  {
    var remoteUrl := RemoteDir(instrument, subdir, ym);
    var localDir := LocalDir(instrument, subdir, ym);
    var listing := ListRemoteFiles(fetch(remoteUrl));
    if listing.ListOk? {
      log', present' := DownloadFiles(listing.files, remoteUrl, localDir, dryRun, exitCode, existing, log, present);
    } else {
      log', present' := log, present;
      assert CallArgs(log') == CallArgs(log) + [];
    }
    visit := VisitOf(instrument, subdir, ym, fetch);
  }

  lemma {:induction false} VisitsOfAppend(instrument: string, a: seq<Pair>, b: seq<Pair>, fetch: string -> Response)
    requires ValidPairs(a) && ValidPairs(b)
    ensures ValidPairs(a + b)
    ensures VisitsOf(instrument, a + b, fetch) == VisitsOf(instrument, a, fetch) + VisitsOf(instrument, b, fetch)
    decreases |b|
  {
    assert forall k :: 0 <= k < |a + b| ==> (a + b)[k] == if k < |a| then a[k] else b[k - |a|];
    if b == [] {
      assert a + b == a;
    } else {
      var init := b[..|b| - 1];
      assert (a + b)[..|a + b| - 1] == a + init;
      VisitsOfAppend(instrument, a, init, fetch);
    }
  }

  lemma {:induction false} AllRequestsAppend(a: seq<Visit>, b: seq<Visit>)
    ensures AllRequests(a + b) == AllRequests(a) + AllRequests(b)
    decreases |b|
  {
    if b == [] {
      assert a + b == a;
    } else {
      var init := b[..|b| - 1];
      assert (a + b)[..|a + b| - 1] == a + init;
      assert (a + b)[|a + b| - 1] == b[|b| - 1];
      AllRequestsAppend(a, init);
      ConcatAssoc(AllRequests(a), AllRequests(init), b[|b| - 1].Requests());
    }
  }

  lemma MonthPairsValid(subdir: string, months: seq<YearMonth>)
    requires AllValid(months)
    ensures ValidPairs(MonthPairs(subdir, months))
  {
    MonthPairsAt(subdir, months);
  }

  /** One more month of the inner loop adds its visit and, after the others, its requests. */
  lemma SubdirStep(instrument: string, subdir: string, months: seq<YearMonth>, j: nat,
                   visits: seq<Visit>, fetch: string -> Response)
    requires AllValid(months) && j < |months|
    requires ValidPairs(MonthPairs(subdir, months[..j]))
    requires visits == VisitsOf(instrument, MonthPairs(subdir, months[..j]), fetch)
    ensures ValidPairs(MonthPairs(subdir, months[..j + 1]))
    ensures VisitsOf(instrument, MonthPairs(subdir, months[..j + 1]), fetch)
         == visits + [VisitOf(instrument, subdir, months[j], fetch)]
    ensures AllRequests(visits + [VisitOf(instrument, subdir, months[j], fetch)])
         == AllRequests(visits) + VisitOf(instrument, subdir, months[j], fetch).Requests()
  {
    var done := MonthPairs(subdir, months[..j]);
    var visit := VisitOf(instrument, subdir, months[j], fetch);
    assert months[..j + 1][..j] == months[..j];
    assert MonthPairs(subdir, months[..j + 1]) == done + [Pair(subdir, months[j])];
    assert (done + [Pair(subdir, months[j])])[..|done|] == done;
    MonthPairsValid(subdir, months[..j + 1]);
    assert (visits + [visit])[..|visits|] == visits;
  }

  /** The inner loop of `sync`: visit one subdirectory for every month, in order. */
  method SyncSubdir(instrument: string, subdir: string, months: seq<YearMonth>, dryRun: bool,
                    fetch: string -> Response, exitCode: string -> int, existing: set<string>,
                    log: seq<Download>, present: set<string>)
    returns (visits: seq<Visit>, log': seq<Download>, present': set<string>)
    requires AllValid(months)
    requires LogFollowsPrecedence(log, dryRun, exitCode, existing) && present == Written(existing, log)
    ensures ValidPairs(MonthPairs(subdir, months))
    ensures visits == VisitsOf(instrument, MonthPairs(subdir, months), fetch)
    ensures CallArgs(log') == CallArgs(log) + AllRequests(visits)
    ensures LogFollowsPrecedence(log', dryRun, exitCode, existing) && present' == Written(existing, log')
  {
    MonthPairsValid(subdir, months);
    visits, log', present' := [], log, present;
    for j := 0 to |months|
      invariant ValidPairs(MonthPairs(subdir, months[..j]))
      invariant visits == VisitsOf(instrument, MonthPairs(subdir, months[..j]), fetch)
      invariant CallArgs(log') == CallArgs(log) + AllRequests(visits)
      invariant LogFollowsPrecedence(log', dryRun, exitCode, existing) && present' == Written(existing, log')
    {
      var visit;
      visit, log', present' := VisitPair(instrument, subdir, months[j], dryRun, fetch, exitCode, existing, log', present');
      SubdirStep(instrument, subdir, months, j, visits, fetch);
      ConcatAssoc(CallArgs(log), AllRequests(visits), visit.Requests());
      visits := visits + [visit];
    }
    assert months[..|months|] == months;
  }

  /** The outer loop of `sync`: the inner loop for every subdirectory in turn. */
  method SyncDirs(instrument: string, dirs: seq<string>, months: seq<YearMonth>, dryRun: bool,
                  fetch: string -> Response, exitCode: string -> int, existing: set<string>)
    returns (visits: seq<Visit>, log: seq<Download>, present: set<string>)
    requires AllValid(months)
    ensures ValidPairs(PlanPairs(dirs, months))
    ensures visits == VisitsOf(instrument, PlanPairs(dirs, months), fetch)
    ensures CallArgs(log) == AllRequests(visits)
    ensures LogFollowsPrecedence(log, dryRun, exitCode, existing) && present == Written(existing, log)
  {
    ghost var pairs: seq<Pair> := [];
    visits, log, present := [], [], existing;
    for i := 0 to |dirs|
      invariant pairs == PlanPairs(dirs[..i], months) && ValidPairs(pairs)
      invariant visits == VisitsOf(instrument, pairs, fetch)
      invariant CallArgs(log) == AllRequests(visits)
      invariant LogFollowsPrecedence(log, dryRun, exitCode, existing) && present == Written(existing, log)
    {
      var subVisits;
      subVisits, log, present := SyncSubdir(instrument, dirs[i], months, dryRun, fetch, exitCode, existing, log, present);
      VisitsOfAppend(instrument, pairs, MonthPairs(dirs[i], months), fetch);
      AllRequestsAppend(visits, subVisits);
      assert dirs[..i + 1][..i] == dirs[..i];
      assert PlanPairs(dirs[..i + 1], months) == pairs + MonthPairs(dirs[i], months);
      pairs := pairs + MonthPairs(dirs[i], months);
      visits := visits + subVisits;
    }
    assert dirs[..|dirs|] == dirs;
  }

  /**
   * `sync`: resolve the subdirectories and the months (an overflow in `generate_months`
   * propagates before anything is visited), then visit every subdirectory and, inside it,
   * every month.
   */
  method Sync(instrument: string, start: YearMonth, end: YearMonth, dryRun: bool,
              fetch: string -> Response, exitCode: string -> int, existing: set<string>)
    returns (r: Result<SyncRun>)
    requires start.Valid() && end.Valid()
    ensures MonthsOutcome(start, end).Err? ==> r == Err(OutOfRange)
    ensures MonthsOutcome(start, end).Ok? ==>
      var pairs := PlanPairs(TargetDirs(instrument), MonthsOutcome(start, end).value);
      && ValidPairs(pairs) && r.Ok?
      && r.value.visits == VisitsOf(instrument, pairs, fetch)
      && CallArgs(r.value.log) == AllRequests(r.value.visits)
      && LogFollowsPrecedence(r.value.log, dryRun, exitCode, existing)
      && r.value.present == Written(existing, r.value.log)
  {
    var dirs := TargetDirs(instrument);
    var generated := GenerateMonths(start, end);
    if generated.Err? {
      return Err(generated.message);
    }
    var months := generated.value;
    SyncPairs(instrument, start, end);
    var visits, log, present := SyncDirs(instrument, dirs, months, dryRun, fetch, exitCode, existing);
    r := Ok(SyncRun(visits, log, present));
  }

  /**
   * A dry run changes nothing: every call is skipped or simulated, none creates a directory
   * or runs wget, and the files present afterwards are the ones present before.
   */
  lemma {:induction false} DryRunWritesNothing(log: seq<Download>, exitCode: string -> int, existing: set<string>)
    requires LogFollowsPrecedence(log, true, exitCode, existing)
    ensures Written(existing, log) == existing
    ensures forall k :: 0 <= k < |log| ==>
      log[k].effects == [] && (log[k].outcome.Skipped? || log[k].outcome == DryRun(log[k].url))
    decreases |log|
  {
    if log != [] {
      var init := log[..|log| - 1];
      assert LogFollowsPrecedence(init, true, exitCode, existing) by {
        forall k | 0 <= k < |init|
          ensures FollowsPrecedence(init[k], true, exitCode(init[k].url), Written(existing, init[..k]))
        {
          assert init[k] == log[k] && init[..k] == log[..k];
        }
      }
      DryRunWritesNothing(init, exitCode, existing);
      assert log[..|log| - 1] == init;
    }
  }

  /** Two logs with the same requests made their calls on the same URLs and paths, in the same order. */
  lemma SameRequestsSameCalls(log1: seq<Download>, log2: seq<Download>)
    requires CallArgs(log2) == CallArgs(log1)
    ensures |log2| == |log1|
    ensures forall k :: 0 <= k < |log1| ==> log2[k].url == log1[k].url && log2[k].path == log1[k].path
  {
    CallArgsAt(log1);
    CallArgsAt(log2);
    forall k | 0 <= k < |log1|
      ensures log2[k].url == log1[k].url && log2[k].path == log1[k].path
    {
      assert CallArgs(log2)[k] == CallArgs(log1)[k];
    }
  }

  /** A call whose path was present when the run started is skipped. */
  lemma PresentIsSkipped(log: seq<Download>, dryRun: bool, exitCode: string -> int, existing: set<string>, k: nat)
    requires LogFollowsPrecedence(log, dryRun, exitCode, existing)
    requires k < |log| && log[k].path in existing
    ensures log[k].outcome == Skipped && log[k].effects == []
  {
    WrittenGrows(existing, log, k);
    assert FollowsPrecedence(log[k], dryRun, exitCode(log[k].url), Written(existing, log[..k]));
  }

  /**
   * Running `sync` again skips every file the first run downloaded: the second run starts
   * from the files the first left behind, and when it makes its calls on the same paths in
   * the same order (as it does over the same listings, by `SameRequestsSameCalls`), call `k`
   * of the second run finds the file call `k` of the first downloaded, whether or not it is
   * a dry run.
   */
  lemma ResyncSkipsDownloaded(log1: seq<Download>, log2: seq<Download>, dryRun2: bool,
                              exitCode: string -> int, existing: set<string>)
    requires LogFollowsPrecedence(log2, dryRun2, exitCode, Written(existing, log1))
    requires |log2| == |log1|
    requires forall k :: 0 <= k < |log1| ==> log2[k].path == log1[k].path
    ensures forall k :: 0 <= k < |log1| && log1[k].outcome.Downloaded? ==>
      log2[k].outcome == Skipped && log2[k].effects == []
  {
    WrittenGrows(existing, log1, |log1|);
    forall k | 0 <= k < |log1| && log1[k].outcome.Downloaded?
      ensures log2[k].outcome == Skipped && log2[k].effects == []
    {
      PresentIsSkipped(log2, dryRun2, exitCode, Written(existing, log1), k);
    }
  }
}
