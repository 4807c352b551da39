# MAVEN data downloader — a verified model of its sync logic

`mvn_data_downloader.py` mirrors MAVEN science data from a remote archive into a local tree.
For one instrument and an inclusive range of months, it takes each of the instrument's target
subdirectories in turn. Inside each subdirectory it takes each month in chronological order:
- It builds the remote directory URL `<BASE_URL><instrument>/<subdir>/<year>/<MM>/` and the
  matching local directory.
- It lists the remote directory and keeps the links that end in `.sav`, `.cdf`, `.asc` or `.txt`.
- It hands each kept file to `download_file`. That function skips a file already present,
  only reports in a dry run, and otherwise creates the directory and runs wget.

This project models the deterministic part of that script in Dafny and proves what it promises.
The parts are:
- the month generator with its 32-day step;
- the subdirectory table;
- the classification and suffix filter of a directory listing;
- the precedence of the download decision;
- the nested loops of `sync`, with the paths they build.

The network, the HTML parser, wget and the filesystem are inputs:
- a listing is a function from directory URL to `Response`, which is a status plus the `href`
  of every anchor, or a raised exception;
- wget's exit code is a function of the file URL;
- the filesystem is the set of existing paths.

Modules, one file each:
- `Wrappers` (`wrappers.dfy`): `Option` and `Result`.
- `Calendar` (`calendar.dfy`): the dates of Python's `datetime`, with years 1..9999. Adding days,
  and the step of `generate_months`: the first of the month plus 32 days, snapped back to day 1.
  Stepping past December 9999 raises `OverflowError("date value out of range")`.
- `Months` (`months.dfy`): `generate_months`, as a loop method proved against the range it must produce.
- `Paths` (`paths.dfy`): `str(n)`, `zfill(2)`, joining with "/", `basename` and `dirname`, and the
  remote and local directory of a (instrument, subdir, month).
- `Instruments` (`instruments.dfy`): `SPECIAL_CASES` and `get_target_dirs`.
- `Listing` (`listing.dfy`): `VALID_EXTENSIONS` and the outcome of `list_remote_files`.
- `Download` (`download.dfy`): `download_file`. Its effects (directory creation, the wget command
  line) are recorded as values.
- `Plan` (`plan.dfy`): the order of the (subdirectory, month) pairs the nested loops visit.
- `Sync` (`sync.dfy`): `sync`, as three nested loop methods that build:
  - the visits;
  - the log of `download_file` calls;
  - the set of files present afterwards.

  Lemmas about dry runs and re-runs go with it.

Behaviour of the code worth noting:
- Every status other than 401 and 403 is parsed as a listing, including 404 and 500.
- An anchor without an `href` reads as `""`, which no suffix matches. The suffix match is case-sensitive.
- wget runs with `--progress=bar:force:noscroll`, which forces a progress bar.
- `generate_months` raises instead of returning when the range is non-empty and ends in
  December 9999. The last 32-day step leaves `datetime`'s range. `Sync` passes that error on
  before it visits anything.

## Model

| member | source | states |
|---|---|---|
| Calendar.DaysInMonth | mvn_data_downloader.py:41 | the Gregorian month length `timedelta` arithmetic relies on: 28 to 31 days, February having 29 exactly in leap years |
| Calendar.AddDays | mvn_data_downloader.py:41 | `date + timedelta(days=n)`, one day at a time; its effect is stated by `Calendar.AddDaysWithinMonth`, `Calendar.AddDaysSplit` and, for the 32 days of the step, `Calendar.ThirtyTwoDaysLandInNextMonth` |
| Calendar.AddDaysWithinMonth | mvn_data_downloader.py:41 | adding days that stay inside the month moves only the day |
| Calendar.AddDaysSplit | mvn_data_downloader.py:41 | adding a + b days is adding a days and then b days |
| Calendar.YearMonth.Next | mvn_data_downloader.py:39-42 | the month after a month is one ordinal later and stays in 1..12, December rolling over to January of the next year |
| Calendar.ThirtyTwoDaysLandInNextMonth | mvn_data_downloader.py:41-42 | for any month length 28..31, the first of the month plus 32 days is day 2..5 of the next calendar month |
| Calendar.Step | mvn_data_downloader.py:41-42 | the 32-day step snapped to day 1, returning no month when the sum leaves year 9999; its meaning, the next calendar month or overflow exactly after December 9999, is stated by `Calendar.StepIsNextMonth` |
| Calendar.StepIsNextMonth | mvn_data_downloader.py:41-42 | adding 32 days and snapping to day 1 gives exactly the next month, and overflows exactly after December 9999 |
| Months.MonthRange | mvn_data_downloader.py:35-43 | the months from start to end, both inclusive, one calendar month apart; its length, elements and order are stated by `Months.MonthRangeAt` and `Months.MonthRangeProperties` |
| Months.MonthsOutcome | mvn_data_downloader.py:35-43 | what `generate_months` returns or raises: the range, or the overflow error when a non-empty range ends in December 9999; `Months.GenerateMonths` proves the loop returns it and `Calendar.StepIsNextMonth` justifies both cases |
| Months.MonthRangeAt | mvn_data_downloader.py:35-43 | element k of the generated range is k months after the start, with its month in 1..12, and the length is the ordinal difference plus one |
| Months.MonthRangeProperties | mvn_data_downloader.py:35-43 | empty exactly when start is after end; otherwise starts at start, ends at end, and has length (ey*12+em)-(sy*12+sm)+1; each element is the calendar month after the one before; strictly increasing; every element valid |
| Months.YearBoundaryExample | mvn_data_downloader.py:35-43 | 2020-11 to 2021-02 gives 2020-11, 2020-12, 2021-01, 2021-02 |
| Months.GenerateMonths | mvn_data_downloader.py:35-43 | the while loop returns the inclusive range from start to end, or the overflow error when the range is non-empty and ends in December 9999 |
| Paths.DecimalString | mvn_data_downloader.py:96 | `str(n)` is at least one decimal digit, and starts with "0" exactly when n is 0 |
| Paths.DecimalRoundTrip | mvn_data_downloader.py:96 | `str(n)` reads back as n |
| Paths.ZFill | mvn_data_downloader.py:96 | `s.zfill(w)` for a digit string: left-padded with "0" up to width w; its length and value are stated by `Paths.ZFillValue` |
| Paths.ZFillValue | mvn_data_downloader.py:96 | `zfill(w)` yields max(len, w) digits with the same value |
| Paths.MonthSegment | mvn_data_downloader.py:96-99 | `str(month).zfill(2)`, the month segment of the URL and of the local path; `Paths.MonthSegmentProperties` states it is two digits that read back as the month |
| Paths.MonthSegmentProperties | mvn_data_downloader.py:96 | `str(month).zfill(2)` of a month is exactly two digits that read back as the month |
| Paths.Join | mvn_data_downloader.py:98-100 | `os.path.join` of two components with one "/" between them, used for the local directory and at line 113 for each file; `Paths.JoinSplits` states that dirname and basename undo it |
| Paths.Dirname | mvn_data_downloader.py:73 | `os.path.dirname`: the part before the last "/"; `Paths.JoinSplits` states it gives back the directory a name was joined to |
| Paths.Basename | mvn_data_downloader.py:86 | `os.path.basename`: the part after the last "/"; `Paths.JoinSplits` states it gives back the joined name, and `Download.DownloadedNamesFile` that it is the name the success message reports |
| Paths.JoinSplits | mvn_data_downloader.py:113 | dirname and basename of a directory joined with a plain file name give back the directory and the name |
| Paths.RelativeDir | mvn_data_downloader.py:95-100 | instrument/subdir/year/MM, the part the URL and the local path share; `Paths.DirsAreParallel` states its segments |
| Paths.RemoteDir | mvn_data_downloader.py:95-97 | the URL BASE_URL + instrument/subdir/year/MM + "/"; its segments are stated by `Paths.DirsAreParallel` |
| Paths.LocalDir | mvn_data_downloader.py:98-100 | the path LOCAL_ROOT joined with instrument, subdir, year and MM; its segments and its agreement with the URL are stated by `Paths.DirsAreParallel` |
| Paths.DirsAreParallel | mvn_data_downloader.py:95-100 | the remote URL is BASE_URL plus the local path below LOCAL_ROOT plus "/"; the local path ends in the two-digit month, preceded by the year and then instrument/subdir |
| Instruments.TargetDirs | mvn_data_downloader.py:46-49 | the result is never empty and lists no subdirectory twice; an instrument outside the table gets ["l2", "ql"] |
| Instruments.TargetDirsTable | mvn_data_downloader.py:26-31 | mag, sep, euv and sta get their configured lists verbatim and in order; swe gets the default |
| Listing.EndsWith | mvn_data_downloader.py:61 | `str.endswith` with one suffix: the string's last characters are the suffix |
| Listing.EndsWithAny | mvn_data_downloader.py:61 | `endswith` on a tuple holds exactly when some suffix of the tuple matches |
| Listing.HrefOrEmpty | mvn_data_downloader.py:61 | `a.get("href", "")`: an anchor's href, or "" when it has none; `Listing.ExampleSuffixes` states that "" is not a data file and `Listing.DataFileHrefsMembers` that bare anchors contribute nothing |
| Listing.IsDataFile | mvn_data_downloader.py:61 | the name ends in one of `VALID_EXTENSIONS`; `Listing.EndsWithAny` states the tuple match and `Listing.ExampleSuffixes` sample names |
| Listing.DataFileHrefs | mvn_data_downloader.py:58-62 | no more names than anchors, and every name kept ends in a recognised suffix; membership and order are stated by `Listing.DataFileHrefsMembers` and `Listing.DataFileHrefsAppend` |
| Listing.DataFileHrefsMembers | mvn_data_downloader.py:58-63 | a name is listed exactly when some anchor has it as href and it ends in a recognised suffix; bare anchors never contribute |
| Listing.DataFileHrefsAppend | mvn_data_downloader.py:58-63 | filtering anchors that follow each other keeps the kept hrefs in document order |
| Listing.ExampleSuffixes | mvn_data_downloader.py:23 | names ending in .sav and .cdf are data files; a .jpg name and the empty href are not |
| Listing.ExtensionFilterExample | mvn_data_downloader.py:58-63 | of anchors a.sav-like, b.cdf-like, c.jpg-like and a bare one, exactly the first two are listed, in order |
| Listing.ListRemoteFiles | mvn_data_downloader.py:52-65 | auth exactly for status 401 or 403, before parsing; error exactly when an exception was raised, carrying its message; otherwise the filtered hrefs |
| Download.Message | mvn_data_downloader.py:70-86 | the line returned for each outcome: skip, dry run naming the URL, failure naming the URL, success naming the file; `Download.DownloadedNamesFile` states the success line for a download into dir/name |
| Download.WgetCommand | mvn_data_downloader.py:74-83 | the wget argument list: the tool path, no certificate check, forced bar progress, output to the path, then the URL; `Download.DownloadFile` states that a real attempt runs exactly this command |
| Download.FollowsPrecedence | mvn_data_downloader.py:69-86 | the precedence of `download_file`, which `Download.DownloadFile` ensures of every call and `Download.PrecedenceEffects` turns into its effects and outcomes |
| Download.DownloadFile | mvn_data_downloader.py:68-86 | an existing path is skipped whatever the dry-run flag; a dry run is simulated; neither creates a directory or runs wget; otherwise the parent directory is created and wget runs once with the fixed arguments, and the exit code selects failure (naming the URL) or success (naming the basename) |
| Download.PrecedenceEffects | mvn_data_downloader.py:69-83 | skip happens exactly when the path exists; there are no effects exactly on skip and dry run; a real attempt runs the tool; the outcome is determined by the inputs |
| Download.DownloadedNamesFile | mvn_data_downloader.py:84-86 | a successful download into dir/name reports "[OK] Downloaded: name" and creates dir |
| Plan.MonthPairs | mvn_data_downloader.py:94 | the pairs the inner loop visits for one subdirectory; `Plan.MonthPairsAt` states one per month in month order |
| Plan.PlanPairs | mvn_data_downloader.py:93-94 | the pairs the nested loops visit; `Plan.PlanPairsOrder`, `Plan.PlanPairAt`, `Plan.PlanPairIndex`, `Plan.PlanPairsFrom` and `Plan.PlanPairsOnce` state their number, order, origin and distinctness |
| Plan.PlanPairsLength | mvn_data_downloader.py:93-94 | the nested loops visit one block of pairs per subdirectory, each as long as the months, Offset(d, n) being d blocks of n |
| Plan.MonthPairsAt | mvn_data_downloader.py:94 | the inner loop visits one pair per month, in the months' order |
| Plan.PlanPairAtOffset | mvn_data_downloader.py:93-94 | subdirectory d with month m is visited at position Offset(d, n) + m, after d blocks of n pairs, n being the number of months |
| Plan.PlanPairAt | mvn_data_downloader.py:93-94 | subdirectory d with month m is visited at position d * n + m, n being the number of months |
| Plan.PlanPairIndex | mvn_data_downloader.py:93-94 | every visited position is some subdirectory with some month, at the place the subdirectory-major order gives it |
| Plan.PlanPairsOrder | mvn_data_downloader.py:93-94 | as many pairs as subdirectories times months are visited; for every d and m, the pair at Offset(d, n) + m is subdirectory d with month m, and Offset(d, n) equals d * n (n being the number of months), so the order is subdirectory-major and then in month order |
| Plan.PlanPairsFrom | mvn_data_downloader.py:93-94 | every visited pair is a target subdirectory with a generated month |
| Plan.PlanPairsOnce | mvn_data_downloader.py:93-94 | with distinct subdirectories and distinct months, no pair is visited twice |
| Sync.Visit.Requests | mvn_data_downloader.py:103-113 | the files handed to `download_file` for one visit: none for an auth or error listing (the `continue` at lines 106 and 109), the listed files otherwise; `Sync.VisitProperties` states both cases |
| Sync.FileRequests | mvn_data_downloader.py:111-113 | one request per listed file; its URL and path for each file, in order, are stated by `Sync.FileRequestsAt` |
| Sync.FileRequestsAt | mvn_data_downloader.py:111-113 | file k of a listing is requested from the directory URL plus its name, into the local directory joined with its name |
| Sync.VisitOf | mvn_data_downloader.py:95-103 | one iteration of the inner loop: the pair's remote URL and local directory and the listing fetched from that URL; its properties are stated by `Sync.VisitProperties` |
| Sync.VisitsOf | mvn_data_downloader.py:93-103 | the visits of the planned pairs, in order; `Sync.VisitsOfAt` states that visit k is the visit of pair k, and `Sync.VisitsOfAppend` that it follows concatenation |
| Sync.VisitsOfAt | mvn_data_downloader.py:93-103 | visit k is the visit of pair k: its URLs and its listing |
| Sync.VisitsOfAppend | mvn_data_downloader.py:93-103 | the visits of two runs of pairs one after the other are the visits of the first followed by those of the second |
| Sync.AllRequests | mvn_data_downloader.py:111-114 | every `download_file` call the visits ask for, in visiting order; `Sync.AllRequestsAppend` states it follows concatenation and `Sync.SyncDirs` that the calls made are exactly these |
| Sync.AllRequestsAppend | mvn_data_downloader.py:111-114 | the requests of two runs of visits one after the other are those of the first followed by those of the second |
| Sync.CallArgs | mvn_data_downloader.py:111-114 | the (URL, path) arguments of a sequence of `download_file` calls; `Sync.CallArgsAt` states them call by call |
| Sync.CallArgsAt | mvn_data_downloader.py:111-114 | there is one argument pair per call, and pair k is call k's URL and path |
| Sync.Written | mvn_data_downloader.py:69-86 | the files present after a sequence of calls: the initial ones plus every downloaded path; `Sync.WrittenGrows` and `Sync.WrittenAppend` state how it grows |
| Sync.WrittenAppend | mvn_data_downloader.py:84-86 | one more call adds its path to the files present exactly when it downloaded |
| Sync.LogFollowsPrecedence | mvn_data_downloader.py:111-114 | every call follows the precedence of `download_file` against the files present at that moment; `Sync.FollowsAppend` states it extends call by call, and `Sync.DryRunWritesNothing` and `Sync.PresentIsSkipped` draw its consequences |
| Sync.FollowsAppend | mvn_data_downloader.py:111-114 | a log that follows the precedence, extended by a call that follows it against the files present then, still follows it |
| Sync.WrittenGrows | mvn_data_downloader.py:69-86 | the files present only grow during a run, and every downloaded file is present afterwards |
| Sync.VisitProperties | mvn_data_downloader.py:95-114 | a visit lists its remote URL; the local directory has the same instrument/subdir/year/month segments; auth and error listings request nothing; an ok listing requests each file in order |
| Sync.SyncPairs | mvn_data_downloader.py:90-94 | all visited months are valid and no (subdirectory, month) pair is visited twice |
| Sync.DownloadFiles | mvn_data_downloader.py:111-115 | the file loop makes one `download_file` call per listed file, in order, each following the precedence against the files present at that moment |
| Sync.VisitPair | mvn_data_downloader.py:95-115 | one iteration visits its pair's directories and listing, and calls `download_file` for exactly its requests |
| Sync.SyncSubdir | mvn_data_downloader.py:94-115 | the inner loop visits the subdirectory for each month in order and makes exactly those visits' calls |
| Sync.SyncDirs | mvn_data_downloader.py:93-115 | the nested loops visit the planned pairs in order; the calls are the visits' requests in order; each call follows the precedence; the files present afterwards are the initial ones plus those downloaded |
| Sync.Sync | mvn_data_downloader.py:89-115 | the overflow of `generate_months` propagates before any visit; otherwise the run is that of the nested loops over `get_target_dirs` and the generated months |
| Sync.DryRunWritesNothing | mvn_data_downloader.py:71-72 | in a dry run every call is skipped or simulated, none has an effect, and the files present are unchanged |
| Sync.SameRequestsSameCalls | mvn_data_downloader.py:111-114 | two runs with the same requests make their calls on the same URLs and paths in the same order |
| Sync.PresentIsSkipped | mvn_data_downloader.py:69-70 | a call whose path was present when the run started is skipped with no effect |
| Sync.ResyncSkipsDownloaded | mvn_data_downloader.py:69-70 | a second run from the files the first left, calling on the same paths, skips every file the first downloaded, with no effect, dry run or not |

## Left out

- HTTP: the GET, its headers and its timeout are not modelled. The response (status and anchor hrefs, or an exception message) is an input, chosen per URL by `fetch`.
- HTML parsing is not modelled. The parser's output, the `href` of every anchor in document order, is the input.
- wget: the process itself is not modelled. `subprocess.run` becomes a recorded `RunTool` effect, and its exit code is an input chosen per file URL by `exitCode`.
- `os.makedirs` becomes a recorded `MakeDirs` effect.
- Download.DownloadFile: an exception from `os.makedirs` or `subprocess.run` is not modelled. Examples are a missing wget at WGET_PATH or a permission error. The code does not catch it, so it ends the whole `sync` run; the model always returns an outcome.
- Sync.Sync: for the same reason, the model's run visits every planned pair and makes every call. The code would stop at the first such exception, so its calls are only a prefix of the model's log.
- A wget run that fails may leave an empty file behind. This is not modelled: only a successful download adds its path to the files present.
- `datetime.strptime` is not modelled. The months are given as (year, month) with year in 1..9999 and month in 1..12, which is what parsing can produce. A malformed argument raises before anything happens.
- Console output is not modelled: `print`, `tqdm` and its `write`. `Download.Message` gives the line each outcome returns.
- `argparse` and the `__main__` block are not part of this model. They only configure a call to `sync`.
- Paths.Join: joins with "/" only. `os.path.join` on Windows (`ntpath`), where the script runs, inserts "\\". Its special cases for absolute or drive-qualified components are not modelled.
- Paths.Join: always inserts one "/". `os.path.join` adds none after an empty component or one that already ends in a separator, so an empty instrument name gives `.../sci/l2` there and `.../sci//l2` here. The table's subdirectories and a non-empty instrument name never reach this case.
- Paths.Dirname and Paths.Basename split at "/" only, not at "\\".
- Paths.Dirname: keeps everything before the last "/". `os.path.dirname` also strips trailing separators from that head, so it gives `"a"` for `"a//b"` where the model gives `"a/"`, and it keeps a root `"/"` where the model gives `""`. With a non-empty instrument name and plain file names, the paths `sync` builds contain no doubled separator, so the case is not reached.
- Sync.FileRequestsAt: `urljoin(remote_url, file)` is modelled as concatenation. That agrees with `urljoin` for plain relative file names. Absolute or `../` hrefs are not resolved.
- Paths.ZFill: models `zfill` for unsigned digit strings only. The sign handling is never used here.
- Sync.ResyncSkipsDownloaded: stated over two call logs, not over two calls of `Sync`. A lemma cannot call a method. `Sync`'s postcondition gives equal requests for equal inputs, and `Sync.SameRequestsSameCalls` turns those into the premise "same paths in the same order".
- Listing.ExtensionFilterExample: stated for any names the suffix test classifies as `Listing.ExampleSuffixes` shows, not for the literal names `a.sav`, `b.cdf`, `c.jpg`.
- The alternative LASP base URL is commented out in the source and is not modelled. `Paths.BaseUrl` is the Berkeley URL.
- `USER_AGENT` is a request header and is not modelled.
