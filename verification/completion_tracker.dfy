/**
 * completion_tracker.py: where screenshots are stored, how a completion is
 * merged into the shared dashboard, when an upload is attempted at all, and
 * the per-user history and per-module statistics read back from the stored
 * reports.
 *
 * The filesystem and GitHub are inputs: the report files are a sequence of
 * (file name, decoded report) pairs in directory-listing order, the
 * dashboard fetched from GitHub is an optional argument, and the clock is a
 * timestamp string.  Scores and elapsed times are reals.
 */
module CompletionTracking {
  import opened Common

  // ---------------------------------------------------------------------
  // Screenshot paths.

  /** The user directory name: lower-cased, spaces replaced by `_`. */
  function UserSegment(username: string): (r: string)
    ensures |r| == |username| && ' ' !in r
  {
    ReplaceChar(Lower(username), ' ', '_')
  }

  /** The module directory name: lower-cased, spaces and `/` replaced by
      `_`. */
  function ModuleSegment(moduleName: string): (r: string)
    ensures |r| == |moduleName| && ' ' !in r && '/' !in r
  {
    ReplaceChar(ReplaceChar(Lower(moduleName), ' ', '_'), '/', '_')
  }

  /** pathlib's `base / part`: an empty part adds nothing and an absolute
      part replaces the base. */
  function JoinPath(base: string, part: string): (r: string)
    ensures part == "" ==> r == base
    ensures part != "" && part[0] != '/' ==> r == base + "/" + part
    ensures EndsWith(r, part)
  {
    if part == "" then base
    else if part[0] == '/' then part
    else base + "/" + part
  }

  const ScreenshotsDir: string := "completion_data/screenshots"

  /** A text ending in `a + b` ends in `b`. */
  lemma EndsWithSuffix(r: string, a: string, b: string)
    requires EndsWith(r, a + b)
    ensures EndsWith(r, b)
  {
    assert r[|r| - |b|..] == (a + b)[|a|..];
  }

  /** `save_screenshot`'s path under `completion_data/screenshots`. */
  function ScreenshotPath(username: string, moduleName: string, taskId: string, timestamp: string): (r: string)
    ensures EndsWith(r, "_" + timestamp + ".png")
    ensures username != "" && username[0] != '/' && moduleName != "" && (taskId == "" || taskId[0] != '/') ==>
      r == ScreenshotsDir + "/" + UserSegment(username) + "/" + ModuleSegment(moduleName) + "/"
        + (taskId + ("_" + timestamp + ".png"))
  {
    var userDir := JoinPath(ScreenshotsDir, UserSegment(username));
    var moduleDir := JoinPath(userDir, ModuleSegment(moduleName));
    var suffix := "_" + timestamp + ".png";
    var r := JoinPath(moduleDir, taskId + suffix);
    EndsWithSuffix(r, taskId, suffix);
    r
  }

  /** Two different module names can share a directory: the module segment
      forgets case, spaces and slashes. */
  lemma ModuleSegmentsMerge()
    ensures ModuleSegment("Net/IO") == ModuleSegment("net io")
  {
    var a, b := "Net/IO", "net io";
    assert ModuleSegment(a) == ['n', 'e', 't', '_', 'i', 'o'];
    assert ModuleSegment(b) == ['n', 'e', 't', '_', 'i', 'o'];
  }

  // ---------------------------------------------------------------------
  // The dashboard.

  /** The fields of a completion report that the dashboard, the history and
      the statistics read. */
  datatype Report = Report(
    username: string, fullName: string, moduleId: string, moduleName: string,
    timestamp: string, score: real, elapsedTime: real)

  datatype Completion = Completion(moduleId: string, timestamp: string, score: real)
  datatype UserEntry = UserEntry(fullName: string, completions: seq<Completion>)
  datatype ModuleEntry = ModuleEntry(name: string, completions: int, averageScore: real)
  datatype Dashboard = Dashboard(
    lastUpdated: string, totalCompletions: int, users: map<string, UserEntry>, modules: map<string, ModuleEntry>)

  /** The dashboard created when none can be fetched. */
  function FreshDashboard(now: string): Dashboard
  {
    Dashboard(now, 0, map[], map[])
  }

  /** The merge in `_update_dashboard`: the fetched dashboard (or a fresh one)
      with the user's and the module's entries created when missing, one
      completion appended to the user's list, both counters raised by one,
      and the update time set. */
  function UpdateDashboard(fetched: Option<Dashboard>, report: Report, now: string): (r: Dashboard)
    ensures var d := if fetched.Some? then fetched.value else FreshDashboard(now);
      var u, m := report.username, report.moduleId;
      && r.totalCompletions == d.totalCompletions + 1
      && r.lastUpdated == now
      && r.users.Keys == d.users.Keys + {u}
      && r.users[u].completions == (if u in d.users then d.users[u].completions else [])
           + [Completion(m, report.timestamp, report.score)]
      && r.users[u].fullName == (if u in d.users then d.users[u].fullName else report.fullName)
      && (forall v :: v in d.users && v != u ==> r.users[v] == d.users[v])
      && r.modules.Keys == d.modules.Keys + {m}
      && r.modules[m].completions == (if m in d.modules then d.modules[m].completions else 0) + 1
      && r.modules[m].averageScore == (if m in d.modules then d.modules[m].averageScore else 0.0)
      && r.modules[m].name == (if m in d.modules then d.modules[m].name else report.moduleName)
      && (forall n :: n in d.modules && n != m ==> r.modules[n] == d.modules[n])
  {
    var d := if fetched.Some? then fetched.value else FreshDashboard(now);
    var u, m := report.username, report.moduleId;
    var user := if u in d.users then d.users[u] else UserEntry(report.fullName, []);
    var entry := if m in d.modules then d.modules[m] else ModuleEntry(report.moduleName, 0, 0.0);
    Dashboard(
      now,
      d.totalCompletions + 1,
      d.users[u := user.(completions := user.completions + [Completion(m, report.timestamp, report.score)])],
      d.modules[m := entry.(completions := entry.completions + 1)])
  }

  /** The reports of a module among `reports`. */
  function CountModule(reports: seq<Report>, m: string): (n: nat)
    ensures n <= |reports|
  {
    if |reports| == 0 then 0
    else CountModule(reports[..|reports| - 1], m) + (if reports[|reports| - 1].moduleId == m then 1 else 0)
  }

  /** The completions a user's list gets from `reports`, in order. */
  function UserCompletions(reports: seq<Report>, u: string): seq<Completion>
  {
    if |reports| == 0 then []
    else
      var last := reports[|reports| - 1];
      UserCompletions(reports[..|reports| - 1], u)
        + (if last.username == u then [Completion(last.moduleId, last.timestamp, last.score)] else [])
  }

  /** The dashboard after the given completions, starting from none. */
  function Replayed(reports: seq<Report>, now: string): Dashboard
  {
    if |reports| == 0 then FreshDashboard(now)
    else UpdateDashboard(Some(Replayed(reports[..|reports| - 1], now)), reports[|reports| - 1], now)
  }

  /** Starting from an empty dashboard, the counters always agree with the
      completions merged: the total is their number, each module's count is
      the number of its completions, and no average score ever moves from 0. */
  lemma {:induction false} ReplayedModules(reports: seq<Report>, now: string)
    ensures var d := Replayed(reports, now);
      && d.totalCompletions == |reports|
      && (forall m :: m in d.modules <==> CountModule(reports, m) > 0)
      && (forall m :: m in d.modules ==>
            d.modules[m].completions == CountModule(reports, m) && d.modules[m].averageScore == 0.0)
  {
    if |reports| > 0 {
      var front, last := reports[..|reports| - 1], reports[|reports| - 1];
      ReplayedModules(front, now);
      assert reports == front + [last];
      ModulesStep(front, last, Replayed(front, now).modules, Replayed(reports, now).modules);
    }
  }

  /** One completion merged into module counters that agree with the
      earlier completions gives counters that agree with all of them. */
  lemma ModulesStep(front: seq<Report>, last: Report, m0: map<string, ModuleEntry>, m1: map<string, ModuleEntry>)
    requires forall m :: m in m0 <==> CountModule(front, m) > 0
    requires forall m :: m in m0 ==> m0[m].completions == CountModule(front, m) && m0[m].averageScore == 0.0
    requires m1.Keys == m0.Keys + {last.moduleId}
    requires m1[last.moduleId].completions == (if last.moduleId in m0 then m0[last.moduleId].completions else 0) + 1
    requires m1[last.moduleId].averageScore == (if last.moduleId in m0 then m0[last.moduleId].averageScore else 0.0)
    requires forall n :: n in m0 && n != last.moduleId ==> m1[n] == m0[n]
    ensures forall m :: m in m1 <==> CountModule(front + [last], m) > 0
    ensures forall m :: m in m1 ==> m1[m].completions == CountModule(front + [last], m) && m1[m].averageScore == 0.0
  {
    var reports := front + [last];
    assert reports[..|reports| - 1] == front;
  }

  /** Starting from an empty dashboard, each user's list holds exactly that
      user's completions, in the order they were merged. */
  lemma {:induction false} ReplayedUsers(reports: seq<Report>, now: string)
    ensures var d := Replayed(reports, now);
      && (forall u :: u in d.users ==> d.users[u].completions == UserCompletions(reports, u))
      && (forall u :: u !in d.users ==> UserCompletions(reports, u) == [])
  {
    if |reports| > 0 {
      ReplayedUsers(reports[..|reports| - 1], now);
    }
  }

  // ---------------------------------------------------------------------
  // Uploading.

  /** Where an upload goes: owner, repository, token and branch. */
  datatype Target = Target(owner: Json, repository: Json, token: Json, branch: Json)

  /** The settings `upload_to_github` reads; None when owner, repository or
      token is missing or empty, in which case no request is made. */
  function UploadTarget(config: map<string, Json>): (r: Option<Target>)
    ensures r.None? <==> (!Truthy(GetOr(config, "owner", JNull)) || !Truthy(GetOr(config, "repository", JNull))
      || !Truthy(GetOr(config, "token", JNull)))
    ensures r.Some? ==> r.value.branch == GetOr(config, "branch", JStr("main"))
  {
    var owner, repo, token := GetOr(config, "owner", JNull), GetOr(config, "repository", JNull), GetOr(config, "token", JNull);
    if !(Truthy(owner) && Truthy(repo) && Truthy(token)) then None
    else Some(Target(owner, repo, token, GetOr(config, "branch", JStr("main"))))
  }

  /** `upload_to_github`'s result: False for an incomplete configuration,
      for a report upload answered with a status other than 200 or 201, or
      when the screenshot loop raises (`reportStatus` None stands for an
      exception while sending the report; `screenshotsReadable` false for a
      screenshot that cannot be read or whose PUT request raises).  Screenshot
      uploads answered with an error status and dashboard errors are only
      printed. */
  function UploadToGithub(config: map<string, Json>, reportStatus: Option<int>, screenshotsReadable: bool): (r: bool)
    ensures r <==> (UploadTarget(config).Some? && reportStatus.Some? && reportStatus.value in {200, 201}
      && screenshotsReadable)
    ensures UploadTarget(config).None? ==> !r
  {
    if UploadTarget(config).None? then false
    else if reportStatus.None? || reportStatus.value !in {200, 201} then false
    else screenshotsReadable
  }

  // ---------------------------------------------------------------------
  // Reading back the stored reports.

  /** A report file in `completion_data/reports`: its name and its decoded
      content. */
  datatype ReportFile = ReportFile(name: string, report: Report)

  /** The glob `<username>_*.json`. */
  predicate UserGlob(name: string, username: string)
  {
    StartsWith(name, username + "_") && EndsWith(name, ".json") && |name| >= |username| + 6
  }

  /** The glob `*_<module_id>_*.json`. */
  predicate ModuleGlob(name: string, moduleId: string)
  {
    EndsWith(name, ".json")
    && exists i :: 0 <= i && i + |moduleId| + 2 <= |name| - 5 && OccursAt(name, "_" + moduleId + "_", i)
  }

  /** Strict lexicographic order on strings (Python's `<` on str). */
  predicate LexLess(a: string, b: string)
  {
    |b| > 0 && (|a| == 0 || a[0] < b[0] || (a[0] == b[0] && LexLess(a[1..], b[1..])))
  }

  lemma {:induction false} LexLessIrreflexive(a: string)
    ensures !LexLess(a, a)
  {
    if |a| > 0 {
      LexLessIrreflexive(a[1..]);
    }
  }

  lemma {:induction false} LexLessTransitive(a: string, b: string, c: string)
    requires LexLess(a, b) && LexLess(b, c)
    ensures LexLess(a, c)
  {
    if |a| > 0 && a[0] == b[0] && b[0] == c[0] {
      LexLessTransitive(a[1..], b[1..], c[1..]);
    }
  }

  lemma {:induction false} LexLessTotal(a: string, b: string)
    requires a != b
    ensures LexLess(a, b) || LexLess(b, a)
  {
    if |a| > 0 && |b| > 0 && a[0] == b[0] {
      assert a == [a[0]] + a[1..] && b == [b[0]] + b[1..];
      LexLessTotal(a[1..], b[1..]);
    }
  }

  /** "Not earlier" is transitive. */
  lemma NotLessTransitive(a: string, b: string, c: string)
    requires !LexLess(a, b) && !LexLess(b, c)
    ensures !LexLess(a, c)
  {
    if LexLess(a, c) {
      if a == b {
        assert false;
      } else {
        LexLessTotal(a, b);
        LexLessTransitive(b, a, c);
      }
    }
  }

  /** Newest first. */
  predicate NewestFirst(rs: seq<Report>)
  {
    forall i, j :: 0 <= i < j < |rs| ==> !LexLess(rs[i].timestamp, rs[j].timestamp)
  }

  /** `x` placed before the first report that is not newer than it. */
  function Insert(x: Report, rs: seq<Report>): (r: seq<Report>)
    ensures multiset(r) == multiset(rs) + multiset{x} && |r| == |rs| + 1
  {
    if |rs| == 0 || !LexLess(x.timestamp, rs[0].timestamp) then [x] + rs
    else
      assert rs == [rs[0]] + rs[1..];
      [rs[0]] + Insert(x, rs[1..])
  }

  /** A report not older than any report of a newest-first list may go before it. */
  lemma ConsNewestFirst(h: Report, rs: seq<Report>)
    requires NewestFirst(rs)
    requires forall j :: 0 <= j < |rs| ==> !LexLess(h.timestamp, rs[j].timestamp)
    ensures NewestFirst([h] + rs)
  {
    var r := [h] + rs;
    forall i, j | 0 <= i < j < |r| ensures !LexLess(r[i].timestamp, r[j].timestamp) {
      if i > 0 {
        assert r[i] == rs[i - 1] && r[j] == rs[j - 1];
      }
    }
  }

  lemma {:induction false} InsertNewestFirst(x: Report, rs: seq<Report>)
    requires NewestFirst(rs)
    ensures NewestFirst(Insert(x, rs))
  {
    if |rs| == 0 {
    } else if !LexLess(x.timestamp, rs[0].timestamp) {
      forall j | 0 <= j < |rs| ensures !LexLess(x.timestamp, rs[j].timestamp) {
        if j > 0 {
          NotLessTransitive(x.timestamp, rs[0].timestamp, rs[j].timestamp);
        }
      }
      ConsNewestFirst(x, rs);
    } else {
      var tail := Insert(x, rs[1..]);
      InsertNewestFirst(x, rs[1..]);
      forall j | 0 <= j < |tail| ensures !LexLess(rs[0].timestamp, tail[j].timestamp) {
        var y := tail[j];
        assert y in multiset(tail);
        if y == x {
          if LexLess(rs[0].timestamp, x.timestamp) {
            LexLessTransitive(x.timestamp, rs[0].timestamp, x.timestamp);
            LexLessIrreflexive(x.timestamp);
          }
        } else {
          assert y in rs[1..];
        }
      }
      ConsNewestFirst(rs[0], tail);
    }
  }

  /** `sorted(..., key=timestamp, reverse=True)`. */
  function SortNewestFirst(rs: seq<Report>): (r: seq<Report>)
    ensures multiset(r) == multiset(rs) && NewestFirst(r)
  {
    if |rs| == 0 then []
    else
      var tail := SortNewestFirst(rs[1..]);
      InsertNewestFirst(rs[0], tail);
      assert rs == [rs[0]] + rs[1..];
      Insert(rs[0], tail)
  }

  /** `get_user_history`: every report whose file name matches
      `<username>_*.json`, newest first. */
  method GetUserHistory(files: seq<ReportFile>, username: string) returns (r: seq<Report>)
    ensures multiset(r) == multiset(Matching(files, username)) && NewestFirst(r)
    ensures forall x :: x in r <==> exists f :: f in files && UserGlob(f.name, username) && f.report == x
  {
    var found: seq<Report> := [];
    for i := 0 to |files|
      invariant found == Matching(files[..i], username)
    {
      assert files[..i + 1] == files[..i] + [files[i]];
      MatchingSnoc(files[..i], files[i], username);
      if UserGlob(files[i].name, username) {
        found := found + [files[i].report];
      }
    }
    assert files[..|files|] == files;
    MatchingMembers(files, username);
    r := SortNewestFirst(found);
    forall x ensures x in r <==> x in found {
      assert x in r <==> x in multiset(r);
      assert x in found <==> x in multiset(found);
    }
  }

  /** The reports of the files matching `<username>_*.json`, in listing
      order. */
  function Matching(files: seq<ReportFile>, username: string): seq<Report>
  {
    if |files| == 0 then []
    else
      var f := files[|files| - 1];
      Matching(files[..|files| - 1], username) + (if UserGlob(f.name, username) then [f.report] else [])
  }

  lemma MatchingSnoc(files: seq<ReportFile>, f: ReportFile, username: string)
    ensures Matching(files + [f], username) == Matching(files, username) + (if UserGlob(f.name, username) then [f.report] else [])
  {
    assert (files + [f])[..|files|] == files;
  }

  lemma {:induction false} MatchingMembers(files: seq<ReportFile>, username: string)
    ensures forall x :: x in Matching(files, username) <==> exists f :: f in files && UserGlob(f.name, username) && f.report == x
  {
    if |files| > 0 {
      var init := files[..|files| - 1];
      MatchingMembers(init, username);
      assert files == init + [files[|files| - 1]];
    }
  }

  /** The glob is a prefix match, so the history of `bob` also holds the
      reports of `bob_smith`. */
  lemma HistoryCatchesLongerNames(ts: string)
    ensures UserGlob("bob_smith_net101_" + ts + ".json", "bob")
  {
    var name := "bob_smith_net101_" + ts + ".json";
    assert name[..4] == "bob_";
    assert name[|name| - 5..] == ".json";
  }

  datatype Stats = Stats(totalCompletions: nat, averageScore: real, averageTime: real, completionRate: real)

  /** Matching reports counted, with their scores and times summed. */
  datatype Sums = Sums(count: nat, score: real, time: real)

  /** Sum of the scores and of the elapsed times of the reports of the files
      matching `*_<module_id>_*.json`, with their number. */
  function Totals(files: seq<ReportFile>, moduleId: string): Sums
  {
    if |files| == 0 then Sums(0, 0.0, 0.0)
    else
      var acc := Totals(files[..|files| - 1], moduleId);
      var f := files[|files| - 1];
      if ModuleGlob(f.name, moduleId)
      then Sums(acc.count + 1, acc.score + f.report.score, acc.time + f.report.elapsedTime)
      else acc
  }

  /** `get_module_statistics`: all zeros without a matching report;
      otherwise the number of matching reports and the mean score and mean
      time. */
  method GetModuleStatistics(files: seq<ReportFile>, moduleId: string) returns (stats: Stats)
    ensures var sums := Totals(files, moduleId);
      stats.totalCompletions == sums.count && stats.completionRate == 0.0
      && (sums.count == 0 ==> stats == Stats(0, 0.0, 0.0, 0.0))
      && (sums.count > 0 ==>
            stats.averageScore == sums.score / sums.count as real && stats.averageTime == sums.time / sums.count as real)
  {
    var count: nat, scores, times := 0, 0.0, 0.0;
    for i := 0 to |files|
      invariant Sums(count, scores, times) == Totals(files[..i], moduleId)
    {
      assert files[..i + 1][..i] == files[..i];
      var f := files[i];
      if ModuleGlob(f.name, moduleId) {
        count, scores, times := count + 1, scores + f.report.score, times + f.report.elapsedTime;
      }
    }
    assert files[..|files|] == files;
    stats := Stats(0, 0.0, 0.0, 0.0);
    if count > 0 {
      stats := Stats(count, scores / count as real, times / count as real, 0.0);
    }
  }

  /** The summed score of the matching reports lies between `count` copies of
      the lowest and of the highest score. */
  lemma {:induction false} TotalsBounded(files: seq<ReportFile>, moduleId: string, lo: real, hi: real)
    requires forall f :: f in files ==> lo <= f.report.score <= hi
    ensures var sums := Totals(files, moduleId); Times(sums.count, lo) <= sums.score <= Times(sums.count, hi)
  {
    if |files| > 0 {
      var init := files[..|files| - 1];
      var f := files[|files| - 1];
      assert forall g :: g in init ==> g in files;
      TotalsBounded(init, moduleId, lo, hi);
      if ModuleGlob(f.name, moduleId) {
        assert f in files;
      }
    }
  }

  /** The mean score of `get_module_statistics` stays within the bounds every
      matching score keeps. */
  lemma AverageBounded(files: seq<ReportFile>, moduleId: string, lo: real, hi: real)
    requires forall f :: f in files ==> lo <= f.report.score <= hi
    requires Totals(files, moduleId).count > 0
    ensures var sums := Totals(files, moduleId); lo <= sums.score / sums.count as real <= hi
  {
    TotalsBounded(files, moduleId, lo, hi);
    var sums := Totals(files, moduleId);
    TimesIsProduct(sums.count, lo);
    TimesIsProduct(sums.count, hi);
    MeanBetween(sums.count as real, sums.score, lo, hi);
  }
}
