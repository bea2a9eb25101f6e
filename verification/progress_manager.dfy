/**
 * progress_tracking/progress_manager.py: module progress measured in points,
 * task completions, training sessions that accumulate time, and issued
 * certifications.  Tables are sequences of rows in rowid order (module
 * Tables); CURRENT_TIMESTAMP is the `now` argument, in seconds.
 */
module ProgressManagement {
  import opened Common
  import opened Tables

  datatype Status = InProgress | Completed

  /** A user_progress row, UNIQUE(user_id, module_id). */
  datatype ProgressRow = ProgressRow(
    userId: int,
    moduleId: string,
    startDate: int,
    lastActivity: int,
    completionDate: Option<int>,
    percentage: real,
    pointsEarned: int,
    status: Status,
    timeSpent: int)

  /** A task_completions row, UNIQUE(user_id, module_id, task_id). */
  datatype CompletionRow = CompletionRow(
    userId: int,
    moduleId: string,
    taskId: string,
    completedDate: int,
    pointsEarned: int,
    attempts: int,
    verificationStatus: string,
    screenshotPath: Option<string>)

  /** A training_sessions row; its id is its position plus one. */
  datatype SessionRow = SessionRow(
    userId: int,
    moduleId: string,
    startTime: int,
    endTime: Option<int>,
    duration: int,
    activityType: string)

  datatype CertificationRow = CertificationRow(
    userId: int, moduleId: string, name: string, issuedDate: int, score: real)

  /** A row of the module_tasks table, which this component only reads. */
  datatype ModuleTask = ModuleTask(moduleId: string, points: int)

  /** What get_module_progress returns. */
  datatype ProgressView =
    | NotStartedView
    | StartedView(row: ProgressRow, completedTasks: seq<CompletionRow>, totalTimeSpent: int)

  function ProgressKey(r: ProgressRow): (int, string) { (r.userId, r.moduleId) }
  function CompletionKey(r: CompletionRow): (int, string, string) { (r.userId, r.moduleId, r.taskId) }

  /** `SELECT SUM(points) FROM module_tasks WHERE module_id = ?` followed by
      `or 0`. */
  function ModulePoints(tasks: seq<ModuleTask>, moduleId: string): int
  {
    if |tasks| == 0 then 0
    else (if tasks[0].moduleId == moduleId then tasks[0].points else 0) + ModulePoints(tasks[1..], moduleId)
  }

  /** `SUM(points_earned)` of the pair's completions, followed by `or 0`. */
  function EarnedPoints(rows: seq<CompletionRow>, userId: int, moduleId: string): int
  {
    if |rows| == 0 then 0
    else
      var here := if rows[0].userId == userId && rows[0].moduleId == moduleId then rows[0].pointsEarned else 0;
      here + EarnedPoints(rows[1..], userId, moduleId)
  }

  /** The pair's completions in rowid order. */
  function PairCompletions(rows: seq<CompletionRow>, userId: int, moduleId: string): (r: seq<CompletionRow>)
    ensures forall x :: x in r <==> x in rows && x.userId == userId && x.moduleId == moduleId
  {
    if |rows| == 0 then []
    else
      var here := if rows[0].userId == userId && rows[0].moduleId == moduleId then [rows[0]] else [];
      here + PairCompletions(rows[1..], userId, moduleId)
  }

  /** `SUM(duration)` of the pair's sessions, followed by `or 0`. */
  function SessionTime(sessions: seq<SessionRow>, userId: int, moduleId: string): int
  {
    if |sessions| == 0 then 0
    else
      var last := sessions[|sessions| - 1];
      SessionTime(sessions[..|sessions| - 1], userId, moduleId)
        + (if last.userId == userId && last.moduleId == moduleId then last.duration else 0)
  }

  /** `earned / total * 100 if total > 0 else 0`, and the status derived from it. */
  function ProgressPercentage(earned: int, total: int): (p: real)
    ensures total <= 0 ==> p == 0.0
    ensures total > 0 ==> (p >= 100.0 <==> earned >= total)
    ensures total > 0 && earned >= 0 ==> p >= 0.0
  {
    if total > 0 then
      var t := total as real;
      var p := earned as real / t * 100.0;
      assert p * t == earned as real * 100.0;
      assert p >= 100.0 ==> earned >= total by {
        if p >= 100.0 { assert p * t >= 100.0 * t; }
      }
      assert earned >= total ==> p >= 100.0 by {
        if earned >= total { assert p * t >= 100.0 * t; }
      }
      p
    else 0.0
  }

  predicate OpenFor(s: SessionRow, userId: int, moduleId: string)
  {
    s.userId == userId && s.moduleId == moduleId && s.endTime.None?
  }

  /** Position of the session that `ORDER BY start_time DESC LIMIT 1` picks
      among the pair's open sessions; among sessions that started at the same
      time the most recently inserted one. */
  function LatestOpenSession(sessions: seq<SessionRow>, userId: int, moduleId: string): (r: Option<nat>)
    ensures r.None? <==> forall j :: 0 <= j < |sessions| ==> !OpenFor(sessions[j], userId, moduleId)
    ensures r.Some? ==> r.value < |sessions| && OpenFor(sessions[r.value], userId, moduleId)
    ensures r.Some? ==> forall j :: 0 <= j < |sessions| && OpenFor(sessions[j], userId, moduleId) ==>
      sessions[j].startTime <= sessions[r.value].startTime
  {
    if |sessions| == 0 then None
    else
      var last := |sessions| - 1;
      var best := LatestOpenSession(sessions[..last], userId, moduleId);
      if OpenFor(sessions[last], userId, moduleId)
         && (best.None? || sessions[best.value].startTime <= sessions[last].startTime)
      then Some(last)
      else best
  }

  /** Number of the pair's open sessions. */
  function OpenSessions(sessions: seq<SessionRow>, userId: int, moduleId: string): nat
  {
    if |sessions| == 0 then 0
    else
      var last := |sessions| - 1;
      OpenSessions(sessions[..last], userId, moduleId) + (if OpenFor(sessions[last], userId, moduleId) then 1 else 0)
  }

  /** Closing one open session of the pair leaves one open session fewer. */
  lemma {:induction false} CloseOneSession(sessions: seq<SessionRow>, i: nat, closed: SessionRow, userId: int, moduleId: string)
    requires i < |sessions| && OpenFor(sessions[i], userId, moduleId)
    requires closed.userId == userId && closed.moduleId == moduleId && closed.endTime.Some?
    ensures OpenSessions(sessions[i := closed], userId, moduleId) + 1 == OpenSessions(sessions, userId, moduleId)
  {
    var last := |sessions| - 1;
    var s2 := sessions[i := closed];
    assert s2[..last] == if i < last then sessions[..last][i := closed] else sessions[..last];
    if i < last {
      CloseOneSession(sessions[..last], i, closed, userId, moduleId);
    }
  }

  /** After a session of the pair changes its duration by `delta`, the pair's
      total time changes by `delta`. */
  lemma {:induction false} SessionTimeChange(sessions: seq<SessionRow>, i: nat, s: SessionRow, userId: int, moduleId: string)
    requires i < |sessions|
    requires sessions[i].userId == userId && sessions[i].moduleId == moduleId
    requires s.userId == userId && s.moduleId == moduleId
    ensures SessionTime(sessions[i := s], userId, moduleId)
      == SessionTime(sessions, userId, moduleId) - sessions[i].duration + s.duration
  {
    var last := |sessions| - 1;
    var s2 := sessions[i := s];
    if i < last {
      assert s2[..last] == sessions[..last][i := s];
      SessionTimeChange(sessions[..last], i, s, userId, moduleId);
    } else {
      assert s2[..last] == sessions[..last];
    }
  }

  class ProgressManager {
    var progress: seq<ProgressRow>
    var completions: seq<CompletionRow>
    var sessions: seq<SessionRow>
    var certifications: seq<CertificationRow>
    /** module_tasks, maintained elsewhere. */
    var moduleTasks: seq<ModuleTask>

    ghost predicate Valid()
      reads this
    {
      UniqueKeys(progress, ProgressKey) && UniqueKeys(completions, CompletionKey)
    }

    constructor (moduleTasks: seq<ModuleTask>)
      ensures Valid()
      ensures progress == [] && completions == [] && sessions == [] && certifications == []
      ensures this.moduleTasks == moduleTasks
    {
      progress, completions, sessions, certifications := [], [], [], [];
      this.moduleTasks := moduleTasks;
    }

    function FindProgress(userId: int, moduleId: string): Option<ProgressRow>
      reads this
    {
      Find(progress, ProgressKey, (userId, moduleId))
    }

    /** start_module: the progress row is replaced by a fresh in-progress row
        (percentage, points and time spent back to 0) and a new open session
        is appended, whatever existed before. */
    method StartModule(userId: int, moduleId: string, now: int) returns (ok: bool)
      requires Valid()
      modifies this
      ensures Valid() && ok
      ensures progress == Upsert(old(progress), ProgressKey,
        ProgressRow(userId, moduleId, now, now, None, 0.0, 0, InProgress, 0))
      ensures FindProgress(userId, moduleId) == Some(ProgressRow(userId, moduleId, now, now, None, 0.0, 0, InProgress, 0))
      ensures forall u, m :: (u, m) != (userId, moduleId) ==> FindProgress(u, m) == old(FindProgress(u, m))
      ensures sessions == old(sessions) + [SessionRow(userId, moduleId, now, None, 0, "learning")]
      ensures OpenSessions(sessions, userId, moduleId) == OpenSessions(old(sessions), userId, moduleId) + 1
      ensures completions == old(completions) && certifications == old(certifications)
      ensures moduleTasks == old(moduleTasks)
    {
      var row := ProgressRow(userId, moduleId, now, now, None, 0.0, 0, InProgress, 0);
      forall k { FindUpsert(progress, ProgressKey, row, k); }
      progress := Upsert(progress, ProgressKey, row);
      var s := SessionRow(userId, moduleId, now, None, 0, "learning");
      sessions := sessions + [s];
      assert sessions[..|sessions| - 1] == old(sessions);
      ok := true;
    }

    /** update_module_progress: an existing progress row gets the percentage
        of the module's points that the user has earned, `completed` exactly
        when the earned points reach the module's total, and a completion
        date exactly when completed.  Without a row nothing changes. */
    method UpdateModuleProgress(userId: int, moduleId: string, now: int)
      requires Valid()
      modifies this
      ensures Valid()
      ensures var total := ModulePoints(moduleTasks, moduleId);
        var earned := EarnedPoints(completions, userId, moduleId);
        var prev := old(FindProgress(userId, moduleId));
        progress == if prev.None? then old(progress)
          else Update(old(progress), ProgressKey, UpdatedProgress(prev.value, earned, total, now))
      ensures var p := FindProgress(userId, moduleId);
        p.Some? <==> old(FindProgress(userId, moduleId)).Some?
      ensures forall u, m :: (u, m) != (userId, moduleId) ==> FindProgress(u, m) == old(FindProgress(u, m))
      ensures completions == old(completions) && sessions == old(sessions)
      ensures certifications == old(certifications) && moduleTasks == old(moduleTasks)
    {
      var prev := FindProgress(userId, moduleId);
      if prev.Some? {
        var total := ModulePoints(moduleTasks, moduleId);
        var earned := EarnedPoints(completions, userId, moduleId);
        var row := UpdatedProgress(prev.value, earned, total, now);
        forall k { FindUpdate(progress, ProgressKey, row, k); }
        progress := Update(progress, ProgressKey, row);
      }
    }

    /** complete_task as it should behave: the completion row is inserted or
        replaced (status `verified`) and the module's progress is brought up
        to date with it. */
    method CompleteTask(userId: int, moduleId: string, taskId: string, points: int,
                        screenshot: Option<string>, now: int) returns (ok: bool)
      requires Valid()
      modifies this
      ensures Valid() && ok
      ensures completions == Upsert(old(completions), CompletionKey,
        CompletionRow(userId, moduleId, taskId, now, points, 1, "verified", screenshot))
      ensures var prev := old(FindProgress(userId, moduleId));
        progress == if prev.None? then old(progress)
          else Update(old(progress), ProgressKey,
            UpdatedProgress(prev.value, EarnedPoints(completions, userId, moduleId), ModulePoints(moduleTasks, moduleId), now))
      ensures sessions == old(sessions) && certifications == old(certifications)
      ensures moduleTasks == old(moduleTasks)
    {
      var row := CompletionRow(userId, moduleId, taskId, now, points, 1, "verified", screenshot);
      FindUpsert(completions, CompletionKey, row, CompletionKey(row));
      completions := Upsert(completions, CompletionKey, row);
      UpdateModuleProgress(userId, moduleId, now);
      ok := true;
    }

    /** complete_task as written: the progress update runs on a second
        connection while the first still holds its uncommitted INSERT, so the
        UPDATE fails with "database is locked", the error is logged and
        swallowed, and only the completion row is stored. */
    method CompleteTaskAsWritten(userId: int, moduleId: string, taskId: string, points: int,
                                 screenshot: Option<string>, now: int) returns (ok: bool)
      requires Valid()
      modifies this
      ensures Valid() && ok
      ensures completions == Upsert(old(completions), CompletionKey,
        CompletionRow(userId, moduleId, taskId, now, points, 1, "verified", screenshot))
      ensures progress == old(progress)
      ensures sessions == old(sessions) && certifications == old(certifications)
      ensures moduleTasks == old(moduleTasks)
    {
      var row := CompletionRow(userId, moduleId, taskId, now, points, 1, "verified", screenshot);
      FindUpsert(completions, CompletionKey, row, CompletionKey(row));
      completions := Upsert(completions, CompletionKey, row);
      ok := true;
    }

    /** get_module_progress. */
    function GetModuleProgress(userId: int, moduleId: string): (v: ProgressView)
      reads this
      ensures v.NotStartedView? <==> FindProgress(userId, moduleId).None?
      ensures v.StartedView? ==>
        v.row == FindProgress(userId, moduleId).value
        && (forall c :: c in v.completedTasks <==> c in completions && c.userId == userId && c.moduleId == moduleId)
        && v.totalTimeSpent == SessionTime(sessions, userId, moduleId)
    {
      match FindProgress(userId, moduleId)
      case None => NotStartedView
      case Some(row) =>
        StartedView(row, PairCompletions(completions, userId, moduleId), SessionTime(sessions, userId, moduleId))
    }

    /** issue_certification: a plain INSERT, so the same certificate can be
        issued any number of times. */
    method IssueCertification(userId: int, moduleId: string, name: string, score: real, now: int) returns (ok: bool)
      modifies this
      ensures ok
      ensures certifications == old(certifications) + [CertificationRow(userId, moduleId, name, now, score)]
      ensures progress == old(progress) && completions == old(completions) && sessions == old(sessions)
      ensures moduleTasks == old(moduleTasks)
    {
      certifications := certifications + [CertificationRow(userId, moduleId, name, now, score)];
      ok := true;
    }

    /** record_session_end: the latest open session of the pair is closed at
        `now` with its duration, and an existing progress row's time spent
        becomes the sum of the pair's session durations.  Without an open
        session nothing changes. */
    method RecordSessionEnd(userId: int, moduleId: string, now: int)
      requires Valid()
      modifies this
      ensures Valid()
      ensures var i := LatestOpenSession(old(sessions), userId, moduleId);
        if i.None? then sessions == old(sessions) && progress == old(progress)
        else
          var s := old(sessions)[i.value];
          sessions == old(sessions)[i.value := s.(endTime := Some(now), duration := now - s.startTime)]
          && OpenSessions(sessions, userId, moduleId) + 1 == OpenSessions(old(sessions), userId, moduleId)
          && SessionTime(sessions, userId, moduleId)
             == SessionTime(old(sessions), userId, moduleId) - s.duration + (now - s.startTime)
          && progress == (match Find(old(progress), ProgressKey, (userId, moduleId))
                          case None => old(progress)
                          case Some(p) => Update(old(progress), ProgressKey,
                                                 p.(timeSpent := SessionTime(sessions, userId, moduleId))))
      ensures completions == old(completions) && certifications == old(certifications)
      ensures moduleTasks == old(moduleTasks)
    {
      var i := LatestOpenSession(sessions, userId, moduleId);
      if i.Some? {
        var s := sessions[i.value];
        var closed := s.(endTime := Some(now), duration := now - s.startTime);
        CloseOneSession(sessions, i.value, closed, userId, moduleId);
        SessionTimeChange(sessions, i.value, closed, userId, moduleId);
        var newSessions := sessions[i.value := closed];
        var newProgress := progress;
        var p := Find(progress, ProgressKey, (userId, moduleId));
        if p.Some? {
          var row := p.value.(timeSpent := SessionTime(newSessions, userId, moduleId));
          FindUpdate(progress, ProgressKey, row, ProgressKey(row));
          newProgress := Update(progress, ProgressKey, row);
        }
        sessions, progress := newSessions, newProgress;
      }
    }
  }

  /** The row update_module_progress writes over an existing progress row. */
  function UpdatedProgress(prev: ProgressRow, earned: int, total: int, now: int): (r: ProgressRow)
    ensures r.userId == prev.userId && r.moduleId == prev.moduleId
    ensures r.startDate == prev.startDate && r.timeSpent == prev.timeSpent
    ensures r.pointsEarned == earned && r.lastActivity == now
    ensures r.status == Completed <==> total > 0 && earned >= total
    ensures r.completionDate == if r.status == Completed then Some(now) else None
    ensures total <= 0 ==> r.percentage == 0.0
  {
    var pct := ProgressPercentage(earned, total);
    var status := if pct >= 100.0 then Completed else InProgress;
    prev.(percentage := pct, pointsEarned := earned, status := status, lastActivity := now,
          completionDate := if status == Completed then Some(now) else None)
  }

  /** The counterexample to complete_task as written: one task worth the
      module's 10 points is completed by a user who started the module, yet
      the progress row stays in progress; the corrected operation completes
      the module. */
  lemma ExampleFacts(row0: ProgressRow, done: CompletionRow)
    requires row0 == ProgressRow(1, "m", 0, 0, None, 0.0, 0, InProgress, 0)
    requires done == CompletionRow(1, "m", "t", 5, 10, 1, "verified", None)
    ensures EarnedPoints([done], 1, "m") == 10
    ensures ModulePoints([ModuleTask("m", 10)], "m") == 10
    ensures Update([row0], ProgressKey, UpdatedProgress(row0, 10, 10, 5)) == [UpdatedProgress(row0, 10, 10, 5)]
  {
    assert [done][1..] == [];
    assert [ModuleTask("m", 10)][1..] == [];
  }

  method LockedUpdateExample() returns (asWritten: Status, corrected: Status)
    ensures asWritten == InProgress && corrected == Completed
  {
    var pm := new ProgressManager([ModuleTask("m", 10)]);
    var _ := pm.StartModule(1, "m", 0);
    var _ := pm.CompleteTaskAsWritten(1, "m", "t", 10, None, 5);
    var a := pm.FindProgress(1, "m");
    asWritten := a.value.status;
    corrected := CorrectedExample();
  }

  method CorrectedExample() returns (corrected: Status)
    ensures corrected == Completed
  {
    var row0 := ProgressRow(1, "m", 0, 0, None, 0.0, 0, InProgress, 0);
    var done := CompletionRow(1, "m", "t", 5, 10, 1, "verified", None);
    var pm := new ProgressManager([ModuleTask("m", 10)]);
    var _ := pm.StartModule(1, "m", 0);
    assert pm.progress == [row0];
    assert pm.completions == [];
    var _ := pm.CompleteTask(1, "m", "t", 10, None, 5);
    assert pm.completions == [done];
    ExampleFacts(row0, done);
    assert pm.progress == [UpdatedProgress(row0, 10, 10, 5)];
    var b := pm.FindProgress(1, "m");
    corrected := b.value.status;
  }
}
