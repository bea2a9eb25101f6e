/**
 * progress_tracker.py: per-task progress rows, per-module progress rows that
 * are recomputed from the task rows, and milestones awarded once per user.
 *
 * The three SQLite tables are sequences of rows in rowid order (see module
 * Tables).  Timestamps are seconds; the caller's clock is the `now` argument.
 */
module ProgressTracking {
  import opened Common
  import opened Tables

  datatype TaskStatus = TaskInProgress | TaskCompleted
  datatype ModuleStatus = ModuleInProgress | ModuleCompleted

  /** UNIQUE(task_id, module_id, user_id) of task_progress. */
  datatype TaskKey = TaskKey(taskId: string, moduleId: string, userId: string)

  datatype TaskRow = TaskRow(
    key: TaskKey,
    status: TaskStatus,
    score: Option<real>,
    attempts: nat,
    startedAt: int,
    completedAt: Option<int>,
    duration: Option<int>,
    screenshotPath: Option<string>,
    notes: Option<string>)

  datatype ModuleRow = ModuleRow(
    moduleId: string,
    userId: string,
    status: ModuleStatus,
    overallScore: real,
    percentage: real,
    totalTasks: nat,
    completedTasks: nat,
    startedAt: Option<int>,
    completedAt: Option<int>,
    totalDuration: int,
    certificateIssued: bool)

  /** A progress_milestones row; `value` is the count that reached the threshold. */
  datatype Milestone = Milestone(userId: string, kind: string, value: nat, description: string)

  function TaskKeyOf(r: TaskRow): TaskKey { r.key }

  /** UNIQUE(module_id, user_id) of module_progress. */
  function ModuleKeyOf(r: ModuleRow): (string, string) { (r.moduleId, r.userId) }

  // ---------------------------------------------------------------------
  // Aggregates of _update_module_progress.

  predicate InPair(r: TaskRow, moduleId: string, userId: string)
  {
    r.key.moduleId == moduleId && r.key.userId == userId
  }

  /** `WHERE module_id=? AND user_id=?` on task_progress. */
  function PairRows(rows: seq<TaskRow>, moduleId: string, userId: string): (r: seq<TaskRow>)
    ensures forall x :: x in r <==> x in rows && InPair(x, moduleId, userId)
    ensures |r| <= |rows|
  {
    if |rows| == 0 then []
    else (if InPair(rows[0], moduleId, userId) then [rows[0]] else []) + PairRows(rows[1..], moduleId, userId)
  }

  /** `WHERE user_id=?` on task_progress. */
  function UserRows(rows: seq<TaskRow>, userId: string): (r: seq<TaskRow>)
    ensures forall x :: x in r <==> x in rows && x.key.userId == userId
  {
    if |rows| == 0 then []
    else (if rows[0].key.userId == userId then [rows[0]] else []) + UserRows(rows[1..], userId)
  }

  /** `COUNT(CASE WHEN status='completed' THEN 1 END)`. */
  function CountCompleted(rows: seq<TaskRow>): (n: nat)
    ensures n <= |rows|
    ensures n == |rows| <==> forall x :: x in rows ==> x.status == TaskCompleted
    ensures n == 0 <==> forall x :: x in rows ==> x.status != TaskCompleted
  {
    if |rows| == 0 then 0
    else (if rows[0].status == TaskCompleted then 1 else 0) + CountCompleted(rows[1..])
  }

  /** A completed row with a score: the rows `AVG(CASE WHEN status='completed'
      THEN score END)` averages over. */
  predicate Scored(x: TaskRow)
  {
    x.status == TaskCompleted && x.score.Some?
  }

  /** Number of completed rows whose score is not NULL (the divisor of AVG). */
  function ScoredCount(rows: seq<TaskRow>): (n: nat)
    ensures n <= |rows|
    ensures n == 0 <==> forall x :: x in rows ==> !Scored(x)
  {
    if |rows| == 0 then 0
    else
      assert forall x :: x in rows <==> x == rows[0] || x in rows[1..];
      (if Scored(rows[0]) then 1 else 0) + ScoredCount(rows[1..])
  }

  function ScoreSum(rows: seq<TaskRow>): real
  {
    if |rows| == 0 then 0.0
    else
      var here := if Scored(rows[0]) then rows[0].score.value else 0.0;
      here + ScoreSum(rows[1..])
  }

  /** `SUM(CASE WHEN status='completed' THEN duration_seconds ELSE 0 END)`;
      a NULL duration adds nothing. */
  function DurationSum(rows: seq<TaskRow>): (r: int)
    ensures (forall x :: x in rows && x.status == TaskCompleted ==> x.duration.None?) ==> r == 0
  {
    if |rows| == 0 then 0
    else
      assert forall x :: x in rows[1..] ==> x in rows;
      var here := if rows[0].status == TaskCompleted && rows[0].duration.Some? then rows[0].duration.value else 0;
      here + DurationSum(rows[1..])
  }

  /** `MIN(started_at)`: NULL on no rows, otherwise the earliest start. */
  function EarliestStart(rows: seq<TaskRow>): (r: Option<int>)
    ensures r.None? <==> |rows| == 0
    ensures r.Some? ==> exists x :: x in rows && x.startedAt == r.value
    ensures r.Some? ==> forall x :: x in rows ==> r.value <= x.startedAt
  {
    if |rows| == 0 then None
    else
      var rest := EarliestStart(rows[1..]);
      if rest.None? || rows[0].startedAt <= rest.value then Some(rows[0].startedAt) else rest
  }

  /** `MAX(completed_at)`: the latest non-NULL completion time, if any. */
  function LatestCompletion(rows: seq<TaskRow>): (r: Option<int>)
    ensures r.None? <==> forall x :: x in rows ==> x.completedAt.None?
    ensures r.Some? ==> exists x :: x in rows && x.completedAt == r
    ensures r.Some? ==> forall x :: x in rows && x.completedAt.Some? ==> x.completedAt.value <= r.value
  {
    if |rows| == 0 then None
    else
      var rest := LatestCompletion(rows[1..]);
      var here := rows[0].completedAt;
      if here.None? then rest
      else if rest.None? || rest.value <= here.value then here
      else rest
  }

  /** SQL AVG followed by Python's `or 0`. */
  function Mean(sum: real, count: nat): real
  {
    if count == 0 then 0.0 else sum / count as real
  }

  /** Scores between `lo` and `hi` sum to between `lo` and `hi` times their
      number. */
  lemma {:induction false} ScoreSumWithin(rows: seq<TaskRow>, lo: real, hi: real)
    requires forall x :: x in rows && Scored(x) ==> lo <= x.score.value <= hi
    ensures Times(ScoredCount(rows), lo) <= ScoreSum(rows) <= Times(ScoredCount(rows), hi)
  {
    if |rows| > 0 {
      var rest := rows[1..];
      assert forall x :: x in rest ==> x in rows;
      ScoreSumWithin(rest, lo, hi);
    }
  }

  /** With non-negative durations the summed duration is non-negative and at
      least the duration of every completed row. */
  lemma {:induction false} DurationSumCovers(rows: seq<TaskRow>)
    requires forall x :: x in rows && x.duration.Some? ==> x.duration.value >= 0
    ensures DurationSum(rows) >= 0
    ensures forall x :: x in rows && x.status == TaskCompleted && x.duration.Some? ==> x.duration.value <= DurationSum(rows)
  {
    if |rows| > 0 {
      assert forall x :: x in rows[1..] ==> x in rows;
      DurationSumCovers(rows[1..]);
    }
  }

  /** `completed / total * 100 if total > 0 else 0`. */
  function Percentage(completed: nat, total: nat): (p: real)
    requires completed <= total
    ensures 0.0 <= p <= 100.0
    ensures p == 100.0 <==> total > 0 && completed == total
    ensures completed == 0 ==> p == 0.0
  {
    if total > 0 then
      var t := total as real;
      var p := completed as real / t * 100.0;
      assert p * t == completed as real * 100.0;
      assert p <= 100.0 by {
      }
      assert p == 100.0 ==> completed == total by {
        if p == 100.0 { assert 100.0 * t == completed as real * 100.0; }
      }
      p
    else 0.0
  }

  /** The module_progress row that _update_module_progress writes for the pair. */
  function Recompute(tasks: seq<TaskRow>, moduleId: string, userId: string): (row: ModuleRow)
    ensures row.moduleId == moduleId && row.userId == userId
    ensures row.totalTasks == |PairRows(tasks, moduleId, userId)|
    ensures row.completedTasks <= row.totalTasks
    ensures 0.0 <= row.percentage <= 100.0
    ensures row.status == ModuleCompleted <==>
      row.totalTasks > 0 && forall x :: x in tasks && InPair(x, moduleId, userId) ==> x.status == TaskCompleted
    ensures !row.certificateIssued
  {
    var rows := PairRows(tasks, moduleId, userId);
    var total := |rows|;
    var completed := CountCompleted(rows);
    var pct := Percentage(completed, total);
    ModuleRow(
      moduleId, userId,
      if pct == 100.0 then ModuleCompleted else ModuleInProgress,
      Mean(ScoreSum(rows), ScoredCount(rows)),
      pct, total, completed,
      EarliestStart(rows), LatestCompletion(rows),
      DurationSum(rows),
      false)
  }

  /** The overall score and the total duration of the recomputed row: `avg_score
      or 0` is 0 without a scored completed row and otherwise lies within the
      range of those scores; `total_duration or 0` is 0 without a completed
      row with a duration, and with non-negative durations it is non-negative
      and at least each completed row's duration. */
  lemma RecomputeScoreDuration(tasks: seq<TaskRow>, moduleId: string, userId: string, lo: real, hi: real)
    ensures var row := Recompute(tasks, moduleId, userId);
      (forall x :: x in tasks && InPair(x, moduleId, userId) ==> !Scored(x)) ==> row.overallScore == 0.0
    ensures var row := Recompute(tasks, moduleId, userId);
      (exists x :: x in tasks && InPair(x, moduleId, userId) && Scored(x))
      && (forall x :: x in tasks && InPair(x, moduleId, userId) && Scored(x) ==> lo <= x.score.value <= hi)
      ==> lo <= row.overallScore <= hi
    ensures var row := Recompute(tasks, moduleId, userId);
      (forall x :: x in tasks && InPair(x, moduleId, userId) && x.status == TaskCompleted ==> x.duration.None?)
      ==> row.totalDuration == 0
    ensures var row := Recompute(tasks, moduleId, userId);
      (forall x :: x in tasks && InPair(x, moduleId, userId) && x.duration.Some? ==> x.duration.value >= 0)
      ==> (row.totalDuration >= 0
        && forall x :: x in tasks && InPair(x, moduleId, userId) && x.status == TaskCompleted && x.duration.Some?
             ==> x.duration.value <= row.totalDuration)
  {
    var rows := PairRows(tasks, moduleId, userId);
    if forall x :: x in rows && Scored(x) ==> lo <= x.score.value <= hi {
      ScoreSumWithin(rows, lo, hi);
      if ScoredCount(rows) > 0 {
        MeanWithin(ScoreSum(rows), ScoredCount(rows), lo, hi);
      }
    }
    if forall x :: x in rows && x.duration.Some? ==> x.duration.value >= 0 {
      DurationSumCovers(rows);
    }
  }

  /** Rows of other (module, user) pairs do not see an INSERT OR REPLACE or an
      UPDATE of a row of this pair. */
  lemma {:induction false} PairRowsAppend(a: seq<TaskRow>, b: seq<TaskRow>, moduleId: string, userId: string)
    ensures PairRows(a + b, moduleId, userId) == PairRows(a, moduleId, userId) + PairRows(b, moduleId, userId)
  {
    if |a| > 0 {
      assert (a + b)[1..] == a[1..] + b;
      PairRowsAppend(a[1..], b, moduleId, userId);
    } else {
      assert a + b == b;
    }
  }

  lemma {:induction false} PairRowsWithout(rows: seq<TaskRow>, k: TaskKey, moduleId: string, userId: string)
    requires k.moduleId != moduleId || k.userId != userId
    ensures PairRows(Without(rows, TaskKeyOf, k), moduleId, userId) == PairRows(rows, moduleId, userId)
  {
    if |rows| > 0 {
      var head := if TaskKeyOf(rows[0]) == k then [] else [rows[0]];
      PairRowsWithout(rows[1..], k, moduleId, userId);
      PairRowsAppend(head, Without(rows[1..], TaskKeyOf, k), moduleId, userId);
    }
  }

  lemma {:induction false} PairRowsUpdate(rows: seq<TaskRow>, x: TaskRow, moduleId: string, userId: string)
    requires !InPair(x, moduleId, userId)
    ensures PairRows(Update(rows, TaskKeyOf, x), moduleId, userId) == PairRows(rows, moduleId, userId)
  {
    if |rows| > 0 {
      var u := Update(rows, TaskKeyOf, x);
      assert u[1..] == Update(rows[1..], TaskKeyOf, x);
      PairRowsUpdate(rows[1..], x, moduleId, userId);
      assert InPair(u[0], moduleId, userId) <==> InPair(rows[0], moduleId, userId);
    }
  }

  /** Recomputing another pair gives the same row after an INSERT OR REPLACE
      of a task row. */
  lemma RecomputeUpsert(tasks: seq<TaskRow>, row: TaskRow, moduleId: string, userId: string)
    requires !InPair(row, moduleId, userId)
    ensures Recompute(Upsert(tasks, TaskKeyOf, row), moduleId, userId) == Recompute(tasks, moduleId, userId)
  {
    PairRowsWithout(tasks, row.key, moduleId, userId);
    PairRowsAppend(Without(tasks, TaskKeyOf, row.key), [row], moduleId, userId);
    assert PairRows(Upsert(tasks, TaskKeyOf, row), moduleId, userId) == PairRows(tasks, moduleId, userId);
  }

  /** Recomputing another pair gives the same row after an UPDATE of a task row. */
  lemma RecomputeUpdate(tasks: seq<TaskRow>, row: TaskRow, moduleId: string, userId: string)
    requires !InPair(row, moduleId, userId)
    ensures Recompute(Update(tasks, TaskKeyOf, row), moduleId, userId) == Recompute(tasks, moduleId, userId)
  {
    PairRowsUpdate(tasks, row, moduleId, userId);
  }

  /** The UPDATE of complete_task applied to an existing row: completed now,
      with the given score and screenshot and the time since its start. */
  function Completion(row: TaskRow, score: Option<real>, screenshot: Option<string>, now: int): (r: TaskRow)
    ensures r.key == row.key && r.status == TaskCompleted
  {
    row.(status := TaskCompleted, score := score, completedAt := Some(now),
         duration := Some(now - row.startedAt), screenshotPath := screenshot)
  }

  /** Completing the only task of a pair that was still open completes the
      module. */
  lemma LastTaskCompletesModule(tasks: seq<TaskRow>, row: TaskRow, moduleId: string, userId: string)
    requires Find(tasks, TaskKeyOf, row.key).Some?
    requires InPair(row, moduleId, userId) && row.status == TaskCompleted
    requires forall x :: x in tasks && InPair(x, moduleId, userId) && x.key.taskId != row.key.taskId ==> x.status == TaskCompleted
    ensures Recompute(Update(tasks, TaskKeyOf, row), moduleId, userId).status == ModuleCompleted
  {
    var u := Update(tasks, TaskKeyOf, row);
    var old_ := Find(tasks, TaskKeyOf, row.key).value;
    var i :| 0 <= i < |tasks| && tasks[i] == old_;
    assert u[i] == row;
    assert row in PairRows(u, moduleId, userId);
  }

  // ---------------------------------------------------------------------
  // Milestones (_check_milestones).

  datatype Query = CompletedTasks | CompletedModules | PerfectScores
  datatype Rule = Rule(kind: string, query: Query, threshold: nat)

  /** The five milestones, in the order they are checked. */
  const Rules: seq<Rule> := [
    Rule("first_task", CompletedTasks, 1),
    Rule("10_tasks", CompletedTasks, 10),
    Rule("first_module", CompletedModules, 1),
    Rule("5_modules", CompletedModules, 5),
    Rule("perfect_score", PerfectScores, 1)
  ]

  function CountCompletedModules(rows: seq<ModuleRow>, userId: string): nat
  {
    if |rows| == 0 then 0
    else
      var here := if rows[0].userId == userId && rows[0].status == ModuleCompleted then 1 else 0;
      here + CountCompletedModules(rows[1..], userId)
  }

  /** `score=100`, whatever the status. */
  function CountPerfect(rows: seq<TaskRow>, userId: string): nat
  {
    if |rows| == 0 then 0
    else
      var here := if rows[0].key.userId == userId && rows[0].score == Some(100.0) then 1 else 0;
      here + CountPerfect(rows[1..], userId)
  }

  function QueryCount(q: Query, tasks: seq<TaskRow>, modules: seq<ModuleRow>, userId: string): nat
  {
    match q
    case CompletedTasks => CountCompleted(UserRows(tasks, userId))
    case CompletedModules => CountCompletedModules(modules, userId)
    case PerfectScores => CountPerfect(tasks, userId)
  }

  predicate HasMilestone(ms: seq<Milestone>, userId: string, kind: string)
  {
    exists m | m in ms :: m.userId == userId && m.kind == kind
  }

  /** At most one milestone row per (user, milestone type). */
  predicate UniqueMilestones(ms: seq<Milestone>)
  {
    forall i, j :: 0 <= i < j < |ms| ==> ms[i].userId != ms[j].userId || ms[i].kind != ms[j].kind
  }

  /** One iteration of the milestone loop. */
  function AwardOne(ms: seq<Milestone>, rule: Rule, tasks: seq<TaskRow>, modules: seq<ModuleRow>, userId: string): seq<Milestone>
  {
    var count := QueryCount(rule.query, tasks, modules, userId);
    if count >= rule.threshold && !HasMilestone(ms, userId, rule.kind) then
      ms + [Milestone(userId, rule.kind, count, "Achieved " + rule.kind + " milestone")]
    else ms
  }

  /** The milestone loop over `rules`, from first to last. */
  function AwardAll(ms: seq<Milestone>, rules: seq<Rule>, tasks: seq<TaskRow>, modules: seq<ModuleRow>, userId: string): seq<Milestone>
  {
    if |rules| == 0 then ms
    else AwardOne(AwardAll(ms, rules[..|rules| - 1], tasks, modules, userId), rules[|rules| - 1], tasks, modules, userId)
  }

  /** `m` is the row some rule of `rules` awards `userId`: its type, the
      count its query gives, which reaches the rule's threshold, and the
      fixed description. */
  ghost predicate Earned(m: Milestone, rules: seq<Rule>, tasks: seq<TaskRow>, modules: seq<ModuleRow>, userId: string)
  {
    exists rule | rule in rules ::
      && QueryCount(rule.query, tasks, modules, userId) >= rule.threshold
      && m == Milestone(userId, rule.kind, QueryCount(rule.query, tasks, modules, userId),
                        "Achieved " + rule.kind + " milestone")
  }

  /** Every row the milestone loop appends is earned by one of its rules. */
  lemma {:induction false} AwardAllEarned(ms: seq<Milestone>, rules: seq<Rule>, tasks: seq<TaskRow>, modules: seq<ModuleRow>, userId: string)
    ensures var r := AwardAll(ms, rules, tasks, modules, userId);
      |ms| <= |r| && forall i :: |ms| <= i < |r| ==> Earned(r[i], rules, tasks, modules, userId)
  {
    if |rules| > 0 {
      var init := rules[..|rules| - 1];
      var last := rules[|rules| - 1];
      AwardAllEarned(ms, init, tasks, modules, userId);
      var prev := AwardAll(ms, init, tasks, modules, userId);
      var r := AwardOne(prev, last, tasks, modules, userId);
      assert r == AwardAll(ms, rules, tasks, modules, userId);
      forall i | |ms| <= i < |r| ensures Earned(r[i], rules, tasks, modules, userId) {
        if i < |prev| {
          assert r[i] == prev[i];
          var rule :| rule in init
            && QueryCount(rule.query, tasks, modules, userId) >= rule.threshold
            && prev[i] == Milestone(userId, rule.kind, QueryCount(rule.query, tasks, modules, userId),
                                    "Achieved " + rule.kind + " milestone");
          assert rule in rules;
        } else {
          assert last in rules;
        }
      }
    }
  }

  /** Checking milestones only appends rows for this user, each earned by a
      rule (its type, its count reaching the threshold), never awards the
      same milestone twice, and leaves every milestone whose threshold is
      reached recorded. */
  lemma {:induction false} AwardAllSpec(ms: seq<Milestone>, rules: seq<Rule>, tasks: seq<TaskRow>, modules: seq<ModuleRow>, userId: string)
    requires UniqueMilestones(ms)
    ensures var r := AwardAll(ms, rules, tasks, modules, userId);
      UniqueMilestones(r)
      && |ms| <= |r| && r[..|ms|] == ms
      && (forall i :: |ms| <= i < |r| ==> r[i].userId == userId && Earned(r[i], rules, tasks, modules, userId))
      && (forall rule :: rule in rules && QueryCount(rule.query, tasks, modules, userId) >= rule.threshold
            ==> HasMilestone(r, userId, rule.kind))
  {
    AwardAllEarned(ms, rules, tasks, modules, userId);
    if |rules| > 0 {
      var init := rules[..|rules| - 1];
      var last := rules[|rules| - 1];
      AwardAllSpec(ms, init, tasks, modules, userId);
      var prev := AwardAll(ms, init, tasks, modules, userId);
      var r := AwardOne(prev, last, tasks, modules, userId);
      assert r == AwardAll(ms, rules, tasks, modules, userId);
      assert r[..|prev|] == prev;
      if r != prev {
        var m := r[|r| - 1];
        forall i, j | 0 <= i < j < |r| ensures r[i].userId != r[j].userId || r[i].kind != r[j].kind {
          if j == |r| - 1 {
            assert r[i] in prev;
          } else {
            assert r[i] == prev[i] && r[j] == prev[j];
          }
        }
        assert m in r;
      }
      forall rule | rule in rules && QueryCount(rule.query, tasks, modules, userId) >= rule.threshold
        ensures HasMilestone(r, userId, rule.kind)
      {
        if rule in init {
          var w :| w in prev && w.userId == userId && w.kind == rule.kind;
          assert w in r;
        } else {
          assert rule == last;
          if HasMilestone(prev, userId, rule.kind) {
            var w :| w in prev && w.userId == userId && w.kind == rule.kind;
            assert w in r;
          } else {
            assert r[|r| - 1] in r;
          }
        }
      }
    }
  }

  /** A completed task row earns the user the `first_task` milestone. */
  lemma FirstTaskAwarded(ms: seq<Milestone>, tasks: seq<TaskRow>, modules: seq<ModuleRow>, userId: string, row: TaskRow)
    requires UniqueMilestones(ms)
    requires row in tasks && row.key.userId == userId && row.status == TaskCompleted
    ensures HasMilestone(AwardAll(ms, Rules, tasks, modules, userId), userId, "first_task")
  {
    assert row in UserRows(tasks, userId);
    assert Rules[0] in Rules;
    AwardAllSpec(ms, Rules, tasks, modules, userId);
  }

  // ---------------------------------------------------------------------
  // Statistics (_calculate_statistics).

  datatype Statistics = Statistics(
    totalModules: nat,
    completedModules: nat,
    averageCompletion: real,
    averageScore: real,
    totalTimeSeconds: int,
    totalTasks: nat,
    completedTasks: nat,
    averageTaskScore: real,
    maxAttempts: nat)

  function UserModules(rows: seq<ModuleRow>, userId: string): (r: seq<ModuleRow>)
    ensures forall x :: x in r <==> x in rows && x.userId == userId
    ensures |r| <= |rows|
  {
    if |rows| == 0 then []
    else (if rows[0].userId == userId then [rows[0]] else []) + UserModules(rows[1..], userId)
  }

  function ModuleCompletedCount(rows: seq<ModuleRow>): (n: nat)
    ensures n <= |rows|
  {
    if |rows| == 0 then 0
    else (if rows[0].status == ModuleCompleted then 1 else 0) + ModuleCompletedCount(rows[1..])
  }

  function PercentageSum(rows: seq<ModuleRow>): real
  {
    if |rows| == 0 then 0.0 else rows[0].percentage + PercentageSum(rows[1..])
  }

  function OverallScoreSum(rows: seq<ModuleRow>): real
  {
    if |rows| == 0 then 0.0 else rows[0].overallScore + OverallScoreSum(rows[1..])
  }

  function ModuleDurationSum(rows: seq<ModuleRow>): int
  {
    if |rows| == 0 then 0 else rows[0].totalDuration + ModuleDurationSum(rows[1..])
  }

  /** `MAX(attempts) or 0`. */
  function MaxAttempts(rows: seq<TaskRow>): (n: nat)
    ensures forall x :: x in rows ==> x.attempts <= n
    ensures |rows| > 0 ==> exists x :: x in rows && x.attempts == n
  {
    if |rows| == 0 then 0
    else
      var rest := MaxAttempts(rows[1..]);
      if rows[0].attempts >= rest then rows[0].attempts else rest
  }

  function CalculateStatistics(tasks: seq<TaskRow>, modules: seq<ModuleRow>, userId: string): (s: Statistics)
    ensures s.completedModules <= s.totalModules
    ensures s.completedTasks <= s.totalTasks
    ensures s.totalModules == 0 ==> s.averageCompletion == 0.0 && s.averageScore == 0.0 && s.totalTimeSeconds == 0
    ensures forall x :: x in tasks && x.key.userId == userId ==> x.attempts <= s.maxAttempts
  {
    var ms := UserModules(modules, userId);
    var ts := UserRows(tasks, userId);
    Statistics(
      |ms|, ModuleCompletedCount(ms),
      Mean(PercentageSum(ms), |ms|), Mean(OverallScoreSum(ms), |ms|),
      ModuleDurationSum(ms),
      |ts|, CountCompleted(ts),
      Mean(ScoreSum(ts), ScoredCount(ts)),
      MaxAttempts(ts))
  }

  lemma {:induction false} PercentageSumBounds(rows: seq<ModuleRow>)
    requires forall x :: x in rows ==> 0.0 <= x.percentage <= 100.0
    ensures 0.0 <= PercentageSum(rows) <= 100.0 * |rows| as real
  {
    if |rows| > 0 {
      assert forall x :: x in rows[1..] ==> x in rows;
      PercentageSumBounds(rows[1..]);
    }
  }

  /** The average completion reported for a user is a percentage whenever the
      stored module rows hold percentages (which `ProgressTracker.Valid`
      guarantees). */
  lemma AverageCompletionBounds(tasks: seq<TaskRow>, modules: seq<ModuleRow>, userId: string)
    requires forall x :: x in modules ==> 0.0 <= x.percentage <= 100.0
    ensures 0.0 <= CalculateStatistics(tasks, modules, userId).averageCompletion <= 100.0
  {
    var ms := UserModules(modules, userId);
    assert forall x :: x in ms ==> x in modules;
    PercentageSumBounds(ms);
    if |ms| > 0 {
      MeanBounds(PercentageSum(ms), |ms|, 100.0);
    }
  }

  /** The average task score reported for a user is 0 without a scored
      completed task, and otherwise lies within the range of those scores. */
  lemma AverageTaskScoreBounds(tasks: seq<TaskRow>, modules: seq<ModuleRow>, userId: string, lo: real, hi: real)
    ensures (forall x :: x in tasks && x.key.userId == userId ==> !Scored(x)) ==>
      CalculateStatistics(tasks, modules, userId).averageTaskScore == 0.0
    ensures (exists x :: x in tasks && x.key.userId == userId && Scored(x))
      && (forall x :: x in tasks && x.key.userId == userId && Scored(x) ==> lo <= x.score.value <= hi)
      ==> lo <= CalculateStatistics(tasks, modules, userId).averageTaskScore <= hi
  {
    var ts := UserRows(tasks, userId);
    if forall x :: x in ts && Scored(x) ==> lo <= x.score.value <= hi {
      ScoreSumWithin(ts, lo, hi);
      if ScoredCount(ts) > 0 {
        MeanWithin(ScoreSum(ts), ScoredCount(ts), lo, hi);
      }
    }
  }

  lemma MeanBounds(sum: real, count: nat, bound: real)
    requires count > 0 && 0.0 <= sum <= bound * count as real
    ensures 0.0 <= Mean(sum, count) <= bound
  {
    MeanBetween(count as real, sum, 0.0, bound);
  }

  /** A mean of a sum lying between `count` copies of `lo` and of `hi` lies
      between `lo` and `hi`. */
  lemma MeanWithin(sum: real, count: nat, lo: real, hi: real)
    requires count > 0 && Times(count, lo) <= sum <= Times(count, hi)
    ensures lo <= Mean(sum, count) <= hi
  {
    TimesIsProduct(count, lo);
    TimesIsProduct(count, hi);
    MeanBetween(count as real, sum, lo, hi);
  }

  // ---------------------------------------------------------------------
  // The tracker.

  class ProgressTracker {
    var tasks: seq<TaskRow>
    var modules: seq<ModuleRow>
    var milestones: seq<Milestone>

    /** Keys are unique in the two keyed tables and a milestone is recorded at
        most once per user. */
    ghost predicate WellKeyed()
      reads this
    {
      UniqueKeys(tasks, TaskKeyOf) && UniqueKeys(modules, ModuleKeyOf) && UniqueMilestones(milestones)
    }

    /** Every module row, except possibly the one of the given pair, is the
        recomputation of the task rows of its pair. */
    ghost predicate CurrentExcept(moduleId: string, userId: string)
      reads this
    {
      forall r :: r in modules && (r.moduleId != moduleId || r.userId != userId) ==>
        r == Recompute(tasks, r.moduleId, r.userId)
    }

    /** The tables are well keyed and module_progress is up to date with
        task_progress. */
    ghost predicate Valid()
      reads this
    {
      WellKeyed() && forall r :: r in modules ==> r == Recompute(tasks, r.moduleId, r.userId)
    }

    constructor ()
      ensures Valid() && tasks == [] && modules == [] && milestones == []
    {
      tasks, modules, milestones := [], [], [];
    }

    function FindTaskRow(key: TaskKey): Option<TaskRow>
      reads this
    {
      Find(tasks, TaskKeyOf, key)
    }

    function FindModuleRow(moduleId: string, userId: string): Option<ModuleRow>
      reads this
    {
      Find(modules, ModuleKeyOf, (moduleId, userId))
    }

    /** _update_module_progress: INSERT OR REPLACE of the pair's recomputed row. */
    method UpdateModuleProgress(moduleId: string, userId: string)
      requires WellKeyed() && CurrentExcept(moduleId, userId)
      modifies this
      ensures Valid()
      ensures tasks == old(tasks) && milestones == old(milestones)
      ensures modules == Upsert(old(modules), ModuleKeyOf, Recompute(tasks, moduleId, userId))
      ensures FindModuleRow(moduleId, userId) == Some(Recompute(tasks, moduleId, userId))
      ensures forall m, u :: (m != moduleId || u != userId) ==> FindModuleRow(m, u) == old(FindModuleRow(m, u))
    {
      var row := Recompute(tasks, moduleId, userId);
      forall k { FindUpsert(modules, ModuleKeyOf, row, k); }
      modules := Upsert(modules, ModuleKeyOf, row);
    }

    /** start_task: the row is replaced by a fresh in-progress row whose
        attempt counter is one more than before (1 for a first start); every
        other column is cleared.  The module row of the pair is recomputed and
        is therefore never `completed` right after a start. */
    method StartTask(taskId: string, moduleId: string, userId: string, now: int)
      requires Valid()
      modifies this
      ensures Valid()
      ensures var key := TaskKey(taskId, moduleId, userId);
        var prev := old(FindTaskRow(key));
        var row := TaskRow(key, TaskInProgress, None, if prev.Some? then prev.value.attempts + 1 else 1,
                           now, None, None, None, None);
        tasks == Upsert(old(tasks), TaskKeyOf, row)
        && FindTaskRow(key) == Some(row)
        && forall k :: k != key ==> FindTaskRow(k) == old(FindTaskRow(k))
      ensures modules == Upsert(old(modules), ModuleKeyOf, Recompute(tasks, moduleId, userId))
      ensures FindModuleRow(moduleId, userId).Some?
        && FindModuleRow(moduleId, userId).value.status == ModuleInProgress
      ensures milestones == old(milestones)
    {
      var key := TaskKey(taskId, moduleId, userId);
      var prev := FindTaskRow(key);
      var attempts := if prev.Some? then prev.value.attempts + 1 else 1;
      var row := TaskRow(key, TaskInProgress, None, attempts, now, None, None, None, None);
      ghost var before := tasks;
      forall k { FindUpsert(tasks, TaskKeyOf, row, k); }
      tasks := Upsert(tasks, TaskKeyOf, row);
      forall r | r in modules && (r.moduleId != moduleId || r.userId != userId)
        ensures r == Recompute(tasks, r.moduleId, r.userId)
      {
        RecomputeUpsert(before, row, r.moduleId, r.userId);
      }
      UpdateModuleProgress(moduleId, userId);
      assert row in tasks && InPair(row, moduleId, userId);
    }

    /** complete_task: an existing row becomes completed with the given score
        and screenshot, completion time `now` and duration measured from its
        start; without a row the UPDATE changes nothing.  Either way the
        pair's module row is recomputed and the milestones are checked. */
    method CompleteTask(taskId: string, moduleId: string, userId: string,
                        score: Option<real>, screenshot: Option<string>, now: int)
      requires Valid()
      modifies this
      ensures Valid()
      ensures var key := TaskKey(taskId, moduleId, userId);
        var prev := old(FindTaskRow(key));
        tasks == (if prev.Some? then Update(old(tasks), TaskKeyOf, Completion(prev.value, score, screenshot, now))
                  else old(tasks))
      ensures modules == Upsert(old(modules), ModuleKeyOf, Recompute(tasks, moduleId, userId))
      ensures milestones == AwardAll(old(milestones), Rules, tasks, modules, userId)
      ensures old(FindTaskRow(TaskKey(taskId, moduleId, userId))).Some? ==> HasMilestone(milestones, userId, "first_task")
      ensures old(FindTaskRow(TaskKey(taskId, moduleId, userId))).Some?
        && (forall x :: x in old(tasks) && InPair(x, moduleId, userId) && x.key.taskId != taskId ==> x.status == TaskCompleted)
        ==> FindModuleRow(moduleId, userId).Some? && FindModuleRow(moduleId, userId).value.status == ModuleCompleted
    {
      var key := TaskKey(taskId, moduleId, userId);
      var prev := FindTaskRow(key);
      ghost var before := tasks;
      ghost var done: Option<TaskRow> := None;
      if prev.Some? {
        var row := Completion(prev.value, score, screenshot, now);
        forall k { FindUpdate(tasks, TaskKeyOf, row, k); }
        tasks := Update(tasks, TaskKeyOf, row);
        forall r | r in modules && (r.moduleId != moduleId || r.userId != userId)
          ensures r == Recompute(tasks, r.moduleId, r.userId)
        {
          RecomputeUpdate(before, row, r.moduleId, r.userId);
        }
        if forall x :: x in before && InPair(x, moduleId, userId) && x.key.taskId != taskId ==> x.status == TaskCompleted {
          LastTaskCompletesModule(before, row, moduleId, userId);
        }
        done := Some(row);
      }
      UpdateModuleProgress(moduleId, userId);
      ghost var awardedBefore := milestones;
      CheckMilestones(userId);
      if prev.Some? {
        assert prev.value in before;
        FirstTaskAwarded(awardedBefore, tasks, modules, userId, done.value);
      }
    }

    /** _check_milestones: the five rules are checked in order; a milestone is
        inserted when its count reaches the threshold and the user does not
        hold it yet. */
    method CheckMilestones(userId: string)
      requires Valid()
      modifies this
      ensures Valid()
      ensures tasks == old(tasks) && modules == old(modules)
      ensures milestones == AwardAll(old(milestones), Rules, tasks, modules, userId)
    {
      var i := 0;
      while i < |Rules|
        invariant 0 <= i <= |Rules|
        invariant tasks == old(tasks) && modules == old(modules)
        invariant milestones == AwardAll(old(milestones), Rules[..i], tasks, modules, userId)
      {
        var rule := Rules[i];
        var count := QueryCount(rule.query, tasks, modules, userId);
        if count >= rule.threshold && !HasMilestone(milestones, userId, rule.kind) {
          milestones := milestones + [Milestone(userId, rule.kind, count, "Achieved " + rule.kind + " milestone")];
        }
        assert Rules[..i + 1][..i] == Rules[..i];
        i := i + 1;
      }
      assert Rules[..|Rules|] == Rules;
      AwardAllSpec(old(milestones), Rules, tasks, modules, userId);
    }
  }
}
