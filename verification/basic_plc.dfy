/**
 * The basic PLC plugin (modules/basic_plc/module.py): metadata read from the
 * plugin's metadata file with fixed defaults, instruction texts for three
 * tasks, and a progress summary over the metadata's task list.  The
 * metadata file is a parameter: None when it does not exist, otherwise its
 * decoded object.
 */
module BasicPlc {
  import opened Common

  const NotFound := "Instructions not found."

  const InstructionIds: set<string> := {"setup_environment", "first_program", "timers_counters"}

  const SetupText :=
    "Task 1: " + "Setup Programming Environment\n\n1. Install the PLC programming software\n2. Configure communication settings\n3. Create a new project\n4. Set up the hardware configuration\n5. Test the connection to the PLC\n\nTake a screenshot when complete."
  const FirstProgramText :=
    "Task 2: " + "Create First Ladder Logic Program\n\n1. Create a new program routine\n2. Add a start button (input)\n3. Add a stop button (input)\n4. Add a motor output\n5. Create a holding circuit\n6. Test in simulation mode\n\nTake a screenshot of your ladder logic."
  const TimersText :=
    "Task 3: " + "Implement Timers and Counters\n\n1. Add a timer to your program\n2. Configure timer presets\n3. Add a counter for cycle tracking\n4. Create reset logic\n5. Test the functionality\n\nTake a screenshot showing timer/counter operation."

  /** `get_task_instructions`: the text for one of the three task ids, and
      the not-found text for any other hashable id (a number, a boolean or
      None included).  A list or an object cannot be a dictionary key, so
      the lookup raises TypeError for it: None. */
  function Instructions(taskId: Json): (r: Option<string>)
    ensures r.None? <==> taskId.JArr? || taskId.JObj?
    ensures r == Some(NotFound) <==> !(taskId.JArr? || taskId.JObj?) && !(taskId.JStr? && taskId.s in InstructionIds)
  {
    assert SetupText[0] == 'T' && FirstProgramText[0] == 'T' && TimersText[0] == 'T' && NotFound[0] == 'I';
    if taskId.JArr? || taskId.JObj? then None
    else Some(InstructionText(taskId))
  }

  /** The text looked up for a hashable id. */
  function InstructionText(taskId: Json): string
  {
    if taskId == JStr("setup_environment") then SetupText
    else if taskId == JStr("first_program") then FirstProgramText
    else if taskId == JStr("timers_counters") then TimersText
    else NotFound
  }

  /** Each known task has its own text. */
  lemma InstructionsDistinct(a: string, b: string)
    requires a in InstructionIds && b in InstructionIds && a != b
    ensures Instructions(JStr(a)).Some? && Instructions(JStr(b)).Some?
    ensures Instructions(JStr(a)) != Instructions(JStr(b))
  {
    assert SetupText[5] == '1' && FirstProgramText[5] == '2' && TimersText[5] == '3';
  }

  /** `is_task_completed`: completion is never recorded. */
  predicate IsTaskCompleted(taskId: Json)
  {
    false
  }

  /** `verify_task_completion`: every submission is accepted. */
  predicate VerifyTaskCompletion(taskId: Json, screenshotPath: string)
  {
    true
  }

  // ---------------------------------------------------------------------
  // Progress.

  /** What `for task in self.tasks` visits: the items of a list; an empty
      string or object gives no items; anything else fails, a scalar
      because it cannot be iterated and a non-empty string or object
      because its items are strings, which cannot be indexed by a key. */
  function Elements(tasks: Json): Option<seq<Json>>
  {
    match tasks
    case JArr(items) => Some(items)
    case JStr(s) => if s == "" then Some([]) else None
    case JObj(fields) => if fields == map[] then Some([]) else None
    case _ => None
  }

  /** `task['points']` added to an int, with `task['id']` then read: the
      task must be an object with both keys and an integer (or boolean)
      points value. */
  function TaskPoints(task: Json): (r: Option<int>)
    ensures r.Some? ==> task.JObj? && "id" in task.fields
  {
    if task.JObj? && "points" in task.fields && "id" in task.fields then
      match task.fields["points"]
      case JInt(i) => Some(i)
      case JBool(b) => Some(if b then 1 else 0)
      case _ => None
    else None
  }

  /** The three accumulators of `get_progress`. */
  datatype Tally = Tally(completed: int, earned: int, total: int)

  /** The accumulators after the loop has visited `items`; None when some
      task raises. */
  function TallyOf(items: seq<Json>): Option<Tally>
  {
    if items == [] then Some(Tally(0, 0, 0))
    else
      var last := items[|items| - 1];
      match (TallyOf(items[..|items| - 1]), TaskPoints(last))
      case (Some(t), Some(points)) =>
        if IsTaskCompleted(last.fields["id"]) then Some(Tally(t.completed + 1, t.earned + points, t.total + points))
        else Some(Tally(t.completed, t.earned, t.total + points))
      case _ => None
  }

  /** The loop gets through exactly when every task is well-formed. */
  lemma {:induction false} TallyDefined(items: seq<Json>)
    ensures TallyOf(items).Some? <==> forall i :: 0 <= i < |items| ==> TaskPoints(items[i]).Some?
  {
    if items != [] {
      var front := items[..|items| - 1];
      TallyDefined(front);
      assert forall i :: 0 <= i < |front| ==> front[i] == items[i];
    }
  }

  /** Sum of the task points. */
  function PointsSum(items: seq<Json>): int
    requires forall i :: 0 <= i < |items| ==> TaskPoints(items[i]).Some?
  {
    if items == [] then 0 else PointsSum(items[..|items| - 1]) + TaskPoints(items[|items| - 1]).value
  }

  /** The total is the sum of the points; at most every task is completed;
      with no negative points the earned points lie between 0 and the
      total. */
  lemma {:induction false} TallyBounds(items: seq<Json>)
    requires TallyOf(items).Some?
    ensures forall i :: 0 <= i < |items| ==> TaskPoints(items[i]).Some?
    ensures TallyOf(items).value.total == PointsSum(items)
    ensures 0 <= TallyOf(items).value.completed <= |items|
    ensures (forall i :: 0 <= i < |items| ==> TaskPoints(items[i]).value >= 0) ==>
      0 <= TallyOf(items).value.earned <= TallyOf(items).value.total
  {
    TallyDefined(items);
    if items != [] {
      var front := items[..|items| - 1];
      TallyBounds(front);
      assert forall i :: 0 <= i < |front| ==> front[i] == items[i];
    }
  }

  /** Since no task is ever completed, nothing is counted or earned. */
  lemma {:induction false} NothingEarned(items: seq<Json>)
    requires TallyOf(items).Some?
    ensures TallyOf(items).value.completed == 0 && TallyOf(items).value.earned == 0
  {
    if items != [] {
      NothingEarned(items[..|items| - 1]);
    }
  }

  /** The dictionary `get_progress` returns. */
  datatype Progress = Progress(completedTasks: int, totalTasks: nat, earnedPoints: int, totalPoints: int,
                               percentage: real)

  /** The summary over the task list, None when `self.tasks` was never
      set or the loop raises. */
  function ProgressOf(tasks: Option<Json>): Option<Progress>
  {
    if tasks.None? then None
    else
      var items := Elements(tasks.value);
      if items.None? then None
      else
        var t := TallyOf(items.value);
        if t.None? then None
        else
          Some(Progress(t.value.completed, |items.value|, t.value.earned, t.value.total,
                        if t.value.total > 0 then t.value.earned as real / t.value.total as real * 100.0 else 0.0))
  }

  /** The summary counts every task, sums every task's points, and reports
      nothing completed, nothing earned and a percentage of 0. */
  lemma ProgressSummary(tasks: Option<Json>)
    requires ProgressOf(tasks).Some?
    ensures forall i :: 0 <= i < |Elements(tasks.value).value| ==> TaskPoints(Elements(tasks.value).value[i]).Some?
    ensures var items := Elements(tasks.value).value;
      var p := ProgressOf(tasks).value;
      p.totalTasks == |items| && p.totalPoints == PointsSum(items)
      && p.completedTasks == 0 && p.earnedPoints == 0 && p.percentage == 0.0
  {
    var items := Elements(tasks.value).value;
    TallyBounds(items);
    NothingEarned(items);
  }

  /** The metadata `load_metadata` reads, with its defaults. */
  const DefaultVersion := JStr("1.0.0")
  const DefaultDifficulty := JStr("beginner")
  const DefaultDuration := JStr("8 hours")
  const DefaultTasks := JArr([])

  class BasicPlcModule {
    const moduleId: string
    const name: string
    const description: string
    /** The attributes `load_metadata` sets; None until it first finds the
        metadata file. */
    var version: Option<Json>
    var difficulty: Option<Json>
    var estimatedDuration: Option<Json>
    var tasks: Option<Json>
    /** The task last started, and the instructions shown for it. */
    var currentTask: Option<map<string, Json>>
    var instructionsText: string

    /** `__init__`: the plugin's own attributes, then `load_metadata`. */
    constructor (metadataFile: Option<map<string, Json>>)
      ensures moduleId == "basic_plc" && name == "Basic PLC Programming"
      ensures description == "Introduction to PLC programming with ladder logic basics"
      ensures metadataFile.None? ==> version.None? && difficulty.None? && estimatedDuration.None? && tasks.None?
      ensures metadataFile.Some? ==>
        version == Some(GetOr(metadataFile.value, "version", DefaultVersion))
        && difficulty == Some(GetOr(metadataFile.value, "difficulty", DefaultDifficulty))
        && estimatedDuration == Some(GetOr(metadataFile.value, "estimated_duration", DefaultDuration))
        && tasks == Some(GetOr(metadataFile.value, "tasks", DefaultTasks))
      ensures currentTask.None? && instructionsText == ""
    {
      moduleId := "basic_plc";
      name := "Basic PLC Programming";
      description := "Introduction to PLC programming with ladder logic basics";
      version, difficulty, estimatedDuration, tasks := None, None, None, None;
      currentTask, instructionsText := None, "";
      new;
      LoadMetadata(metadataFile);
    }

    /** `load_metadata`: with the file present every attribute is set from
        it, a missing key taking its default; without it nothing changes. */
    method LoadMetadata(metadataFile: Option<map<string, Json>>)
      modifies this
      ensures metadataFile.None? ==>
        version == old(version) && difficulty == old(difficulty)
        && estimatedDuration == old(estimatedDuration) && tasks == old(tasks)
      ensures metadataFile.Some? ==>
        version == Some(GetOr(metadataFile.value, "version", DefaultVersion))
        && difficulty == Some(GetOr(metadataFile.value, "difficulty", DefaultDifficulty))
        && estimatedDuration == Some(GetOr(metadataFile.value, "estimated_duration", DefaultDuration))
        && tasks == Some(GetOr(metadataFile.value, "tasks", DefaultTasks))
      ensures currentTask == old(currentTask) && instructionsText == old(instructionsText)
    {
      if metadataFile.Some? {
        var metadata := metadataFile.value;
        version := Some(GetOr(metadata, "version", DefaultVersion));
        difficulty := Some(GetOr(metadata, "difficulty", DefaultDifficulty));
        estimatedDuration := Some(GetOr(metadata, "estimated_duration", DefaultDuration));
        tasks := Some(GetOr(metadata, "tasks", DefaultTasks));
      }
    }

    /** `start_task`: the task becomes current and its instructions are
        shown; a task without an id, or with a list or object id, raises
        after it became current and the shown text stays. */
    method StartTask(task: map<string, Json>) returns (ok: bool)
      modifies this
      ensures ok <==> "id" in task && Instructions(task["id"]).Some?
      ensures currentTask == Some(task)
      ensures ok ==> instructionsText == Instructions(task["id"]).value
      ensures !ok ==> instructionsText == old(instructionsText)
      ensures version == old(version) && difficulty == old(difficulty)
      ensures estimatedDuration == old(estimatedDuration) && tasks == old(tasks)
    {
      currentTask := Some(task);
      ok := false;
      if "id" in task {
        var text := Instructions(task["id"]);
        if text.Some? {
          instructionsText, ok := text.value, true;
        }
      }
    }

    /** `get_progress`: one pass over the tasks accumulating the counts; None
        when the loop raises. */
    method GetProgress() returns (r: Option<Progress>)
      ensures r == ProgressOf(tasks)
    {
      if tasks.None? {
        return None;
      }
      var items := Elements(tasks.value);
      if items.None? {
        return None;
      }
      var list := items.value;
      var completed, totalPoints, earned := 0, 0, 0;
      var i := 0;
      while i < |list|
        invariant 0 <= i <= |list|
        invariant TallyOf(list[..i]) == Some(Tally(completed, earned, totalPoints))
      {
        var task := list[i];
        var points := TaskPoints(task);
        if points.None? {
          TallyDefined(list);
          return None;
        }
        assert list[..i + 1][..i] == list[..i];
        var value := points.value;
        totalPoints := totalPoints + value;
        if IsTaskCompleted(task.fields["id"]) {
          completed := completed + 1;
          earned := earned + value;
        }
        i := i + 1;
      }
      assert list[..i] == list;
      var percentage := if totalPoints > 0 then earned as real / totalPoints as real * 100.0 else 0.0;
      r := Some(Progress(completed, |list|, earned, totalPoints, percentage));
    }
  }
}
