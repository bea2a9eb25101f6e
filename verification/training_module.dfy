/**
 * The base training module (training_module.py): the in-memory task set of
 * one open module, its progress percentage, the "complete module" gate, the
 * score and the completion record, and the process-wide registry that maps a
 * module's display name to its class.
 *
 * The task dictionary keeps Python's insertion order, so it is held as its
 * entries in order with the task id as key.  Widgets, signals and timers are
 * not modelled; the progress bar and the complete button are kept as the two
 * values the code writes into them.
 */
module TrainingModules {
  import opened Common
  import opened Tables

  /** One entry of `self.tasks`: the task definition and its completed flag. */
  datatype TaskEntry = TaskEntry(id: string, definition: map<string, Json>, completed: bool)

  function TaskKey(t: TaskEntry): string { t.id }

  /** The id given to the i-th task definition. */
  function TaskId(i: nat): string
  {
    "task_" + NatToString(i)
  }

  /** Distinct positions get distinct ids. */
  lemma TaskIdDistinct(i: nat, j: nat)
    requires i != j
    ensures TaskId(i) != TaskId(j)
  {
    if TaskId(i) == TaskId(j) {
      assert TaskId(i)[5..] == NatToString(i);
      assert TaskId(j)[5..] == NatToString(j);
      NatToStringInjective(i, j);
    }
  }

  /** `definition.get('required', True)`, read for its truth value. */
  predicate Required(definition: map<string, Json>)
  {
    "required" !in definition || Truthy(definition["required"])
  }

  // ---------------------------------------------------------------------
  // Loading tasks.

  /** The entry load_tasks writes for the i-th definition. */
  function Fresh(i: nat, definition: map<string, Json>): TaskEntry
  {
    TaskEntry(TaskId(i), definition, false)
  }

  /** The task dictionary after load_tasks wrote the first |defs| entries
      into `tasks`, one assignment per definition. */
  function LoadAll(tasks: seq<TaskEntry>, defs: seq<map<string, Json>>): seq<TaskEntry>
  {
    if |defs| == 0 then tasks
    else Assign(LoadAll(tasks, defs[..|defs| - 1]), TaskKey, Fresh(|defs| - 1, defs[|defs| - 1]))
  }

  lemma {:induction false} LoadAllUnique(tasks: seq<TaskEntry>, defs: seq<map<string, Json>>)
    requires UniqueKeys(tasks, TaskKey)
    ensures UniqueKeys(LoadAll(tasks, defs), TaskKey)
  {
    if |defs| > 0 {
      var n := |defs| - 1;
      LoadAllUnique(tasks, defs[..n]);
      FindAssign(LoadAll(tasks, defs[..n]), TaskKey, Fresh(n, defs[n]), "");
    }
  }

  /** Every definition is found under its own id, incomplete. */
  lemma {:induction false} LoadAllHit(tasks: seq<TaskEntry>, defs: seq<map<string, Json>>, i: nat)
    requires UniqueKeys(tasks, TaskKey)
    requires i < |defs|
    ensures Find(LoadAll(tasks, defs), TaskKey, TaskId(i)) == Some(Fresh(i, defs[i]))
  {
    var n := |defs| - 1;
    var front := defs[..n];
    var before := LoadAll(tasks, front);
    LoadAllUnique(tasks, front);
    FindAssign(before, TaskKey, Fresh(n, defs[n]), TaskId(i));
    if i < n {
      LoadAllHit(tasks, front, i);
      assert front[i] == defs[i];
      TaskIdDistinct(i, n);
    }
  }

  /** Any key other than the loaded ids keeps what it held before. */
  lemma {:induction false} LoadAllMiss(tasks: seq<TaskEntry>, defs: seq<map<string, Json>>, k: string)
    requires UniqueKeys(tasks, TaskKey)
    requires forall i :: 0 <= i < |defs| ==> k != TaskId(i)
    ensures Find(LoadAll(tasks, defs), TaskKey, k) == Find(tasks, TaskKey, k)
  {
    if |defs| > 0 {
      var n := |defs| - 1;
      var front := defs[..n];
      LoadAllUnique(tasks, front);
      FindAssign(LoadAll(tasks, front), TaskKey, Fresh(n, defs[n]), k);
      LoadAllMiss(tasks, front, k);
    }
  }

  /** The fresh dictionary: the ids task_0 .. task_{n-1} in definition order,
      none completed. */
  function Loaded(defs: seq<map<string, Json>>): seq<TaskEntry>
  {
    seq(|defs|, i requires 0 <= i < |defs| => Fresh(i, defs[i]))
  }

  /** Loading into an empty dictionary gives the fresh dictionary. */
  lemma {:induction false} LoadAllFresh(defs: seq<map<string, Json>>)
    ensures LoadAll([], defs) == Loaded(defs)
  {
    if |defs| > 0 {
      var n := |defs| - 1;
      LoadAllFresh(defs[..n]);
      LoadedMissing(defs[..n], n);
      LoadedSnoc(defs);
    }
  }

  lemma LoadedSnoc(defs: seq<map<string, Json>>)
    requires |defs| > 0
    ensures Loaded(defs) == Loaded(defs[..|defs| - 1]) + [Fresh(|defs| - 1, defs[|defs| - 1])]
  {
  }

  lemma LoadedMissing(defs: seq<map<string, Json>>, n: nat)
    requires |defs| <= n
    ensures Find(Loaded(defs), TaskKey, TaskId(n)).None?
  {
    var rows := Loaded(defs);
    forall j | 0 <= j < |rows| ensures TaskKey(rows[j]) != TaskId(n) {
      TaskIdDistinct(j, n);
    }
  }

  /** One more definition loaded. */
  lemma LoadAllSnoc(tasks: seq<TaskEntry>, defs: seq<map<string, Json>>, i: nat)
    requires i < |defs|
    ensures LoadAll(tasks, defs[..i + 1]) == Assign(LoadAll(tasks, defs[..i]), TaskKey, Fresh(i, defs[i]))
  {
    assert defs[..i + 1][..i] == defs[..i];
  }

  // ---------------------------------------------------------------------
  // Counting.

  function CompletedCount(tasks: seq<TaskEntry>): (c: nat)
    ensures c <= |tasks|
  {
    if |tasks| == 0 then 0
    else CompletedCount(tasks[..|tasks| - 1]) + (if tasks[|tasks| - 1].completed then 1 else 0)
  }

  /** The count reaches the number of tasks exactly when every task is
      completed, and is zero exactly when none is. */
  lemma {:induction false} CompletedCountExtremes(tasks: seq<TaskEntry>)
    ensures CompletedCount(tasks) == |tasks| <==> forall i :: 0 <= i < |tasks| ==> tasks[i].completed
    ensures CompletedCount(tasks) == 0 <==> forall i :: 0 <= i < |tasks| ==> !tasks[i].completed
  {
    if |tasks| > 0 {
      var front := tasks[..|tasks| - 1];
      CompletedCountExtremes(front);
      assert forall i :: 0 <= i < |front| ==> front[i] == tasks[i];
    }
  }

  /** int(completed / total * 100) for 0 < total, taken as exact floor. */
  function Percent(completed: nat, total: nat): int
    requires 0 < total
  {
    (100 * completed) / total
  }

  /** The percentage lies in 0..100, is 0 for no completed task and reaches
      100 exactly when every task is completed. */
  lemma PercentBounds(completed: nat, total: nat)
    requires 0 < total && completed <= total
    ensures 0 <= Percent(completed, total) <= 100
    ensures completed == 0 ==> Percent(completed, total) == 0
    ensures Percent(completed, total) == 100 <==> completed == total
  {
    var q, r := (100 * completed) / total, (100 * completed) % total;
    assert 100 * completed == q * total + r && 0 <= r < total;
    if q < 0 { MulLe(q, -1, total); }
    if q > 100 { MulLe(101, q, total); }
    if completed == 0 && q > 0 { MulLe(1, q, total); }
    if completed == total && q < 100 { MulLe(q, 99, total); }
  }

  lemma {:induction false} MulLe(a: int, b: int, t: nat)
    requires a <= b
    ensures a * t <= b * t
    decreases t
  {
    if t > 0 {
      MulLe(a, b, t - 1);
      assert a * t == a * (t - 1) + a && b * t == b * (t - 1) + b;
    }
  }

  /** The gate of the complete button: every task is completed or is not
      required (required by default). */
  predicate AllRequiredDone(tasks: seq<TaskEntry>)
  {
    forall i :: 0 <= i < |tasks| ==> tasks[i].completed || !Required(tasks[i].definition)
  }

  /** Ids of the completed tasks, in dictionary order. */
  function CompletedIds(tasks: seq<TaskEntry>): (ids: seq<string>)
    ensures forall x :: x in ids <==> exists i :: 0 <= i < |tasks| && tasks[i].completed && tasks[i].id == x
    ensures |ids| == CompletedCount(tasks)
  {
    if |tasks| == 0 then []
    else
      var front := tasks[..|tasks| - 1];
      var last := tasks[|tasks| - 1];
      var r := CompletedIds(front) + (if last.completed then [last.id] else []);
      assert forall i :: 0 <= i < |front| ==> front[i] == tasks[i];
      r
  }

  /** The record emitted by complete_module. */
  datatype Completion = Completion(
    userId: Json,
    moduleName: Json,
    completionTime: string,
    elapsedTime: int,
    tasksCompleted: seq<string>,
    signature: string,
    notes: string,
    score: int)

  /** `timedelta.seconds`: the seconds component of a duration, which drops
      whole days. */
  function DaySeconds(seconds: int): (r: int)
    ensures 0 <= r < 86400
    ensures 0 <= seconds < 86400 ==> r == seconds
  {
    seconds % 86400
  }

  class TrainingModule {
    const moduleData: map<string, Json>
    const userData: map<string, Json>
    /** Clock reading when the module was opened, in seconds. */
    const startTime: int
    /** `self.tasks`, in insertion order. */
    var tasks: seq<TaskEntry>
    /** The last value written to the progress bar, if any. */
    var progress: Option<int>
    /** Whether the complete button is enabled. */
    var completeEnabled: bool

    ghost predicate Valid()
      reads this
    {
      "name" in moduleData && UniqueKeys(tasks, TaskKey)
    }

    /** `__init__` followed by `load_tasks` over the module's task definitions.
        The header reads `module_data['name']`, so the module data must carry
        a name. */
    constructor (moduleData: map<string, Json>, userData: map<string, Json>, startTime: int,
                 definitions: seq<map<string, Json>>)
      requires "name" in moduleData
      ensures Valid()
      ensures this.moduleData == moduleData && this.userData == userData && this.startTime == startTime
      ensures tasks == Loaded(definitions)
      ensures |definitions| == 0 ==> progress.None? && !completeEnabled
      ensures |definitions| > 0 ==> progress == Some(0) && completeEnabled == AllRequiredDone(tasks)
    {
      this.moduleData := moduleData;
      this.userData := userData;
      this.startTime := startTime;
      tasks := [];
      progress := None;
      completeEnabled := false;
      new;
      LoadTasks(definitions);
      LoadAllFresh(definitions);
      if |definitions| > 0 {
        CompletedCountExtremes(tasks);
        PercentBounds(0, |tasks|);
      }
    }

    /** The percentage and the gate as update_progress computes them. */
    function Score(): (r: int)
      reads this
      ensures 0 <= r <= 100
      ensures |tasks| == 0 ==> r == 0
      ensures r == 100 <==> |tasks| > 0 && forall i :: 0 <= i < |tasks| ==> tasks[i].completed
      ensures (forall i :: 0 <= i < |tasks| ==> !tasks[i].completed) ==> r == 0
    {
      CompletedCountExtremes(tasks);
      if |tasks| > 0 then
        PercentBounds(CompletedCount(tasks), |tasks|);
        Percent(CompletedCount(tasks), |tasks|)
      else 0
    }

    /** load_tasks: each definition is written under `task_<i>`, incomplete,
        and the progress is refreshed. */
    method LoadTasks(definitions: seq<map<string, Json>>)
      requires Valid()
      modifies this
      ensures Valid()
      ensures tasks == LoadAll(old(tasks), definitions)
      ensures |tasks| > 0 ==> progress == Some(Score()) && completeEnabled == AllRequiredDone(tasks)
      ensures |tasks| == 0 ==> progress == old(progress) && completeEnabled == old(completeEnabled)
    {
      var i := 0;
      while i < |definitions|
        invariant 0 <= i <= |definitions|
        invariant tasks == LoadAll(old(tasks), definitions[..i])
        invariant Valid()
        invariant progress == old(progress) && completeEnabled == old(completeEnabled)
      {
        LoadAllSnoc(old(tasks), definitions, i);
        FindAssign(tasks, TaskKey, Fresh(i, definitions[i]), "");
        tasks := Assign(tasks, TaskKey, Fresh(i, definitions[i]));
        i := i + 1;
      }
      assert definitions[..i] == definitions;
      UpdateProgress();
    }

    /** on_task_completed: the named task takes the new flag and the progress
        is refreshed; an unknown id changes nothing. */
    method OnTaskCompleted(taskId: string, completed: bool)
      requires Valid()
      modifies this
      ensures Valid()
      ensures Find(old(tasks), TaskKey, taskId).None? ==>
        tasks == old(tasks) && progress == old(progress) && completeEnabled == old(completeEnabled)
      ensures Find(old(tasks), TaskKey, taskId).Some? ==>
        var entry := Find(old(tasks), TaskKey, taskId).value;
        && tasks == Update(old(tasks), TaskKey, entry.(completed := completed))
        && progress == Some(Score()) && completeEnabled == AllRequiredDone(tasks)
      ensures forall k :: k != taskId ==> Find(tasks, TaskKey, k) == Find(old(tasks), TaskKey, k)
    {
      var found := Find(tasks, TaskKey, taskId);
      if found.Some? {
        FindUpdate(tasks, TaskKey, found.value.(completed := completed), taskId);
        forall k | k != taskId
          ensures Find(Update(tasks, TaskKey, found.value.(completed := completed)), TaskKey, k) == Find(tasks, TaskKey, k)
        {
          FindUpdate(tasks, TaskKey, found.value.(completed := completed), k);
        }
        tasks := Update(tasks, TaskKey, found.value.(completed := completed));
        UpdateProgress();
      }
    }

    /** update_progress: with no tasks nothing is written; otherwise the bar
        shows the score and the button follows the gate. */
    method UpdateProgress()
      modifies this
      ensures tasks == old(tasks)
      ensures |tasks| == 0 ==> progress == old(progress) && completeEnabled == old(completeEnabled)
      ensures |tasks| > 0 ==> progress == Some(Score()) && completeEnabled == AllRequiredDone(tasks)
    {
      var ts := tasks;
      var total := |ts|;
      var done := 0;
      var i := 0;
      while i < total
        invariant 0 <= i <= total
        invariant done == CompletedCount(ts[..i])
      {
        assert ts[..i + 1][..i] == ts[..i];
        if ts[i].completed {
          done := done + 1;
        }
        i := i + 1;
      }
      assert ts[..i] == ts;
      if total > 0 {
        var allDone := true;
        var j := 0;
        while j < total
          invariant 0 <= j <= total
          invariant allDone <==> forall l :: 0 <= l < j ==> ts[l].completed || !Required(ts[l].definition)
        {
          if !(ts[j].completed || !Required(ts[j].definition)) {
            allDone := false;
          }
          j := j + 1;
        }
        progress, completeEnabled := Some((100 * done) / total), allDone;
      }
    }

    /** complete_module: the completion record.  None where the source raises
        KeyError because the user data has no `id`. */
    method CompleteModule(now: int, nowIso: string, signature: string, notes: string)
      returns (r: Option<Completion>)
      requires Valid()
      ensures "id" !in userData ==> r.None?
      ensures "id" in userData ==> (r.Some?
        && r.value.userId == userData["id"]
        && r.value.moduleName == moduleData["name"]
        && r.value.completionTime == nowIso
        && r.value.elapsedTime == DaySeconds(now - startTime)
        && r.value.tasksCompleted == CompletedIds(tasks)
        && r.value.signature == signature && r.value.notes == notes
        && r.value.score == Score())
      ensures r.Some? ==> forall x :: x in r.value.tasksCompleted <==>
        exists i :: 0 <= i < |tasks| && tasks[i].completed && tasks[i].id == x
    {
      if "id" !in userData {
        return None;
      }
      var ids := [];
      var i := 0;
      while i < |tasks|
        invariant 0 <= i <= |tasks|
        invariant ids == CompletedIds(tasks[..i])
      {
        assert tasks[..i + 1][..i] == tasks[..i];
        if tasks[i].completed {
          ids := ids + [tasks[i].id];
        }
        i := i + 1;
      }
      assert tasks[..i] == tasks;
      r := Some(Completion(userData["id"], moduleData["name"], nowIso, DaySeconds(now - startTime),
                           ids, signature, notes, Score()));
    }
  }

  // ---------------------------------------------------------------------
  // The module class registry (get_module_class).

  /** A class a module resolves to: where it is defined and its name. */
  datatype ModuleClass = ModuleClass(modulePath: string, className: string)

  /** An attribute of an imported module, as `dir()` lists it. */
  datatype Attr = Attr(name: string, isClass: bool, subclassOfTrainingModule: bool, isTrainingModule: bool)

  /** A class extending TrainingModule other than TrainingModule itself. */
  predicate Qualifies(a: Attr)
  {
    a.isClass && a.subclassOfTrainingModule && !a.isTrainingModule
  }

  /** Display names mapped to their package directories. */
  const DirectoryMap: map<string, string> := map[
    "Network File Sharing & Mapping" := "network_file_sharing",
    "Command Line Network Diagnostics" := "cli_diagnostics",
    "IP Address Configuration" := "ip_configuration",
    "Hard Drive Management" := "fallback_modules",
    "Backup/Restore Operations" := "backup_restore",
    "Hard Drive Replacement" := "drive_replacement",
    "Remote Access Configuration" := "remote_access",
    "Batch File Scripting" := "fallback_modules",
    "PowerShell Scripting" := "powershell_scripting",
    "OneDrive Integration" := "fallback_modules"
  ]

  /** The classes of fallback_modules.py for the names mapped there. */
  const FallbackMap: map<string, string> := map[
    "Hard Drive Management" := "HardDriveManagementModule",
    "Batch File Scripting" := "BatchFileScriptingModule",
    "OneDrive Integration" := "OneDriveIntegrationModule"
  ]

  /** Index of the first qualifying attribute. */
  function FirstQualifying(attrs: seq<Attr>): (r: Option<nat>)
    ensures r.Some? ==> (r.value < |attrs| && Qualifies(attrs[r.value])
      && forall j :: 0 <= j < r.value ==> !Qualifies(attrs[j]))
    ensures r.None? ==> forall j :: 0 <= j < |attrs| ==> !Qualifies(attrs[j])
  {
    if |attrs| == 0 then None
    else if Qualifies(attrs[0]) then Some(0)
    else
      var rest := FirstQualifying(attrs[1..]);
      if rest.None? then None else Some(rest.value + 1)
  }

  /** The uncached resolution of a display name.  `imported` is the outcome
      of importing the target module: None when the import fails, else its
      attributes in `dir()` order. */
  function Resolve(moduleName: string, imported: Option<seq<Attr>>): (r: Option<ModuleClass>)
    ensures moduleName !in DirectoryMap ==> r.None?
    ensures imported.None? ==> r.None?
    ensures moduleName in DirectoryMap && DirectoryMap[moduleName] == "fallback_modules" && imported.Some? ==>
      r == Some(ModuleClass("fallback_modules", FallbackMap[moduleName]))
    ensures moduleName in DirectoryMap && DirectoryMap[moduleName] != "fallback_modules" && imported.Some? ==>
      (r.Some? <==> exists j :: 0 <= j < |imported.value| && Qualifies(imported.value[j]))
    ensures r.Some? && r.value.modulePath != "fallback_modules" ==>
      exists j :: 0 <= j < |imported.value| && Qualifies(imported.value[j])
        && imported.value[j].name == r.value.className
        && forall l :: 0 <= l < j ==> !Qualifies(imported.value[l])
  {
    if moduleName !in DirectoryMap || imported.None? then None
    else
      var dir := DirectoryMap[moduleName];
      if dir == "fallback_modules" then
        if moduleName in FallbackMap then Some(ModuleClass("fallback_modules", FallbackMap[moduleName])) else None
      else
        var first := FirstQualifying(imported.value);
        if first.None? then None
        else Some(ModuleClass("modules." + dir + ".module", imported.value[first.value].name))
  }

  /** MODULE_REGISTRY and the function that fills it. */
  class ModuleRegistry {
    var classes: map<string, ModuleClass>

    constructor ()
      ensures classes == map[]
    {
      classes := map[];
    }

    /** get_module_class: a cached class is returned as is; otherwise the
        name is resolved and a class found is cached. */
    method GetModuleClass(moduleName: string, imported: Option<seq<Attr>>) returns (r: Option<ModuleClass>)
      modifies this
      ensures moduleName in old(classes) ==> r == Some(old(classes)[moduleName]) && classes == old(classes)
      ensures moduleName !in old(classes) ==> r == Resolve(moduleName, imported)
      ensures moduleName !in old(classes) && r.Some? ==> classes == old(classes)[moduleName := r.value]
      ensures r.None? ==> classes == old(classes)
    {
      if moduleName in classes {
        return Some(classes[moduleName]);
      }
      if moduleName !in DirectoryMap {
        return None;
      }
      var dir := DirectoryMap[moduleName];
      if imported.None? {
        return None;
      }
      if dir == "fallback_modules" {
        if moduleName in FallbackMap {
          var c := ModuleClass("fallback_modules", FallbackMap[moduleName]);
          classes := classes[moduleName := c];
          return Some(c);
        }
        return None;
      }
      var attrs := imported.value;
      var i := 0;
      while i < |attrs|
        invariant 0 <= i <= |attrs|
        invariant forall j :: 0 <= j < i ==> !Qualifies(attrs[j])
      {
        if Qualifies(attrs[i]) {
          var c := ModuleClass("modules." + dir + ".module", attrs[i].name);
          classes := classes[moduleName := c];
          return Some(c);
        }
        i := i + 1;
      }
      return None;
    }
  }
}
