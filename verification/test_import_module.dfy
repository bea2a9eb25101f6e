/**
 * The test import plugin (modules/test_import_module/module.py): a module
 * whose five fixed tasks check that the loader, the metadata and the task
 * system work.  Its constructor fills in module and user data when none is
 * given and opens a TrainingModule over its tasks; its validator accepts a
 * screenshot for the screenshot tasks and the manual task unconditionally.
 * The alternative class names declared beside it behave identically.
 */
module TestImport {
  import opened Common
  import opened TrainingModules

  /** One task as `get_tasks` declares it, apart from its texts. */
  datatype Task = Task(id: int, kind: string, verification: string, points: int, required: bool,
                       screenshotRequired: bool)

  /** The texts of a task: its name, description and instruction lines. */
  datatype Texts = Texts(name: string, description: string, instructions: seq<string>)

  /** The task as the dictionary TrainingModule loads. */
  function Definition(t: Task): (d: map<string, Json>)
    requires 1 <= t.id <= 5
    ensures "required" in d && "points" in d && "id" in d
  {
    var x := TaskTexts(t.id);
    map[
      "name" := JStr(x.name),
      "description" := JStr(x.description),
      "type" := JStr(t.kind),
      "instructions" := JArr(seq(|x.instructions|, i requires 0 <= i < |x.instructions| => JStr(x.instructions[i]))),
      "verification" := JStr(t.verification),
      "screenshot_required" := JBool(t.screenshotRequired),
      "id" := JInt(t.id),
      "points" := JInt(t.points),
      "required" := JBool(t.required)
    ]
  }

  /** `get_tasks`: the five tasks in order. */
  function Tasks(): seq<Task>
  {
    [Task(1, "verification", "screenshot", 20, true, true),
     Task(2, "verification", "screenshot", 20, true, true),
     Task(3, "practical", "screenshot", 20, true, true),
     Task(4, "verification", "manual", 20, false, false),
     Task(5, "practical", "screenshot", 20, true, true)]
  }

  /** The texts of task `id`. */
  function TaskTexts(id: int): Texts
    requires 1 <= id <= 5
  {
    if id == 1 then
      Texts("Module Loading Test", "Verify that this module loads correctly",
            ["Open the training system", "Navigate to the modules list",
             "Verify that \"Test Import Module\" appears in the list", "Click on the module to select it"])
    else if id == 2 then
      Texts("Module Metadata Test", "Verify that module metadata is loaded correctly",
            ["Check the module description in the UI", "Verify the estimated time shows 30 minutes",
             "Confirm the difficulty level is \"Beginner\"", "Check that the category is \"System Test\""])
    else if id == 3 then
      Texts("Task System Test", "Verify that tasks are displayed correctly",
            ["Start the module", "Verify that all tasks are displayed",
             "Complete this task by taking a screenshot", "Click \"Complete Task\" button"])
    else if id == 4 then
      Texts("Resource Loading Test", "Test that module resources can be accessed",
            ["Check if module resources are listed", "Open the test document if available",
             "Verify resource paths are correct"])
    else
      Texts("Module Completion Test", "Complete the module and verify tracking",
            ["Complete all required tasks", "Submit the module for completion",
             "Verify that completion is tracked in the system", "Check that the progress shows 100%"])
  }

  function Definitions(): (r: seq<map<string, Json>>)
    ensures |r| == |Tasks()|
    ensures forall i :: 0 <= i < |r| ==> 1 <= Tasks()[i].id <= 5 && r[i] == Definition(Tasks()[i])
  {
    seq(|Tasks()|, i requires 0 <= i < |Tasks()| => Definition(Tasks()[i]))
  }

  /** Sum of the task points. */
  function TotalPoints(tasks: seq<Task>): int
  {
    if tasks == [] then 0 else TotalPoints(tasks[..|tasks| - 1]) + tasks[|tasks| - 1].points
  }

  /** Five tasks numbered 1 to 5, each worth 20 points, 100 in all. */
  lemma Catalogue()
    ensures |Tasks()| == 5
    ensures forall i :: 0 <= i < |Tasks()| ==> Tasks()[i].id == i + 1 && Tasks()[i].points == 20
    ensures TotalPoints(Tasks()) == 100
  {
    var ts := Tasks();
    assert ts[..1][..0] == [];
    assert TotalPoints(ts[..1]) == 20;
    assert ts[..2][..1] == ts[..1];
    assert TotalPoints(ts[..2]) == 40;
    assert ts[..3][..2] == ts[..2];
    assert TotalPoints(ts[..3]) == 60;
    assert ts[..4][..3] == ts[..3];
    assert TotalPoints(ts[..4]) == 80;
    assert ts[..|ts| - 1] == ts[..4];
  }

  /** TrainingModule reads a task's `required` flag from its dictionary. */
  lemma DefinitionRequired(t: Task)
    requires 1 <= t.id <= 5
    ensures Required(Definition(t)) <==> t.required
  {
    assert Definition(t)["required"] == JBool(t.required);
  }

  /** Task 4 is the only optional task and the only one without a
      screenshot. */
  lemma OnlyTaskFourOptional()
    ensures forall i :: 0 <= i < |Tasks()| ==>
      (!Tasks()[i].required <==> Tasks()[i].id == 4)
      && (!Tasks()[i].screenshotRequired <==> Tasks()[i].id == 4)
  {
  }

  /** `validate_task`: tasks 1, 2, 3 and 5 need a truthy `screenshot_path`,
      task 4 always passes, any other id fails. */
  function Validates(taskId: int, userInput: map<string, Json>): (r: bool)
  {
    if taskId in {1, 2, 3, 5} then Truthy(GetOr(userInput, "screenshot_path", JNull))
    else taskId == 4
  }

  /** The validator agrees with the task list: a task passes exactly when
      it needs no screenshot or one is given, and unknown ids fail. */
  lemma ValidatesAgreesWithTasks(userInput: map<string, Json>, taskId: int)
    ensures forall i :: 0 <= i < |Tasks()| && Tasks()[i].id == taskId ==>
      (Validates(taskId, userInput) <==>
         !Tasks()[i].screenshotRequired || ("screenshot_path" in userInput && Truthy(userInput["screenshot_path"])))
    ensures (forall i :: 0 <= i < |Tasks()| ==> Tasks()[i].id != taskId) ==> !Validates(taskId, userInput)
  {
    Catalogue();
    if 1 <= taskId <= 5 {
      assert Tasks()[taskId - 1].id == taskId;
    }
  }

  /** Freshly loaded, the module has its five tasks and cannot be
      completed, since task 1 is required and not done. */
  lemma FreshModuleIncomplete()
    ensures |Loaded(Definitions())| == 5 && !AllRequiredDone(Loaded(Definitions()))
  {
    var tasks := Loaded(Definitions());
    assert tasks[0] == Fresh(0, Definitions()[0]);
    DefinitionRequired(Tasks()[0]);
  }

  /** The fixed descriptor of the module. */
  datatype Descriptor = Descriptor(moduleName: string, moduleId: string, estimatedMinutes: nat, difficulty: string,
                                   category: string)

  /** The `description` property. */
  function Description(): string
  {
    "This module tests the dynamic import system and verifies that modules can be loaded correctly."
  }

  function DefaultDescription(): string
  {
    "This module tests the dynamic import system"
  }

  /** The module data used when none is given. */
  function DefaultModuleData(): (d: map<string, Json>)
    ensures "name" in d
  {
    map[
      "id" := JInt(1),
      "name" := JStr("Test Import Module"),
      "description" := JStr(DefaultDescription())
    ]
  }

  /** The user data used when none is given. */
  function DefaultUserData(): map<string, Json>
  {
    map["id" := JInt(1), "username" := JStr("test_user")]
  }

  /** What `__init__` hands to TrainingModule (module and user data; the
      task dictionaries are those of `get_tasks`) and the fixed descriptor. */
  datatype Opened = Opened(moduleData: map<string, Json>, userData: map<string, Json>, info: Descriptor)

  /** `__init__`: absent data is replaced by the defaults (an empty mapping
      is kept, only a missing one is replaced).  The defaults carry the
      name TrainingModule reads, so a module opened without data can
      always be built. */
  function Open(moduleData: Option<map<string, Json>>, userData: Option<map<string, Json>>): (r: Opened)
    ensures moduleData.Some? ==> r.moduleData == moduleData.value
    ensures moduleData.None? ==> "name" in r.moduleData && r.moduleData["name"] == JStr(r.info.moduleName)
    ensures userData.Some? ==> r.userData == userData.value
    ensures userData.None? ==> "username" in r.userData
    ensures r.info.moduleId == "test_import_module" && r.info.estimatedMinutes == 30
    ensures r.info.difficulty == "Beginner" && r.info.category == "System Test"
  {
    Opened(if moduleData.Some? then moduleData.value else DefaultModuleData(),
           if userData.Some? then userData.value else DefaultUserData(),
           Descriptor("Test Import Module", "test_import_module", 30, "Beginner", "System Test"))
  }
}
