/**
 * The PowerShell scripting plugin (modules/powershell_scripting/module.py):
 * a simulated console that keeps the history of entered commands, a script
 * editor whose saves are kept by name, the task a save marks, and the
 * check behind each of the module's tasks.  Console and dialog text is not
 * modelled; a task the code marks through its task widgets is returned.
 */
module PowerShellScripting {
  import opened Common

  /** The task that entering commands completes. */
  const BasicsTask := "powershell_basics"

  /** The script tasks, each with the word a script name must contain, in
      the order `save_script` tries them. */
  const ScriptTasks: seq<(string, string)> := [
    ("create_directory_script", "OpenHelloWorld"),
    ("network_diagnostic_script", "NetworkDiagnostic"),
    ("backup_management_script", "Backup"),
    ("startup_automation", "Startup")
  ]

  /** Index of the first script task whose word occurs in `name`. */
  function FirstKeyword(name: string, from: nat): (r: Option<nat>)
    requires from <= |ScriptTasks|
    ensures r.Some? ==>
      (from <= r.value < |ScriptTasks| && Contains(name, ScriptTasks[r.value].1)
       && forall j :: from <= j < r.value ==> !Contains(name, ScriptTasks[j].1))
    ensures r.None? ==> forall j :: from <= j < |ScriptTasks| ==> !Contains(name, ScriptTasks[j].1)
    decreases |ScriptTasks| - from
  {
    if from == |ScriptTasks| then None
    else if Contains(name, ScriptTasks[from].1) then Some(from)
    else FirstKeyword(name, from + 1)
  }

  /** The task a save under `name` marks: the first whose word the name
      contains, if any. */
  function MarkedBySave(name: string): (r: Option<string>)
  {
    var k := FirstKeyword(name, 0);
    if k.Some? then Some(ScriptTasks[k.value].0) else None
  }

  /** The name a script is saved under: `.ps1` appended unless present. */
  function WithScriptSuffix(name: string): (r: string)
    ensures EndsWith(r, ".ps1") && StartsWith(r, name)
    ensures EndsWith(name, ".ps1") ==> r == name
    ensures !EndsWith(name, ".ps1") ==> |r| == |name| + 4
  {
    if EndsWith(name, ".ps1") then name else name + ".ps1"
  }

  /** Saving under a name that already went through the suffix rule keeps
      it. */
  lemma SuffixIdempotent(name: string)
    ensures WithScriptSuffix(WithScriptSuffix(name)) == WithScriptSuffix(name)
  {
  }

  // ---------------------------------------------------------------------
  // The cmdlet list: entries read "<cmdlet> - <description>".

  const Dash := " - "

  /** The leftmost occurrence of `sub` in `s` at or after `from`. */
  function Leftmost(s: string, sub: string, from: nat): (r: Option<nat>)
    ensures r.Some? ==>
      (from <= r.value && OccursAt(s, sub, r.value) && forall i :: from <= i < r.value ==> !OccursAt(s, sub, i))
    ensures r.None? ==> forall i :: from <= i ==> !OccursAt(s, sub, i)
    decreases |s| - from
  {
    if from + |sub| > |s| then None
    else if OccursAt(s, sub, from) then Some(from)
    else Leftmost(s, sub, from + 1)
  }

  /** `item.split(' - ')[0]`: the text before the first separator, or the
      whole item without one. */
  function CmdletOf(item: string): (r: string)
    ensures StartsWith(item, r) && !Contains(r, Dash)
    ensures r == item || OccursAt(item, Dash, |r|)
    ensures forall i :: 0 <= i < |r| ==> !OccursAt(item, Dash, i)
  {
    var k := Leftmost(item, Dash, 0);
    var r := if k.Some? then item[..k.value] else item;
    forall i | 0 <= i <= |r| - |Dash| ensures !OccursAt(r, Dash, i) {
      if OccursAt(r, Dash, i) {
        assert item[i..i + |Dash|] == r[i..i + |Dash|];
        assert OccursAt(item, Dash, i);
      }
    }
    r
  }

  /** A list entry whose cmdlet has no blank yields exactly that cmdlet. */
  lemma CmdletOfEntry(cmdlet: string, description: string)
    requires ' ' !in cmdlet
    ensures CmdletOf(cmdlet + Dash + description) == cmdlet
  {
    var item := cmdlet + Dash + description;
    var r := CmdletOf(item);
    assert OccursAt(item, Dash, |cmdlet|) by {
      assert item[|cmdlet|..|cmdlet| + 3] == Dash;
    }
    assert item[..|cmdlet|] == cmdlet;
    forall k | 0 <= k < |cmdlet| ensures !OccursAt(item, Dash, k) {
      assert item[k] == cmdlet[k];
    }
    if |r| > |cmdlet| {
      assert false;
    }
  }

  /** Taking the cmdlet of a cmdlet changes nothing. */
  lemma CmdletOfIdempotent(item: string)
    ensures CmdletOf(CmdletOf(item)) == CmdletOf(item)
  {
  }

  // ---------------------------------------------------------------------
  // Task validation.

  /** Index of the script task named `taskId`. */
  function ScriptTaskIndex(taskId: string, from: nat): (r: Option<nat>)
    requires from <= |ScriptTasks|
    ensures r.Some? ==> from <= r.value < |ScriptTasks| && ScriptTasks[r.value].0 == taskId
    ensures r.None? ==> forall j :: from <= j < |ScriptTasks| ==> ScriptTasks[j].0 != taskId
    decreases |ScriptTasks| - from
  {
    if from == |ScriptTasks| then None
    else if ScriptTasks[from].0 == taskId then Some(from)
    else ScriptTaskIndex(taskId, from + 1)
  }

  /** `validate_task` over the command history and the created scripts. */
  function Validates(history: seq<string>, scripts: seq<string>, taskId: string): (r: bool)
    ensures taskId == BasicsTask ==> (r <==> |history| >= 3)
    ensures forall i :: 0 <= i < |ScriptTasks| && taskId == ScriptTasks[i].0 ==>
      (r <==> exists s :: s in scripts && Contains(s, ScriptTasks[i].1))
    ensures taskId != BasicsTask && (forall i :: 0 <= i < |ScriptTasks| ==> taskId != ScriptTasks[i].0) ==> r
  {
    if taskId == BasicsTask then |history| >= 3
    else
      var k := ScriptTaskIndex(taskId, 0);
      if k.Some? then exists s :: s in scripts && Contains(s, ScriptTasks[k.value].1)
      else true
  }

  /** More commands and more scripts never undo a passed check. */
  lemma ValidationMonotone(history: seq<string>, scripts: seq<string>, more: seq<string>, moreScripts: seq<string>,
                           taskId: string)
    requires Validates(history, scripts, taskId)
    ensures Validates(history + more, scripts + moreScripts, taskId)
  {
    forall i | 0 <= i < |ScriptTasks| && taskId == ScriptTasks[i].0
      ensures exists s :: s in scripts + moreScripts && Contains(s, ScriptTasks[i].1)
    {
      var s :| s in scripts && Contains(s, ScriptTasks[i].1);
      assert s in scripts + moreScripts;
    }
  }

  /** The task a save marks is one whose check then passes. */
  lemma SavedTaskValidates(history: seq<string>, scripts: seq<string>, name: string)
    requires MarkedBySave(name).Some?
    ensures Validates(history, scripts + [name], MarkedBySave(name).value)
  {
    var k := FirstKeyword(name, 0).value;
    assert name in scripts + [name];
    assert ScriptTasks[k].0 != BasicsTask;
  }

  /** The plugin's own state; the TrainingModule part is modelled apart. */
  class PowerShellScriptingModule {
    /** Saved script contents by name. */
    var scriptOutputs: map<string, string>
    /** Names of saved scripts, one entry per save. */
    var createdScripts: seq<string>
    /** Commands entered at the console. */
    var cmdletHistory: seq<string>

    constructor ()
      ensures scriptOutputs == map[] && createdScripts == [] && cmdletHistory == []
    {
      scriptOutputs := map[];
      createdScripts := [];
      cmdletHistory := [];
    }

    /** `execute_command`: a blank input is ignored; otherwise the stripped
        command is recorded once and the basics task is marked. */
    method ExecuteCommand(input: string) returns (marked: Option<string>)
      modifies this
      ensures Strip(input) == "" ==> cmdletHistory == old(cmdletHistory) && marked.None?
      ensures Strip(input) != "" ==> cmdletHistory == old(cmdletHistory) + [Strip(input)] && marked == Some(BasicsTask)
      ensures scriptOutputs == old(scriptOutputs) && createdScripts == old(createdScripts)
    {
      var command := Strip(input);
      marked := None;
      if command != "" {
        cmdletHistory := cmdletHistory + [command];
        marked := Some(BasicsTask);
      }
    }

    /** `get_cmdlet_help`: with an entry selected, `Get-Help <cmdlet>` is
        entered and executed. */
    method GetCmdletHelp(selected: Option<string>) returns (marked: Option<string>)
      modifies this
      ensures selected.None? ==> cmdletHistory == old(cmdletHistory) && marked.None?
      ensures selected.Some? ==>
        cmdletHistory == old(cmdletHistory) + [Strip("Get-Help " + CmdletOf(selected.value))]
        && marked == Some(BasicsTask)
      ensures scriptOutputs == old(scriptOutputs) && createdScripts == old(createdScripts)
    {
      marked := None;
      if selected.Some? {
        var command := "Get-Help " + CmdletOf(selected.value);
        assert command[0] == 'G';
        marked := ExecuteCommand(command);
      }
    }

    /** `save_script`: a blank name changes nothing; otherwise the script is
        stored under its `.ps1` name (replacing an earlier one), the name is
        appended to the list even when already there, and the first script
        task whose word the name contains is marked. */
    method SaveScript(rawName: string, content: string) returns (saved: Option<string>, marked: Option<string>)
      modifies this
      ensures Strip(rawName) == "" ==>
        saved.None? && marked.None? && scriptOutputs == old(scriptOutputs) && createdScripts == old(createdScripts)
      ensures Strip(rawName) != "" ==>
        var name := WithScriptSuffix(Strip(rawName));
        saved == Some(name) && marked == MarkedBySave(name)
        && scriptOutputs == old(scriptOutputs)[name := content]
        && createdScripts == old(createdScripts) + [name]
      ensures cmdletHistory == old(cmdletHistory)
    {
      var name := Strip(rawName);
      saved, marked := None, None;
      if name != "" {
        name := WithScriptSuffix(name);
        scriptOutputs := scriptOutputs[name := content];
        createdScripts := createdScripts + [name];
        saved, marked := Some(name), MarkedBySave(name);
      }
    }
  }
}
