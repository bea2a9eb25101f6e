/**
 * modules/module_loader/__init__.py: the package-level loader.  A scan reads
 * every module directory's manifest into a `ModuleInfo`, resolves the
 * module's class from the names the module file defines, and registers the
 * info under the manifest's id; instances are created on demand and cached.
 *
 * The file system and the import machinery are inputs: a directory listing is
 * a sequence of `DirEntry` values that say what the directory holds, what its
 * manifest decodes to and which names executing its `module.py` defines.
 * Creating an instance of a module class is the `created` argument.
 */
module PackageLoading {
  import opened Common
  import opened Tables

  /** A class defined by a loaded module file. */
  datatype ClassRef = ClassRef(modulePath: string, name: string)

  /** A name in a module file's namespace, in definition order: a class with
      the names of its direct base classes, or any other value. */
  datatype Binding = Binding(name: string, isClass: bool, baseNames: seq<string>)

  /** One entry of the modules directory.  `metadata` is None when reading or
      decoding metadata.json fails; `namespace` is None when the module file
      cannot be executed. */
  datatype DirEntry = DirEntry(
    name: string, isDir: bool, hasMetadata: bool, hasModulePy: bool,
    metadata: Option<Json>, namespace: Option<seq<Binding>>)

  /** An object created from a module class. */
  datatype Instance = Instance(cls: ClassRef, serial: int)

  datatype ModuleInfo = ModuleInfo(
    id: Json, name: Json, version: Json, author: Json, description: Json,
    prerequisites: Json, dependencies: Json, difficulty: Json, estimatedDuration: Json,
    tasks: Json, resources: Json, certification: Json,
    path: string, moduleClass: Option<ClassRef>)

  /** ModuleInfo.__init__: absent manifest fields become None, except the
      list and dictionary fields, which default to empty ones. */
  function MakeInfo(metadata: map<string, Json>, path: string): (m: ModuleInfo)
    ensures "prerequisites" !in metadata ==> m.prerequisites == JArr([])
    ensures "dependencies" !in metadata ==> m.dependencies == JArr([])
    ensures "tasks" !in metadata ==> m.tasks == JArr([])
    ensures "resources" !in metadata ==> m.resources == JObj(map[])
    ensures "certification" !in metadata ==> m.certification == JObj(map[])
    ensures "id" !in metadata ==> m.id == JNull
    ensures "id" in metadata ==> m.id == metadata["id"]
    ensures "prerequisites" in metadata ==> m.prerequisites == metadata["prerequisites"]
    ensures "tasks" in metadata ==> m.tasks == metadata["tasks"]
    ensures m.path == path && m.moduleClass.None?
  {
    ModuleInfo(
      GetOr(metadata, "id", JNull), GetOr(metadata, "name", JNull), GetOr(metadata, "version", JNull),
      GetOr(metadata, "author", JNull), GetOr(metadata, "description", JNull),
      GetOr(metadata, "prerequisites", JArr([])), GetOr(metadata, "dependencies", JArr([])),
      GetOr(metadata, "difficulty", JNull), GetOr(metadata, "estimated_duration", JNull),
      GetOr(metadata, "tasks", JArr([])), GetOr(metadata, "resources", JObj(map[])),
      GetOr(metadata, "certification", JObj(map[])),
      path, None)
  }

  /** meets_prerequisites: every prerequisite is among the completed module
      names.  Iterating a string visits its characters and a dictionary its
      keys; a prerequisites value that cannot be iterated raises (None). */
  function MeetsPrerequisites(prerequisites: Json, completed: seq<string>): (r: Option<bool>)
    ensures prerequisites == JArr([]) ==> r == Some(true)
    ensures prerequisites.JArr? ==>
      (r == Some(true) <==> forall i :: 0 <= i < |prerequisites.items| ==>
        prerequisites.items[i].JStr? && prerequisites.items[i].s in completed)
    ensures prerequisites.JStr? ==>
      (r == Some(true) <==> forall i :: 0 <= i < |prerequisites.s| ==> [prerequisites.s[i]] in completed)
    ensures prerequisites.JObj? ==>
      (r == Some(true) <==> forall k :: k in prerequisites.fields ==> k in completed)
    ensures r.None? <==> prerequisites.JNull? || prerequisites.JBool? || prerequisites.JInt?
  {
    match prerequisites
    case JArr(items) => Some(forall i | 0 <= i < |items| :: items[i].JStr? && items[i].s in completed)
    case JStr(s) => Some(forall i | 0 <= i < |s| :: [s[i]] in completed)
    case JObj(fields) => Some(forall k | k in fields :: k in completed)
    case _ => None
  }

  /** `task.get('points', 0)` as a summand: a missing value counts 0, a
      boolean counts 0 or 1; a task that is not a dictionary or a value that is
      not a number raises (None). */
  function TaskPoints(task: Json): Option<int>
  {
    match task
    case JObj(fields) =>
      (match GetOr(fields, "points", JInt(0))
       case JInt(i) => Some(i)
       case JBool(b) => Some(if b then 1 else 0)
       case _ => None)
    case _ => None
  }

  /** The sum over a task list, failing when one summand fails. */
  function SumPoints(tasks: seq<Json>): (r: Option<int>)
    ensures r.Some? <==> forall i :: 0 <= i < |tasks| ==> TaskPoints(tasks[i]).Some?
    ensures (forall i :: 0 <= i < |tasks| ==> TaskPoints(tasks[i]).Some? && TaskPoints(tasks[i]).value >= 0)
      ==> r.Some? && r.value >= 0
  {
    if |tasks| == 0 then Some(0)
    else
      var front := SumPoints(tasks[..|tasks| - 1]);
      var last := TaskPoints(tasks[|tasks| - 1]);
      if front.Some? && last.Some? then Some(front.value + last.value) else None
  }

  /** get_total_points.  Iterating an empty string or dictionary sums
      nothing; a non-empty one yields strings, which have no `get`. */
  function TotalPoints(tasks: Json): (r: Option<int>)
    ensures tasks.JArr? ==> r == SumPoints(tasks.items)
    ensures tasks.JNull? || tasks.JBool? || tasks.JInt? ==> r.None?
  {
    match tasks
    case JArr(items) => SumPoints(items)
    case JStr(s) => if s == "" then Some(0) else None
    case JObj(fields) => if fields == map[] then Some(0) else None
    case _ => None
  }

  /** A task without `points` adds nothing to the total. */
  lemma MissingPointsCountZero(tasks: seq<Json>, fields: map<string, Json>)
    requires "points" !in fields
    ensures SumPoints(tasks + [JObj(fields)]) == SumPoints(tasks)
  {
    assert (tasks + [JObj(fields)])[..|tasks|] == tasks;
  }

  // ---------------------------------------------------------------------
  // Class resolution (_load_module_class).

  /** The normalised form both sides of the name test use: lower case with
      underscores removed. */
  function Normalise(s: string): string
  {
    RemoveChar(Lower(s), '_')
  }

  predicate NamedAfter(b: Binding, moduleId: string)
  {
    b.isClass && Normalise(b.name) == Normalise(moduleId) + "module"
  }

  predicate DirectTrainingModule(b: Binding)
  {
    b.isClass && "TrainingModule" in b.baseNames
  }

  /** Index of the first binding named after the module. */
  function FirstNamedAfter(ns: seq<Binding>, moduleId: string): (r: Option<nat>)
    ensures r.Some? ==> (r.value < |ns| && NamedAfter(ns[r.value], moduleId)
      && forall j :: 0 <= j < r.value ==> !NamedAfter(ns[j], moduleId))
    ensures r.None? ==> forall j :: 0 <= j < |ns| ==> !NamedAfter(ns[j], moduleId)
  {
    if |ns| == 0 then None
    else if NamedAfter(ns[0], moduleId) then Some(0)
    else
      var t := FirstNamedAfter(ns[1..], moduleId);
      if t.Some? then Some(t.value + 1) else None
  }

  /** Index of the first class with a direct base named `TrainingModule`. */
  function FirstTrainingModule(ns: seq<Binding>): (r: Option<nat>)
    ensures r.Some? ==> (r.value < |ns| && DirectTrainingModule(ns[r.value])
      && forall j :: 0 <= j < r.value ==> !DirectTrainingModule(ns[j]))
    ensures r.None? ==> forall j :: 0 <= j < |ns| ==> !DirectTrainingModule(ns[j])
  {
    if |ns| == 0 then None
    else if DirectTrainingModule(ns[0]) then Some(0)
    else
      var t := FirstTrainingModule(ns[1..]);
      if t.Some? then Some(t.value + 1) else None
  }

  /** _load_module_class: the first class named after the module, else the
      first direct TrainingModule subclass, else None; None as well when the
      file cannot be executed or the id is not a string. */
  function LoadModuleClass(path: string, namespace: Option<seq<Binding>>, moduleId: Json): (r: Option<ClassRef>)
    ensures namespace.None? || !moduleId.JStr? ==> r.None?
    ensures r.Some? ==> r.value.modulePath == path
    ensures r.Some? ==> exists j :: (0 <= j < |namespace.value| && namespace.value[j].name == r.value.name
      && (NamedAfter(namespace.value[j], moduleId.s) || DirectTrainingModule(namespace.value[j])))
    ensures namespace.Some? && moduleId.JStr? && FirstNamedAfter(namespace.value, moduleId.s).Some? ==>
      r == Some(ClassRef(path, namespace.value[FirstNamedAfter(namespace.value, moduleId.s).value].name))
    ensures (namespace.Some? && moduleId.JStr? && FirstNamedAfter(namespace.value, moduleId.s).None?
             && FirstTrainingModule(namespace.value).Some?) ==>
      r == Some(ClassRef(path, namespace.value[FirstTrainingModule(namespace.value).value].name))
    ensures r.None? && namespace.Some? && moduleId.JStr? ==>
      forall j :: 0 <= j < |namespace.value| ==>
        !NamedAfter(namespace.value[j], moduleId.s) && !DirectTrainingModule(namespace.value[j])
  {
    match namespace
    case None => None
    case Some(ns) =>
      if !moduleId.JStr? then None
      else
        match FirstNamedAfter(ns, moduleId.s)
        case Some(i) => Some(ClassRef(path, ns[i].name))
        case None =>
          match FirstTrainingModule(ns)
          case Some(i) => Some(ClassRef(path, ns[i].name))
          case None => None
  }

  // ---------------------------------------------------------------------
  // The registry: an insertion-ordered dictionary from module id to info.

  /** Python dictionary keys: True and 1 (False and 0) are the same key. */
  function DictKey(j: Json): Json
  {
    match j
    case JBool(b) => JInt(if b then 1 else 0)
    case _ => j
  }

  predicate Hashable(j: Json)
  {
    !j.JArr? && !j.JObj?
  }

  function InfoKey(m: ModuleInfo): Json { DictKey(m.id) }

  /** The info a directory entry registers, if it is a module directory whose
      manifest is a dictionary with a hashable id. */
  function Loadable(dir: string, e: DirEntry): (r: Option<ModuleInfo>)
    ensures r.Some? ==> e.isDir && e.name != "module_loader" && e.hasMetadata && e.hasModulePy
    ensures r.Some? ==> Hashable(r.value.id) && r.value.path == dir + "/" + e.name
  {
    if e.isDir && e.name != "module_loader" && e.hasMetadata && e.hasModulePy
       && e.metadata.Some? && e.metadata.value.JObj?
    then
      var path := dir + "/" + e.name;
      var info := MakeInfo(e.metadata.value.fields, path);
      if Hashable(info.id) then Some(info.(moduleClass := LoadModuleClass(path, e.namespace, info.id)))
      else None
    else None
  }

  /** The registry after scanning `entries` in order. */
  function ScanAll(dir: string, entries: seq<DirEntry>): seq<ModuleInfo>
  {
    if |entries| == 0 then []
    else
      var front := ScanAll(dir, entries[..|entries| - 1]);
      match Loadable(dir, entries[|entries| - 1])
      case None => front
      case Some(info) => Assign(front, InfoKey, info)
  }

  /** The info registered by the last entry that registers one under key
      `k`. */
  function LastLoadable(dir: string, entries: seq<DirEntry>, k: Json): Option<ModuleInfo>
  {
    if |entries| == 0 then None
    else
      var l := Loadable(dir, entries[|entries| - 1]);
      if l.Some? && InfoKey(l.value) == k then l else LastLoadable(dir, entries[..|entries| - 1], k)
  }

  /** After a scan every id appears once and finds the info of the last
      directory that declared it: a later duplicate overwrites an earlier
      one, and directories that fail are skipped. */
  lemma {:induction false} ScanFinds(dir: string, entries: seq<DirEntry>, k: Json)
    ensures UniqueKeys(ScanAll(dir, entries), InfoKey)
    ensures Find(ScanAll(dir, entries), InfoKey, k) == LastLoadable(dir, entries, k)
  {
    if |entries| > 0 {
      var front := entries[..|entries| - 1];
      ScanFinds(dir, front, k);
      match Loadable(dir, entries[|entries| - 1])
      case None =>
      case Some(info) =>
        FindAssign(ScanAll(dir, front), InfoKey, info, k);
    }
  }

  /** Every registered info comes from a module directory of the listing. */
  lemma {:induction false} ScanSources(dir: string, entries: seq<DirEntry>, m: ModuleInfo)
    requires m in ScanAll(dir, entries)
    ensures exists i :: 0 <= i < |entries| && Loadable(dir, entries[i]) == Some(m)
  {
    var n := |entries| - 1;
    var front := entries[..n];
    match Loadable(dir, entries[n])
    case None =>
      ScanSources(dir, front, m);
      var i :| 0 <= i < |front| && Loadable(dir, front[i]) == Some(m);
      assert entries[i] == front[i];
    case Some(info) =>
      if m != info {
        ScanSources(dir, front, m);
        var i :| 0 <= i < |front| && Loadable(dir, front[i]) == Some(m);
        assert entries[i] == front[i];
      }
  }

  /** The modules whose prerequisites are met, in registry order; an
      evaluation that raises makes the whole call raise (None). */
  function Available(modules: seq<ModuleInfo>, completed: seq<string>): (r: Option<seq<ModuleInfo>>)
    ensures r.None? <==> exists i :: 0 <= i < |modules| && MeetsPrerequisites(modules[i].prerequisites, completed).None?
    ensures r.Some? ==> forall m :: m in r.value <==>
      m in modules && MeetsPrerequisites(m.prerequisites, completed) == Some(true)
    ensures r.Some? ==> |r.value| <= |modules|
  {
    if |modules| == 0 then Some([])
    else
      var front := Available(modules[..|modules| - 1], completed);
      var last := modules[|modules| - 1];
      var meets := MeetsPrerequisites(last.prerequisites, completed);
      assert modules == modules[..|modules| - 1] + [last];
      if front.None? || meets.None? then None
      else if meets.value then Some(front.value + [last])
      else front
  }

  class ModuleLoader {
    const modulesDirectory: string
    /** loaded_modules, in insertion order. */
    var loadedModules: seq<ModuleInfo>
    var moduleInstances: map<string, Instance>

    ghost predicate Valid()
      reads this
    {
      UniqueKeys(loadedModules, InfoKey)
    }

    constructor (modulesDirectory: string)
      ensures Valid()
      ensures this.modulesDirectory == modulesDirectory
      ensures loadedModules == [] && moduleInstances == map[]
    {
      this.modulesDirectory := modulesDirectory;
      loadedModules := [];
      moduleInstances := map[];
    }

    /** get_module_info. */
    function GetModuleInfo(moduleId: string): Option<ModuleInfo>
      reads this
    {
      Find(loadedModules, InfoKey, JStr(moduleId))
    }

    /** scan_modules: the registry is cleared and refilled from the listing;
        a missing directory leaves it empty.  Instances are kept. */
    method ScanModules(directoryExists: bool, entries: seq<DirEntry>) returns (r: seq<ModuleInfo>)
      modifies this
      ensures Valid()
      ensures loadedModules == (if directoryExists then ScanAll(modulesDirectory, entries) else [])
      ensures r == loadedModules
      ensures moduleInstances == old(moduleInstances)
    {
      loadedModules := [];
      if !directoryExists {
        return loadedModules;
      }
      var i := 0;
      while i < |entries|
        invariant 0 <= i <= |entries|
        invariant loadedModules == ScanAll(modulesDirectory, entries[..i])
        invariant moduleInstances == old(moduleInstances)
      {
        assert entries[..i + 1][..i] == entries[..i];
        var info := Loadable(modulesDirectory, entries[i]);
        if info.Some? {
          loadedModules := Assign(loadedModules, InfoKey, info.value);
        }
        i := i + 1;
      }
      assert entries[..i] == entries;
      ScanFinds(modulesDirectory, entries, JNull);
      r := loadedModules;
    }

    /** get_module_instance: None for an unknown module or one without a
        class; a cached instance is returned as is; otherwise the instance
        is created and cached, and a failed creation caches nothing. */
    method GetModuleInstance(moduleId: string, created: Option<Instance>) returns (r: Option<Instance>)
      modifies this
      ensures loadedModules == old(loadedModules)
      ensures old(GetModuleInfo(moduleId)).None? ==> r.None? && moduleInstances == old(moduleInstances)
      ensures old(GetModuleInfo(moduleId)).Some? && moduleId in old(moduleInstances) ==>
        r == Some(old(moduleInstances)[moduleId]) && moduleInstances == old(moduleInstances)
      ensures old(GetModuleInfo(moduleId)).Some? && moduleId !in old(moduleInstances) ==>
        if old(GetModuleInfo(moduleId)).value.moduleClass.Some? && created.Some?
        then r == created && moduleInstances == old(moduleInstances)[moduleId := created.value]
        else r.None? && moduleInstances == old(moduleInstances)
    {
      var info := GetModuleInfo(moduleId);
      if info.None? {
        return None;
      }
      if moduleId !in moduleInstances {
        if info.value.moduleClass.Some? {
          if created.None? {
            return None;
          }
          moduleInstances := moduleInstances[moduleId := created.value];
        } else {
          return None;
        }
      }
      r := Some(moduleInstances[moduleId]);
    }

    /** get_available_modules: a missing completed list counts as empty. */
    method GetAvailableModules(completed: Option<seq<string>>) returns (r: Option<seq<ModuleInfo>>)
      ensures r == Available(loadedModules, if completed.Some? then completed.value else [])
    {
      var done := if completed.Some? then completed.value else [];
      var available := [];
      var i := 0;
      while i < |loadedModules|
        invariant 0 <= i <= |loadedModules|
        invariant Available(loadedModules[..i], done) == Some(available)
      {
        assert loadedModules[..i + 1][..i] == loadedModules[..i];
        var meets := MeetsPrerequisites(loadedModules[i].prerequisites, done);
        if meets.None? {
          AvailableFails(loadedModules, done, i);
          return None;
        }
        if meets.value {
          available := available + [loadedModules[i]];
        }
        i := i + 1;
      }
      assert loadedModules[..i] == loadedModules;
      r := Some(available);
    }

    /** check_dependencies: True exactly for a registered module. */
    function CheckDependencies(moduleId: string): (b: bool)
      reads this
      ensures b <==> exists m :: m in loadedModules && InfoKey(m) == JStr(moduleId)
    {
      GetModuleInfo(moduleId).Some?
    }
  }

  /** One module whose prerequisites raise makes the whole listing raise. */
  lemma AvailableFails(modules: seq<ModuleInfo>, completed: seq<string>, i: nat)
    requires i < |modules| && MeetsPrerequisites(modules[i].prerequisites, completed).None?
    ensures Available(modules, completed).None?
  {
  }
}
