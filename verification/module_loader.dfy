/**
 * module_loader.py: the top-level loader.  It lists module directories,
 * reads a manifest into the fourteen-field `ModuleMetadata`, loads a module's
 * class by the name derived from the module name, checks dependencies by
 * loading them, and filters the loaded manifests by category and difficulty.
 *
 * The file system and the import machinery are inputs: a directory listing is
 * a sequence of `Entry` values, a manifest read is the decoded JSON (None when
 * the file is missing or malformed), and `sources` maps each importable
 * module name to the attribute names its `module.py` defines.
 */
module ModuleLoading {
  import opened Common
  import opened Tables

  datatype Entry = Entry(name: string, isDir: bool, hasMetadata: bool, hasModulePy: bool)

  /** The attribute `className` of the imported module `moduleName`. */
  datatype ClassRef = ClassRef(moduleName: string, className: string)

  /** The ModuleMetadata dataclass; its constructor does not check value
      types, so every field holds whatever the manifest holds. */
  datatype ModuleMetadata = ModuleMetadata(
    id: Json, name: Json, version: Json, description: Json, category: Json, difficulty: Json,
    estimatedTime: Json, dependencies: Json, prerequisites: Json, learningObjectives: Json,
    tags: Json, createdDate: Json, updatedDate: Json, author: Json)

  /** An entry of the module_metadata dictionary. */
  datatype MetadataEntry = MetadataEntry(moduleName: string, metadata: ModuleMetadata)

  function EntryName(e: MetadataEntry): string { e.moduleName }

  const FieldNames: set<string> := {
    "id", "name", "version", "description", "category", "difficulty", "estimated_time",
    "dependencies", "prerequisites", "learning_objectives", "tags", "created_date",
    "updated_date", "author"}

  /** `ModuleMetadata(**data)`: the decoded manifest must be a dictionary with
      exactly the dataclass's fields; a missing or an extra field raises. */
  function ParseMetadata(data: Option<Json>): (r: Option<ModuleMetadata>)
    ensures r.Some? <==> data.Some? && data.value.JObj? && data.value.fields.Keys == FieldNames
    ensures r.Some? ==> (r.value.id == data.value.fields["id"]
      && r.value.category == data.value.fields["category"]
      && r.value.difficulty == data.value.fields["difficulty"]
      && r.value.dependencies == data.value.fields["dependencies"])
  {
    if data.Some? && data.value.JObj? && data.value.fields.Keys == FieldNames then
      var f := data.value.fields;
      Some(ModuleMetadata(f["id"], f["name"], f["version"], f["description"], f["category"],
        f["difficulty"], f["estimated_time"], f["dependencies"], f["prerequisites"],
        f["learning_objectives"], f["tags"], f["created_date"], f["updated_date"], f["author"]))
    else None
  }

  // ---------------------------------------------------------------------
  // Class names (_get_module_class_name).

  /** The parts, each capitalised, concatenated. */
  function ConcatCapitalized(parts: seq<string>): string
  {
    if |parts| == 0 then "" else Capitalize(parts[0]) + ConcatCapitalized(parts[1..])
  }

  /** The class name expected for a module: its `_`-separated parts
      capitalised and joined, followed by `Module`. */
  function ClassName(moduleName: string): (r: string)
    ensures EndsWith(r, "Module")
    ensures '_' !in r
  {
    var parts := Split(moduleName, '_');
    NoUnderscore(parts);
    ConcatCapitalized(parts) + "Module"
  }

  lemma {:induction false} NoUnderscore(parts: seq<string>)
    requires forall i :: 0 <= i < |parts| ==> '_' !in parts[i]
    ensures '_' !in ConcatCapitalized(parts)
  {
    if |parts| > 0 {
      var c := Capitalize(parts[0]);
      assert '_' !in c by {
        forall i | 0 <= i < |c| ensures c[i] != '_' {
          if i > 0 { assert c[i] == Lower(parts[0][1..])[i - 1] == LowerChar(parts[0][i]); }
          assert parts[0][i] in parts[0];
        }
      }
      assert forall i :: 0 <= i < |parts[1..]| ==> '_' !in parts[1..][i] by {
        forall i | 0 <= i < |parts[1..]| ensures '_' !in parts[1..][i] { assert parts[1..][i] == parts[i + 1]; }
      }
      NoUnderscore(parts[1..]);
    }
  }

  /** Lower case and the removal of underscores both distribute over
      concatenation. */
  lemma LowerAppend(a: string, b: string)
    ensures Lower(a + b) == Lower(a) + Lower(b)
  {
  }

  lemma {:induction false} RemoveCharAppend(a: string, b: string, c: char)
    ensures RemoveChar(a + b, c) == RemoveChar(a, c) + RemoveChar(b, c)
  {
    if |a| > 0 {
      assert (a + b)[1..] == a[1..] + b;
      RemoveCharAppend(a[1..], b, c);
    } else {
      assert a + b == b;
    }
  }

  lemma {:induction false} RemoveCharAbsent(s: string, c: char)
    requires c !in s
    ensures RemoveChar(s, c) == s
  {
    if |s| > 0 {
      assert s[0] != c;
      assert s == [s[0]] + s[1..];
      RemoveCharAbsent(s[1..], c);
    }
  }

  /** Capitalising changes nothing once lower-cased. */
  lemma LowerCapitalize(s: string)
    ensures Lower(Capitalize(s)) == Lower(s)
  {
    var c := Capitalize(s);
    if |s| > 0 {
      forall i | 0 <= i < |s| ensures Lower(c)[i] == Lower(s)[i] {
        if i > 0 { assert c[i] == Lower(s[1..])[i - 1]; }
      }
    }
  }

  /** Lower-casing the concatenated capitalised parts and removing
      underscores gives the lower-cased joined name without underscores. */
  lemma {:induction false} NormalisedConcat(parts: seq<string>)
    requires |parts| >= 1
    requires forall i :: 0 <= i < |parts| ==> '_' !in parts[i]
    ensures Lower(ConcatCapitalized(parts)) == RemoveChar(Lower(Join(parts, '_')), '_')
  {
    var head := parts[0];
    LowerCapitalize(head);
    LowerHasNo(head, '_');
    if |parts| == 1 {
      RemoveCharAbsent(Lower(head), '_');
      assert ConcatCapitalized(parts) == Capitalize(head) + "";
    } else {
      var tail := parts[1..];
      assert forall i :: 0 <= i < |tail| ==> '_' !in tail[i] by {
        forall i | 0 <= i < |tail| ensures '_' !in tail[i] { assert tail[i] == parts[i + 1]; }
      }
      NormalisedConcat(tail);
      var cc, jt := ConcatCapitalized(tail), Join(tail, '_');
      assert ConcatCapitalized(parts) == Capitalize(head) + cc;
      assert Join(parts, '_') == head + "_" + jt;
      var lh := Lower(head);
      assert Lower("_") == "_";
      calc {
        RemoveChar(Lower(Join(parts, '_')), '_');
        { LowerAppend(head + "_", jt); LowerAppend(head, "_"); }
        RemoveChar((lh + "_") + Lower(jt), '_');
        { RemoveCharAppend(lh + "_", Lower(jt), '_'); }
        RemoveChar(lh + "_", '_') + RemoveChar(Lower(jt), '_');
        { DropTrailingSeparator(lh); }
        lh + RemoveChar(Lower(jt), '_');
        lh + Lower(cc);
        { LowerAppend(Capitalize(head), cc); }
        Lower(ConcatCapitalized(parts));
      }
    }
  }

  lemma DropTrailingSeparator(x: string)
    requires '_' !in x
    ensures RemoveChar(x + "_", '_') == x
  {
    RemoveCharAppend(x, "_", '_');
    RemoveCharAbsent(x, '_');
    assert "_"[1..] == "";
  }

  /** Lower-casing never introduces a character other than a letter. */
  lemma LowerHasNo(s: string, c: char)
    requires c !in s && !('a' <= c <= 'z')
    ensures c !in Lower(s)
  {
    forall i | 0 <= i < |s| ensures Lower(s)[i] != c { assert s[i] in s; }
  }

  /** The derived class name passes the name test of the package-level
      loader: lower-cased without underscores it is the module name, lower-cased
      without underscores, followed by `module`. */
  lemma ClassNameNormalises(moduleName: string)
    ensures RemoveChar(Lower(ClassName(moduleName)), '_') == RemoveChar(Lower(moduleName), '_') + "module"
  {
    var parts := Split(moduleName, '_');
    NormalisedConcat(parts);
    var cc := ConcatCapitalized(parts);
    NoUnderscore(parts);
    LowerAppend(cc, "Module");
    assert Lower("Module") == "module";
    assert '_' !in Lower(cc) by {
      forall i | 0 <= i < |cc| ensures Lower(cc)[i] != '_' { assert cc[i] in cc; }
    }
    RemoveCharAbsent(Lower(cc) + "module", '_');
  }

  /** Two parts: `basic_plc` gives `BasicPlcModule`. */
  lemma ClassNameTwoParts(a: string, b: string)
    requires '_' !in a && '_' !in b
    ensures ClassName(a + "_" + b) == Capitalize(a) + Capitalize(b) + "Module"
  {
    SplitTwo(a, b);
    ConcatTwo(a, b);
  }

  /** Three parts: `network_file_sharing` gives `NetworkFileSharingModule`. */
  lemma ClassNameThreeParts(a: string, b: string, c: string)
    requires '_' !in a && '_' !in b && '_' !in c
    ensures ClassName(a + "_" + b + "_" + c) == Capitalize(a) + Capitalize(b) + Capitalize(c) + "Module"
  {
    SplitThree(a, b, c);
    ConcatThree(a, b, c);
  }

  lemma SplitTwo(a: string, b: string)
    requires '_' !in a && '_' !in b
    ensures Split(a + "_" + b, '_') == [a, b]
  {
    SplitCons(a, '_', b);
  }

  lemma SplitThree(a: string, b: string, c: string)
    requires '_' !in a && '_' !in b && '_' !in c
    ensures Split(a + "_" + b + "_" + c, '_') == [a, b, c]
  {
    var bc := b + "_" + c;
    assert a + "_" + b + "_" + c == a + ['_'] + bc;
    SplitCons(a, '_', bc);
    SplitTwo(b, c);
    assert [a] + [b, c] == [a, b, c];
  }

  lemma ConcatCons(x: string, rest: seq<string>)
    ensures ConcatCapitalized([x] + rest) == Capitalize(x) + ConcatCapitalized(rest)
  {
    assert ([x] + rest)[1..] == rest;
  }

  lemma ConcatTwo(a: string, b: string)
    ensures ConcatCapitalized([a, b]) == Capitalize(a) + Capitalize(b)
  {
    ConcatCons(b, []);
    assert [b] == [b] + [];
    ConcatCons(a, [b]);
    assert [a, b] == [a] + [b];
    assert Capitalize(b) + "" == Capitalize(b);
  }

  lemma ConcatThree(a: string, b: string, c: string)
    ensures ConcatCapitalized([a, b, c]) == Capitalize(a) + Capitalize(b) + Capitalize(c)
  {
    var x, y, z := Capitalize(a), Capitalize(b), Capitalize(c);
    ConcatTwo(b, c);
    ConcatCons(a, [b, c]);
    assert [a, b, c] == [a] + [b, c];
    AppendAssoc(x, y, z);
  }

  lemma AppendAssoc(x: string, y: string, z: string)
    ensures x + (y + z) == x + y + z
  {
  }

  // ---------------------------------------------------------------------
  // Discovery, loading and filters.

  predicate IsModuleDir(e: Entry)
  {
    e.isDir && !StartsWith(e.name, "_") && e.hasMetadata && e.hasModulePy
  }

  /** The names of the listed module directories, in listing order. */
  function Discovered(entries: seq<Entry>): (r: seq<string>)
    ensures forall n :: n in r <==> exists i :: 0 <= i < |entries| && IsModuleDir(entries[i]) && entries[i].name == n
    ensures |r| <= |entries|
  {
    if |entries| == 0 then []
    else
      var front := Discovered(entries[..|entries| - 1]);
      var last := entries[|entries| - 1];
      assert forall i :: 0 <= i < |entries| - 1 ==> entries[..|entries| - 1][i] == entries[i];
      if IsModuleDir(last) then front + [last.name] else front
  }

  /** The class import of `moduleName` yields, when its file imports and
      defines the derived class name. */
  function Import(moduleName: string, sources: map<string, set<string>>): (r: Option<ClassRef>)
    ensures r.Some? <==> moduleName in sources && ClassName(moduleName) in sources[moduleName]
    ensures r.Some? ==> r.value == ClassRef(moduleName, ClassName(moduleName))
  {
    if moduleName in sources && ClassName(moduleName) in sources[moduleName]
    then Some(ClassRef(moduleName, ClassName(moduleName)))
    else None
  }

  /** check_dependencies' loop: each dependency not yet loaded is loaded,
      stopping at the first one that fails.  The result says whether all
      succeeded and gives the cache afterwards. */
  function LoadDependencies(deps: seq<string>, loaded: map<string, ClassRef>, sources: map<string, set<string>>):
    (bool, map<string, ClassRef>)
  {
    if |deps| == 0 then (true, loaded)
    else if deps[0] in loaded then LoadDependencies(deps[1..], loaded, sources)
    else
      match Import(deps[0], sources)
      case None => (false, loaded)
      case Some(c) => LoadDependencies(deps[1..], loaded[deps[0] := c], sources)
  }

  /** The loop succeeds exactly when every dependency is loaded or can be
      imported. */
  lemma {:induction false} LoadDependenciesSucceeds(deps: seq<string>, loaded: map<string, ClassRef>,
                                                    sources: map<string, set<string>>)
    ensures LoadDependencies(deps, loaded, sources).0
      <==> forall i :: 0 <= i < |deps| ==> deps[i] in loaded || Import(deps[i], sources).Some?
    decreases |deps|
  {
    if |deps| > 0 {
      var tail := deps[1..];
      assert forall i :: 0 <= i < |tail| ==> tail[i] == deps[i + 1];
      if deps[0] in loaded {
        LoadDependenciesSucceeds(tail, loaded, sources);
      } else if Import(deps[0], sources).Some? {
        var c := Import(deps[0], sources).value;
        LoadDependenciesSucceeds(tail, loaded[deps[0] := c], sources);
        forall i | 0 <= i < |tail| ensures tail[i] in loaded[deps[0] := c] <==> tail[i] in loaded || tail[i] == deps[0] { }
      }
    }
  }

  /** The loop keeps every class already cached. */
  lemma {:induction false} LoadDependenciesKeeps(deps: seq<string>, loaded: map<string, ClassRef>,
                                                 sources: map<string, set<string>>)
    ensures var r := LoadDependencies(deps, loaded, sources);
      forall n :: n in loaded ==> n in r.1 && r.1[n] == loaded[n]
    decreases |deps|
  {
    if |deps| > 0 {
      if deps[0] in loaded {
        LoadDependenciesKeeps(deps[1..], loaded, sources);
      } else if Import(deps[0], sources).Some? {
        LoadDependenciesKeeps(deps[1..], loaded[deps[0] := Import(deps[0], sources).value], sources);
      }
    }
  }

  /** The loop caches only dependencies, each under its derived class
      name, and on success every dependency is cached. */
  lemma {:induction false} LoadDependenciesCaches(deps: seq<string>, loaded: map<string, ClassRef>,
                                                  sources: map<string, set<string>>)
    ensures var r := LoadDependencies(deps, loaded, sources);
      && (forall n :: n in r.1 && n !in loaded ==> n in deps && r.1[n] == ClassRef(n, ClassName(n)))
      && (r.0 ==> forall i :: 0 <= i < |deps| ==> deps[i] in r.1)
    decreases |deps|
  {
    if |deps| > 0 {
      var tail := deps[1..];
      assert forall i :: 0 <= i < |tail| ==> tail[i] == deps[i + 1];
      if deps[0] in loaded {
        LoadDependenciesCaches(tail, loaded, sources);
        LoadDependenciesKeeps(tail, loaded, sources);
      } else if Import(deps[0], sources).Some? {
        var next := loaded[deps[0] := Import(deps[0], sources).value];
        LoadDependenciesCaches(tail, next, sources);
        LoadDependenciesKeeps(tail, next, sources);
      }
    }
  }

  predicate IsStringList(j: Json)
  {
    j.JArr? && forall i :: 0 <= i < |j.items| ==> j.items[i].JStr?
  }

  function StringItems(j: Json): (r: seq<string>)
    requires IsStringList(j)
    ensures |r| == |j.items| && forall i :: 0 <= i < |r| ==> j.items[i] == JStr(r[i])
  {
    seq(|j.items|, i requires 0 <= i < |j.items| => j.items[i].s)
  }

  /** Names of the entries whose selected metadata field equals the string
      `value`, in dictionary order. */
  function Matching(entries: seq<MetadataEntry>, field: ModuleMetadata -> Json, value: string): (r: seq<string>)
    ensures forall n :: n in r <==> exists e :: e in entries && e.moduleName == n && field(e.metadata) == JStr(value)
    ensures |r| <= |entries|
  {
    if |entries| == 0 then []
    else
      var front := entries[..|entries| - 1];
      var last := entries[|entries| - 1];
      assert entries == front + [last];
      Matching(front, field, value) + (if field(last.metadata) == JStr(value) then [last.moduleName] else [])
  }

  function CategoryOf(m: ModuleMetadata): Json { m.category }
  function DifficultyOf(m: ModuleMetadata): Json { m.difficulty }

  class ModuleLoader {
    const modulesDir: string
    var loadedModules: map<string, ClassRef>
    /** module_metadata, in insertion order. */
    var moduleMetadata: seq<MetadataEntry>

    ghost predicate Valid()
      reads this
    {
      UniqueKeys(moduleMetadata, EntryName)
    }

    constructor (modulesDir: string)
      ensures Valid()
      ensures this.modulesDir == modulesDir && loadedModules == map[] && moduleMetadata == []
    {
      this.modulesDir := modulesDir;
      loadedModules := map[];
      moduleMetadata := [];
    }

    function MetadataOf(moduleName: string): Option<MetadataEntry>
      reads this
    {
      Find(moduleMetadata, EntryName, moduleName)
    }

    /** discover_modules. */
    method DiscoverModules(entries: seq<Entry>) returns (modules: seq<string>)
      ensures modules == Discovered(entries)
    {
      modules := [];
      var i := 0;
      while i < |entries|
        invariant 0 <= i <= |entries|
        invariant modules == Discovered(entries[..i])
      {
        assert entries[..i + 1][..i] == entries[..i];
        if entries[i].isDir && !StartsWith(entries[i].name, "_") && entries[i].hasMetadata && entries[i].hasModulePy {
          modules := modules + [entries[i].name];
        }
        i := i + 1;
      }
      assert entries[..i] == entries;
    }

    /** load_module_metadata: a manifest with exactly the dataclass fields is
        stored under the module name and returned; otherwise None and the
        cache is unchanged. */
    method LoadModuleMetadata(moduleName: string, data: Option<Json>) returns (r: Option<ModuleMetadata>)
      requires Valid()
      modifies this
      ensures Valid()
      ensures r == ParseMetadata(data)
      ensures moduleMetadata == if r.Some? then Assign(old(moduleMetadata), EntryName, MetadataEntry(moduleName, r.value))
                                else old(moduleMetadata)
      ensures r.Some? ==> MetadataOf(moduleName) == Some(MetadataEntry(moduleName, r.value))
      ensures forall n :: n != moduleName ==> MetadataOf(n) == old(MetadataOf(n))
      ensures loadedModules == old(loadedModules)
    {
      r := ParseMetadata(data);
      if r.Some? {
        var e := MetadataEntry(moduleName, r.value);
        var rows := moduleMetadata;
        moduleMetadata := Assign(rows, EntryName, e);
        assert loadedModules == old(loadedModules);
        forall n ensures Find(moduleMetadata, EntryName, n) == if n == moduleName then Some(e) else Find(rows, EntryName, n) {
          FindAssign(rows, EntryName, e, n);
        }
      }
    }

    /** load_module: a cached class is returned as is; otherwise the class
        named after the module is cached and returned when the import
        defines it, and nothing is cached when it does not. */
    method LoadModule(moduleName: string, sources: map<string, set<string>>) returns (r: Option<ClassRef>)
      modifies this
      ensures moduleName in old(loadedModules) ==> r == Some(old(loadedModules)[moduleName])
      ensures moduleName !in old(loadedModules) ==> r == Import(moduleName, sources)
      ensures loadedModules == if moduleName !in old(loadedModules) && r.Some?
                               then old(loadedModules)[moduleName := r.value] else old(loadedModules)
      ensures r.Some? ==> moduleName in loadedModules && loadedModules[moduleName] == r.value
      ensures moduleMetadata == old(moduleMetadata)
    {
      if moduleName in loadedModules {
        return Some(loadedModules[moduleName]);
      }
      var className := ClassName(moduleName);
      if moduleName in sources && className in sources[moduleName] {
        r := Some(ClassRef(moduleName, className));
        loadedModules := loadedModules[moduleName := r.value];
      } else {
        r := None;
      }
    }

    /** check_dependencies: False without loaded metadata; otherwise every
        dependency not yet loaded is loaded, and the first failure gives
        False. */
    method CheckDependencies(moduleName: string, sources: map<string, set<string>>) returns (ok: bool)
      requires MetadataOf(moduleName).Some? ==> IsStringList(MetadataOf(moduleName).value.metadata.dependencies)
      modifies this
      ensures moduleMetadata == old(moduleMetadata)
      ensures MetadataOf(moduleName).None? ==> !ok && loadedModules == old(loadedModules)
      ensures MetadataOf(moduleName).Some? ==>
        var deps := StringItems(MetadataOf(moduleName).value.metadata.dependencies);
        (ok, loadedModules) == LoadDependencies(deps, old(loadedModules), sources)
    {
      var md := MetadataOf(moduleName);
      if md.None? {
        return false;
      }
      var deps := StringItems(md.value.metadata.dependencies);
      var i := 0;
      while i < |deps|
        invariant 0 <= i <= |deps|
        invariant moduleMetadata == old(moduleMetadata)
        invariant LoadDependencies(deps[i..], loadedModules, sources) == LoadDependencies(deps, old(loadedModules), sources)
      {
        assert deps[i..][1..] == deps[i + 1..];
        if deps[i] !in loadedModules {
          var c := LoadModule(deps[i], sources);
          if c.None? {
            return false;
          }
        }
        i := i + 1;
      }
      ok := true;
    }

    /** get_modules_by_category. */
    method GetModulesByCategory(category: string) returns (modules: seq<string>)
      ensures modules == Matching(moduleMetadata, CategoryOf, category)
    {
      modules := [];
      var i := 0;
      while i < |moduleMetadata|
        invariant 0 <= i <= |moduleMetadata|
        invariant modules == Matching(moduleMetadata[..i], CategoryOf, category)
      {
        assert moduleMetadata[..i + 1][..i] == moduleMetadata[..i];
        if moduleMetadata[i].metadata.category == JStr(category) {
          modules := modules + [moduleMetadata[i].moduleName];
        }
        i := i + 1;
      }
      assert moduleMetadata[..i] == moduleMetadata;
    }

    /** get_modules_by_difficulty. */
    method GetModulesByDifficulty(difficulty: string) returns (modules: seq<string>)
      ensures modules == Matching(moduleMetadata, DifficultyOf, difficulty)
    {
      modules := [];
      var i := 0;
      while i < |moduleMetadata|
        invariant 0 <= i <= |moduleMetadata|
        invariant modules == Matching(moduleMetadata[..i], DifficultyOf, difficulty)
      {
        assert moduleMetadata[..i + 1][..i] == moduleMetadata[..i];
        if moduleMetadata[i].metadata.difficulty == JStr(difficulty) {
          modules := modules + [moduleMetadata[i].moduleName];
        }
        i := i + 1;
      }
      assert moduleMetadata[..i] == moduleMetadata;
    }
  }
}
