# AutomationAcademy core, modelled in Dafny

AutomationAcademy is a desktop training application for automation
technicians. Trainees open training modules, work through each module's
tasks, and have their progress, sessions, milestones and certifications
recorded. Administrators manage users, roles and permissions. Each
training module is a plugin: a directory with a manifest and a
`module.py`, found and loaded at run time.

This project models the deterministic layer under the Qt user interface
and proves properties of it:

- **Progress and completion** (`progress_tracker.dfy`, `progress_manager.dfy`,
  `training_module.dfy`):
  - task rows and module aggregates recomputed from them;
  - one-time milestones;
  - points-based module progress, training sessions and certifications;
  - the in-memory task set of an open module, its percentage and its
    completion gate.
- **Module registry and loaders** (`package_loader.dfy`, `module_loader.dfy`,
  and the class registry in `training_module.dfy`):
  - module discovery and manifest reading;
  - the module-name to class-name rule and class resolution;
  - the caches, prerequisite and dependency checks, and category filters.
- **Users, roles and authentication** (`role_manager.dfy`, `user_manager.dfy`,
  `authentication.dfy`):
  - effective permissions with wildcard matching;
  - protected default roles;
  - accounts, sessions with expiry, lockout and single-use reset tokens.
- **Helpers** (`config_manager.dfy`, `profile_manager.dfy`,
  `completion_tracker.dfy`):
  - dotted-path configuration;
  - GitHub token priority and key splitting;
  - skill levels, settings defaults, achievements and day streaks;
  - screenshot paths and the completion dashboard.
- **Plugin task checks** (`powershell_module.dfy`, `cli_diagnostics.dfy`,
  `remote_access.dfy`, `test_import_module.dfy`, `basic_plc.dfy`): the state
  each plugin keeps and the `validate_task` predicate over it.

Shared pieces:

- `common.dfy` holds JSON values, `Option` and the few Python string
  operations the code relies on.
- `tables.dfy` models SQLite tables as sequences of rows in rowid order.
  `INSERT OR REPLACE` deletes the conflicting row and appends the new one.
  `UPDATE` and `DELETE` act on the rows with a key.

The model treats the following as inputs or parameters:

- the clock, given as seconds;
- random tokens and salts;
- directory listings and decoded JSON files;
- the names a `module.py` defines when executed;
- the results of HTTP calls.

SHA-256 and base64 are injective constructors.

The plugins complete a task by calling `self.task_widgets.get(id)`. That
attribute is never assigned anywhere, so every such call raises an
`AttributeError`. The model returns the id of the task the code evidently
means to mark.

## Model

| member | source | states |
|---|---|---|
| ProgressTracking.PairRows | progress_tracker.py:195-196 | the rows kept are exactly the task rows of the (module, user) pair, in table order |
| ProgressTracking.UserRows | progress_tracker.py:343-344 | the rows kept are exactly the user's task rows |
| ProgressTracking.CountCompleted | progress_tracker.py:190 | the completed count is at most the row count, equals it iff every row is completed and is 0 iff none is |
| ProgressTracking.EarliestStart | progress_tracker.py:193 | `MIN(started_at)` is NULL iff there are no rows, otherwise the start time of some row and no later than any |
| ProgressTracking.LatestCompletion | progress_tracker.py:194 | `MAX(completed_at)` is NULL iff no row has a completion time, otherwise one of them and no earlier than any |
| ProgressTracking.Percentage | progress_tracker.py:202 | the percentage lies in 0..100, is 100 iff there are rows and all are completed, and is 0 when none is |
| ProgressTracking.Recompute | progress_tracker.py:187-212 | the recomputed row belongs to the pair, counts only the pair's (started) task rows, has completed ≤ total and a percentage in 0..100, is `completed` iff there are rows and all are completed (never `not_started`), and always has `certificate_issued` false |
| ProgressTracking.ScoredCount | progress_tracker.py:191 | the number of completed rows with a score (the divisor of `AVG`) is at most the row count and is 0 iff no row is completed with a score |
| ProgressTracking.DurationSum | progress_tracker.py:192 | the summed duration is 0 when no completed row has a duration |
| ProgressTracking.ScoreSumWithin | progress_tracker.py:191 | scores between `lo` and `hi` sum to between `count` copies of `lo` and of `hi`, where `count` is the number of completed scored rows |
| ProgressTracking.DurationSumCovers | progress_tracker.py:192 | with non-negative durations the sum is non-negative and at least every completed row's duration |
| ProgressTracking.MeanWithin | progress_tracker.py:211 | `avg_score or 0` over a non-empty set of scores lies between any bounds enclosing them |
| ProgressTracking.RecomputeScoreDuration | progress_tracker.py:211-212 | the module row's `overall_score` is 0 when the pair has no completed scored task, and otherwise lies within the range of those scores; its `total_duration_seconds` is 0 when no completed task has a duration, and with non-negative durations it is non-negative and at least each completed task's duration (see also lines 191-192) |
| ProgressTracking.PairRowsAppend | progress_tracker.py:195-196 | selecting a pair's rows distributes over concatenation of tables |
| ProgressTracking.PairRowsWithout | progress_tracker.py:120-127 | removing a row of another pair leaves this pair's rows unchanged (see also lines 195-196) |
| ProgressTracking.PairRowsUpdate | progress_tracker.py:159-169 | updating a row of another pair leaves this pair's rows unchanged (see also lines 195-196) |
| ProgressTracking.RecomputeUpsert | progress_tracker.py:120-127 | starting a task of one pair does not change the recomputed row of any other pair (see also lines 187-212) |
| ProgressTracking.RecomputeUpdate | progress_tracker.py:159-169 | completing a task of one pair does not change the recomputed row of any other pair (see also lines 187-212) |
| ProgressTracking.Completion | progress_tracker.py:159-169 | the UPDATE of `complete_task` keeps the row's key and sets its status to `completed` |
| ProgressTracking.LastTaskCompletesModule | progress_tracker.py:159-169 | completing the last open task of a pair makes the recomputed module row `completed` (see also lines 202-203) |
| ProgressTracking.AwardAllEarned | progress_tracker.py:221-247 | every row the milestone loop appends is earned by one of its rules: that rule's type, the count of its query as the value, a count reaching the threshold, and the fixed description |
| ProgressTracking.AwardAllSpec | progress_tracker.py:221-247 | the milestone loop only appends rows for the user, each earned by a rule (type, value equal to the count, count reaching the threshold), keeps at most one row per (user, type), and leaves every milestone whose count reached its threshold recorded |
| ProgressTracking.FirstTaskAwarded | progress_tracker.py:222 | a completed task row of the user earns the `first_task` milestone (see also lines 229-247) |
| ProgressTracking.UserModules | progress_tracker.py:330-331 | the module rows kept are exactly the user's |
| ProgressTracking.ModuleCompletedCount | progress_tracker.py:326 | the completed module count is at most the row count |
| ProgressTracking.MaxAttempts | progress_tracker.py:342 | `MAX(attempts) or 0` bounds every row's attempts and is attained when there are rows (see also line 358) |
| ProgressTracking.CalculateStatistics | progress_tracker.py:320-359 | completed modules ≤ modules and completed tasks ≤ tasks; with no module rows the averages and the time are 0; every task row's attempts is at most `max_attempts` |
| ProgressTracking.PercentageSumBounds | progress_tracker.py:327 | the sum of per-module percentages lies between 0 and 100 times the row count |
| ProgressTracking.AverageCompletionBounds | progress_tracker.py:327 | the average completion lies in 0..100 (see also line 352) |
| ProgressTracking.AverageTaskScoreBounds | progress_tracker.py:341 | `average_task_score` is 0 when the user has no completed scored task, and otherwise lies within the range of those scores (see also line 357) |
| ProgressTracking.MeanBounds | progress_tracker.py:327-328 | `AVG(...) or 0` of values in 0..bound lies in 0..bound (see also lines 352-353) |
| ProgressTracking.ProgressTracker.constructor | progress_tracker.py:48-50 | the three tables start empty and consistent |
| ProgressTracking.ProgressTracker.UpdateModuleProgress | progress_tracker.py:182-214 | INSERT OR REPLACE of the pair's recomputed row; every other pair's module row is unchanged; task rows and milestones are unchanged |
| ProgressTracking.ProgressTracker.StartTask | progress_tracker.py:114-135 | the task row is replaced by an `in_progress` row whose attempts is the previous value + 1 (1 for a first start) with every other column cleared; other task rows unchanged; the pair's module row is recomputed and is `in_progress` |
| ProgressTracking.ProgressTracker.CompleteTask | progress_tracker.py:137-180 | an existing row becomes completed with the given score and screenshot, time now and duration from its start; without a row the task table is unchanged; the pair is recomputed and milestones checked; completing the pair's last open task completes the module and any completion earns `first_task` |
| ProgressTracking.ProgressTracker.CheckMilestones | progress_tracker.py:216-247 | milestones become the result of the milestone loop over the five rules; task and module rows are unchanged |
| ProgressManagement.PairCompletions | progress_tracking/progress_manager.py:231-238 | the completions listed are exactly the pair's completion rows |
| ProgressManagement.ProgressPercentage | progress_tracking/progress_manager.py:171-174 | 0 without module points; otherwise at least 100 (status `completed`) exactly when the earned points reach the total, and never negative for non-negative points |
| ProgressManagement.LatestOpenSession | progress_tracking/progress_manager.py:304-311 | no session is found iff the pair has no open session; otherwise an open session of the pair that no open session of the pair started after |
| ProgressManagement.CloseOneSession | progress_tracking/progress_manager.py:315-320 | closing one open session of the pair leaves exactly one open session fewer |
| ProgressManagement.SessionTimeChange | progress_tracking/progress_manager.py:315-330 | changing one session's duration changes the pair's summed time by exactly the difference |
| ProgressManagement.ProgressManager.constructor | progress_tracking/progress_manager.py:15-17 | the progress, completion, session and certification tables start empty over the given module tasks |
| ProgressManagement.ProgressManager.StartModule | progress_tracking/progress_manager.py:96-122 | the pair's progress row is replaced by a fresh `in_progress` row (not idempotent: earlier points and dates are lost), other pairs unchanged, and one new open session is appended |
| ProgressManagement.ProgressManager.UpdateModuleProgress | progress_tracking/progress_manager.py:151-189 | an existing progress row gets the earned points, their percentage of the module total, `completed` iff they reach it and a completion date iff completed; without a row nothing changes; other pairs unchanged |
| ProgressManagement.UpdatedProgress | progress_tracking/progress_manager.py:171-181 | the updated row keeps its key, start date and time spent, records the earned points and the time, is `completed` iff there are module points and they are all earned, has a completion date iff completed, and 0 percent without module points |
| ProgressManagement.ProgressManager.CompleteTask | progress_tracking/progress_manager.py:124-149 | the completion row (status `verified`) is inserted or replaced on its key and the pair's progress row is brought up to date with it (the corrected behaviour, see Findings) |
| ProgressManagement.ProgressManager.CompleteTaskAsWritten | progress_tracking/progress_manager.py:124-149 | as written: the completion row is stored but the progress table is unchanged, because the nested update is locked out and its error swallowed (see also lines 151-189) |
| ProgressManagement.ProgressManager.GetModuleProgress | progress_tracking/progress_manager.py:211-252 | `not_started` iff the pair has no progress row; otherwise that row, exactly the pair's completions and the sum of the pair's session durations |
| ProgressManagement.ProgressManager.IssueCertification | progress_tracking/progress_manager.py:274-295 | one certification row is appended, even for a pair already certified; nothing else changes |
| ProgressManagement.ProgressManager.RecordSessionEnd | progress_tracking/progress_manager.py:297-338 | without an open session nothing changes; otherwise the latest open session is closed at now with its duration, one open session fewer remains, the summed time changes by the new duration, and an existing progress row's time spent becomes that sum |
| ProgressManagement.ExampleFacts | progress_tracking/progress_manager.py:158-181 | for one 10-point task completed for 10 points, the earned and total points are both 10 and the update rewrites the one progress row |
| ProgressManagement.LockedUpdateExample | progress_tracking/progress_manager.py:124-149 | after start and one full completion the as-written module stays `in_progress` while the corrected one is `completed` |
| ProgressManagement.CorrectedExample | progress_tracking/progress_manager.py:124-181 | with the corrected completion the single-task module becomes `completed` |
| RoleManagement.Seeded | user_management/role_manager.py:136-154 | the seeded roles table holds the existing roles unchanged plus every missing default role, and nothing else |
| RoleManagement.SeedIdsSpec | user_management/role_manager.py:141-151 | inserting default roles one at a time with `INSERT OR IGNORE` keeps every existing role and adds exactly the listed roles that were missing |
| RoleManagement.SeedIdsDefaults | user_management/role_manager.py:141-151 | inserting the four default roles in order gives the seeded table |
| RoleManagement.SeedingIdempotent | user_management/role_manager.py:136-154 | seeding an already seeded table changes nothing |
| RoleManagement.OverrideDecides | user_management/role_manager.py:223-272 | a live override decides a permission by its `granted` flag alone; without one, the user holds the permission iff a live assignment or the primary role carries it |
| RoleManagement.GrantWins | user_management/role_manager.py:291-315 | after a granting override with no expiry or a later one, the user holds the permission whatever the roles say |
| RoleManagement.RevokeWins | user_management/role_manager.py:317-341 | after a revoking override the user lacks the permission whatever the roles say |
| RoleManagement.OverrideIsolated | user_management/role_manager.py:258-270 | an override of one permission leaves every other permission as it was |
| RoleManagement.SelfWildcard | user_management/role_manager.py:274-289 | holding `p.*` grants `p` itself |
| RoleManagement.PrefixWildcard | user_management/role_manager.py:282-287 | holding `area.*` grants every permission `area.rest` |
| RoleManagement.BareStarMatchesNothing | user_management/role_manager.py:282-287 | a bare `*` is no wildcard: it matches only the permission `*` |
| RoleManagement.AssignedStep | user_management/role_manager.py:231-242 | taking one more assignment row adds its role's permissions exactly when the row is the user's, live, and names an existing role |
| RoleManagement.OverrideStep | user_management/role_manager.py:256-270 | applying one more override row adds or discards only the permission that row names |
| RoleManagement.RoleManager.constructor | user_management/role_manager.py:60-63 | the tables are opened as given, the roles table seeded with the default roles, and the audit log empty |
| RoleManagement.RoleManager.InitializeDefaultRoles | user_management/role_manager.py:136-154 | the roles table becomes its seeded form; nothing else changes |
| RoleManagement.RoleManager.LogRoleAction | user_management/role_manager.py:495-521 | exactly one audit entry is appended; nothing else changes |
| RoleManagement.RoleManager.AssignRole | user_management/role_manager.py:156-191 | succeeds iff the role exists; then the user's primary role becomes it (for an existing user), the assignment is inserted or replaced and one `role_assigned` entry is audited; on refusal nothing changes |
| RoleManagement.RoleManager.RevokeRole | user_management/role_manager.py:193-221 | always succeeds; the assignment is deleted, the primary role falls back to `trainee` only when it was the revoked role, and one `role_revoked` entry is audited |
| RoleManagement.RoleManager.GetUserPermissions | user_management/role_manager.py:223-272 | the row-by-row loops compute exactly the role-derived permissions corrected by the live overrides |
| RoleManagement.RoleManager.HasPermission | user_management/role_manager.py:274-289 | true iff the user's permissions hold the permission itself or one of its dotted prefixes followed by `.*` |
| RoleManagement.RoleManager.GrantPermission | user_management/role_manager.py:291-315 | the override is inserted or replaced by a granting one, one `permission_granted` entry is audited, and while it is live the user holds the permission |
| RoleManagement.RoleManager.RevokePermission | user_management/role_manager.py:317-341 | the override is inserted or replaced by a revoking one without expiry, one `permission_revoked` entry is audited, and the user lacks the permission |
| RoleManagement.RoleManager.CreateCustomRole | user_management/role_manager.py:394-414 | succeeds iff the role id is new, and then adds exactly that role; nothing else changes |
| RoleManagement.RoleManager.UpdateRole | user_management/role_manager.py:416-460 | succeeds iff some field is given and the role exists; then only the given fields of that role change |
| RoleManagement.Revised | user_management/role_manager.py:425-440 | each field given is replaced and each field omitted is kept |
| RoleManagement.RoleManager.DeleteRole | user_management/role_manager.py:462-493 | succeeds iff the role is not a default role and no user has it as primary role; then the role and all its assignments are deleted; otherwise nothing changes |
| PackageLoading.MakeInfo | modules/module_loader/__init__.py:15-29 | absent manifest fields are None except prerequisites, dependencies and tasks (empty lists) and resources and certification (empty dictionaries); present fields are taken as given; the class starts unset |
| PackageLoading.MeetsPrerequisites | modules/module_loader/__init__.py:31-33 | an empty list is met; a list is met iff every entry is a completed module name; a string iff each of its characters is one; an object iff each of its keys is one (key order does not matter to `all`); a value that cannot be iterated raises |
| PackageLoading.SumPoints | modules/module_loader/__init__.py:35-37 | the sum is defined iff every task yields a number (an integer or boolean: the model's JSON has no fractional numbers), and is non-negative when every task's points are |
| PackageLoading.TotalPoints | modules/module_loader/__init__.py:35-37 | a task list sums its tasks' points; a value that cannot be iterated raises |
| PackageLoading.MissingPointsCountZero | modules/module_loader/__init__.py:37 | a task without `points` adds nothing to the total |
| PackageLoading.FirstNamedAfter | modules/module_loader/__init__.py:95-99 | finds the first defined class whose normalised name is the normalised module id plus `module`, or reports that there is none |
| PackageLoading.FirstTrainingModule | modules/module_loader/__init__.py:101-106 | finds the first defined class with a direct base named `TrainingModule`, or reports that there is none |
| PackageLoading.LoadModuleClass | modules/module_loader/__init__.py:82-111 | no class when the module file cannot be executed or the id is not a string; the first class named after the module wins; with none, the first class with a direct `TrainingModule` base; with neither, no class; a found class comes from that module file |
| PackageLoading.Loadable | modules/module_loader/__init__.py:55-80 | only a directory other than `module_loader` holding both `metadata.json` and `module.py` registers an info, whose id can be used as a dictionary key and whose path is the directory's |
| PackageLoading.ScanFinds | modules/module_loader/__init__.py:47-80 | the registry has unique keys, and looking up a key finds the info of the last listed directory that registers one under it; failing directories are skipped |
| PackageLoading.ScanSources | modules/module_loader/__init__.py:55-77 | every registered info comes from some module directory of the listing |
| PackageLoading.Available | modules/module_loader/__init__.py:138-148 | raises iff some module's prerequisites raise; otherwise exactly the registered modules whose prerequisites are met |
| PackageLoading.AvailableFails | modules/module_loader/__init__.py:143-146 | one module whose prerequisites raise makes the whole listing raise |
| PackageLoading.ModuleLoader.constructor | modules/module_loader/__init__.py:42-45 | the loader starts on the given directory with no modules and no instances |
| PackageLoading.ModuleLoader.ScanModules | modules/module_loader/__init__.py:47-80 | the registry is cleared and refilled from the listing (empty for a missing directory); the instance cache is kept |
| PackageLoading.ModuleLoader.GetModuleInstance | modules/module_loader/__init__.py:113-132 | none for an unknown module or one without a class; a cached instance is returned as is; otherwise the created instance is cached and returned, and a failed creation caches nothing |
| PackageLoading.ModuleLoader.GetAvailableModules | modules/module_loader/__init__.py:138-148 | the loop over the registry computes `Available`, a missing completed list counting as empty |
| PackageLoading.ModuleLoader.CheckDependencies | modules/module_loader/__init__.py:150-158 | true exactly for a registered module |
| ModuleLoading.ParseMetadata | module_loader.py:18-33 | a manifest yields metadata iff it decodes to a dictionary with exactly the fourteen dataclass fields, whose values are taken as given (see also lines 57-73) |
| ModuleLoading.ClassName | module_loader.py:105-109 | the class name ends in `Module` and contains no underscore |
| ModuleLoading.NoUnderscore | module_loader.py:108-109 | joining capitalised parts without underscores yields no underscore |
| ModuleLoading.NormalisedConcat | module_loader.py:108-109 | lower-casing the joined capitalised parts equals lower-casing the underscore-joined name and removing its underscores |
| ModuleLoading.ClassNameNormalises | module_loader.py:105-109 | the derived class name, normalised as the package loader compares names, is the normalised module name followed by `module`, so the two loaders agree on a module's class (see also modules/module_loader/__init__.py:95-99) |
| ModuleLoading.ClassNameTwoParts | module_loader.py:105-109 | a two-part name such as `basic_plc` gives its two parts capitalised followed by `Module` |
| ModuleLoading.ClassNameThreeParts | module_loader.py:105-109 | a three-part name such as `network_file_sharing` gives its three parts capitalised followed by `Module` |
| ModuleLoading.Discovered | module_loader.py:43-55 | exactly the names of listed directories not starting with `_` that hold both `metadata.json` and `module.py`, never more names than entries |
| ModuleLoading.Import | module_loader.py:75-103 | a class is found iff the module imports and defines the derived class name, and it is that class |
| ModuleLoading.LoadDependenciesSucceeds | module_loader.py:111-124 | the dependency loop succeeds iff every dependency is already loaded or importable |
| ModuleLoading.LoadDependenciesKeeps | module_loader.py:111-124 | the dependency loop keeps every class already cached |
| ModuleLoading.LoadDependenciesCaches | module_loader.py:111-124 | every class the dependency loop caches is a dependency under its derived class name, and on success every dependency is cached |
| ModuleLoading.Matching | module_loader.py:126-144 | exactly the names of the entries whose selected field is the given string, never more names than entries |
| ModuleLoading.ModuleLoader.constructor | module_loader.py:38-41 | the loader starts on the given directory with no classes and no metadata |
| ModuleLoading.ModuleLoader.DiscoverModules | module_loader.py:43-55 | the loop over the listing returns the discovered module names |
| ModuleLoading.ModuleLoader.LoadModuleMetadata | module_loader.py:57-73 | the result is the parsed manifest; a successful parse is stored under the module's name, leaving every other module's metadata as it was; failure stores nothing |
| ModuleLoading.ModuleLoader.LoadModule | module_loader.py:75-103 | a cached class is returned as is; otherwise the import result, cached only on success; the metadata is untouched |
| ModuleLoading.ModuleLoader.CheckDependencies | module_loader.py:111-124 | false without stored metadata; otherwise the result and the class cache are those of loading the dependencies in order, stopping at the first failure |
| ModuleLoading.ModuleLoader.GetModulesByCategory | module_loader.py:126-134 | the loop returns exactly the modules whose category is the given string |
| ModuleLoading.ModuleLoader.GetModulesByDifficulty | module_loader.py:136-144 | the loop returns exactly the modules whose difficulty is the given string |
| TrainingModules.TaskIdDistinct | training_module.py:361-366 | distinct positions get distinct `task_<i>` ids |
| TrainingModules.LoadAllUnique | training_module.py:361-371 | writing the definitions into a dictionary with unique keys keeps the keys unique |
| TrainingModules.LoadAllHit | training_module.py:361-371 | after loading, each definition is found under its own id, incomplete |
| TrainingModules.LoadAllMiss | training_module.py:361-371 | after loading, any other key holds what it held before |
| TrainingModules.LoadAllFresh | training_module.py:357-375 | loading into an empty dictionary gives the ids `task_0` .. `task_{n-1}` in definition order, none completed |
| TrainingModules.LoadedMissing | training_module.py:361-371 | no id beyond the loaded definitions is present |
| TrainingModules.LoadAllSnoc | training_module.py:361-371 | loading one more definition is one more dictionary assignment |
| TrainingModules.CompletedCountExtremes | training_module.py:390-391 | the completed count reaches the number of tasks iff every task is completed, and is zero iff none is |
| TrainingModules.PercentBounds | training_module.py:393-394 | the percentage lies in 0..100, is 0 with no task completed, and is 100 iff every task is completed (see also lines 438-441) |
| TrainingModules.CompletedIds | training_module.py:423-426 | exactly the ids of the completed tasks, as many as the completed count |
| TrainingModules.DaySeconds | training_module.py:422 | the seconds component of a duration lies in 0..86399 and is the duration itself when that is less than a day |
| TrainingModules.TrainingModule.constructor | training_module.py:177-187 | the module holds the given data and start time and the fresh task dictionary; with tasks the bar shows 0 and the button follows the gate, without tasks neither is written (see also lines 357-375) |
| TrainingModules.TrainingModule.Score | training_module.py:435-442 | the score lies in 0..100, is 0 without tasks or with none completed, and is 100 iff there are tasks and all are completed |
| TrainingModules.TrainingModule.LoadTasks | training_module.py:357-375 | each definition is written under `task_<i>`, incomplete, and with any task present the bar shows the score and the button follows the gate |
| TrainingModules.TrainingModule.OnTaskCompleted | training_module.py:377-381 | an unknown id changes nothing; otherwise only the named task takes the new flag and the progress is refreshed; every other task is unchanged |
| TrainingModules.TrainingModule.UpdateProgress | training_module.py:388-404 | with no tasks nothing is written; otherwise the bar shows the score and the button is enabled iff every task is completed or not required (required by default) |
| TrainingModules.TrainingModule.CompleteModule | training_module.py:413-433 | no record when the user data has no `id`; otherwise the record carries the user id, module name, time, elapsed seconds, exactly the completed task ids, the signature, the notes and the score |
| TrainingModules.FirstQualifying | training_module.py:587-592 | finds the first attribute that is a TrainingModule subclass other than TrainingModule, or reports that there is none |
| TrainingModules.Resolve | training_module.py:544-602 | no class for a name outside the directory map or a failed import; a fallback-mapped name gets its fallback class; any other name gets the first qualifying attribute in `dir()` order, if there is one |
| TrainingModules.ModuleRegistry.constructor | training_module.py:530-531 | the registry starts empty |
| TrainingModules.ModuleRegistry.GetModuleClass | training_module.py:533-602 | a cached class is returned as is; otherwise the name is resolved and a class found is cached; a failure caches nothing |
| Configuration.SetPath | config_manager.py:68-79 | a successful write yields an object whose first segment is present |
| Configuration.SetThenGet | config_manager.py:55-79 | after a successful set, reading the same dotted path gives back the value written |
| Configuration.SetKeepsOthers | config_manager.py:68-79 | a set leaves every path that parts from the written one unchanged |
| Configuration.SetFailsIff | config_manager.py:72-77 | a set fails exactly when the document or some existing step on the path is not an object |
| Configuration.NeverFailsBelowFresh | config_manager.py:72-77 | writing any path into an empty document succeeds, every intermediate step being created |
| Configuration.ConfigManager.constructor | config_manager.py:19-44 | the document is the decoded file, or an empty object when the file is missing or unreadable |
| Configuration.ConfigManager.Get | config_manager.py:55-66 | the loop over the segments returns the value at the dotted path, and the default when a segment is missing or a step is not an object |
| Configuration.ConfigManager.Set | config_manager.py:68-79 | on success the document reads back the new value at the path and every path that parts from it is unchanged; on failure the document is unchanged |
| Configuration.ConfigManager.GetDeployKey | config_manager.py:81-108 | a non-empty environment value wins; otherwise no key unless `github.use_deploy_key` is truthy, and then the fixed placeholder |
| Configuration.ConfigManager.GetGithubToken | config_manager.py:110-129 | a non-empty user token wins, then a truthy configured `github.api_token`; otherwise, with `github.use_deploy_key` truthy, the deploy key (a non-empty environment key, else the fixed placeholder); otherwise nothing (JNull) |
| Configuration.ObfuscateKey | config_manager.py:135-152 | fails iff the key is shorter than four characters (a zero step); otherwise the parts decode back to the key, each part but the last holding `len // 4` characters |
| Profiles.Applied | user_management/profile_manager.py:107-121 | only the allowed fields present in the data change; the preferences are kept |
| Profiles.FillKeysObject | user_management/profile_manager.py:231-234 | filling an object with a category's defaults keeps every existing entry and adds every default key |
| Profiles.AsObjectKeys | user_management/profile_manager.py:211-228 | a default category holds exactly its listed keys |
| Profiles.FillCategoriesObject | user_management/profile_manager.py:229-234 | for preferences whose default categories, where present, are objects (any other entries may hold anything), the merge succeeds; every user entry stays, unchanged outside the default categories and with every value it held inside them; only default categories are added; and every default category ends up an object holding all of its default keys |
| Profiles.FillKeysFails | user_management/profile_manager.py:232-234 | a failure part way through a category makes the whole fill fail |
| Profiles.FillCategoriesFails | user_management/profile_manager.py:229-234 | a failure in one category makes the whole settings read fail |
| Profiles.SkillLevelMonotone | user_management/profile_manager.py:328-337 | more points never give a lower skill level |
| Profiles.WithInProgressFacts | user_management/profile_manager.py:314-321 | the categories are those completed or in progress; a category only in progress gets a Beginner entry with no modules and no points; a completed category keeps its counts |
| Profiles.GetSkillProfile | user_management/profile_manager.py:278-326 | the two loops over the query rows give the completed skills, later rows of a category winning, extended by the in-progress counts |
| Profiles.Streak | user_management/profile_manager.py:476-486 | for any dates the streak lies between 1 and their number, every step inside it is exactly one day, and the step after it is not |
| Profiles.CurrentStreak | user_management/profile_manager.py:477-486 | the counting loop, stopping at the first gap, computes the streak |
| Profiles.StreakIs | user_management/profile_manager.py:477-486 | a run of consecutive days that cannot be extended is the streak |
| Profiles.AwardedExactly | user_management/profile_manager.py:408-502 | the achievements awarded among the first k checks are exactly the earned ones among them, each once |
| Profiles.GetUserAchievements | user_management/profile_manager.py:389-507 | the achievements returned are exactly the earned ones, in checking order, each once |
| Profiles.CountAchievements | user_management/profile_manager.py:408-463 | the count-based checks award the earned module, points and perfect-score achievements in order |
| Profiles.AchievementsCumulative | user_management/profile_manager.py:409-502 | each higher milestone implies the lower one of its kind, and a month streak needs at least 30 session days |
| Profiles.ProfileManager.constructor | user_management/profile_manager.py:16-19 | the manager works on the given users table |
| Profiles.ProfileManager.UpdateUserProfile | user_management/profile_manager.py:100-132 | succeeds iff the user exists, some allowed field is given, every given allowed value can be bound (no list, dict or integer beyond 64 bits) and no other row holds the given non-NULL email; then only that user's allowed fields change; otherwise nothing changes; unique emails stay unique (see also user_management/authentication.py:44) |
| Profiles.ProfileManager.UpdatePreferences | user_management/profile_manager.py:134-160 | succeeds iff the user exists and the stored preferences are an object; then they become a shallow merge in which the supplied keys win; otherwise nothing changes |
| Profiles.ProfileManager.GetUserSettings | user_management/profile_manager.py:195-243 | an empty object for an unknown user; otherwise the stored preferences with every missing default category and key filled in, failing where the source raises |
| Profiles.FillKeysLoop | user_management/profile_manager.py:232-234 | the inner loop computes the fill of one category's defaults |
| UserManagement.GenerateUserId | user_manager.py:625-628 | the id starts with `USER-`, ends with `-` and the timestamp, and in between holds the first five characters of the username upper-cased |
| UserManagement.GeneratedIdsCollide | user_manager.py:625-628 | two usernames that agree on their first five letters up to case get the same id within the same second |
| UserManagement.FindLogin | user_manager.py:211-217 | a found row is one whose username or email is the login; none is found only when no row has it as username or email |
| UserManagement.Admitted | user_manager.py:203-245 | an admitted account was found by username or email, its stored hash is the hash of the password with its salt and it is active; no account is admitted iff the lookup, the password or the status fails |
| UserManagement.Modified | user_manager.py:236-239 | an UPDATE by user id keeps the table's length and changes exactly the rows of that user (see also lines 396-399, 467-470) |
| UserManagement.FindModified | user_manager.py:236-239 | an UPDATE by user id keeps the UNIQUE constraints and changes the row of that user and no other (see also lines 396-399) |
| UserManagement.UsersSnoc | user_manager.py:71-89 | appending a row that clashes on no UNIQUE column keeps the constraints |
| UserManagement.Granted | user_manager.py:485-499 | the grant is present afterwards and every earlier grant is kept as it was |
| UserManagement.GrantIdempotent | user_manager.py:485-499 | granting the same permission again changes nothing, whoever grants it and whenever |
| UserManagement.Allowed | user_manager.py:501-549 | a direct grant suffices; a user without a row has only direct grants; an admin has every permission |
| UserManagement.RoleAllowed | user_manager.py:531-546 | without a direct grant, an instructor or trainee has exactly its role's fixed permissions |
| UserManagement.GrantAllows | user_manager.py:485-549 | after a grant the permission is held, and nothing held before is lost |
| UserManagement.UserManager.constructor | user_manager.py:59-62 | the manager opens the given tables, with sessions lasting the configured number of hours |
| UserManagement.UserManager.GetUser | user_manager.py:318-336 | a user is found iff a row has the id, and it is that user |
| UserManagement.UserManager.ValidateSession | user_manager.py:272-299 | only an active session that has not expired yields a user, the session's own; such a session yields its user while the user's row exists |
| UserManagement.UserManager.CreateUser | user_manager.py:148-201 | a taken username, then a taken email, then a taken generated id raise and nothing is stored; otherwise one active row with the salted password hash and empty preferences and metadata is appended, and the password then matches |
| UserManagement.UserManager.Authenticate | user_manager.py:203-270 | no session and no change unless the account is admitted; a clashing session id raises and nothing is kept; otherwise a session expiring the configured duration later is stored, the login time recorded, and the session validates until it expires |
| UserManagement.UserManager.Logout | user_manager.py:301-316 | the session, if any, becomes inactive and never validates afterwards; nothing else changes |
| UserManagement.UserManager.ChangePassword | user_manager.py:369-405 | succeeds iff the old password matches; then the user's hash and salt are replaced and the new password matches; otherwise nothing changes |
| UserManagement.UserManager.CreatePasswordResetToken | user_manager.py:407-437 | no token for an unknown email; a clashing token raises and nothing is kept; otherwise the token is stored for the email's user, valid for one hour and unused |
| UserManagement.UserManager.ResetPassword | user_manager.py:439-483 | succeeds iff the token is known, unused and unexpired; then the token's user gets the new password and the token is used up, so it is refused from then on; otherwise nothing changes |
| UserManagement.UserManager.GrantPermission | user_manager.py:485-499 | the grant is inserted unless present, and the permission is then held; nothing else changes |
| Authentication.FailedSince | user_management/authentication.py:198-216 | the count of failed attempts in the window never exceeds the number of attempts |
| Authentication.FailedSinceSnoc | user_management/authentication.py:198-229 | logging one more attempt adds one to the count exactly when it is a failed attempt of that user inside the window |
| Authentication.RepeatedFailuresLock | user_management/authentication.py:198-216 | the configured number of refused logins at one moment lock the user out for the whole lockout window |
| Authentication.Verdict | user_management/authentication.py:126-170 | a login passes iff it is not locked out, the user exists, is active and the password hash matches; each refusal is given exactly when its check is the first to fail, in the order lockout, unknown user, inactive account, wrong password |
| Authentication.RefusalsAlike | user_management/authentication.py:140-170 | an unknown username and a wrong password get the same message, though the attempt log tells them apart |
| Authentication.Patched | user_management/authentication.py:170-172 | an UPDATE by id keeps the table's length and changes exactly the rows with that id (see also lines 304-306, 378-380) |
| Authentication.FindPatched | user_management/authentication.py:170-172 | an UPDATE by id keeps the UNIQUE constraints and changes the row with that id and no other |
| Authentication.ResetVerdict | user_management/authentication.py:352-375 | a reset token may be used iff it is known, unused and unexpired; refusals come in the order invalid, already used, expired |
| Authentication.AuthenticationManager.constructor | user_management/authentication.py:18-22 | the manager opens the given tables with the configured salt, lockout window and attempt limit (see also lines 33-102) |
| Authentication.AuthenticationManager.CreateDefaultAdmin | user_management/authentication.py:104-119 | an existing `admin` is kept; an admin email already taken raises and nothing changes; otherwise one active `admin` row with the hash of `admin123` is appended; afterwards an `admin` exists whenever it succeeded |
| Authentication.AuthenticationManager.JoinedUser | user_management/authentication.py:237-246 | a user is found only through an active session with the token, and it is that session's user |
| Authentication.AuthenticationManager.Authenticate | user_management/authentication.py:126-196 | the first failed check is logged as one failed attempt and reported with nothing else changed; a clashing session token fails with nothing stored or logged; otherwise an eight-hour session is stored, the login time recorded and one successful attempt logged; the session then validates until it expires, and each logged failure adds one to the lockout count |
| Authentication.AuthenticationManager.Admit | user_management/authentication.py:160-174 | one active session expiring eight hours later is appended, the login time recorded, and the session validates until it expires |
| Authentication.AuthenticationManager.ValidateSession | user_management/authentication.py:231-271 | accepted iff an active session of an existing user that has not expired has the token, returning that user; an expired active session is deactivated; a refused token is never accepted later |
| Authentication.AuthenticationManager.Logout | user_management/authentication.py:273-287 | true iff a session has the token; it becomes inactive and never validates afterwards |
| Authentication.AuthenticationManager.ChangePassword | user_management/authentication.py:289-316 | succeeds iff the old password is the user's current one; an unknown user and a wrong password get distinct errors; on success the new hash replaces the old and the new password matches; otherwise nothing changes |
| Authentication.AuthenticationManager.CreatePasswordResetToken | user_management/authentication.py:318-350 | no token for an unknown email or a clashing token, nothing stored; otherwise one unused token valid for one hour is appended for the email's user |
| Authentication.AuthenticationManager.ResetPassword | user_management/authentication.py:352-395 | the error is the token's refusal, if any, with nothing changed; on success the token's user gets the new password hash and the token is used up, so every later use is refused as already used |
| Authentication.UsersSnoc | user_management/authentication.py:40-55 | appending a row that clashes on no UNIQUE column keeps the constraints |
| Authentication.SessionsSnoc | user_management/authentication.py:60-70 | a session with a fresh token keeps the tokens unique |
| Authentication.ResetSnoc | user_management/authentication.py:87-95 | a reset row with a fresh token keeps the tokens unique |
| CompletionTracking.UserSegment | completion_tracker.py:35 | the user directory name keeps the username's length and holds no space |
| CompletionTracking.ModuleSegment | completion_tracker.py:36 | the module directory name keeps the module name's length and holds neither a space nor a `/` |
| CompletionTracking.JoinPath | completion_tracker.py:35-42 | joining an empty part keeps the base; a relative part is appended after a `/`; the result always ends in the part |
| CompletionTracking.ScreenshotPath | completion_tracker.py:31-48 | the path ends in `_<timestamp>.png`, and for relative names it is the screenshots directory, the user segment, the module segment and `<task>_<timestamp>.png` |
| CompletionTracking.ModuleSegmentsMerge | completion_tracker.py:36 | two different module names, `Net/IO` and `net io`, share one directory |
| CompletionTracking.UpdateDashboard | completion_tracker.py:159-229 | the fetched or a fresh dashboard gains one completion in all: the user's list grows by exactly this completion, the module's counter by one, the module's average score is never changed, and every other user and module is kept |
| CompletionTracking.CountModule | completion_tracker.py:201-207 | a module's count never exceeds the number of reports |
| CompletionTracking.ReplayedModules | completion_tracker.py:199-208 | after any sequence of merges from nothing, the total is the number of completions, each module's counter is the number of its completions, and no average score moves from 0 |
| CompletionTracking.ReplayedUsers | completion_tracker.py:187-198 | after any sequence of merges from nothing, each user's list holds exactly that user's completions, in the order they were merged |
| CompletionTracking.UploadTarget | completion_tracker.py:94-102 | no upload target, and no request, iff owner, repository or token is missing or empty; the branch defaults to `main` |
| CompletionTracking.UploadToGithub | completion_tracker.py:91-157 | the upload reports success iff the configuration is complete, the report upload answers 200 or 201 and the screenshot loop does not raise (a file that cannot be read, or a PUT request that raises); a screenshot answered with an error status does not fail it; an incomplete configuration always fails |
| CompletionTracking.LexLessIrreflexive | completion_tracker.py:240 | no timestamp sorts before itself |
| CompletionTracking.LexLessTransitive | completion_tracker.py:240 | the string order on timestamps is transitive |
| CompletionTracking.LexLessTotal | completion_tracker.py:240 | of two different timestamps one sorts before the other |
| CompletionTracking.Insert | completion_tracker.py:240 | inserting a report adds exactly that report |
| CompletionTracking.InsertNewestFirst | completion_tracker.py:240 | inserting into a newest-first list keeps it newest first |
| CompletionTracking.SortNewestFirst | completion_tracker.py:240 | the sorted reports are a permutation of the given ones, newest first |
| CompletionTracking.GetUserHistory | completion_tracker.py:231-240 | exactly the reports of the files matching `<username>_*.json`, as a permutation, newest first |
| CompletionTracking.MatchingMembers | completion_tracker.py:236-238 | the collected reports are exactly those of the files the user glob matches |
| CompletionTracking.HistoryCatchesLongerNames | completion_tracker.py:236 | the glob is a prefix match, so the history of `bob` also holds the reports of `bob_smith` |
| CompletionTracking.GetModuleStatistics | completion_tracker.py:242-265 | all zeros without a matching report; otherwise the number of reports matching `*_<module_id>_*.json`, their mean score and mean time, and a completion rate that stays 0 |
| CompletionTracking.TotalsBounded | completion_tracker.py:254-258 | the summed score of the matching reports lies between count copies of the lowest and of the highest score |
| CompletionTracking.AverageBounded | completion_tracker.py:262 | the mean score stays within any bounds every matching score keeps |
| CliDiagnostics.DigitRun | modules/cli_diagnostics/module.py:321 | the digit run found at a position is all digits and ends at a non-digit or at the end |
| CliDiagnostics.QuadEnd | modules/cli_diagnostics/module.py:233 | a dotted quad that starts at a position ends after it and within the text (see also line 321) |
| CliDiagnostics.FirstQuad | modules/cli_diagnostics/module.py:321 | finds the leftmost position at or after the start where a dotted quad begins, or reports that there is none |
| CliDiagnostics.SearchQuad | modules/cli_diagnostics/module.py:321-322 | no match iff no dotted quad starts anywhere; otherwise the leftmost one |
| CliDiagnostics.QuadShift | modules/cli_diagnostics/module.py:321 | putting text in front of a string moves its dotted quads along unchanged |
| CliDiagnostics.QuadPrefix | modules/cli_diagnostics/module.py:233 | cutting a string right after a dotted quad keeps the quad |
| CliDiagnostics.NoQuadInPrefix | modules/cli_diagnostics/module.py:239-241 | no dotted quad starts inside a dot-free prefix ending in a blank (see also line 321) |
| CliDiagnostics.PingPrefix | modules/cli_diagnostics/module.py:237-241 | the text before the address in a ping command is dot-free and ends in a blank |
| CliDiagnostics.SearchAfterPrefix | modules/cli_diagnostics/module.py:321-322 | after such a prefix, the first dotted quad is the address that follows it |
| CliDiagnostics.QuickPingTarget | modules/cli_diagnostics/module.py:226-243 | the entry a quick ping logs names the selected device's own address as its target, whatever the count (see also lines 321-322) |
| CliDiagnostics.LastTimeAt | modules/cli_diagnostics/module.py:279 | finds the last `time=<digits>ms` starting below a bound, or reports that there is none |
| CliDiagnostics.FirstReplyAt | modules/cli_diagnostics/module.py:279 | finds the first `Reply from ` followed by a digit or a dot at or after a position, or reports that there is none |
| CliDiagnostics.ReplyTime | modules/cli_diagnostics/module.py:279-281 | a match gives the digits of the last time field that follows the first reply; no match iff no time field follows any reply |
| CliDiagnostics.TaskConfig | modules/cli_diagnostics/module.py:397 | the first task definition with the id, or none when no definition has it (see also line 406) |
| CliDiagnostics.FirstWord | modules/cli_diagnostics/module.py:409 | a first word is never empty |
| CliDiagnostics.FirstWordIsSplitHead | modules/cli_diagnostics/module.py:409 | there is no first word iff the command is blank; otherwise it is the first run of non-blank characters |
| CliDiagnostics.WordEnd | modules/cli_diagnostics/module.py:409 | a word runs up to the next blank or the end |
| CliDiagnostics.RequiredWords | modules/cli_diagnostics/module.py:409 | defined iff no required command is blank, and then the lower-cased first word of each, in order |
| CliDiagnostics.PingPassesAfterRun | modules/cli_diagnostics/module.py:395-402 | a logged command containing one of a ping task's targets passes that task |
| CliDiagnostics.ValidationMonotone | modules/cli_diagnostics/module.py:389-413 | logging more commands never undoes a passed check |
| CliDiagnostics.EmptyLogFails | modules/cli_diagnostics/module.py:395-411 | with an empty log no ping task passes, and neither does the command task once it requires a command |
| CliDiagnostics.Commands | modules/cli_diagnostics/module.py:408 | the commands of the log, one per entry, in order |
| CliDiagnostics.CliDiagnosticsModule.constructor | modules/cli_diagnostics/module.py:61-65 | the module starts with its task definitions, no history and an empty log |
| CliDiagnostics.CliDiagnosticsModule.RunCommand | modules/cli_diagnostics/module.py:252-268 | the command is appended to the history and one `Executing...` entry naming its target is appended to the log (see also lines 308-341) |
| CliDiagnostics.CliDiagnosticsModule.ExecuteCommand | modules/cli_diagnostics/module.py:245-250 | a blank input changes nothing; otherwise the stripped command is run |
| CliDiagnostics.CliDiagnosticsModule.QuickPing | modules/cli_diagnostics/module.py:226-243 | an empty device entry or one not starting with a dotted quad runs nothing; otherwise `ping -n <count> <ip>`, or `ping <ip>` when continuous, is run |
| CliDiagnostics.CliDiagnosticsModule.UpdateLastLogEntry | modules/cli_diagnostics/module.py:343-353 | only the newest entry takes the status and the response time; the log keeps its length and commands; an empty log stays empty |
| CliDiagnostics.CliDiagnosticsModule.AppendOutput | modules/cli_diagnostics/module.py:270-285 | a reply with a time marks the newest entry `Success` with that time, a timeout `Timeout`, an unreachable host `Unreachable`; any other line changes nothing; only the newest entry's status and response time are written, every earlier entry and the newest entry's other columns stay as they were (see also modules/cli_diagnostics/module.py:343-353) |
| CliDiagnostics.CliDiagnosticsModule.ClearNetworkLog | modules/cli_diagnostics/module.py:384-387 | the log empties and the history stays |
| PowerShellScripting.FirstKeyword | modules/powershell_scripting/module.py:342-349 | finds the first script task, in the order the save tries them, whose word the name contains, or reports that there is none |
| PowerShellScripting.WithScriptSuffix | modules/powershell_scripting/module.py:328-329 | the saved name ends in `.ps1` and starts with the given name; a name already ending in `.ps1` is kept, any other grows by exactly the four suffix characters |
| PowerShellScripting.SuffixIdempotent | modules/powershell_scripting/module.py:328-329 | applying the suffix rule twice is applying it once |
| PowerShellScripting.Leftmost | modules/powershell_scripting/module.py:608 | finds the leftmost ` - ` at or after a position, or reports that there is none |
| PowerShellScripting.CmdletOf | modules/powershell_scripting/module.py:606-609 | the cmdlet is the text before the first ` - `, or the whole entry without one; it is a prefix of the entry and contains no separator (see also line 614) |
| PowerShellScripting.CmdletOfEntry | modules/powershell_scripting/module.py:606-609 | a list entry `<cmdlet> - <description>` whose cmdlet has no blank yields exactly that cmdlet |
| PowerShellScripting.CmdletOfIdempotent | modules/powershell_scripting/module.py:606-609 | taking the cmdlet of a cmdlet changes nothing |
| PowerShellScripting.ScriptTaskIndex | modules/powershell_scripting/module.py:700-714 | finds the script task with the id, or reports that there is none |
| PowerShellScripting.Validates | modules/powershell_scripting/module.py:694-716 | the basics task passes iff at least three commands were entered; a script task passes iff some saved name contains its word; any other id passes |
| PowerShellScripting.ValidationMonotone | modules/powershell_scripting/module.py:694-716 | more commands and more scripts never undo a passed check |
| PowerShellScripting.SavedTaskValidates | modules/powershell_scripting/module.py:342-349 | the task a save marks is one whose check then passes (see also lines 700-714) |
| PowerShellScripting.PowerShellScriptingModule.constructor | modules/powershell_scripting/module.py:25-30 | no scripts, no saved names and no command history |
| PowerShellScripting.PowerShellScriptingModule.ExecuteCommand | modules/powershell_scripting/module.py:231-264 | a blank input changes nothing; otherwise the stripped command is recorded once and the basics task is marked |
| PowerShellScripting.PowerShellScriptingModule.GetCmdletHelp | modules/powershell_scripting/module.py:611-617 | with an entry selected, `Get-Help <cmdlet>` is recorded and the basics task marked; without one nothing changes |
| PowerShellScripting.PowerShellScriptingModule.SaveScript | modules/powershell_scripting/module.py:320-352 | a blank name changes nothing; otherwise the script is stored under its `.ps1` name (replacing an earlier one), the name is appended even when already listed, and the first script task whose word it contains is marked |
| RemoteAccess.TestResultValidates | modules/remote_access/module.py:327-342 | once a successful test's entry is in the history, the task that test marks passes its check (see also lines 390-412) |
| RemoteAccess.OtherEntriesChangeNothing | modules/remote_access/module.py:357-383 | a failed test or a Teams entry leaves every check as it was (see also lines 390-412) |
| RemoteAccess.StoredSettingsCount | modules/remote_access/module.py:268-289 | settings with another password still pass the network configuration check but never the password check (see also lines 390-412) |
| RemoteAccess.ClearedHistoryFails | modules/remote_access/module.py:385-388 | emptying the history undoes both connection checks (see also lines 390-412) |
| RemoteAccess.Ticked | modules/remote_access/module.py:260-263 | ticking every box keeps the steps and leaves all of them checked |
| RemoteAccess.RemoteAccessModule.constructor | modules/remote_access/module.py:24-28 | no settings, an empty history, and every installation and Teams step unticked (see also lines 60-66, 199-205) |
| RemoteAccess.RemoteAccessModule.SetInstallStep | modules/remote_access/module.py:236-242 | only that step changes; the installation task is marked iff every step is then ticked |
| RemoteAccess.RemoteAccessModule.InstallationComplete | modules/remote_access/module.py:260-263 | every step becomes ticked; the installation task is marked iff some step was still open |
| RemoteAccess.RemoteAccessModule.SetTeamsStep | modules/remote_access/module.py:199-205 | only that Teams step changes |
| RemoteAccess.RemoteAccessModule.ApplyVncConfig | modules/remote_access/module.py:268-289 | the settings are stored whatever the password; both configuration tasks are marked only for the standard password |
| RemoteAccess.RemoteAccessModule.AddConnectionHistory | modules/remote_access/module.py:357-383 | exactly one row is appended to the history |
| RemoteAccess.RemoteAccessModule.ClearConnectionHistory | modules/remote_access/module.py:385-388 | the history empties; nothing else changes |
| RemoteAccess.RemoteAccessModule.ConnectionTestResult | modules/remote_access/module.py:327-342 | one `VNC Test` row, `Success` iff the test succeeded, is appended, and on success the local or the remote test task is marked |
| RemoteAccess.RemoteAccessModule.TestLocalConnection | modules/remote_access/module.py:299-308 | a successful `localhost` test row is appended and the local test task marked (see also lines 327-342) |
| RemoteAccess.RemoteAccessModule.TestRemoteConnection | modules/remote_access/module.py:310-325 | a blank address does nothing; otherwise a successful test row for the stripped address is appended and the matching test task marked (see also lines 327-342) |
| RemoteAccess.RemoteAccessModule.TestTeamsConfig | modules/remote_access/module.py:344-355 | the Teams task is marked exactly when every Teams step is ticked; the history never changes, because the mark raises before the `Configuration Test` row would be written |
| TestImport.Definition | modules/test_import_module/module.py:73-155 | every task dictionary carries the `id`, `points` and `required` keys the task system reads |
| TestImport.Definitions | modules/test_import_module/module.py:73-155 | one dictionary per declared task, in order |
| TestImport.Catalogue | modules/test_import_module/module.py:73-155 | five tasks numbered 1 to 5, each worth 20 points, 100 in all |
| TestImport.DefinitionRequired | modules/test_import_module/module.py:73-155 | the task system reads a task as required exactly when it is declared required |
| TestImport.OnlyTaskFourOptional | modules/test_import_module/module.py:124-138 | task 4 is the only optional task and the only one without a screenshot |
| TestImport.ValidatesAgreesWithTasks | modules/test_import_module/module.py:167-178 | a declared task passes iff it needs no screenshot or a truthy screenshot path is given; an undeclared id fails |
| TestImport.FreshModuleIncomplete | modules/test_import_module/module.py:17-31 | freshly loaded, the module holds five tasks and cannot be completed (see also lines 73-155) |
| TestImport.DefaultModuleData | modules/test_import_module/module.py:19-24 | the default module data names the module |
| TestImport.Open | modules/test_import_module/module.py:17-51 | given data is kept (an empty mapping included) and only missing data is replaced by the defaults; the module id, 30 minutes, `Beginner` and `System Test` are fixed |
| BasicPlc.Instructions | modules/basic_plc/module.py:63-97 | a list or object id raises (it cannot be a dictionary key); any other id gets the not-found text exactly when it is not one of the three task names |
| BasicPlc.InstructionsDistinct | modules/basic_plc/module.py:63-97 | each of the three tasks has its own text |
| BasicPlc.TaskPoints | modules/basic_plc/module.py:111-115 | a task yields its points only when it is an object with an `id` |
| BasicPlc.TallyDefined | modules/basic_plc/module.py:111-115 | the loop gets through the task list exactly when every task has an `id` and integer or boolean `points` (the model's JSON has no fractional numbers) |
| BasicPlc.TallyBounds | modules/basic_plc/module.py:105-123 | after the loop the total is the sum of the task points and the completed count lies between 0 and the number of tasks; with no negative points the earned points lie between 0 and the total |
| BasicPlc.NothingEarned | modules/basic_plc/module.py:111-115 | since no task is ever recorded as completed, nothing is counted and nothing earned (see also lines 125-128) |
| BasicPlc.ProgressSummary | modules/basic_plc/module.py:105-128 | the summary counts every task and sums every task's points, with nothing completed, nothing earned and a percentage of 0 |
| BasicPlc.BasicPlcModule.constructor | modules/basic_plc/module.py:8-24 | the fixed id, name and description; without the metadata file no metadata attribute is set, with it each is read with its default |
| BasicPlc.BasicPlcModule.LoadMetadata | modules/basic_plc/module.py:15-24 | with the metadata file each attribute is set from it, a missing key taking its default; without it nothing changes |
| BasicPlc.BasicPlcModule.StartTask | modules/basic_plc/module.py:57-61 | the task becomes current; with a hashable `id` its instructions are shown, while a missing or list/object id raises and the shown text stays |
| BasicPlc.BasicPlcModule.GetProgress | modules/basic_plc/module.py:105-123 | the accumulating loop computes exactly the summary the specification function defines, failing where the loop raises |

## Left out

General:
- Qt widgets, signals, timers, dialogs, console text and colours are not modelled. A value the code writes into a widget is kept as a field or returned.
- Marking a task through `task_widgets` is returned as a value, not as the `AttributeError` the missing attribute raises. Execute-command handlers catch that error; the other handlers let it escape, so a state change the source writes after the mark (the Teams test's history row) is modelled as not happening.
- Floating-point percentages, means and durations are Dafny reals, not IEEE doubles. Rounding is not modelled.
- JSON numbers with a fraction or an exponent (`2.5`, `1e3`) are not modelled: the `Json` datatype holds integers only. A manifest, configuration or task list that holds such a number has no counterpart in the model. The members whose contracts this narrows are named under their files.
- SHA-256, base64, `secrets` tokens, salts and `importlib` are not modelled as algorithms. They are injective constructors or arguments.
- Logging is not modelled. Read-only query helpers that only reformat rows are not modelled either.
- Database and file I/O: table creation, JSON file writes and exports are not modelled.
- Case conversion (`lower`, `upper`, `capitalize`), whitespace (`strip`, `split`) and digits (`str.isdigit`, the regular-expression class `\d`) are ASCII only in the model. Python applies the Unicode rules, under which a character can change length (`"ß".upper()` is `"SS"`) and `\d` also matches other scripts' decimal digits (`"٣"`). The members that rely on it are named under their files.
- Concurrency: the SQLite connections are taken to run one after another. Two places where the source writes on a second connection while its first one holds an uncommitted write are affected: `complete_task` of the progress manager (listed under Findings) and the role manager's audit log (listed under its file).

progress_tracker.py:
- `get_user_progress` and `export_progress_report` (JSON/CSV export) are not modelled. They are read-only reports.

progress_tracking/progress_manager.py:
- `get_user_progress`, `get_certifications` and `get_learning_statistics` are not modelled. They are read-only queries.

user_management/role_manager.py:
- `get_role_info`, `get_all_roles` and `get_audit_log` are not modelled. They are read-only queries.
- The audit row's JSON `details` text and its timestamp format are not modelled. The entry keeps the action and its subject.
- RoleManagement.RoleManager.LogRoleAction: the audit write is modelled as a sequential append. In the source, `assign_role`, `revoke_role`, `grant_permission` and `revoke_permission` call `_log_role_action` before committing their own change, so its second connection meets "database is locked", the error is logged and swallowed, and no audit row is written; the model's audit log therefore holds rows the source would not store.

modules/module_loader/__init__.py:
- Line 105 holds a stray quote that makes the file fail to parse. The model follows the evident intent: compare the normalised class name with the normalised id followed by `module`.
- `get_module_resources` is not modelled. It checks file existence.
- The `get_module_loader` singleton is not modelled.
- PackageLoading.SumPoints: `sum(task.get('points', 0) ...)` also adds fractional points (`2.5`); the model's points are integers or booleans only, so "defined iff every task yields a number" covers only those.
- PackageLoading.TotalPoints: likewise, a task list with fractional points is not modelled.
- PackageLoading.FirstNamedAfter: the `.lower()` comparison of class names is ASCII case folding; a class name with non-ASCII letters is compared as Python would not.

module_loader.py:
- `export_module_catalog` is not modelled. It writes a file.
- `ModuleMetadata` is modelled with the fourteen fields the code declares.
- There is no fallback class scan: an absent generated class name gives None. `test_module_import.py` expects a fallback.
- The loader derives the class name `BasicPlcModule`, while the basic PLC plugin declares `BasicPLCModule`, so it is never found.
- ModuleLoading.ClassName: `capitalize()` is modelled with ASCII case rules; for a module name with non-ASCII letters the derived class name can differ from Python's.
- ModuleLoading.ModuleLoader.CheckDependencies: requires the stored `dependencies` to be a list of strings. Python would iterate any other iterable as well.

training_module.py:
- The task and signature widgets and `update_elapsed_time` are not modelled.
- The example data of the built-in `NetworkFileSharingModule` is not modelled.
- TrainingModules.Percent: `int(c / t * 100)` is modelled as the exact floor of 100·c/t. Python's float can land one lower, e.g. c=29, t=100 gives 28. The bounds and endpoints proved hold either way.

config_manager.py:
- `save_config` (a file write) and the `get_config_manager` singleton are not modelled.
- A `set` through a non-dict value raises `TypeError` in Python. The model reports it as a failed set and leaves the configuration unchanged.
- Configuration.ObfuscateKey: the base64 parts are modelled by the injective wrapper. The decoding in `_key_parts` is not modelled.

user_management/profile_manager.py:
- `get_user_profile`, `upload_profile_picture`, `get_training_history` and `export_user_data` are not modelled. They are read-only queries or file writes.
- Profiles.ProfileManager.UpdateUserProfile: values are stored and compared for the email constraint as given. SQLite's TEXT affinity, which stores an integer `5` as the text `'5'`, is not modelled.

user_manager.py:
- `update_user`, `get_users_by_role`, `record_training_completion` and `get_training_history` are not modelled.
- UserManagement.GenerateUserId: `.upper()` is modelled with ASCII case rules, so the id keeps the five-character prefix length; with Python's Unicode rules a letter such as `ß` becomes two.
- When several UNIQUE constraints clash at once, SQLite names one of them. The model reports the username first, then the email, then the user id.
- UserManagement.FindLogin: the login query (`username = ? OR email = ?`) has no ORDER BY. When one account's username equals another account's email, SQLite may return either row. The model takes the first matching row in insertion order; its contract promises only that the row found matches by username or email.

user_management/authentication.py:
- Two-factor authentication (`pyotp`) and JWT are not modelled.
- The security settings read by `_load_config` are constructor arguments.

completion_tracker.py:
- The HTTP calls to GitHub are not modelled. Their results are inputs.
- File reads and writes are not modelled.
- `pathlib` path normalisation is not modelled.
- CompletionTracking.UserSegment: `.lower()` is modelled with ASCII case rules; the proved "keeps the length" does not hold for Python's Unicode lowering (`"İ".lower()` has two characters).
- CompletionTracking.ModuleSegment: the same ASCII-only `.lower()` as UserSegment, so its length fact holds for ASCII names only.
- `create_completion_report` and `_generate_verification_hash` are not modelled. They assemble a record and hash it.

modules/cli_diagnostics/module.py:
- The subprocess worker is not modelled. Its output lines are inputs.
- `save_network_log`, `update_device_list`, `append_error` and the console text are not modelled.
- The screenshot check of `open_cmd` reads the filesystem. It is a boolean argument.
- CliDiagnostics.DigitRun: `\d` is matched by ASCII digits only, here and in QuadEnd, FirstQuad, SearchQuad, LastTimeAt and ReplyTime; an address or time written with non-ASCII digits, which Python's `re` accepts, is not recognised by the model.

modules/powershell_scripting/module.py:
- `show_help_output` and the `simulate_*` console output are not modelled.
- `run_current_script`, the script templates, `test_all_devices`, `schedule_script` and `export_scripts` are not modelled.
- `insert_cmdlet` only sets the console input text. That text is `CmdletOf`.

modules/remote_access/module.py:
- `detect_server_ip` (random) and the `simulate_installation` timer sequence are not modelled.
- The timer-delayed connection test results are folded into the buttons that schedule them. Those results always succeed.

modules/test_import_module/module.py:
- `setup`, `cleanup` (file writes), logging, and the constant lists of objectives, prerequisites and resources are not modelled.
- The two alternative subclasses are not modelled. They add nothing.

modules/basic_plc/module.py:
- `super().__init__()` is called without the arguments the base class needs, so constructing the class raises `TypeError`. The model starts from the plugin's own attributes.
- `create_module_widget` is not modelled.
- BasicPlc.TallyDefined: `total_points += task['points']` also accepts fractional points (`2.5`); the contract's "integer or boolean `points`" is stated over the model's JSON, which has no fractional numbers, so a task list with such points is not covered.
- `verify_task_completion` always accepts. It is the predicate `VerifyTaskCompletion`.

## Findings

| source | as written | input that shows it | evidently intended | confidence | as-written member | corrected member |
|---|---|---|---|---|---|---|
| progress_tracking/progress_manager.py:124-149 | `complete_task` calls `update_module_progress` before committing its INSERT. That call opens a second connection, whose UPDATE fails with "database is locked". The error is logged and swallowed, so module progress never moves. | start module `m` (one task worth 10 points) for user 1, then complete that task with 10 points | the progress row is recomputed after the completion is stored, so the module becomes `completed` | medium, not executed | ProgressManagement.ProgressManager.CompleteTaskAsWritten, exhibited by ProgressManagement.LockedUpdateExample | ProgressManagement.ProgressManager.CompleteTask |
