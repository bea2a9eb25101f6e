/**
 * User profiles (user_management/profile_manager.py): the editable profile
 * columns and the JSON preferences of the `users` table, the default
 * settings merged into those preferences, the skill level per category and
 * the achievements derived from a user's training statistics.
 *
 * The `users` table is a map from user id to the columns this file touches,
 * with the preferences column held decoded (None for NULL or empty text).
 * The grouped SQL queries of the skill profile and the achievements are
 * inputs: their result rows are passed in.
 */
module Profiles {
  import opened Common

  /** The columns of a `users` row that profile_manager.py reads or writes. */
  datatype UserRow = UserRow(
    email: Json,
    fullName: Json,
    department: Json,
    profilePicture: Json,
    preferences: Option<Json>)

  /** The fields update_user_profile accepts, in the order it checks them. */
  const AllowedFields: seq<string> := ["email", "full_name", "department", "profile_picture"]

  /** The row with every allowed field present in `data` replaced. */
  function Applied(row: UserRow, data: map<string, Json>): (r: UserRow)
    ensures r.preferences == row.preferences
  {
    row.(email := GetOr(data, "email", row.email),
         fullName := GetOr(data, "full_name", row.fullName),
         department := GetOr(data, "department", row.department),
         profilePicture := GetOr(data, "profile_picture", row.profilePicture))
  }

  /** The decoded preferences, `{}` standing in for NULL. */
  function Decoded(row: UserRow): Json
  {
    if row.preferences.Some? then row.preferences.value else JObj(map[])
  }

  // ---------------------------------------------------------------------
  // Default settings.

  /** Python's `key in container` for the containers JSON decodes to; None
      where Python raises TypeError. */
  function PyIn(container: Json, key: string): Option<bool>
  {
    match container
    case JObj(fields) => Some(key in fields)
    case JArr(items) => Some(JStr(key) in items)
    case JStr(s) => Some(Contains(s, key))
    case _ => None
  }

  /** The default settings, category by category, each with its keys in
      order. */
  const DefaultSettings: seq<(string, seq<(string, Json)>)> := [
    ("notifications", [("email", JBool(true)), ("in_app", JBool(true)),
                       ("module_complete", JBool(true)), ("certificate_earned", JBool(true))]),
    ("ui", [("theme", JStr("light")), ("language", JStr("en")), ("dashboard_layout", JStr("grid"))]),
    ("training", [("auto_advance", JBool(false)), ("show_hints", JBool(true)),
                  ("difficulty_preference", JStr("adaptive"))])
  ]

  function AsObject(defaults: seq<(string, Json)>): map<string, Json>
  {
    if |defaults| == 0 then map[]
    else AsObject(defaults[..|defaults| - 1])[defaults[|defaults| - 1].0 := defaults[|defaults| - 1].1]
  }

  /** The defaults of one category written into the user's value for it,
      missing keys only.  None where Python raises. */
  function FillKeys(v: Json, defaults: seq<(string, Json)>): Option<Json>
  {
    if |defaults| == 0 then Some(v)
    else
      match FillKeys(v, defaults[..|defaults| - 1])
      case None => None
      case Some(w) =>
        var (key, value) := defaults[|defaults| - 1];
        match PyIn(w, key)
        case None => None
        case Some(true) => Some(w)
        case Some(false) => if w.JObj? then Some(JObj(w.fields[key := value])) else None
  }

  /** The default categories merged into the preferences object.  None where
      Python raises. */
  function FillCategories(prefs: Json, defaults: seq<(string, seq<(string, Json)>)>): Option<Json>
  {
    if |defaults| == 0 then Some(prefs)
    else
      match FillCategories(prefs, defaults[..|defaults| - 1])
      case None => None
      case Some(p) =>
        var (category, settings) := defaults[|defaults| - 1];
        match PyIn(p, category)
        case None => None
        case Some(false) => if p.JObj? then Some(JObj(p.fields[category := JObj(AsObject(settings))])) else None
        case Some(true) =>
          if !p.JObj? then None
          else
            match FillKeys(p.fields[category], settings)
            case None => None
            case Some(c) => Some(JObj(p.fields[category := c]))
  }

  /** Filling an object keeps every existing entry and adds every default
      key. */
  lemma {:induction false} FillKeysObject(fields: map<string, Json>, defaults: seq<(string, Json)>)
    ensures FillKeys(JObj(fields), defaults).Some?
    ensures var r := FillKeys(JObj(fields), defaults).value;
      && r.JObj?
      && (forall k :: k in fields ==> k in r.fields && r.fields[k] == fields[k])
      && (forall j :: 0 <= j < |defaults| ==> defaults[j].0 in r.fields)
      && (forall k :: k in r.fields ==> k in fields || exists j :: 0 <= j < |defaults| && defaults[j].0 == k)
  {
    if |defaults| > 0 {
      var front := defaults[..|defaults| - 1];
      FillKeysObject(fields, front);
      forall j | 0 <= j < |front| ensures front[j] == defaults[j] { }
    }
  }

  /** AsObject holds exactly the listed keys. */
  lemma {:induction false} AsObjectKeys(defaults: seq<(string, Json)>)
    ensures forall j :: 0 <= j < |defaults| ==> defaults[j].0 in AsObject(defaults)
    ensures forall k :: k in AsObject(defaults) ==> exists j :: 0 <= j < |defaults| && defaults[j].0 == k
  {
    if |defaults| > 0 {
      var front := defaults[..|defaults| - 1];
      AsObjectKeys(front);
      forall j | 0 <= j < |front| ensures front[j] == defaults[j] { }
    }
  }

  /** The categories a defaults list names. */
  function Categories(defaults: seq<(string, seq<(string, Json)>)>): (r: set<string>)
    ensures forall j :: 0 <= j < |defaults| ==> defaults[j].0 in r
    ensures forall k :: k in r ==> exists j :: 0 <= j < |defaults| && defaults[j].0 == k
  {
    if |defaults| == 0 then {}
    else Categories(defaults[..|defaults| - 1]) + {defaults[|defaults| - 1].0}
  }

  /** `v` is an object holding every key of `settings`. */
  ghost predicate HasKeys(v: Json, settings: seq<(string, Json)>)
  {
    v.JObj? && forall i :: 0 <= i < |settings| ==> settings[i].0 in v.fields
  }

  /** Every category of `defaults` is in `r`, as an object holding every
      default key of that category. */
  ghost predicate Filled(r: Json, defaults: seq<(string, seq<(string, Json)>)>)
  {
    r.JObj? && forall j :: 0 <= j < |defaults| ==> defaults[j].0 in r.fields && HasKeys(r.fields[defaults[j].0], defaults[j].1)
  }

  /** `r` is an object that keeps every entry of `fields`: entries outside
      `cats` unchanged, and every value inside an entry that was an object.
      Its only other entries are categories of `cats`. */
  ghost predicate KeepsCategories(fields: map<string, Json>, cats: set<string>, r: Json)
  {
    && r.JObj?
    && (forall k :: k in fields ==> k in r.fields)
    && (forall k :: k in fields && k !in cats ==> k in r.fields && r.fields[k] == fields[k])
    && (forall k :: k in r.fields ==> k in fields || k in cats)
    && (forall k, key :: k in fields && fields[k].JObj? && key in fields[k].fields ==>
          k in r.fields && r.fields[k].JObj? && key in r.fields[k].fields
          && r.fields[k].fields[key] == fields[k].fields[key])
  }

  /** Replacing one category by an object that keeps the user's values for
      it keeps everything. */
  lemma KeepsUpdate(fields: map<string, Json>, cats: set<string>, p: Json, category: string, c: Json)
    requires KeepsCategories(fields, cats, p) && c.JObj?
    requires category in fields && fields[category].JObj? ==>
      forall key :: key in fields[category].fields ==> key in c.fields && c.fields[key] == fields[category].fields[key]
    ensures KeepsCategories(fields, cats + {category}, JObj(p.fields[category := c]))
  {
  }

  /** Replacing one category by an object that holds its old keys and the
      new defaults keeps every earlier category filled. */
  lemma FilledUpdate(p: Json, front: seq<(string, seq<(string, Json)>)>, category: string,
                     settings: seq<(string, Json)>, c: Json)
    requires Filled(p, front) && HasKeys(c, settings)
    requires category in p.fields ==>
      p.fields[category].JObj? && forall key :: key in p.fields[category].fields ==> key in c.fields
    ensures Filled(JObj(p.fields[category := c]), front + [(category, settings)])
  {
    var defaults := front + [(category, settings)];
    var r := JObj(p.fields[category := c]);
    forall j | 0 <= j < |defaults|
      ensures defaults[j].0 in r.fields && HasKeys(r.fields[defaults[j].0], defaults[j].1)
    {
      if j < |front| {
        assert defaults[j] == front[j];
      }
    }
  }

  /** One category merged in: what was kept stays kept and every category
      merged so far is filled. */
  lemma FillCategoriesStep(fields: map<string, Json>, defaults: seq<(string, seq<(string, Json)>)>)
    requires |defaults| > 0
    requires forall j :: 0 <= j < |defaults| && defaults[j].0 in fields ==> fields[defaults[j].0].JObj?
    requires FillCategories(JObj(fields), defaults[..|defaults| - 1]).Some?
    requires var p := FillCategories(JObj(fields), defaults[..|defaults| - 1]).value;
      KeepsCategories(fields, Categories(defaults[..|defaults| - 1]), p) && Filled(p, defaults[..|defaults| - 1])
    ensures FillCategories(JObj(fields), defaults).Some?
    ensures var r := FillCategories(JObj(fields), defaults).value;
      KeepsCategories(fields, Categories(defaults), r) && Filled(r, defaults)
  {
    var front := defaults[..|defaults| - 1];
    var p := FillCategories(JObj(fields), front).value;
    var (category, settings) := defaults[|defaults| - 1];
    assert defaults == front + [(category, settings)];
    assert Categories(defaults) == Categories(front) + {category};
    assert PyIn(p, category) == Some(category in p.fields);
    if category in p.fields {
      var before := p.fields[category];
      assert before.JObj? by {
        if category !in Categories(front) {
          assert category in fields && fields[category].JObj?;
        }
      }
      assert before == JObj(before.fields);
      FillKeysObject(before.fields, settings);
      var c := FillKeys(before, settings).value;
      KeepsUpdate(fields, Categories(front), p, category, c);
      FilledUpdate(p, front, category, settings, c);
      assert FillCategories(JObj(fields), defaults) == Some(JObj(p.fields[category := c]));
    } else {
      var c := JObj(AsObject(settings));
      AsObjectKeys(settings);
      KeepsUpdate(fields, Categories(front), p, category, c);
      FilledUpdate(p, front, category, settings, c);
      assert FillCategories(JObj(fields), defaults) == Some(JObj(p.fields[category := c]));
    }
  }

  /** Preferences whose default categories, where present, are objects: the
      merge succeeds, every entry the user had is still there (unchanged
      outside the default categories, with every value it held inside
      them), nothing but default categories is added, and every default
      category ends up an object holding every one of its default keys. */
  lemma {:induction false} FillCategoriesObject(fields: map<string, Json>, defaults: seq<(string, seq<(string, Json)>)>)
    requires forall j :: 0 <= j < |defaults| && defaults[j].0 in fields ==> fields[defaults[j].0].JObj?
    ensures FillCategories(JObj(fields), defaults).Some?
    ensures var r := FillCategories(JObj(fields), defaults).value;
      KeepsCategories(fields, Categories(defaults), r) && Filled(r, defaults)
  {
    if |defaults| > 0 {
      var front := defaults[..|defaults| - 1];
      forall j | 0 <= j < |front| ensures front[j] == defaults[j] { }
      FillCategoriesObject(fields, front);
      FillCategoriesStep(fields, defaults);
    }
  }

  // ---------------------------------------------------------------------
  // Skill levels.

  /** _calculate_skill_level. */
  function SkillLevel(points: int): string
  {
    if points < 50 then "Beginner"
    else if points < 150 then "Intermediate"
    else if points < 300 then "Advanced"
    else "Expert"
  }

  /** Position of a level in the order Beginner < Intermediate < Advanced <
      Expert. */
  function LevelRank(level: string): nat
  {
    if level == "Beginner" then 0
    else if level == "Intermediate" then 1
    else if level == "Advanced" then 2
    else 3
  }

  /** More points never give a lower level. */
  lemma SkillLevelMonotone(p: int, q: int)
    requires p <= q
    ensures LevelRank(SkillLevel(p)) <= LevelRank(SkillLevel(q))
  {
  }

  /** One category of the skill profile. */
  datatype Skill = Skill(modulesCompleted: int, pointsEarned: int, skillLevel: string, modulesInProgress: Option<int>)

  /** A result row of the completed-modules query: category, count, points. */
  datatype CompletedGroup = CompletedGroup(category: string, count: int, points: Option<int>)

  /** A result row of the in-progress query: category, count. */
  datatype ProgressGroup = ProgressGroup(category: string, count: int)

  function CompletedSkill(g: CompletedGroup): Skill
  {
    var points := if g.points.Some? then g.points.value else 0;
    Skill(g.count, points, SkillLevel(points), None)
  }

  /** The skills from the completed rows, later rows overwriting earlier
      ones of the same category. */
  function CompletedSkills(rows: seq<CompletedGroup>): map<string, Skill>
  {
    if |rows| == 0 then map[]
    else CompletedSkills(rows[..|rows| - 1])[rows[|rows| - 1].category := CompletedSkill(rows[|rows| - 1])]
  }

  /** The in-progress counts added, with a Beginner entry for a category
      that has none yet. */
  function WithInProgress(skills: map<string, Skill>, rows: seq<ProgressGroup>): map<string, Skill>
  {
    if |rows| == 0 then skills
    else
      var s := WithInProgress(skills, rows[..|rows| - 1]);
      var g := rows[|rows| - 1];
      var base := if g.category in s then s[g.category] else Skill(0, 0, "Beginner", None);
      s[g.category := base.(modulesInProgress := Some(g.count))]
  }

  /** The categories of the profile are those of either query; a category
      with in-progress modules only has no completed module, no points and
      the Beginner level. */
  lemma {:induction false} WithInProgressFacts(skills: map<string, Skill>, rows: seq<ProgressGroup>)
    ensures forall c :: c in WithInProgress(skills, rows) <==> c in skills || exists j :: 0 <= j < |rows| && rows[j].category == c
    ensures forall c :: c in WithInProgress(skills, rows) && c !in skills ==>
      var s := WithInProgress(skills, rows)[c];
      s.modulesCompleted == 0 && s.pointsEarned == 0 && s.skillLevel == "Beginner" && s.modulesInProgress.Some?
    ensures forall c :: c in skills && c in WithInProgress(skills, rows) ==>
      var s := WithInProgress(skills, rows)[c];
      s.modulesCompleted == skills[c].modulesCompleted && s.pointsEarned == skills[c].pointsEarned
      && s.skillLevel == skills[c].skillLevel
  {
    if |rows| > 0 {
      var front := rows[..|rows| - 1];
      WithInProgressFacts(skills, front);
      forall j | 0 <= j < |front| ensures front[j] == rows[j] { }
    }
  }

  /** get_skill_profile over the rows of its two queries. */
  method GetSkillProfile(completed: seq<CompletedGroup>, inProgress: seq<ProgressGroup>)
    returns (skills: map<string, Skill>)
    ensures skills == WithInProgress(CompletedSkills(completed), inProgress)
  {
    skills := map[];
    var i := 0;
    while i < |completed|
      invariant 0 <= i <= |completed|
      invariant skills == CompletedSkills(completed[..i])
    {
      assert completed[..i + 1][..i] == completed[..i];
      var g := completed[i];
      var points := if g.points.Some? then g.points.value else 0;
      skills := skills[g.category := Skill(g.count, points, SkillLevel(points), None)];
      i := i + 1;
    }
    assert completed[..i] == completed;
    var base := skills;
    var j := 0;
    while j < |inProgress|
      invariant 0 <= j <= |inProgress|
      invariant skills == WithInProgress(base, inProgress[..j])
    {
      assert inProgress[..j + 1][..j] == inProgress[..j];
      var g := inProgress[j];
      if g.category !in skills {
        skills := skills[g.category := Skill(0, 0, "Beginner", None)];
      }
      skills := skills[g.category := skills[g.category].(modulesInProgress := Some(g.count))];
      j := j + 1;
    }
    assert inProgress[..j] == inProgress;
  }

  // ---------------------------------------------------------------------
  // Achievements.

  /** Length of the run of consecutive days at the head of `dates`: it
      grows while each date is exactly one day before the previous one. */
  function Streak(dates: seq<int>): (n: nat)
    ensures |dates| > 0 ==> 1 <= n <= |dates|
    ensures |dates| == 0 ==> n == 0
    ensures forall i :: 1 <= i < n ==> dates[i - 1] - dates[i] == 1
    ensures 0 < n < |dates| ==> dates[n - 1] - dates[n] != 1
  {
    if |dates| <= 1 then |dates|
    else if dates[0] - dates[1] == 1 then
      var tail := dates[1..];
      var rest := Streak(tail);
      assert forall i :: 0 <= i < |tail| ==> tail[i] == dates[i + 1];
      1 + rest
    else 1
  }

  /** The current streak as the source counts it: start at one and stop at
      the first gap. */
  method CurrentStreak(dates: seq<int>) returns (streak: nat)
    requires |dates| > 0
    ensures streak == Streak(dates)
  {
    streak := 1;
    var i := 1;
    while i < |dates|
      invariant 1 <= i <= |dates|
      invariant streak == i
      invariant forall l :: 1 <= l < i ==> dates[l - 1] - dates[l] == 1
    {
      if dates[i - 1] - dates[i] == 1 {
        streak := streak + 1;
      } else {
        break;
      }
      i := i + 1;
    }
    StreakIs(dates, streak);
  }

  /** A run of `n` consecutive days that cannot be extended is the streak. */
  lemma StreakIs(dates: seq<int>, n: nat)
    requires 1 <= n <= |dates|
    requires forall i :: 1 <= i < n ==> dates[i - 1] - dates[i] == 1
    requires n < |dates| ==> dates[n - 1] - dates[n] != 1
    ensures Streak(dates) == n
  {
  }

  /** The achievements get_user_achievements can award. */
  datatype Achievement =
    | FirstModule | FiveModules | TenModules
    | HundredPoints | FiveHundredPoints
    | Perfectionist
    | WeekStreak | MonthStreak

  /** The `type` and `title` the source gives each achievement. */
  function TypeAndTitle(a: Achievement): (string, string)
  {
    match a
    case FirstModule => ("first_module", "First Steps")
    case FiveModules => ("five_modules", "Getting Serious")
    case TenModules => ("ten_modules", "Knowledge Seeker")
    case HundredPoints => ("hundred_points", "Century Club")
    case FiveHundredPoints => ("five_hundred_points", "High Achiever")
    case Perfectionist => ("perfectionist", "Perfectionist")
    case WeekStreak => ("week_streak", "Week Warrior")
    case MonthStreak => ("month_streak", "Dedicated Learner")
  }

  /** The user's completion statistics, as the achievement queries return
      them. */
  datatype Stats = Stats(modulesCompleted: int, totalPoints: Option<int>, perfectScores: int, sessionDates: seq<int>)

  /** Whether the statistics earn an achievement. */
  predicate Earned(s: Stats, a: Achievement)
  {
    var points := if s.totalPoints.Some? then s.totalPoints.value else 0;
    match a
    case FirstModule => s.modulesCompleted >= 1
    case FiveModules => s.modulesCompleted >= 5
    case TenModules => s.modulesCompleted >= 10
    case HundredPoints => points >= 100
    case FiveHundredPoints => points >= 500
    case Perfectionist => s.perfectScores >= 1
    case WeekStreak => Streak(s.sessionDates) >= 7
    case MonthStreak => Streak(s.sessionDates) >= 30
  }

  /** The achievements in the order the source checks them. */
  function KindAt(k: nat): Achievement
    requires k < 8
  {
    [FirstModule, FiveModules, TenModules, HundredPoints, FiveHundredPoints,
     Perfectionist, WeekStreak, MonthStreak][k]
  }

  function Rank(a: Achievement): (k: nat)
    ensures k < 8 && KindAt(k) == a
  {
    match a
    case FirstModule => 0
    case FiveModules => 1
    case TenModules => 2
    case HundredPoints => 3
    case FiveHundredPoints => 4
    case Perfectionist => 5
    case WeekStreak => 6
    case MonthStreak => 7
  }

  /** The earned achievements among the first `k` checked, in order. */
  function Awarded(s: Stats, k: nat): seq<Achievement>
    requires k <= 8
  {
    if k == 0 then []
    else Awarded(s, k - 1) + (if Earned(s, KindAt(k - 1)) then [KindAt(k - 1)] else [])
  }

  /** Awarded holds, once each, exactly the earned achievements among the
      first `k` checked. */
  lemma {:induction false} AwardedExactly(s: Stats, k: nat)
    requires k <= 8
    ensures forall a :: a in Awarded(s, k) <==> Earned(s, a) && Rank(a) < k
    ensures forall i, j :: 0 <= i < j < |Awarded(s, k)| ==> Awarded(s, k)[i] != Awarded(s, k)[j]
  {
    if k > 0 {
      AwardedExactly(s, k - 1);
      forall b ensures Rank(b) == k - 1 ==> b == KindAt(k - 1) {
        assert KindAt(Rank(b)) == b;
      }
    }
  }

  /** get_user_achievements over the results of its queries; session dates
      are day numbers, most recent first.  Each achievement appears once,
      exactly when earned. */
  method GetUserAchievements(s: Stats) returns (r: seq<Achievement>)
    ensures r == Awarded(s, 8)
    ensures forall a :: a in r <==> Earned(s, a)
    ensures forall i, j :: 0 <= i < j < |r| ==> r[i] != r[j]
  {
    r := CountAchievements(s);
    if |s.sessionDates| > 0 {
      var streak := CurrentStreak(s.sessionDates);
      if streak >= 7 { r := r + [WeekStreak]; }
      assert r == Awarded(s, 7);
      if streak >= 30 { r := r + [MonthStreak]; }
    }
    assert r == Awarded(s, 8);
    AwardedExactly(s, 8);
    forall a ensures Rank(a) < 8 { }
  }

  /** The first part of get_user_achievements: the module, points and
      perfect-score milestones. */
  method CountAchievements(s: Stats) returns (r: seq<Achievement>)
    ensures r == Awarded(s, 6)
  {
    r := [];
    var points := if s.totalPoints.Some? then s.totalPoints.value else 0;
    if s.modulesCompleted >= 1 { r := r + [FirstModule]; }
    assert r == Awarded(s, 1);
    if s.modulesCompleted >= 5 { r := r + [FiveModules]; }
    assert r == Awarded(s, 2);
    if s.modulesCompleted >= 10 { r := r + [TenModules]; }
    assert r == Awarded(s, 3);
    if points >= 100 { r := r + [HundredPoints]; }
    assert r == Awarded(s, 4);
    if points >= 500 { r := r + [FiveHundredPoints]; }
    assert r == Awarded(s, 5);
    if s.perfectScores >= 1 { r := r + [Perfectionist]; }
  }

  /** Achievements are cumulative: a higher threshold implies the lower
      ones of the same kind, and a month streak needs thirty session
      days. */
  lemma AchievementsCumulative(s: Stats)
    ensures Earned(s, TenModules) ==> Earned(s, FiveModules)
    ensures Earned(s, FiveModules) ==> Earned(s, FirstModule)
    ensures Earned(s, FiveHundredPoints) ==> Earned(s, HundredPoints)
    ensures Earned(s, MonthStreak) ==> Earned(s, WeekStreak) && |s.sessionDates| >= 30
  {
  }

  // ---------------------------------------------------------------------
  // The users table.

  /** A value sqlite3 can bind as a statement parameter: NULL, a boolean,
      an integer that fits in 64 bits, or text.  A list or a dict raises. */
  predicate Bindable(v: Json)
  {
    match v
    case JArr(_) => false
    case JObj(_) => false
    case JInt(i) => -0x8000_0000_0000_0000 <= i < 0x8000_0000_0000_0000
    case _ => true
  }

  /** The email in `data` is held by a row other than `userId`'s: the
      UNIQUE constraint on `users.email` rejects the update (NULLs never
      clash). */
  predicate EmailTaken(users: map<int, UserRow>, userId: int, data: map<string, Json>)
  {
    && "email" in data && data["email"] != JNull
    && exists id :: id in users && id != userId && users[id].email == data["email"]
  }

  /** No two rows hold the same non-NULL email. */
  ghost predicate UniqueEmails(users: map<int, UserRow>)
  {
    forall a, b :: a in users && b in users && a != b && users[a].email != JNull ==> users[a].email != users[b].email
  }

  class ProfileManager {
    var users: map<int, UserRow>

    constructor (users: map<int, UserRow>)
      ensures this.users == users
    {
      this.users := users;
    }

    /** update_user_profile: only the allowed fields present in the data are
        written.  No allowed field gives False without a write; so does a
        failing UPDATE (a value sqlite3 cannot bind, or an email another row
        holds, which the UNIQUE constraint rejects); otherwise the result says
        whether the row exists.  The email column stays unique. */
    method UpdateUserProfile(userId: int, data: map<string, Json>) returns (ok: bool)
      modifies this
      ensures ok <==> && userId in old(users)
                      && (exists f :: f in AllowedFields && f in data)
                      && (forall f :: f in AllowedFields && f in data ==> Bindable(data[f]))
                      && !EmailTaken(old(users), userId, data)
      ensures ok ==> users == old(users)[userId := Applied(old(users)[userId], data)]
      ensures !ok ==> users == old(users)
      ensures UniqueEmails(old(users)) ==> UniqueEmails(users)
    {
      var any := false;
      var bindable := true;
      var i := 0;
      while i < |AllowedFields|
        invariant 0 <= i <= |AllowedFields|
        invariant any <==> exists j :: 0 <= j < i && AllowedFields[j] in data
        invariant bindable <==> forall j :: 0 <= j < i && AllowedFields[j] in data ==> Bindable(data[AllowedFields[j]])
      {
        if AllowedFields[i] in data {
          any := true;
          if !Bindable(data[AllowedFields[i]]) {
            bindable := false;
          }
        }
        i := i + 1;
      }
      if !any {
        return false;
      }
      if !bindable || EmailTaken(users, userId, data) || userId !in users {
        return false;
      }
      var row := Applied(users[userId], data);
      assert "email" in data ==> row.email == data["email"];
      users := users[userId := row];
      ok := true;
    }

    /** update_preferences: a shallow merge in which the supplied keys win.
        False (and no write) for an unknown user or stored preferences that
        are not an object. */
    method UpdatePreferences(userId: int, prefs: map<string, Json>) returns (ok: bool)
      modifies this
      ensures ok <==> userId in old(users) && Decoded(old(users)[userId]).JObj?
      ensures ok ==> users == old(users)[userId := old(users)[userId].(
        preferences := Some(JObj(Decoded(old(users)[userId]).fields + prefs)))]
      ensures !ok ==> users == old(users)
    {
      if userId !in users {
        return false;
      }
      var current := Decoded(users[userId]);
      if !current.JObj? {
        return false;
      }
      users := users[userId := users[userId].(preferences := Some(JObj(current.fields + prefs)))];
      ok := true;
    }

    /** get_user_settings: `{}` for an unknown user; otherwise the stored
        preferences with every missing default category and key filled in,
        None where Python raises. */
    method GetUserSettings(userId: int) returns (r: Option<Json>)
      ensures userId !in users ==> r == Some(JObj(map[]))
      ensures userId in users ==> r == FillCategories(Decoded(users[userId]), DefaultSettings)
    {
      if userId !in users {
        return Some(JObj(map[]));
      }
      var prefs := Decoded(users[userId]);
      var c := 0;
      while c < |DefaultSettings|
        invariant 0 <= c <= |DefaultSettings|
        invariant FillCategories(Decoded(users[userId]), DefaultSettings[..c]) == Some(prefs)
      {
        assert DefaultSettings[..c + 1][..c] == DefaultSettings[..c];
        var (category, settings) := DefaultSettings[c];
        var isIn := PyIn(prefs, category);
        if isIn.None? {
          FillCategoriesFails(Decoded(users[userId]), DefaultSettings, c + 1);
          return None;
        }
        if !isIn.value {
          if !prefs.JObj? {
            FillCategoriesFails(Decoded(users[userId]), DefaultSettings, c + 1);
            return None;
          }
          prefs := JObj(prefs.fields[category := JObj(AsObject(settings))]);
        } else {
          if !prefs.JObj? {
            FillCategoriesFails(Decoded(users[userId]), DefaultSettings, c + 1);
            return None;
          }
          var filled := FillKeysLoop(prefs.fields[category], settings);
          if filled.None? {
            FillCategoriesFails(Decoded(users[userId]), DefaultSettings, c + 1);
            return None;
          }
          prefs := JObj(prefs.fields[category := filled.value]);
        }
        c := c + 1;
      }
      assert DefaultSettings[..c] == DefaultSettings;
      r := Some(prefs);
    }
  }

  /** The inner loop of get_user_settings over one category's defaults. */
  method FillKeysLoop(v: Json, defaults: seq<(string, Json)>) returns (r: Option<Json>)
    ensures r == FillKeys(v, defaults)
  {
    var w := v;
    var k := 0;
    while k < |defaults|
      invariant 0 <= k <= |defaults|
      invariant FillKeys(v, defaults[..k]) == Some(w)
    {
      assert defaults[..k + 1][..k] == defaults[..k];
      var (key, value) := defaults[k];
      var isIn := PyIn(w, key);
      if isIn.None? || (!isIn.value && !w.JObj?) {
        FillKeysFails(v, defaults, k + 1);
        return None;
      }
      if !isIn.value {
        w := JObj(w.fields[key := value]);
      }
      k := k + 1;
    }
    assert defaults[..k] == defaults;
    r := Some(w);
  }

  /** A failure part way through makes the whole fill fail. */
  lemma {:induction false} FillKeysFails(v: Json, defaults: seq<(string, Json)>, k: nat)
    requires k <= |defaults| && FillKeys(v, defaults[..k]).None?
    ensures FillKeys(v, defaults).None?
    decreases |defaults| - k
  {
    if k < |defaults| {
      assert defaults[..k + 1][..k] == defaults[..k];
      FillKeysFails(v, defaults, k + 1);
    } else {
      assert defaults[..k] == defaults;
    }
  }

  lemma {:induction false} FillCategoriesFails(prefs: Json, defaults: seq<(string, seq<(string, Json)>)>, k: nat)
    requires k <= |defaults| && FillCategories(prefs, defaults[..k]).None?
    ensures FillCategories(prefs, defaults).None?
    decreases |defaults| - k
  {
    if k < |defaults| {
      assert defaults[..k + 1][..k] == defaults[..k];
      FillCategoriesFails(prefs, defaults, k + 1);
    } else {
      assert defaults[..k] == defaults;
    }
  }
}
