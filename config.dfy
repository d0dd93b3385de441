/**
 * Configuration of the plugin: course-level settings, category-level credentials and
 * operational controls, the global settings, and the resolution of the configuration that
 * applies to a course (a bounded walk up the category tree, then a merge).
 */
module Config {
  import opened Common

  /** The walk up the category tree examines at most this many categories. */
  const MaxDepth: nat := 10

  /** The plugin's global settings (`get_config('local_credentium', ...)`). */
  datatype GlobalSettings = GlobalSettings(enabled: bool, categoryMode: bool,
                                           apiurl: Option<string>, apikey: Option<string>)

  /** The course-level settings a caller saves. */
  datatype CourseSettings = CourseSettings(courseid: int, enabled: bool, templateid: Option<string>,
                                           sendgrade: bool, issuancetrigger: string, inheritCategory: int)

  /** One row of the course config table. */
  datatype CourseConfig = CourseConfig(id: int, settings: CourseSettings, timecreated: int, timemodified: int)

  /** The category-level settings a caller saves: credentials and operational controls. */
  datatype CategorySettings = CategorySettings(categoryid: int, enabled: bool,
                                               apiurl: Option<string>, apikey: Option<string>,
                                               paused: bool, ratelimit: Option<int>)

  /** One row of the category config table. */
  datatype CategoryConfig = CategoryConfig(id: int, settings: CategorySettings, timecreated: int, timemodified: int)

  /** What category resolution yields: the tenant bucket, credentials and operational controls. */
  datatype CategoryResolution = CategoryResolution(categoryid: Option<int>, apiurl: Option<string>,
                                                   apikey: Option<string>, paused: bool,
                                                   ratelimit: Option<int>, enabled: bool)

  /** The resolved course configuration: the course row merged with category or global values. */
  datatype EffectiveConfig = EffectiveConfig(course: CourseConfig, categoryid: Option<int>,
                                             apiurl: Option<string>, apikey: Option<string>,
                                             paused: bool, ratelimit: Option<int>) {
    function Settings(): CourseSettings { course.settings }
  }

  /** The outcome of an upsert: the row was updated, or inserted under a new id. */
  datatype SaveResult = Updated | Inserted(id: int)

  // ---------------------------------------------------------------- resolution, as functions

  /** The global record: no category, global credentials, not paused, no rate limit. */
  function GlobalResolution(g: GlobalSettings): (r: CategoryResolution)
    ensures r.categoryid.None? && !r.paused && r.ratelimit.None?
    ensures r.apiurl == g.apiurl && r.apikey == g.apikey && r.enabled == g.enabled
  {
    CategoryResolution(None, g.apiurl, g.apikey, false, None, g.enabled)
  }

  /**
   * The record the enabled config `c` of `category` yields: the config row itself when it has
   * both credentials, otherwise the global credentials with the row's pause flag and rate
   * limit and the category's id.
   */
  function WinnerResolution(g: GlobalSettings, category: int, c: CategoryConfig): (r: CategoryResolution)
    ensures r.categoryid.Some?
    ensures r.paused == c.settings.paused && r.ratelimit == c.settings.ratelimit
    ensures !Blank(c.settings.apiurl) && !Blank(c.settings.apikey) ==>
              r.apiurl == c.settings.apiurl && r.apikey == c.settings.apikey && r.enabled == c.settings.enabled
    ensures Blank(c.settings.apiurl) || Blank(c.settings.apikey) ==>
              r.categoryid == Some(category) && r.apiurl == g.apiurl && r.apikey == g.apikey && r.enabled
  {
    var s := c.settings;
    if !Blank(s.apiurl) && !Blank(s.apikey) then
      CategoryResolution(Some(s.categoryid), s.apiurl, s.apikey, s.paused, s.ratelimit, s.enabled)
    else
      CategoryResolution(Some(category), g.apiurl, g.apikey, s.paused, s.ratelimit, true)
  }

  /** A category whose config row exists and is enabled. */
  predicate EnabledAt(configs: map<int, CategoryConfig>, category: int) {
    category in configs && configs[category].settings.enabled
  }

  /**
   * The walk from `category`, which is the `depth`-th category examined (counting from 0):
   * stop at a missing category record or after MaxDepth categories, take the first enabled
   * config, otherwise move to a positive parent or stop.
   */
  function Walk(g: GlobalSettings, configs: map<int, CategoryConfig>, parents: map<int, int>,
                category: int, depth: nat): CategoryResolution
    decreases MaxDepth - depth
  {
    if depth >= MaxDepth || category !in parents then GlobalResolution(g)
    else if EnabledAt(configs, category) then WinnerResolution(g, category, configs[category])
    else if parents[category] > 0 then Walk(g, configs, parents, parents[category], depth + 1)
    else GlobalResolution(g)
  }

  /** `local_credentium_resolve_category_config` for a course in `courseCategory` (0: a site-level course). */
  function ResolveCategory(g: GlobalSettings, configs: map<int, CategoryConfig>, parents: map<int, int>,
                           courseCategory: int): CategoryResolution
  {
    if !g.categoryMode || courseCategory == 0 then GlobalResolution(g)
    else Walk(g, configs, parents, courseCategory, 0)
  }

  // ---------------------------------------------------------------- the walk, stated independently

  /**
   * The categories the walk examines from `category`, at most `n` of them: each next one is
   * the positive parent of the last, while its record exists.
   */
  function Chain(parents: map<int, int>, category: int, n: nat): (c: seq<int>)
    ensures |c| <= n
    ensures forall i :: 0 <= i < |c| ==> c[i] in parents
    ensures c != [] ==> c[0] == category
    ensures forall i :: 0 <= i < |c| - 1 ==> parents[c[i]] > 0 && c[i + 1] == parents[c[i]]
    decreases n
  {
    if n == 0 || category !in parents then []
    else if parents[category] > 0 then [category] + Chain(parents, parents[category], n - 1)
    else [category]
  }

  /**
   * How a chain ends: it is empty exactly when no category can be examined, and one shorter
   * than `n` ends at a category whose parent is not positive or has no record.
   */
  lemma {:induction false} ChainEnds(parents: map<int, int>, category: int, n: nat)
    ensures var c := Chain(parents, category, n);
            && (c != [] <==> n > 0 && category in parents)
            && (c != [] && |c| < n ==> parents[c[|c| - 1]] <= 0 || parents[c[|c| - 1]] !in parents)
    decreases n
  {
    if n > 0 && category in parents && parents[category] > 0 {
      ChainEnds(parents, parents[category], n - 1);
      var rest := Chain(parents, parents[category], n - 1);
      if rest != [] {
        assert Chain(parents, category, n)[|Chain(parents, category, n)| - 1] == rest[|rest| - 1];
      }
    }
  }

  /** The first category of `chain` with an enabled config. */
  function FirstEnabled(configs: map<int, CategoryConfig>, chain: seq<int>): (r: Option<nat>)
    ensures r.Some? ==> r.value < |chain| && EnabledAt(configs, chain[r.value])
    ensures r.Some? ==> forall i :: 0 <= i < r.value ==> !EnabledAt(configs, chain[i])
    ensures r.None? ==> forall i :: 0 <= i < |chain| ==> !EnabledAt(configs, chain[i])
  {
    if chain == [] then None
    else if EnabledAt(configs, chain[0]) then Some(0)
    else match FirstEnabled(configs, chain[1..])
      case None => None
      case Some(k) => Some(k + 1)
  }

  /** The category per-chain answer: the winner is the first enabled category among the (at most ten) examined, else the global record. */
  function ChainResolution(g: GlobalSettings, configs: map<int, CategoryConfig>, chain: seq<int>): CategoryResolution
  {
    match FirstEnabled(configs, chain)
    case None => GlobalResolution(g)
    case Some(k) => WinnerResolution(g, chain[k], configs[chain[k]])
  }

  /** The interleaved walk equals "list the examined categories, then take the first enabled one". */
  lemma {:induction false} WalkIsFirstEnabledOnChain(g: GlobalSettings, configs: map<int, CategoryConfig>,
                                                     parents: map<int, int>, category: int, depth: nat)
    requires depth <= MaxDepth
    ensures Walk(g, configs, parents, category, depth) ==
            ChainResolution(g, configs, Chain(parents, category, MaxDepth - depth))
    decreases MaxDepth - depth
  {
    if depth >= MaxDepth || category !in parents || EnabledAt(configs, category) || parents[category] <= 0 {
      WalkEndsHere(g, configs, parents, category, depth);
    } else {
      var n := MaxDepth - depth;
      WalkIsFirstEnabledOnChain(g, configs, parents, parents[category], depth + 1);
      ChainCons(parents, category, n);
      SkipDisabled(g, configs, category, Chain(parents, parents[category], n - 1));
    }
  }

  /** The walk's cases that do not move up: nothing left to examine, a winner, or no positive parent. */
  lemma WalkEndsHere(g: GlobalSettings, configs: map<int, CategoryConfig>, parents: map<int, int>,
                     category: int, depth: nat)
    requires depth <= MaxDepth
    requires depth >= MaxDepth || category !in parents || EnabledAt(configs, category) || parents[category] <= 0
    ensures Walk(g, configs, parents, category, depth) ==
            ChainResolution(g, configs, Chain(parents, category, MaxDepth - depth))
  {
    var n := MaxDepth - depth;
    var chain := Chain(parents, category, n);
    if depth >= MaxDepth || category !in parents {
      assert chain == [];
    } else if EnabledAt(configs, category) {
      ChainHead(parents, category, n);
      assert FirstEnabled(configs, chain) == Some(0);
    } else {
      assert chain == [category] + [];
      SkipDisabled(g, configs, category, []);
    }
  }

  /** A chain that can start begins with its category. */
  lemma ChainHead(parents: map<int, int>, category: int, n: nat)
    requires n > 0 && category in parents
    ensures Chain(parents, category, n) != [] && Chain(parents, category, n)[0] == category
  {
  }

  /** A chain whose first category can still go up one more level continues with the parent's chain. */
  lemma ChainCons(parents: map<int, int>, category: int, n: nat)
    requires n > 0 && category in parents && parents[category] > 0
    ensures Chain(parents, category, n) == [category] + Chain(parents, parents[category], n - 1)
  {
  }

  /** A category without an enabled config at the head of a chain does not change its answer. */
  lemma SkipDisabled(g: GlobalSettings, configs: map<int, CategoryConfig>, category: int, rest: seq<int>)
    requires !EnabledAt(configs, category)
    ensures ChainResolution(g, configs, [category] + rest) == ChainResolution(g, configs, rest)
  {
    var chain := [category] + rest;
    assert chain[1..] == rest;
    match FirstEnabled(configs, rest)
    case None =>
    case Some(k) =>
      assert chain[k + 1] == rest[k];
  }

  /** Category rows are stored under their own category id, as `ConfigStore.Valid` keeps them. */
  ghost predicate KeyedByCategory(configs: map<int, CategoryConfig>) {
    forall k :: k in configs ==> configs[k].settings.categoryid == k
  }

  /**
   * A resolved category id is the first category with an enabled config among the (at most ten)
   * categories examined upward from the course's own; a resolution without one is the global record.
   */
  lemma ResolvedCategoryIsFirstEnabled(g: GlobalSettings, configs: map<int, CategoryConfig>,
                                       parents: map<int, int>, courseCategory: int)
    requires KeyedByCategory(configs)
    ensures var r := ResolveCategory(g, configs, parents, courseCategory);
            var k := FirstEnabled(configs, Chain(parents, courseCategory, MaxDepth));
            && (r.categoryid.Some? ==> g.categoryMode && courseCategory != 0 && k.Some?
                                         && r.categoryid.value == Chain(parents, courseCategory, MaxDepth)[k.value])
            && (r.categoryid.None? ==> r == GlobalResolution(g))
  {
    WalkIsFirstEnabledOnChain(g, configs, parents, courseCategory, 0);
  }

  // ---------------------------------------------------------------- the course configuration

  /**
   * `local_credentium_resolve_course_config`: nothing for a missing or disabled course row;
   * otherwise the course row with credentials, pause flag, rate limit and category taken
   * from category resolution, never from the course.
   */
  function ResolveCourse(g: GlobalSettings, courseConfigs: map<int, CourseConfig>,
                         configs: map<int, CategoryConfig>, parents: map<int, int>,
                         courseid: int, courseCategory: int): (r: Option<EffectiveConfig>)
    ensures r.None? <==> courseid !in courseConfigs || !courseConfigs[courseid].settings.enabled
    ensures r.Some? ==>
              var c := ResolveCategory(g, configs, parents, courseCategory);
              && r.value.course == courseConfigs[courseid]
              && r.value.apiurl == c.apiurl && r.value.apikey == c.apikey
              && r.value.paused == c.paused && r.value.ratelimit == c.ratelimit
              && r.value.categoryid == c.categoryid
  {
    if courseid !in courseConfigs || !courseConfigs[courseid].settings.enabled then None
    else
      var c := ResolveCategory(g, configs, parents, courseCategory);
      Some(EffectiveConfig(courseConfigs[courseid], c.categoryid, c.apiurl, c.apikey, c.paused, c.ratelimit))
  }

  // ---------------------------------------------------------------- the stored configuration

  /** The plugin's settings and its two config tables, keyed by course id and by category id. */
  class ConfigStore {
    var enabled: bool
    var categoryMode: bool
    var apiurl: Option<string>
    var apikey: Option<string>
    var courseConfigs: map<int, CourseConfig>
    var categoryConfigs: map<int, CategoryConfig>
    var nextCourseConfigId: int
    var nextCategoryConfigId: int

    /**
     * Each table holds at most one row per key, the row under key k has k as its course
     * (category) id, and row ids are distinct and below the next id to be handed out.
     */
    ghost predicate Valid()
      reads this
    {
      && nextCourseConfigId >= 1 && nextCategoryConfigId >= 1
      && (forall k :: k in courseConfigs ==>
            courseConfigs[k].settings.courseid == k && 1 <= courseConfigs[k].id < nextCourseConfigId)
      && (forall k1, k2 :: k1 in courseConfigs && k2 in courseConfigs && k1 != k2 ==>
            courseConfigs[k1].id != courseConfigs[k2].id)
      && (forall k :: k in categoryConfigs ==>
            categoryConfigs[k].settings.categoryid == k && 1 <= categoryConfigs[k].id < nextCategoryConfigId)
      && (forall k1, k2 :: k1 in categoryConfigs && k2 in categoryConfigs && k1 != k2 ==>
            categoryConfigs[k1].id != categoryConfigs[k2].id)
    }

    constructor (g: GlobalSettings)
      ensures Valid()
      ensures Global() == g && courseConfigs == map[] && categoryConfigs == map[]
    {
      enabled, categoryMode, apiurl, apikey := g.enabled, g.categoryMode, g.apiurl, g.apikey;
      courseConfigs, categoryConfigs := map[], map[];
      nextCourseConfigId, nextCategoryConfigId := 1, 1;
    }

    function Global(): GlobalSettings
      reads this
    {
      GlobalSettings(enabled, categoryMode, apiurl, apikey)
    }

    /** `local_credentium_is_enabled_for_course`: the plugin is on and the course row exists and is enabled. */
    function IsEnabledForCourse(courseid: int): (b: bool)
      reads this
      ensures !enabled ==> !b
      ensures enabled ==> (b <==> courseid in courseConfigs && courseConfigs[courseid].settings.enabled)
    {
      if !enabled then false
      else courseid in courseConfigs && courseConfigs[courseid].settings.enabled
    }

    /** `local_credentium_save_course_config`: an upsert keyed on the course id. */
    method SaveCourseConfig(s: CourseSettings, now: int) returns (result: SaveResult)
      requires Valid()
      modifies this`courseConfigs, this`nextCourseConfigId
      ensures Valid()
      ensures s.courseid in old(courseConfigs) ==>
                && result == Updated
                && courseConfigs == old(courseConfigs)[s.courseid := CourseConfig(
                     old(courseConfigs)[s.courseid].id, s, old(courseConfigs)[s.courseid].timecreated, now)]
                && nextCourseConfigId == old(nextCourseConfigId)
      ensures s.courseid !in old(courseConfigs) ==>
                && result == Inserted(old(nextCourseConfigId))
                && courseConfigs == old(courseConfigs)[s.courseid := CourseConfig(old(nextCourseConfigId), s, now, now)]
                && nextCourseConfigId == old(nextCourseConfigId) + 1
    {
      if s.courseid in courseConfigs {
        var existing := courseConfigs[s.courseid];
        courseConfigs := courseConfigs[s.courseid := CourseConfig(existing.id, s, existing.timecreated, now)];
        result := Updated;
      } else {
        var id := nextCourseConfigId;
        courseConfigs := courseConfigs[s.courseid := CourseConfig(id, s, now, now)];
        nextCourseConfigId := nextCourseConfigId + 1;
        result := Inserted(id);
      }
    }

    /** `local_credentium_save_category_config`: an upsert keyed on the category id. */
    method SaveCategoryConfig(s: CategorySettings, now: int) returns (result: SaveResult)
      requires Valid()
      modifies this`categoryConfigs, this`nextCategoryConfigId
      ensures Valid()
      ensures s.categoryid in old(categoryConfigs) ==>
                && result == Updated
                && categoryConfigs == old(categoryConfigs)[s.categoryid := CategoryConfig(
                     old(categoryConfigs)[s.categoryid].id, s, old(categoryConfigs)[s.categoryid].timecreated, now)]
                && nextCategoryConfigId == old(nextCategoryConfigId)
      ensures s.categoryid !in old(categoryConfigs) ==>
                && result == Inserted(old(nextCategoryConfigId))
                && categoryConfigs == old(categoryConfigs)[s.categoryid := CategoryConfig(old(nextCategoryConfigId), s, now, now)]
                && nextCategoryConfigId == old(nextCategoryConfigId) + 1
    {
      if s.categoryid in categoryConfigs {
        var existing := categoryConfigs[s.categoryid];
        categoryConfigs := categoryConfigs[s.categoryid := CategoryConfig(existing.id, s, existing.timecreated, now)];
        result := Updated;
      } else {
        var id := nextCategoryConfigId;
        categoryConfigs := categoryConfigs[s.categoryid := CategoryConfig(id, s, now, now)];
        nextCategoryConfigId := nextCategoryConfigId + 1;
        result := Inserted(id);
      }
    }

    /**
     * `local_credentium_resolve_category_config`: the walk up `parents` (the course
     * categories table, id to parent) from the course's category.
     */
    method ResolveCategoryConfig(parents: map<int, int>, courseCategory: int) returns (r: CategoryResolution)
      requires Valid()
      ensures r == ResolveCategory(Global(), categoryConfigs, parents, courseCategory)
      ensures var chain := Chain(parents, courseCategory, MaxDepth);
              var k := FirstEnabled(categoryConfigs, chain);
              && (r.categoryid.Some? ==> categoryMode && courseCategory != 0 && k.Some? && r.categoryid.value == chain[k.value])
              && (r.categoryid.None? ==> r == GlobalResolution(Global()))
    {
      StoreKeyedByCategory(this);
      var g := Global();
      if !categoryMode || courseCategory == 0 {
        return GlobalResolution(g);
      }
      var found := courseCategory in parents;
      var category := courseCategory;
      var depth: nat := 0;
      while found && depth < MaxDepth
        invariant depth <= MaxDepth
        invariant found ==> category in parents
        invariant ResolveCategory(g, categoryConfigs, parents, courseCategory) ==
                  if found then Walk(g, categoryConfigs, parents, category, depth) else GlobalResolution(g)
        decreases MaxDepth - depth
      {
        if category in categoryConfigs && categoryConfigs[category].settings.enabled {
          r := WinnerResolution(g, category, categoryConfigs[category]);
          ResolvedCategoryIsFirstEnabled(g, categoryConfigs, parents, courseCategory);
          return;
        }
        if parents[category] > 0 {
          category := parents[category];
          found := category in parents;
          depth := depth + 1;
        } else {
          break;
        }
      }
      r := GlobalResolution(g);
      ResolvedCategoryIsFirstEnabled(g, categoryConfigs, parents, courseCategory);
    }

    /** `local_credentium_resolve_course_config` for course `courseid` in category `courseCategory`. */
    method ResolveCourseConfig(parents: map<int, int>, courseid: int, courseCategory: int)
      returns (r: Option<EffectiveConfig>)
      requires Valid()
      ensures r == ResolveCourse(Global(), courseConfigs, categoryConfigs, parents, courseid, courseCategory)
    {
      if courseid !in courseConfigs || !courseConfigs[courseid].settings.enabled {
        return None;
      }
      var courseconfig := courseConfigs[courseid];
      var categoryconfig := ResolveCategoryConfig(parents, courseCategory);
      r := Some(EffectiveConfig(courseconfig, categoryconfig.categoryid, categoryconfig.apiurl,
                                categoryconfig.apikey, categoryconfig.paused, categoryconfig.ratelimit));
    }
  }

  /** The category table of a valid store is keyed by category, so the resolution lemmas apply to it. */
  lemma StoreKeyedByCategory(store: ConfigStore)
    requires store.Valid()
    ensures KeyedByCategory(store.categoryConfigs)
  {
  }

  /** The course is enabled for issuance exactly when the plugin is on and resolution yields a configuration. */
  lemma EnabledIffResolves(store: ConfigStore, parents: map<int, int>, courseid: int, courseCategory: int)
    ensures store.IsEnabledForCourse(courseid) <==>
            store.enabled && ResolveCourse(store.Global(), store.courseConfigs, store.categoryConfigs,
                                           parents, courseid, courseCategory).Some?
  {
  }
}
