/**
 * The "exactly one active" rules of script.js: `ProjectsFilter.filter`,
 * `SkillsTabs.switchTab` and `ExperienceTabs.switchTab`. A DOM collection is
 * an array of booleans, one per element, holding whether the element carries
 * the class being toggled (`active`, or `hidden` for project cards). An
 * attribute that may be absent (`getAttribute` gives null) is an Option.
 */
module Selection {
  import opened Wrappers

  /** The flags of `n` elements of which only the one at `k` is set. */
  function OnlyAt(n: nat, k: int): (r: seq<bool>)
    ensures |r| == n && forall i :: 0 <= i < n ==> (r[i] <==> i == k)
  {
    seq(n, i => i == k)
  }

  /** How many flags are set. */
  function CountSet(s: seq<bool>): (c: nat)
    ensures c <= |s|
  {
    if s == [] then 0 else (if s[0] then 1 else 0) + CountSet(s[1..])
  }

  /** No flag set: none counted. */
  lemma {:induction false} NoneSet(s: seq<bool>)
    requires forall i :: 0 <= i < |s| ==> !s[i]
    ensures CountSet(s) == 0
  {
    if s != [] {
      NoneSet(s[1..]);
    }
  }

  /** Exactly one element is active after a selection, namely the chosen one. */
  lemma {:induction false} OnlyAtCountsOne(n: nat, k: int)
    requires 0 <= k < n
    ensures CountSet(OnlyAt(n, k)) == 1
  {
    var s := OnlyAt(n, k);
    if k == 0 {
      NoneSet(s[1..]);
    } else {
      assert s[1..] == OnlyAt(n - 1, k - 1);
      OnlyAtCountsOne(n - 1, k - 1);
    }
  }

  /**
   * `list.forEach(el => el.classList.remove('active')); chosen.classList.add('active')`:
   * clears every flag, then sets the chosen one.
   */
  method SelectOnly(flags: array<bool>, chosen: int)
    requires 0 <= chosen < flags.Length
    modifies flags
    ensures flags[..] == OnlyAt(flags.Length, chosen)
  {
    var i := 0;
    while i < flags.Length
      invariant 0 <= i <= flags.Length
      invariant forall j :: 0 <= j < i ==> !flags[j]
    {
      flags[i] := false;
      i := i + 1;
    }
    flags[chosen] := true;
  }

  /** Whether each pane's id equals the target (`content.id === targetId`; an id is never null). */
  function Matching(ids: seq<string>, target: Option<string>): (r: seq<bool>)
    ensures |r| == |ids|
    ensures target.None? ==> forall i :: 0 <= i < |r| ==> !r[i]
    ensures target.Some? ==> forall i :: 0 <= i < |r| ==> (r[i] <==> ids[i] == target.value)
  {
    seq(|ids|, i requires 0 <= i < |ids| => Some(ids[i]) == target)
  }

  /** With distinct ids, at most one pane matches. */
  lemma DistinctIdsMatchOnce(ids: seq<string>, target: Option<string>, k: int)
    requires forall i, j :: 0 <= i < j < |ids| ==> ids[i] != ids[j]
    requires 0 <= k < |ids| && target == Some(ids[k])
    ensures Matching(ids, target) == OnlyAt(|ids|, k)
  {
  }

  /**
   * `contents.forEach(c => { c.classList.remove('active'); if (c.id === targetId) c.classList.add('active'); })`.
   */
  method ActivateMatching(flags: array<bool>, ids: seq<string>, target: Option<string>)
    requires flags.Length == |ids|
    modifies flags
    ensures flags[..] == Matching(ids, target)
  {
    var i := 0;
    while i < flags.Length
      invariant 0 <= i <= flags.Length
      invariant forall j :: 0 <= j < i ==> flags[j] == (Some(ids[j]) == target)
    {
      flags[i] := false;
      if Some(ids[i]) == target {
        flags[i] := true;
      }
      i := i + 1;
    }
  }

  /**
   * Whether a project card is hidden under a filter value: shown when the
   * filter is "all" or equals its category (two absent attributes are equal,
   * as `null === null`).
   */
  function Hidden(filter: Option<string>, categories: seq<Option<string>>): (r: seq<bool>)
    ensures |r| == |categories|
    ensures filter == Some("all") ==> forall i :: 0 <= i < |r| ==> !r[i]
    ensures forall i :: 0 <= i < |r| ==> (r[i] <==> filter != Some("all") && categories[i] != filter)
  {
    seq(|categories|, i requires 0 <= i < |categories| => !(filter == Some("all") || categories[i] == filter))
  }

  /** `ProjectsFilter`: the filter buttons with their `data-filter`, and the project cards with their `data-category`. */
  class ProjectsFilter {
    const filters: seq<Option<string>>
    const categories: seq<Option<string>>
    /** Which buttons carry `active`. */
    const buttons: array<bool>
    /** Which cards carry `hidden`. */
    const projects: array<bool>

    ghost predicate Valid()
      reads this
    {
      buttons.Length == |filters| && projects.Length == |categories| && buttons != projects
    }

    constructor (filters: seq<Option<string>>, categories: seq<Option<string>>, buttons: array<bool>, projects: array<bool>)
      requires buttons.Length == |filters| && projects.Length == |categories| && buttons != projects
      ensures this.filters == filters && this.categories == categories
      ensures this.buttons == buttons && this.projects == projects
      ensures Valid()
    {
      this.filters, this.categories := filters, categories;
      this.buttons, this.projects := buttons, projects;
    }

    /** `filter(activeBtn)` for the button at index `b`. */
    method Filter(b: int)
      requires Valid() && 0 <= b < buttons.Length
      modifies buttons, projects
      ensures buttons[..] == OnlyAt(buttons.Length, b)
      ensures projects[..] == Hidden(filters[b], categories)
    {
      var filter := filters[b];
      SelectOnly(buttons, b);
      var i := 0;
      while i < projects.Length
        invariant 0 <= i <= projects.Length
        invariant buttons[..] == OnlyAt(buttons.Length, b)
        invariant forall j :: 0 <= j < i ==> projects[j] == !(filter == Some("all") || categories[j] == filter)
      {
        var category := categories[i];
        if filter == Some("all") || category == filter {
          projects[i] := false;
        } else {
          projects[i] := true;
        }
        i := i + 1;
      }
    }
  }

  /** `SkillsTabs`: the tab buttons with their `data-tab` and the content panes with their ids. */
  class SkillsTabs {
    const targets: seq<Option<string>>
    const ids: seq<string>
    const tabs: array<bool>
    const contents: array<bool>

    ghost predicate Valid()
      reads this
    {
      tabs.Length == |targets| && contents.Length == |ids| && tabs != contents
    }

    constructor (targets: seq<Option<string>>, ids: seq<string>, tabs: array<bool>, contents: array<bool>)
      requires tabs.Length == |targets| && contents.Length == |ids| && tabs != contents
      ensures this.targets == targets && this.ids == ids && this.tabs == tabs && this.contents == contents
      ensures Valid()
    {
      this.targets, this.ids := targets, ids;
      this.tabs, this.contents := tabs, contents;
    }

    /** `switchTab(activeTab)` for the tab at index `t`. */
    method SwitchTab(t: int)
      requires Valid() && 0 <= t < tabs.Length
      modifies tabs, contents
      ensures tabs[..] == OnlyAt(tabs.Length, t)
      ensures contents[..] == Matching(ids, targets[t])
    {
      var targetId := targets[t];
      SelectOnly(tabs, t);
      ActivateMatching(contents, ids, targetId);
    }
  }

  /** `ExperienceTabs`: the same rule over the `data-exp-tab` buttons and their panes. */
  class ExperienceTabs {
    const targets: seq<Option<string>>
    const ids: seq<string>
    const tabs: array<bool>
    const contents: array<bool>

    ghost predicate Valid()
      reads this
    {
      tabs.Length == |targets| && contents.Length == |ids| && tabs != contents
    }

    constructor (targets: seq<Option<string>>, ids: seq<string>, tabs: array<bool>, contents: array<bool>)
      requires tabs.Length == |targets| && contents.Length == |ids| && tabs != contents
      ensures this.targets == targets && this.ids == ids && this.tabs == tabs && this.contents == contents
      ensures Valid()
    {
      this.targets, this.ids := targets, ids;
      this.tabs, this.contents := tabs, contents;
    }

    /** `switchTab(activeTab)` for the tab at index `t`. */
    method SwitchTab(t: int)
      requires Valid() && 0 <= t < tabs.Length
      modifies tabs, contents
      ensures tabs[..] == OnlyAt(tabs.Length, t)
      ensures contents[..] == Matching(ids, targets[t])
    {
      var targetId := targets[t];
      SelectOnly(tabs, t);
      ActivateMatching(contents, ids, targetId);
    }
  }
}
