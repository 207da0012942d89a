/**
 * The sidebar's per-workdir view rules (src/components/Sidebar/Sidebar.tsx):
 * whether a group is collapsed, how many of its sessions are shown, and
 * whether the collapse-all button reads as "all collapsed".
 */
module Sidebar {
  import opened Strings
  import AppView

  /**
   * `isWorkdirCollapsed`: while the trimmed query is non-empty the search decides
   * (a group it has not listed is collapsed); otherwise the stored flag (expanded when unset).
   */
  function IsWorkdirCollapsed(searchQuery: string, searchExpanded: map<string, bool>,
                              collapsed: map<string, bool>, workdir: string): bool
  {
    if Trim(searchQuery) != "" then (if workdir in searchExpanded then searchExpanded[workdir] else true)
    else (if workdir in collapsed then collapsed[workdir] else false)
  }

  /** A search overrides the stored flags, and without one the search's map is ignored. */
  lemma CollapseRule(searchQuery: string, searchExpanded: map<string, bool>, collapsed: map<string, bool>,
                     collapsed': map<string, bool>, searchExpanded': map<string, bool>, workdir: string)
    ensures !IsBlank(searchQuery) ==>
      IsWorkdirCollapsed(searchQuery, searchExpanded, collapsed, workdir)
        == IsWorkdirCollapsed(searchQuery, searchExpanded, collapsed', workdir)
    ensures !IsBlank(searchQuery) ==>
      (IsWorkdirCollapsed(searchQuery, searchExpanded, collapsed, workdir) <==>
        workdir !in searchExpanded || searchExpanded[workdir])
    ensures IsBlank(searchQuery) ==>
      IsWorkdirCollapsed(searchQuery, searchExpanded, collapsed, workdir)
        == IsWorkdirCollapsed(searchQuery, searchExpanded', collapsed, workdir)
    ensures IsBlank(searchQuery) ==>
      (IsWorkdirCollapsed(searchQuery, searchExpanded, collapsed, workdir) <==>
        workdir in collapsed && collapsed[workdir])
  {
    TrimEmptyIffBlank(searchQuery);
  }

  /** `getVisibleCount`: the stored count, or the default. */
  function VisibleCount(visibleCounts: map<string, int>, default: int, workdir: string): int {
    if workdir in visibleCounts then visibleCounts[workdir] else default
  }

  /** `allCollapsed`: some flag is stored and every stored flag is set. */
  predicate AllCollapsed(collapsed: map<string, bool>) {
    |collapsed.Keys| > 0 && forall w :: w in collapsed ==> collapsed[w]
  }

  /**
   * The button's indicator follows collapse-all: pressing it while some workdir
   * is expanded lights it (when there is a workdir at all), pressing it again
   * clears it. A toggled workdir shows as collapsed exactly when it was not.
   */
  lemma CollapseAllIndicator(workdirs: seq<string>, collapsed: map<string, bool>, workdir: string)
    ensures var r := AppView.CollapseAll(workdirs, collapsed);
      && (!AppView.EveryCollapsed(workdirs, collapsed) ==> AllCollapsed(r) && forall w :: w in workdirs ==> IsWorkdirCollapsed("", map[], r, w))
      && (AppView.EveryCollapsed(workdirs, collapsed) ==> !AllCollapsed(r))
    ensures IsWorkdirCollapsed("", map[], AppView.Toggled(collapsed, workdir), workdir) == !IsWorkdirCollapsed("", map[], collapsed, workdir)
  {
    assert Trim("") == "";
    var r := AppView.CollapseAll(workdirs, collapsed);
    if !AppView.EveryCollapsed(workdirs, collapsed) {
      var i :| 0 <= i < |workdirs| && !(workdirs[i] in collapsed && collapsed[workdirs[i]]);
      assert workdirs[i] in r.Keys;
    }
  }

  /** With no stored count a group shows the default; a shown-all group shows its total. */
  lemma VisibleCountRule(visibleCounts: map<string, int>, default: int, workdir: string, total: int)
    ensures workdir !in visibleCounts ==> VisibleCount(visibleCounts, default, workdir) == default
    ensures VisibleCount(AppView.ShowAll(visibleCounts, workdir, total), default, workdir) == total
    ensures VisibleCount(AppView.ShowMore(visibleCounts, workdir, 5), AppView.DefaultVisibleSessions, workdir)
         == VisibleCount(visibleCounts, AppView.DefaultVisibleSessions, workdir) + 5
  {
  }
}
