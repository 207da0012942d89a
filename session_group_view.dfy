/**
 * Pagination of one workdir group (src/components/Sidebar/SessionGroup.tsx):
 * the first `visibleCount` sessions are shown, and the overflow buttons ask
 * for five more or for all of them. `slice(0, v)` follows JavaScript: a
 * negative end counts back from the length.
 */
module SessionGroupView {
  import AppView

  /** The end index of `slice(0, v)` on `n` elements. */
  function SliceEnd(n: nat, v: int): (e: nat)
    ensures e <= n
    ensures 0 <= v ==> e == (if v < n then v else n)
  {
    if v < 0 then (if n + v < 0 then 0 else n + v) else if v < n then v else n
  }

  /** `visibleSessions`: the first rows. */
  function VisibleSessions<S>(sessions: seq<S>, visibleCount: int): (r: seq<S>)
    ensures |r| <= |sessions| && r == sessions[..|r|]
    ensures 0 <= visibleCount ==> |r| == (if visibleCount < |sessions| then visibleCount else |sessions|)
  {
    sessions[..SliceEnd(|sessions|, visibleCount)]
  }

  /** `hiddenCount`. */
  function HiddenCount(n: nat, visibleCount: int): int {
    n - visibleCount
  }

  predicate HasMore(n: nat, visibleCount: int) {
    HiddenCount(n, visibleCount) > 0
  }

  /** The buttons under the rows: none, "show N more", and "show all" when over five are hidden. */
  datatype Overflow = Overflow(showMore: bool, moreLabel: int, showAll: bool)

  function OverflowFor(n: nat, visibleCount: int): Overflow {
    var hidden := HiddenCount(n, visibleCount);
    Overflow(hidden > 0, if 5 < hidden then 5 else hidden, hidden > 5)
  }

  /** What the group renders: no rows at all when collapsed. */
  function Rows<S>(sessions: seq<S>, visibleCount: int, collapsed: bool): (r: seq<S>)
    ensures collapsed ==> r == []
    ensures !collapsed ==> r == VisibleSessions(sessions, visibleCount)
  {
    if collapsed then [] else VisibleSessions(sessions, visibleCount)
  }

  /**
   * For a non-negative count, the rows shown plus the rows hidden make up the
   * group exactly when something is hidden; "show more" is offered iff rows are
   * hidden, and "show all" only past five hidden rows.
   */
  lemma PaginationSpec<S>(sessions: seq<S>, v: int)
    requires 0 <= v
    ensures HasMore(|sessions|, v) <==> |sessions| > v
    ensures HasMore(|sessions|, v) ==> |VisibleSessions(sessions, v)| + HiddenCount(|sessions|, v) == |sessions|
    ensures !HasMore(|sessions|, v) ==> VisibleSessions(sessions, v) == sessions
    ensures var o := OverflowFor(|sessions|, v);
      && (o.showMore <==> HasMore(|sessions|, v))
      && (o.showMore ==> 1 <= o.moreLabel <= 5 && o.moreLabel <= HiddenCount(|sessions|, v))
      && (o.showAll ==> o.showMore && o.moreLabel == 5)
  {
  }

  /**
   * "Show more" keeps its label's promise: after the app adds five to the count,
   * exactly `moreLabel` more rows are shown. "Show all" shows every row.
   */
  lemma ShowMoreReveals<S>(sessions: seq<S>, counts: map<string, int>, workdir: string)
    requires workdir in counts ==> counts[workdir] >= 0
    ensures var v := if workdir in counts then counts[workdir] else AppView.DefaultVisibleSessions;
      var v' := AppView.ShowMore(counts, workdir, 5)[workdir];
      var o := OverflowFor(|sessions|, v);
      o.showMore ==> |VisibleSessions(sessions, v')| == |VisibleSessions(sessions, v)| + o.moreLabel
    ensures var v' := AppView.ShowAll(counts, workdir, |sessions|)[workdir];
      VisibleSessions(sessions, v') == sessions && !HasMore(|sessions|, v')
  {
  }
}
