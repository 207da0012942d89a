/**
 * The sidebar's grouping of the current client: sessions grouped by workdir
 * ('Unknown' for an empty one), each group named by the last segment of its key,
 * sessions within a group newest `modified` first, and groups ordered by their
 * first (newest) session. On top of that come the search filter, the
 * attention filter and the set of workdirs a search opens.
 *
 * The fuzzy matcher is not modelled: a search is given as the set of
 * session ids and the set of workdirs it matched.
 */
module UseSessionGroups {
  import opened Wrappers
  import opened Strings
  import opened SessionTypes
  import opened Seqs
  import opened Sorting
  import opened Grouping
  import Content

  /** `session.workdir || 'Unknown'`. */
  function GroupKey(s: Session): (k: string)
    ensures k != ""
    ensures s.workdir != "" ==> k == s.workdir
  {
    if s.workdir == "" then "Unknown" else s.workdir
  }

  /** `groups[w]?.sessions[0]?.modified`: the rank of a non-empty group. */
  function FirstModified(g: WorkdirGroup<Session>): int {
    if |g.sessions| > 0 then g.sessions[0].session.modified else 0
  }

  const Current: Scheme<Session> := Scheme(
    GroupKey,
    (s: Session) => s.id,
    (s: Session) => s.modified,
    Content.GetWorkdirName,
    FirstModified)

  /** The rank of key `k` when it names a group (the comparator's `aLatest`). */
  function LatestOf(groups: map<string, WorkdirGroup<Session>>, k: string): int {
    if k in groups then FirstModified(groups[k]) else 0
  }

  /** The comparator of the workdir keys: newest first session first. */
  function ByLatest(groups: map<string, WorkdirGroup<Session>>): (string, string) -> bool {
    (a: string, b: string) => LatestOf(groups, b) - LatestOf(groups, a) <= 0
  }

  /** On keys that name groups, the key comparator is the group comparator. */
  lemma ByLatestAgrees(sessions: seq<Session>, attention: seq<Attention>, groups: map<string, WorkdirGroup<Session>>,
                       keys: seq<string>)
    requires forall k :: k in keys ==> k in groups && groups[k] == GroupOf(sessions, attention, Current, k)
    ensures forall a, b :: a in keys && b in keys ==>
      ByLatest(groups)(a, b) == HigherFirst(Current.rank)(GroupFor(sessions, attention, Current)(a), GroupFor(sessions, attention, Current)(b))
  {
  }

  /** The sorted keys still all name groups. */
  lemma SortedKeysKnown(keys: seq<string>, groups: map<string, WorkdirGroup<Session>>, le: (string, string) -> bool)
    requires forall k :: k in keys ==> k in groups
    ensures forall k :: k in Sort(keys, le) ==> k in groups
  {
    forall k | k in Sort(keys, le) ensures k in groups {
      SortElements(keys, le, k);
    }
  }

  /**
   * Sorting the keys by their groups' rank and looking each up gives the groups
   * sorted by rank.
   */
  lemma SortedKeysGiveGroups(sessions: seq<Session>, attention: seq<Attention>, groups: map<string, WorkdirGroup<Session>>)
    requires forall k :: k in KeysInOrder(sessions, GroupKey) ==>
      k in groups && groups[k] == GroupOf(sessions, attention, Current, k)
    ensures forall k :: k in Sort(KeysInOrder(sessions, GroupKey), ByLatest(groups)) ==> k in groups
    ensures LookUp(Sort(KeysInOrder(sessions, GroupKey), ByLatest(groups)), groups) == Groups(sessions, attention, Current)
  {
    var keys := KeysInOrder(sessions, GroupKey);
    var sorted := Sort(keys, ByLatest(groups));
    SortedKeysKnown(keys, groups, ByLatest(groups));
    var f := GroupFor(sessions, attention, Current);
    ByLatestAgrees(sessions, attention, groups, keys);
    SortMap(keys, f, ByLatest(groups), HigherFirst(Current.rank));
    forall k | k in sorted ensures groups[k] == f(k) {
      SortElements(keys, ByLatest(groups), k);
    }
    LookUpIsMap(sorted, groups, f);
  }

  /**
   * `groupByWorkdir`: the three loops, then the keys sorted by their group's
   * newest session and looked up in order.
   */
  method GroupByWorkdir(sessions: seq<Session>, attention: seq<Attention>) returns (result: seq<WorkdirGroup<Session>>)
    ensures result == Groups(sessions, attention, Current)
  {
    var index := IndexAttention(attention);
    var keys, collected := CollectGroups(sessions, attention, index, Current);
    var groups := SortEachGroup(sessions, attention, Current, keys, collected);
    assert keys == KeysInOrder(sessions, GroupKey);
    SortedKeysGiveGroups(sessions, attention, groups);
    var sortedKeys := Sort(keys, ByLatest(groups));
    result := LookUp(sortedKeys, groups);
  }

  /**
   * Each group holds exactly the sessions whose workdir (or 'Unknown') is its
   * key, no two groups share a key, and the groups hold as many sessions as the input.
   */
  lemma GroupingPartitions(sessions: seq<Session>, attention: seq<Attention>, i: nat)
    requires i < |sessions|
    ensures exists g :: (g in Groups(sessions, attention, Current)
      && g.workdir == GroupKey(sessions[i])
      && Grouped(sessions[i], AttentionOf(attention, sessions[i].id)) in g.sessions)
    ensures DistinctBy(Groups(sessions, attention, Current), (g: WorkdirGroup<Session>) => g.workdir)
    ensures Total(Groups(sessions, attention, Current)) == |sessions|
  {
    EverySessionGrouped(sessions, attention, Current, i);
    GroupKeysDistinct(sessions, attention, Current);
    CountPreserved(sessions, attention, Current);
  }

  /**
   * A grouped session is an input session of that group's key carrying exactly the
   * attention items whose `sessionId` is its id, in input order; each group is named
   * after the last segment of its key.
   */
  lemma GroupedSessionContents(sessions: seq<Session>, attention: seq<Attention>, g: WorkdirGroup<Session>, m: Grouped<Session>)
    requires g in Groups(sessions, attention, Current)
    ensures g.name == Content.GetWorkdirName(g.workdir) && |g.sessions| > 0
    ensures m in g.sessions ==>
      && m.session in sessions && GroupKey(m.session) == g.workdir
      && m.attention == Filter(attention, (a: Attention) => a.sessionId == m.session.id)
  {
    GroupContents(sessions, attention, Current, g, m);
  }

  /**
   * Within a group, sessions are newest `modified` first; groups are ordered by
   * their first session's `modified`, newest first.
   */
  lemma GroupingOrdered(sessions: seq<Session>, attention: seq<Attention>)
    ensures forall g :: g in Groups(sessions, attention, Current) ==>
      forall i, j :: 0 <= i < j < |g.sessions| ==> g.sessions[i].session.modified >= g.sessions[j].session.modified
    ensures forall i, j :: 0 <= i < j < |Groups(sessions, attention, Current)| ==>
      FirstModified(Groups(sessions, attention, Current)[i]) >= FirstModified(Groups(sessions, attention, Current)[j])
  {
    var gs := Groups(sessions, attention, Current);
    forall g | g in gs
      ensures forall i, j :: 0 <= i < j < |g.sessions| ==> g.sessions[i].session.modified >= g.sessions[j].session.modified
    {
      GroupsOrdered(sessions, attention, Current, g);
    }
    if gs != [] {
      GroupsOrdered(sessions, attention, Current, gs[0]);
    }
  }

  // ---------------------------------------------------------------------------
  // Search
  // ---------------------------------------------------------------------------

  /**
   * What a search matched: the ids of the matched sessions and the workdirs of the
   * matched groups.
   */
  datatype Matches = Matches(sessionIds: set<string>, workdirs: set<string>)

  /** A group as the search shows it: whole when its workdir matched, otherwise only its matched sessions. */
  function Narrow(g: WorkdirGroup<Session>, found: Matches): (r: WorkdirGroup<Session>)
    ensures r.name == g.name && r.workdir == g.workdir
  {
    if g.workdir in found.workdirs then g
    else g.(sessions := Filter(g.sessions, (m: Grouped<Session>) => m.session.id in found.sessionIds))
  }

  /** `searchFilteredGroups`. */
  function SearchFiltered(groups: seq<WorkdirGroup<Session>>, query: string, found: Matches): seq<WorkdirGroup<Session>> {
    if Trim(query) == "" then groups
    else Filter(Map(groups, (g: WorkdirGroup<Session>) => Narrow(g, found)), IsShown)
  }

  /** A blank query shows the groups unchanged. */
  lemma BlankSearchShowsAll(groups: seq<WorkdirGroup<Session>>, query: string, found: Matches)
    requires IsBlank(query)
    ensures SearchFiltered(groups, query, found) == groups
  {
    TrimEmptyIffBlank(query);
  }

  /**
   * For a non-blank query, a matched workdir's group is kept whole, any other
   * group keeps exactly its matched sessions, no group is empty, and every shown
   * group comes from an input group this way.
   */
  lemma SearchSpec(groups: seq<WorkdirGroup<Session>>, query: string, found: Matches)
    requires !IsBlank(query)
    ensures forall g :: g in SearchFiltered(groups, query, found) ==>
      |g.sessions| > 0 && exists i :: 0 <= i < |groups| && g == Narrow(groups[i], found)
    ensures forall i :: 0 <= i < |groups| && groups[i].workdir in found.workdirs && |groups[i].sessions| > 0 ==>
      groups[i] in SearchFiltered(groups, query, found)
    ensures forall i, m :: (0 <= i < |groups| && groups[i].workdir !in found.workdirs
      && m in groups[i].sessions && m.session.id in found.sessionIds) ==>
        Narrow(groups[i], found) in SearchFiltered(groups, query, found) && m in Narrow(groups[i], found).sessions
    ensures forall i, m :: (0 <= i < |groups| && groups[i].workdir !in found.workdirs
      && m in Narrow(groups[i], found).sessions) ==> m.session.id in found.sessionIds
  {
    TrimEmptyIffBlank(query);
    var f := (g: WorkdirGroup<Session>) => Narrow(g, found);
    var narrowed := Map(groups, f);
    forall g | g in SearchFiltered(groups, query, found)
      ensures exists i :: 0 <= i < |groups| && g == Narrow(groups[i], found)
    {
      var j :| 0 <= j < |narrowed| && narrowed[j] == g;
    }
    forall i | 0 <= i < |groups| && groups[i].workdir in found.workdirs && |groups[i].sessions| > 0
      ensures groups[i] in SearchFiltered(groups, query, found)
    {
      assert narrowed[i] == groups[i];
    }
    forall i, m | 0 <= i < |groups| && groups[i].workdir !in found.workdirs
      && m in groups[i].sessions && m.session.id in found.sessionIds
      ensures Narrow(groups[i], found) in SearchFiltered(groups, query, found) && m in Narrow(groups[i], found).sessions
    {
      var k :| 0 <= k < |groups[i].sessions| && groups[i].sessions[k] == m;
      assert narrowed[i] == Narrow(groups[i], found);
    }
  }

  /** `filteredGroups`: the attention filter over the search result. */
  function FilteredGroups(groups: seq<WorkdirGroup<Session>>, query: string, found: Matches, filter: SessionFilter)
    : seq<WorkdirGroup<Session>>
  {
    ApplyFilter(SearchFiltered(groups, query, found), filter)
  }

  /** `searchExpandedWorkdirs`: with a search, every shown group's workdir is open (mapped to false). */
  function SearchExpanded(query: string, filtered: seq<WorkdirGroup<Session>>): (r: map<string, bool>)
    ensures Trim(query) == "" ==> r == map[]
    ensures Trim(query) != "" ==>
      (forall w :: w in r <==> exists i :: 0 <= i < |filtered| && filtered[i].workdir == w)
    ensures forall w :: w in r ==> r[w] == false
  {
    if Trim(query) == "" then map[]
    else
      var shown := set i | 0 <= i < |filtered| :: filtered[i].workdir;
      map w | w in shown :: false
  }

  lemma SearchExpandedBlank(query: string, filtered: seq<WorkdirGroup<Session>>)
    ensures SearchExpanded(query, filtered) == map[] <==> (IsBlank(query) || filtered == [])
  {
    TrimEmptyIffBlank(query);
    if !IsBlank(query) && filtered != [] {
      assert filtered[0].workdir in SearchExpanded(query, filtered);
    }
  }
}
