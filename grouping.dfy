/**
 * Grouping sessions by working directory, shared by the current client
 * (`groupByWorkdir` in the sessions-groups hook) and the legacy one (`groupByWorkdir`
 * in the legacy app). Both files build the same two dictionaries in two loops:
 * each session id's attention items, and workdir key -> group. Then they sort each
 * group's sessions newest first and sort the groups by a rank. What differs is:
 *   - the key of an empty workdir ('Unknown' against 'unknown');
 *   - the group's name;
 *   - the time field (`modified` against `lastActivity`);
 *   - the rank (the first session's time against the largest time).
 * A `Scheme` holds these as functions.
 *
 * The specification `Groups` below is written in terms of `Filter`, `Sort` and the
 * keys in order of first appearance. The loops of both files are proved against it,
 * and the lemmas at the end state what the grouping promises.
 */
module Grouping {
  import opened SessionTypes
  import opened Seqs
  import opened Sorting

  /** A session with the attention items raised by it (`{...session, attention}`). */
  datatype Grouped<S> = Grouped(session: S, attention: seq<Attention>)

  datatype WorkdirGroup<S> = WorkdirGroup(name: string, workdir: string, sessions: seq<Grouped<S>>)

  /** What tells one client's grouping from the other's. */
  datatype Scheme<!S> = Scheme(
    key: S -> string,
    id: S -> string,
    time: S -> int,
    name: string -> string,
    rank: WorkdirGroup<S> -> int)

  // ---------------------------------------------------------------------------
  // The specification
  // ---------------------------------------------------------------------------

  /** The attention items raised by session `id`, in input order. */
  function AttentionOf(attention: seq<Attention>, id: string): seq<Attention> {
    Filter(attention, (a: Attention) => a.sessionId == id)
  }

  function WithAttention<S>(s: S, attention: seq<Attention>, sc: Scheme<S>): Grouped<S> {
    Grouped(s, AttentionOf(attention, sc.id(s)))
  }

  /** The distinct keys of `ss`, in order of first appearance (the dictionary's key order). */
  function KeysInOrder<S>(ss: seq<S>, key: S -> string): (keys: seq<string>)
  {
    if ss == [] then []
    else
      var keys := KeysInOrder(ss[..|ss| - 1], key);
      var k := key(ss[|ss| - 1]);
      if k in keys then keys else keys + [k]
  }

  /** The sessions with key `k`, in input order, each with its attention items. */
  function Members<S>(ss: seq<S>, attention: seq<Attention>, sc: Scheme<S>, k: string): (r: seq<Grouped<S>>)
    ensures |r| <= |ss|
  {
    if ss == [] then []
    else
      var last := ss[|ss| - 1];
      Members(ss[..|ss| - 1], attention, sc, k)
        + (if sc.key(last) == k then [WithAttention(last, attention, sc)] else [])
  }

  /** Newest first: the comparator `time(b) - time(a)`. */
  function NewerFirst<S>(time: S -> int): (Grouped<S>, Grouped<S>) -> bool {
    (a: Grouped<S>, b: Grouped<S>) => time(b.session) - time(a.session) <= 0
  }

  /** Highest rank first: the comparator `rank(b) - rank(a)`. */
  function HigherFirst<S>(rank: WorkdirGroup<S> -> int): (WorkdirGroup<S>, WorkdirGroup<S>) -> bool {
    (a: WorkdirGroup<S>, b: WorkdirGroup<S>) => rank(b) - rank(a) <= 0
  }

  /** The finished group of key `k`: its name, its key and its members newest first. */
  function GroupOf<S>(ss: seq<S>, attention: seq<Attention>, sc: Scheme<S>, k: string): WorkdirGroup<S> {
    WorkdirGroup(sc.name(k), k, Sort(Members(ss, attention, sc, k), NewerFirst(sc.time)))
  }

  function GroupFor<S>(ss: seq<S>, attention: seq<Attention>, sc: Scheme<S>): string -> WorkdirGroup<S> {
    (k: string) => GroupOf(ss, attention, sc, k)
  }

  /** The finished groups in key order. */
  function GroupsInKeyOrder<S>(ss: seq<S>, attention: seq<Attention>, sc: Scheme<S>): seq<WorkdirGroup<S>> {
    Map(KeysInOrder(ss, sc.key), GroupFor(ss, attention, sc))
  }

  /** What both `groupByWorkdir` functions return. */
  function Groups<S>(ss: seq<S>, attention: seq<Attention>, sc: Scheme<S>): seq<WorkdirGroup<S>> {
    Sort(GroupsInKeyOrder(ss, attention, sc), HigherFirst(sc.rank))
  }

  // ---------------------------------------------------------------------------
  // The loops
  // ---------------------------------------------------------------------------

  /** `attentionBySession` holds, for every id it has, that id's attention items. */
  ghost predicate IndexesAttention(index: map<string, seq<Attention>>, attention: seq<Attention>) {
    && (forall id :: id in index ==> index[id] == AttentionOf(attention, id))
    && (forall id :: id !in index ==> AttentionOf(attention, id) == [])
  }

  /** `attentionBySession[id] ?? []`. */
  function AttentionFor(index: map<string, seq<Attention>>, id: string): seq<Attention> {
    if id in index then index[id] else []
  }

  /** The first loop: collects each session id's attention items. */
  method IndexAttention(attention: seq<Attention>) returns (index: map<string, seq<Attention>>)
    ensures IndexesAttention(index, attention)
    ensures forall id :: id in index ==> index[id] != []
  {
    index := map[];
    var i := 0;
    while i < |attention|
      invariant 0 <= i <= |attention|
      invariant IndexesAttention(index, attention[..i])
      invariant forall id :: id in index ==> index[id] != []
    {
      var a := attention[i];
      ghost var index0 := index;
      if a.sessionId in index {
        index := index[a.sessionId := index[a.sessionId] + [a]];
      } else {
        index := index[a.sessionId := [a]];
      }
      IndexStep(attention[..i], a, index0, index);
      assert attention[..i + 1] == attention[..i] + [a];
      i := i + 1;
    }
    assert attention[..i] == attention;
  }

  /** One turn of the first loop keeps the index exact. */
  lemma IndexStep(done: seq<Attention>, a: Attention, index: map<string, seq<Attention>>, index': map<string, seq<Attention>>)
    requires IndexesAttention(index, done)
    requires index' == index[a.sessionId := if a.sessionId in index then index[a.sessionId] + [a] else [a]]
    ensures IndexesAttention(index', done + [a])
  {
    forall id
      ensures AttentionOf(done + [a], id) == AttentionOf(done, id) + (if a.sessionId == id then [a] else [])
    {
      FilterSnoc(done, a, (b: Attention) => b.sessionId == id);
    }
  }

  ghost predicate DistinctKeys(keys: seq<string>) {
    forall i, j :: 0 <= i < j < |keys| ==> keys[i] != keys[j]
  }

  /** What the second loop has built after the sessions `done`. */
  ghost predicate Collected<S>(done: seq<S>, attention: seq<Attention>, sc: Scheme<S>,
                               keys: seq<string>, groups: map<string, WorkdirGroup<S>>) {
    && keys == KeysInOrder(done, sc.key) && DistinctKeys(keys)
    && (forall k :: k in groups <==> k in keys)
    && (forall k :: k in groups ==> groups[k] == WorkdirGroup(sc.name(k), k, Members(done, attention, sc, k)))
  }

  /** The second loop: puts each session, with its attention items, into its key's group. */
  method CollectGroups<S>(ss: seq<S>, attention: seq<Attention>, index: map<string, seq<Attention>>, sc: Scheme<S>)
    returns (keys: seq<string>, groups: map<string, WorkdirGroup<S>>)
    requires IndexesAttention(index, attention)
    ensures keys == KeysInOrder(ss, sc.key) && DistinctKeys(keys)
    ensures forall k :: k in groups <==> k in keys
    ensures forall k :: k in groups ==>
      groups[k] == WorkdirGroup(sc.name(k), k, Members(ss, attention, sc, k))
  {
    keys := [];
    groups := map[];
    var i := 0;
    while i < |ss|
      invariant 0 <= i <= |ss|
      invariant Collected(ss[..i], attention, sc, keys, groups)
    {
      var s := ss[i];
      var k := sc.key(s);
      var item := Grouped(s, AttentionFor(index, sc.id(s)));
      assert item == WithAttention(s, attention, sc);
      ghost var keys0, groups0 := keys, groups;
      if k in groups {
        groups := groups[k := groups[k].(sessions := groups[k].sessions + [item])];
      } else {
        groups := groups[k := WorkdirGroup(sc.name(k), k, [item])];
        keys := keys + [k];
      }
      CollectStep(ss[..i], s, attention, sc, keys0, groups0, keys, groups);
      assert ss[..i + 1] == ss[..i] + [s];
      i := i + 1;
    }
    assert ss[..i] == ss;
  }

  /** One turn of the second loop keeps `Collected`. */
  lemma CollectStep<S>(done: seq<S>, s: S, attention: seq<Attention>, sc: Scheme<S>,
                       keys: seq<string>, groups: map<string, WorkdirGroup<S>>,
                       keys': seq<string>, groups': map<string, WorkdirGroup<S>>)
    requires Collected(done, attention, sc, keys, groups)
    requires var k := sc.key(s); var item := WithAttention(s, attention, sc);
      if k in groups then keys' == keys && groups' == groups[k := groups[k].(sessions := groups[k].sessions + [item])]
      else keys' == keys + [k] && groups' == groups[k := WorkdirGroup(sc.name(k), k, [item])]
    ensures Collected(done + [s], attention, sc, keys', groups')
  {
    var k := sc.key(s);
    var next := done + [s];
    assert next[..|done|] == done && next[|done|] == s;
    assert KeysInOrder(next, sc.key) == keys';
    forall k2 | k2 in groups'
      ensures groups'[k2] == WorkdirGroup(sc.name(k2), k2, Members(next, attention, sc, k2))
    {
      if k2 == k && k !in groups {
        MembersOfAbsentKey(done, attention, sc, k);
      }
    }
    if k !in groups {
      forall t | 0 <= t < |keys| ensures keys[t] != k {
        assert keys[t] in keys;
      }
    }
  }

  /** The third loop: sorts each group's sessions newest first. */
  method SortEachGroup<S>(ss: seq<S>, attention: seq<Attention>, sc: Scheme<S>, keys: seq<string>,
                          collected: map<string, WorkdirGroup<S>>)
    returns (groups: map<string, WorkdirGroup<S>>)
    requires DistinctKeys(keys) && forall k :: k in collected <==> k in keys
    requires forall k :: k in collected ==>
      collected[k] == WorkdirGroup(sc.name(k), k, Members(ss, attention, sc, k))
    ensures forall k :: k in groups <==> k in keys
    ensures forall k :: k in groups ==> groups[k] == GroupOf(ss, attention, sc, k)
  {
    groups := collected;
    var j := 0;
    while j < |keys|
      invariant 0 <= j <= |keys|
      invariant forall k :: k in groups <==> k in keys
      invariant forall t :: 0 <= t < j ==> groups[keys[t]] == GroupOf(ss, attention, sc, keys[t])
      invariant forall t :: j <= t < |keys| ==> groups[keys[t]] == collected[keys[t]]
    {
      var k := keys[j];
      var g := groups[k];
      assert g == collected[k];
      var sorted := g.(sessions := Sort(g.sessions, NewerFirst(sc.time)));
      assert sorted == GroupOf(ss, attention, sc, k);
      forall t | 0 <= t < |keys| && t != j ensures keys[t] != k {
      }
      groups := groups[k := sorted];
      j := j + 1;
    }
    forall k | k in groups ensures groups[k] == GroupOf(ss, attention, sc, k) {
      var t :| 0 <= t < |keys| && keys[t] == k;
    }
  }

  /** `keys.map(k => groups[k])`. */
  function LookUp<S>(keys: seq<string>, groups: map<string, WorkdirGroup<S>>): (r: seq<WorkdirGroup<S>>)
    requires forall k :: k in keys ==> k in groups
    ensures |r| == |keys| && forall t :: 0 <= t < |keys| ==> r[t] == groups[keys[t]]
  {
    seq(|keys|, t requires 0 <= t < |keys| => groups[keys[t]])
  }

  lemma LookUpIsMap<S>(keys: seq<string>, groups: map<string, WorkdirGroup<S>>, f: string -> WorkdirGroup<S>)
    requires forall k :: k in keys ==> k in groups && groups[k] == f(k)
    ensures LookUp(keys, groups) == Map(keys, f)
  {
  }

  // ---------------------------------------------------------------------------
  // Facts about the specification
  // ---------------------------------------------------------------------------

  /** A key is listed exactly when some session has it. */
  lemma {:induction false} KeysInOrderSpec<S>(ss: seq<S>, key: S -> string, k: string)
    ensures k in KeysInOrder(ss, key) <==> exists i :: 0 <= i < |ss| && key(ss[i]) == k
  {
    if ss != [] {
      var p := ss[..|ss| - 1];
      KeysInOrderSpec(p, key, k);
      if exists i :: 0 <= i < |p| && key(p[i]) == k {
        var i :| 0 <= i < |p| && key(p[i]) == k;
        assert ss[i] == p[i];
      }
      if exists i :: 0 <= i < |ss| && key(ss[i]) == k {
        var i :| 0 <= i < |ss| && key(ss[i]) == k;
        if i < |p| {
          assert p[i] == ss[i];
        }
      }
    }
  }

  /** The keys are listed once each. */
  lemma {:induction false} KeysDistinct<S>(ss: seq<S>, key: S -> string)
    ensures DistinctKeys(KeysInOrder(ss, key))
  {
    if ss != [] {
      KeysDistinct(ss[..|ss| - 1], key);
    }
  }

  /** A key no session has has no members. */
  lemma {:induction false} MembersOfAbsentKey<S>(ss: seq<S>, attention: seq<Attention>, sc: Scheme<S>, k: string)
    requires k !in KeysInOrder(ss, sc.key)
    ensures Members(ss, attention, sc, k) == []
  {
    if ss != [] {
      MembersOfAbsentKey(ss[..|ss| - 1], attention, sc, k);
    }
  }

  /** Every member of key `k` is an input session with key `k` and exactly its attention items. */
  lemma {:induction false} MembersBelong<S>(ss: seq<S>, attention: seq<Attention>, sc: Scheme<S>, k: string, m: Grouped<S>)
    requires m in Members(ss, attention, sc, k)
    ensures m.session in ss && sc.key(m.session) == k
    ensures m.attention == AttentionOf(attention, sc.id(m.session))
  {
    var p := ss[..|ss| - 1];
    if m !in Members(p, attention, sc, k) {
      assert m.session == ss[|ss| - 1];
    } else {
      MembersBelong(p, attention, sc, k, m);
      assert m.session in p;
    }
  }

  /** Every input session is a member of its own key. */
  lemma {:induction false} MemberPresent<S>(ss: seq<S>, attention: seq<Attention>, sc: Scheme<S>, i: nat)
    requires i < |ss|
    ensures WithAttention(ss[i], attention, sc) in Members(ss, attention, sc, sc.key(ss[i]))
  {
    var p := ss[..|ss| - 1];
    if i < |p| {
      MemberPresent(p, attention, sc, i);
      assert p[i] == ss[i];
    }
  }

  /** The number of members over a list of keys. */
  function MemberCount<S>(ss: seq<S>, attention: seq<Attention>, sc: Scheme<S>, keys: seq<string>): nat {
    if keys == [] then 0
    else |Members(ss, attention, sc, keys[0])| + MemberCount(ss, attention, sc, keys[1..])
  }

  lemma {:induction false} MemberCountAppend<S>(ss: seq<S>, attention: seq<Attention>, sc: Scheme<S>,
                                                a: seq<string>, b: seq<string>)
    ensures MemberCount(ss, attention, sc, a + b)
      == MemberCount(ss, attention, sc, a) + MemberCount(ss, attention, sc, b)
  {
    if a == [] {
      assert a + b == b;
    } else {
      MemberCountAppend(ss, attention, sc, a[1..], b);
      assert (a + b)[1..] == a[1..] + b;
    }
  }

  /** One more session adds one member to its key and none to any other. */
  lemma {:induction false} MemberCountSnoc<S>(ss: seq<S>, attention: seq<Attention>, sc: Scheme<S>, keys: seq<string>)
    requires |ss| > 0 && DistinctKeys(keys)
    ensures MemberCount(ss, attention, sc, keys)
      == MemberCount(ss[..|ss| - 1], attention, sc, keys) + (if sc.key(ss[|ss| - 1]) in keys then 1 else 0)
  {
    if keys != [] {
      MemberCountSnoc(ss, attention, sc, keys[1..]);
      if sc.key(ss[|ss| - 1]) == keys[0] {
        assert sc.key(ss[|ss| - 1]) !in keys[1..];
      }
    }
  }

  /** Over all keys, the members are exactly as many as the sessions. */
  lemma {:induction false} MemberCountAll<S>(ss: seq<S>, attention: seq<Attention>, sc: Scheme<S>)
    ensures MemberCount(ss, attention, sc, KeysInOrder(ss, sc.key)) == |ss|
  {
    if ss != [] {
      var p := ss[..|ss| - 1];
      var k := sc.key(ss[|ss| - 1]);
      var keys := KeysInOrder(p, sc.key);
      MemberCountAll(p, attention, sc);
      KeysDistinct(p, sc.key);
      MemberCountSnoc(ss, attention, sc, keys);
      if k !in keys {
        MemberCountAppend(ss, attention, sc, keys, [k]);
        MembersOfAbsentKey(p, attention, sc, k);
      }
    }
  }

  /** The number of sessions over all groups. */
  function Total<S>(gs: seq<WorkdirGroup<S>>): nat {
    if gs == [] then 0 else |gs[0].sessions| + Total(gs[1..])
  }

  lemma {:induction false} TotalInsert<S>(g: WorkdirGroup<S>, gs: seq<WorkdirGroup<S>>,
                                          le: (WorkdirGroup<S>, WorkdirGroup<S>) -> bool)
    ensures Total(Insert(g, gs, le)) == |g.sessions| + Total(gs)
  {
    if gs != [] && !le(g, gs[0]) {
      TotalInsert(g, gs[1..], le);
    } else {
      assert ([g] + gs)[1..] == gs;
    }
  }

  lemma {:induction false} TotalSort<S>(gs: seq<WorkdirGroup<S>>, le: (WorkdirGroup<S>, WorkdirGroup<S>) -> bool)
    ensures Total(Sort(gs, le)) == Total(gs)
  {
    if gs != [] {
      TotalSort(gs[1..], le);
      TotalInsert(gs[0], Sort(gs[1..], le), le);
    }
  }

  lemma {:induction false} TotalOfKeys<S>(ss: seq<S>, attention: seq<Attention>, sc: Scheme<S>, keys: seq<string>)
    ensures Total(Map(keys, GroupFor(ss, attention, sc))) == MemberCount(ss, attention, sc, keys)
  {
    var f := GroupFor(ss, attention, sc);
    if keys != [] {
      TotalOfKeys(ss, attention, sc, keys[1..]);
      assert Map(keys, f)[1..] == Map(keys[1..], f);
    }
  }

  /** Grouping neither loses nor repeats a session: the groups hold as many as the input. */
  lemma CountPreserved<S>(ss: seq<S>, attention: seq<Attention>, sc: Scheme<S>)
    ensures Total(Groups(ss, attention, sc)) == |ss|
  {
    TotalSort(GroupsInKeyOrder(ss, attention, sc), HigherFirst(sc.rank));
    TotalOfKeys(ss, attention, sc, KeysInOrder(ss, sc.key));
    MemberCountAll(ss, attention, sc);
  }

  /** The finished groups are exactly the groups of the keys. */
  lemma InGroups<S>(ss: seq<S>, attention: seq<Attention>, sc: Scheme<S>, g: WorkdirGroup<S>)
    ensures g in Groups(ss, attention, sc) <==>
      exists i :: 0 <= i < |ss| && g == GroupOf(ss, attention, sc, sc.key(ss[i]))
  {
    if g in Groups(ss, attention, sc) {
      GroupsComeFromKeys(ss, attention, sc, g);
    }
    if exists i :: 0 <= i < |ss| && g == GroupOf(ss, attention, sc, sc.key(ss[i])) {
      var i :| 0 <= i < |ss| && g == GroupOf(ss, attention, sc, sc.key(ss[i]));
      KeysGiveGroups(ss, attention, sc, i);
    }
  }

  lemma GroupsComeFromKeys<S>(ss: seq<S>, attention: seq<Attention>, sc: Scheme<S>, g: WorkdirGroup<S>)
    requires g in Groups(ss, attention, sc)
    ensures exists i :: 0 <= i < |ss| && g == GroupOf(ss, attention, sc, sc.key(ss[i]))
  {
    var keys := KeysInOrder(ss, sc.key);
    var gk := GroupsInKeyOrder(ss, attention, sc);
    SortElements(gk, HigherFirst(sc.rank), g);
    var j :| 0 <= j < |gk| && gk[j] == g;
    KeysInOrderSpec(ss, sc.key, keys[j]);
  }

  lemma KeysGiveGroups<S>(ss: seq<S>, attention: seq<Attention>, sc: Scheme<S>, i: nat)
    requires i < |ss|
    ensures GroupOf(ss, attention, sc, sc.key(ss[i])) in Groups(ss, attention, sc)
  {
    var keys := KeysInOrder(ss, sc.key);
    var gk := GroupsInKeyOrder(ss, attention, sc);
    var g := GroupOf(ss, attention, sc, sc.key(ss[i]));
    KeysInOrderSpec(ss, sc.key, sc.key(ss[i]));
    var j :| 0 <= j < |keys| && keys[j] == sc.key(ss[i]);
    assert gk[j] == g;
    SortElements(gk, HigherFirst(sc.rank), g);
  }

  /**
   * Every session is in the group of its key, together with exactly the attention
   * items it raised, and no two groups have the same key: each session is in
   * exactly one group.
   */
  lemma EverySessionGrouped<S>(ss: seq<S>, attention: seq<Attention>, sc: Scheme<S>, i: nat)
    requires i < |ss|
    ensures GroupOf(ss, attention, sc, sc.key(ss[i])) in Groups(ss, attention, sc)
    ensures WithAttention(ss[i], attention, sc) in GroupOf(ss, attention, sc, sc.key(ss[i])).sessions
  {
    InGroups(ss, attention, sc, GroupOf(ss, attention, sc, sc.key(ss[i])));
    MemberPresent(ss, attention, sc, i);
    SortElements(Members(ss, attention, sc, sc.key(ss[i])), NewerFirst(sc.time), WithAttention(ss[i], attention, sc));
  }

  lemma GroupKeysDistinct<S>(ss: seq<S>, attention: seq<Attention>, sc: Scheme<S>)
    ensures DistinctBy(Groups(ss, attention, sc), (g: WorkdirGroup<S>) => g.workdir)
  {
    var keys := KeysInOrder(ss, sc.key);
    var gk := GroupsInKeyOrder(ss, attention, sc);
    var wd := (g: WorkdirGroup<S>) => g.workdir;
    KeysDistinct(ss, sc.key);
    assert forall i :: 0 <= i < |gk| ==> gk[i].workdir == keys[i];
    assert DistinctBy(gk, wd);
    SortDistinct(gk, HigherFirst(sc.rank), wd);
  }

  /**
   * Every grouped session sits in the group of its own key, carries exactly its
   * attention items, and the group is named after its key and is not empty.
   */
  lemma GroupContents<S>(ss: seq<S>, attention: seq<Attention>, sc: Scheme<S>, g: WorkdirGroup<S>, m: Grouped<S>)
    requires g in Groups(ss, attention, sc)
    ensures g.name == sc.name(g.workdir) && |g.sessions| > 0
    ensures m in g.sessions ==>
      m.session in ss && sc.key(m.session) == g.workdir && m.attention == AttentionOf(attention, sc.id(m.session))
  {
    InGroups(ss, attention, sc, g);
    var i :| 0 <= i < |ss| && g == GroupOf(ss, attention, sc, sc.key(ss[i]));
    var k := sc.key(ss[i]);
    var ms := Members(ss, attention, sc, k);
    MemberPresent(ss, attention, sc, i);
    if m in g.sessions {
      SortElements(ms, NewerFirst(sc.time), m);
      MembersBelong(ss, attention, sc, k, m);
    }
  }

  lemma NewerFirstIsPreorder<S(!new)>(time: S -> int)
    ensures TotalPreorder(NewerFirst(time))
  {
  }

  lemma HigherFirstIsPreorder<S(!new)>(rank: WorkdirGroup<S> -> int)
    ensures TotalPreorder(HigherFirst(rank))
  {
  }

  /** Within a group sessions are newest first, and groups are by rank, highest first. */
  lemma GroupsOrdered<S(!new)>(ss: seq<S>, attention: seq<Attention>, sc: Scheme<S>, g: WorkdirGroup<S>)
    ensures Sorted(Groups(ss, attention, sc), HigherFirst(sc.rank))
    ensures g in Groups(ss, attention, sc) ==> Sorted(g.sessions, NewerFirst(sc.time))
  {
    HigherFirstIsPreorder(sc.rank);
    SortSorted(GroupsInKeyOrder(ss, attention, sc), HigherFirst(sc.rank));
    if g in Groups(ss, attention, sc) {
      InGroups(ss, attention, sc, g);
      var i :| 0 <= i < |ss| && g == GroupOf(ss, attention, sc, sc.key(ss[i]));
      NewerFirstIsPreorder(sc.time);
      SortSorted(Members(ss, attention, sc, sc.key(ss[i])), NewerFirst(sc.time));
    }
  }

  // ---------------------------------------------------------------------------
  // The session filter
  // ---------------------------------------------------------------------------

  /** The sidebar's filter: every session, or only those needing attention. */
  datatype SessionFilter = All | NeedsAttention

  function HasAttention<S>(m: Grouped<S>): bool { |m.attention| > 0 }

  function IsShown<S>(g: WorkdirGroup<S>): bool { |g.sessions| > 0 }

  /** A group cut down to its sessions with at least one attention item. */
  function AttentionPart<S>(g: WorkdirGroup<S>): (r: WorkdirGroup<S>)
    ensures r.name == g.name && r.workdir == g.workdir
  {
    g.(sessions := Filter(g.sessions, HasAttention))
  }

  /**
   * The filter both clients apply: 'all' returns the groups as they are;
   * 'attention' keeps only sessions with attention and drops groups left empty.
   */
  function ApplyFilter<S>(gs: seq<WorkdirGroup<S>>, filter: SessionFilter): seq<WorkdirGroup<S>> {
    if filter == All then gs else Filter(Map(gs, AttentionPart), IsShown)
  }

  lemma AttentionFilterSpec<S>(gs: seq<WorkdirGroup<S>>, filter: SessionFilter)
    ensures filter == All ==> ApplyFilter(gs, filter) == gs
    ensures filter == NeedsAttention ==>
      forall g :: g in ApplyFilter(gs, filter) ==>
        (|g.sessions| > 0 && (forall m :: m in g.sessions ==> |m.attention| > 0)
          && exists i :: 0 <= i < |gs| && g == AttentionPart(gs[i]))
    ensures filter == NeedsAttention ==>
      forall i, m :: 0 <= i < |gs| && m in gs[i].sessions && |m.attention| > 0 ==>
        AttentionPart(gs[i]) in ApplyFilter(gs, filter) && m in AttentionPart(gs[i]).sessions
  {
    if filter == NeedsAttention {
      var parts := Map(gs, AttentionPart);
      forall g | g in ApplyFilter(gs, filter)
        ensures exists i :: 0 <= i < |gs| && g == AttentionPart(gs[i])
      {
        var j :| 0 <= j < |parts| && parts[j] == g;
      }
      forall i, m | 0 <= i < |gs| && m in gs[i].sessions && |m.attention| > 0
        ensures AttentionPart(gs[i]) in ApplyFilter(gs, filter) && m in AttentionPart(gs[i]).sessions
      {
        var k :| 0 <= k < |gs[i].sessions| && gs[i].sessions[k] == m;
        assert HasAttention(gs[i].sessions[k]);
        assert parts[i] == AttentionPart(gs[i]);
      }
    }
  }
}
