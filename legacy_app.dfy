/**
 * The legacy single-file app (public/js/app.js): its grouping of sessions by
 * workdir, the attention filter, the reducers its socket handlers pass to the
 * state setters, the derived views of the active session, and the guards of
 * its connect, create and send actions. The app's state cells are the fields
 * of `LegacyApp`; an awaited backend call splits an action into the part
 * before the call and a completion method.
 */
module LegacyApp {
  import opened Wrappers
  import opened Strings
  import opened Seqs
  import opened Sorting
  import opened SessionTypes
  import opened SessionTransitions
  import opened Grouping
  import opened LegacyClient

  // ---------------------------------------------------------------------------
  // groupByWorkdir
  // ---------------------------------------------------------------------------

  /** `session.workdir || 'unknown'`. */
  function LegacyKey(s: LegacySession): (k: string)
    ensures k != ""
    ensures s.workdir != "" ==> k == s.workdir
  {
    if s.workdir == "" then "unknown" else s.workdir
  }

  /** `workdir.split('/').pop() || 'Unknown'`. */
  function LegacyName(workdir: string): (n: string)
    ensures n != "" && '/' !in n
    ensures n != "Unknown" ==> n == LastSegment(workdir, '/')
    ensures '/' !in workdir && workdir != "" ==> n == workdir
  {
    var last := LastSegment(workdir, '/');
    if last == "" then "Unknown" else last
  }

  /** `Math.max(...g.sessions.map(s => s.lastActivity))` (0 stands in for the empty group, which does not occur). */
  function MaxActivity(ms: seq<Grouped<LegacySession>>): (t: int)
    ensures forall i :: 0 <= i < |ms| ==> ms[i].session.lastActivity <= t
    ensures ms != [] ==> exists i :: 0 <= i < |ms| && ms[i].session.lastActivity == t
  {
    if ms == [] then 0
    else if |ms| == 1 then ms[0].session.lastActivity
    else
      var rest := MaxActivity(ms[1..]);
      if ms[0].session.lastActivity >= rest then ms[0].session.lastActivity else rest
  }

  function GroupActivity(g: WorkdirGroup<LegacySession>): int {
    MaxActivity(g.sessions)
  }

  const Legacy: Scheme<LegacySession> := Scheme(
    LegacyKey,
    (s: LegacySession) => s.id,
    (s: LegacySession) => s.lastActivity,
    LegacyName,
    GroupActivity)

  /**
   * `groupByWorkdir`: the three loops, then `Object.values(groups)` (the groups
   * in key order) sorted by their latest activity.
   */
  method LegacyGroupByWorkdir(sessions: seq<LegacySession>, attention: seq<Attention>)
    returns (result: seq<WorkdirGroup<LegacySession>>)
    ensures result == Groups(sessions, attention, Legacy)
  {
    var index := IndexAttention(attention);
    var keys, collected := CollectGroups(sessions, attention, index, Legacy);
    var groups := SortEachGroup(sessions, attention, Legacy, keys, collected);
    assert keys == KeysInOrder(sessions, LegacyKey);
    LookUpIsMap(keys, groups, GroupFor(sessions, attention, Legacy));
    var values := LookUp(keys, groups);
    result := Sort(values, HigherFirst(GroupActivity));
  }

  /**
   * Every session is in the group of its workdir ('unknown' when empty), with its
   * own attention items; no two groups share a workdir; no session is lost or
   * duplicated; each group is named by its last segment or 'Unknown'.
   */
  lemma LegacyGroupingPartitions(sessions: seq<LegacySession>, attention: seq<Attention>, i: nat)
    requires i < |sessions|
    ensures exists g :: (g in Groups(sessions, attention, Legacy)
      && g.workdir == LegacyKey(sessions[i])
      && g.name == LegacyName(g.workdir)
      && Grouped(sessions[i], AttentionOf(attention, sessions[i].id)) in g.sessions)
    ensures DistinctBy(Groups(sessions, attention, Legacy), (g: WorkdirGroup<LegacySession>) => g.workdir)
    ensures Total(Groups(sessions, attention, Legacy)) == |sessions|
  {
    EverySessionGrouped(sessions, attention, Legacy, i);
    var g := GroupOf(sessions, attention, Legacy, LegacyKey(sessions[i]));
    GroupContents(sessions, attention, Legacy, g, WithAttention(sessions[i], attention, Legacy));
    GroupKeysDistinct(sessions, attention, Legacy);
    CountPreserved(sessions, attention, Legacy);
  }

  /** In a list sorted newest first, the first element has the latest activity. */
  lemma {:induction false} FirstIsLatest(ms: seq<Grouped<LegacySession>>)
    requires ms != [] && Sorted(ms, Grouping.NewerFirst(Legacy.time))
    ensures MaxActivity(ms) == ms[0].session.lastActivity
  {
    var t := MaxActivity(ms);
    var i :| 0 <= i < |ms| && ms[i].session.lastActivity == t;
    if i > 0 {
      assert Grouping.NewerFirst(Legacy.time)(ms[0], ms[i]);
    }
  }

  /**
   * Within a group sessions are newest `lastActivity` first, and the group's latest
   * activity is its first session's, since every group is non-empty.
   */
  lemma LegacyGroupOrdered(sessions: seq<LegacySession>, attention: seq<Attention>, g: WorkdirGroup<LegacySession>)
    requires g in Groups(sessions, attention, Legacy)
    ensures |g.sessions| > 0
    ensures GroupActivity(g) == g.sessions[0].session.lastActivity
    ensures forall i, j :: 0 <= i < j < |g.sessions| ==> g.sessions[i].session.lastActivity >= g.sessions[j].session.lastActivity
  {
    GroupsOrdered(sessions, attention, Legacy, g);
    GroupContents(sessions, attention, Legacy, g, Grouped(LegacySession("", "", 0), []));
    FirstIsLatest(g.sessions);
    forall i, j | 0 <= i < j < |g.sessions|
      ensures g.sessions[i].session.lastActivity >= g.sessions[j].session.lastActivity
    {
      assert Grouping.NewerFirst(Legacy.time)(g.sessions[i], g.sessions[j]);
    }
  }

  /** Groups are ordered by their latest activity, newest first. */
  lemma LegacyGroupsOrdered(sessions: seq<LegacySession>, attention: seq<Attention>)
    ensures forall i, j :: 0 <= i < j < |Groups(sessions, attention, Legacy)| ==>
      GroupActivity(Groups(sessions, attention, Legacy)[i]) >= GroupActivity(Groups(sessions, attention, Legacy)[j])
  {
    var gs := Groups(sessions, attention, Legacy);
    if gs != [] {
      GroupsOrdered(sessions, attention, Legacy, gs[0]);
    }
  }

  /**
   * `filteredGroups`: 'attention' keeps only sessions with attention and drops
   * groups left empty; any other filter value shows the groups as they are.
   */
  function LegacyFilter(filter: string): (f: SessionFilter)
    ensures f == NeedsAttention <==> filter == "attention"
  {
    if filter == "attention" then NeedsAttention else All
  }

  // ---------------------------------------------------------------------------
  // Reducers
  // ---------------------------------------------------------------------------

  function LegacyId(s: LegacySession): string { s.id }

  /** `onSessionCreated`: any entry with the id is dropped and the session appended. */
  function LegacyCreated(ss: seq<LegacySession>, s: LegacySession): (r: seq<LegacySession>)
    ensures |r| >= 1 && r[|r| - 1] == s
    ensures forall i :: 0 <= i < |r| - 1 ==> r[i].id != s.id && r[i] in ss
    ensures forall i :: 0 <= i < |ss| && ss[i].id != s.id ==> ss[i] in r
    ensures DistinctBy(ss, LegacyId) ==> DistinctBy(r, LegacyId)
  {
    var rest := Filter(ss, (x: LegacySession) => x.id != s.id);
    FilterDistinct(ss, (x: LegacySession) => x.id != s.id, LegacyId);
    AppendDistinct(rest, s, LegacyId);
    rest + [s]
  }

  /** `onSessionUpdated`: every entry with the id becomes the pushed session. */
  function LegacyUpdated(ss: seq<LegacySession>, s: LegacySession): (r: seq<LegacySession>)
    ensures |r| == |ss|
    ensures forall i :: 0 <= i < |ss| ==> r[i] == (if ss[i].id == s.id then s else ss[i])
  {
    Map(ss, (x: LegacySession) => if x.id == s.id then s else x)
  }

  /** `onSessionEnded`: the sessions with the id go. */
  function LegacyEnded(ss: seq<LegacySession>, id: string): (r: seq<LegacySession>)
    ensures forall i :: 0 <= i < |r| ==> r[i] in ss && r[i].id != id
    ensures forall i :: 0 <= i < |ss| && ss[i].id != id ==> ss[i] in r
  {
    Filter(ss, (x: LegacySession) => x.id != id)
  }

  /** Ending keeps the other sessions in their order, each as often as it was listed. */
  lemma LegacyEndedSnoc(ss: seq<LegacySession>, x: LegacySession, id: string)
    ensures LegacyEnded([], id) == []
    ensures LegacyEnded(ss + [x], id) == LegacyEnded(ss, id) + (if x.id != id then [x] else [])
  {
    FilterSnoc(ss, x, (y: LegacySession) => y.id != id);
  }

  /**
   * A created event keeps the other sessions in their order, each as often as
   * it was listed, and puts the new session last.
   */
  lemma LegacyCreatedSnoc(ss: seq<LegacySession>, x: LegacySession, s: LegacySession)
    ensures LegacyCreated([], s) == [s]
    ensures LegacyCreated(ss + [x], s) == LegacyEnded(ss, s.id) + (if x.id != s.id then [x] else []) + [s]
  {
    LegacyEndedSnoc(ss, x, s.id);
  }

  /** `onMessage`: appended to the session's list, with no reconciliation. */
  function LegacyMessage(msgs: map<string, seq<Message>>, sid: string, m: Message): (r: map<string, seq<Message>>)
    ensures r.Keys == msgs.Keys + {sid}
    ensures r[sid] == (if sid in msgs then msgs[sid] else []) + [m]
    ensures forall k :: k in msgs && k != sid ==> r[k] == msgs[k]
  {
    msgs[sid := (if sid in msgs then msgs[sid] else []) + [m]]
  }

  /** After a created event exactly one entry has its id, and it is last. */
  lemma LegacyCreatedUnique(ss: seq<LegacySession>, s: LegacySession)
    ensures var r := LegacyCreated(ss, s);
      forall i :: 0 <= i < |r| ==> (r[i].id == s.id <==> i == |r| - 1)
  {
  }

  /** An update for an id not in the list changes nothing; of two updates for one id the last wins. */
  lemma LegacyUpdateRules(ss: seq<LegacySession>, a: LegacySession, b: LegacySession)
    ensures (forall i :: 0 <= i < |ss| ==> ss[i].id != a.id) ==> LegacyUpdated(ss, a) == ss
    ensures a.id == b.id ==> LegacyUpdated(LegacyUpdated(ss, a), b) == LegacyUpdated(ss, b)
  {
  }

  /** Each pushed message adds exactly one entry, for its session only. */
  lemma LegacyMessageCounts(msgs: map<string, seq<Message>>, sid: string, m: Message)
    ensures |LegacyMessage(msgs, sid, m)[sid]| == (if sid in msgs then |msgs[sid]| else 0) + 1
  {
  }

  // ---------------------------------------------------------------------------
  // The app
  // ---------------------------------------------------------------------------

  class LegacyApp {
    var url: string
    var token: string
    var connected: bool
    var hasClient: bool
    var sessions: seq<LegacySession>
    var attention: seq<Attention>
    var messages: map<string, seq<Message>>
    var activeSessionId: Option<string>
    var filter: string
    var inputText: string
    var newWorkdir: string
    var newPrompt: string
    var showNewSession: bool

    /** The stored configuration, or the default service URL with no token. */
    constructor(stored: Option<(string, string)>)
      ensures (url, token) == (if stored.Some? then stored.value else ("http://localhost:3100", ""))
      ensures !connected && !hasClient && sessions == [] && attention == [] && messages == map[]
      ensures activeSessionId == None && filter == "all" && inputText == "" && newWorkdir == ""
      ensures newPrompt == "" && !showNewSession
    {
      var cfg := if stored.Some? then stored.value else ("http://localhost:3100", "");
      url := cfg.0;
      token := cfg.1;
      connected := false;
      hasClient := false;
      sessions := [];
      attention := [];
      messages := map[];
      activeSessionId := None;
      filter := "all";
      inputText := "";
      newWorkdir := "";
      newPrompt := "";
      showNewSession := false;
    }

    /** `connect`: creates and subscribes a client only when both URL and token are set. */
    method Connect() returns (client: Option<LegacyClient>)
      modifies this
      ensures client.Some? <==> url != "" && token != ""
      ensures client.Some? ==> fresh(client.value) && client.value.baseUrl == StripTrailingSlash(url)
      ensures hasClient == (old(hasClient) || client.Some?)
      ensures url == old(url) && token == old(token) && connected == old(connected)
      ensures sessions == old(sessions) && attention == old(attention) && messages == old(messages)
      ensures activeSessionId == old(activeSessionId) && filter == old(filter) && inputText == old(inputText)
      ensures newWorkdir == old(newWorkdir) && newPrompt == old(newPrompt) && showNewSession == old(showNewSession)
    {
      if url == "" || token == "" {
        return None;
      }
      var c := new LegacyClient(url, token);
      c.Subscribe({ApiClient.OnConnect, ApiClient.OnDisconnect, ApiClient.OnSessionCreated,
                   ApiClient.OnSessionUpdated, ApiClient.OnSessionEnded, ApiClient.OnMessage,
                   ApiClient.OnAttention, ApiClient.OnAttentionResolved});
      hasClient := true;
      client := Some(c);
    }

    /** The handlers the app registers: each call's reducer on the state cells. */
    method Handle(call: LegacyCall)
      modifies this
      ensures connected == (if call.Connected? then true else if call.Disconnected? then false else old(connected))
      ensures sessions == (match call
        case CreatedCall(s) => LegacyCreated(old(sessions), s)
        case UpdatedCall(s) => LegacyUpdated(old(sessions), s)
        case EndedCall(id, _) => LegacyEnded(old(sessions), id)
        case _ => old(sessions))
      ensures attention == (match call
        case EndedCall(id, _) => RemoveAttentionOf(old(attention), id)
        case AttentionCall(a) => UpsertAttention(old(attention), a)
        case AttentionResolvedCall(id) => RemoveAttention(old(attention), id)
        case _ => old(attention))
      ensures messages == (if call.MessageCall? then LegacyMessage(old(messages), call.sessionId, call.message) else old(messages))
      ensures url == old(url) && token == old(token) && hasClient == old(hasClient)
      ensures activeSessionId == old(activeSessionId) && filter == old(filter) && inputText == old(inputText)
      ensures newWorkdir == old(newWorkdir) && newPrompt == old(newPrompt) && showNewSession == old(showNewSession)
    {
      match call
      case Connected => connected := true;
      case Disconnected => connected := false;
      case Errored =>
      case CreatedCall(s) => sessions := LegacyCreated(sessions, s);
      case UpdatedCall(s) => sessions := LegacyUpdated(sessions, s);
      case EndedCall(id, _) =>
        sessions := LegacyEnded(sessions, id);
        attention := RemoveAttentionOf(attention, id);
      case MessageCall(sid, m) => messages := LegacyMessage(messages, sid, m);
      case AttentionCall(a) => attention := UpsertAttention(attention, a);
      case AttentionResolvedCall(id) => attention := RemoveAttention(attention, id);
    }

    /** The completion of `onConnect`: both lists are replaced by the fetched ones. */
    method OnListed(listed: seq<LegacySession>, items: seq<Attention>)
      modifies this
      ensures sessions == listed && attention == items
      ensures connected == old(connected) && messages == old(messages)
      ensures url == old(url) && token == old(token) && hasClient == old(hasClient)
      ensures activeSessionId == old(activeSessionId) && filter == old(filter) && inputText == old(inputText)
      ensures newWorkdir == old(newWorkdir) && newPrompt == old(newPrompt) && showNewSession == old(showNewSession)
    {
      sessions := listed;
      attention := items;
    }

    /**
     * `createSession`, up to the backend call: nothing without a workdir, otherwise
     * the workdir and the prompt (an empty prompt is not sent).
     */
    method CreateSession() returns (request: Option<(string, Option<string>)>)
      ensures request.Some? <==> newWorkdir != "" && hasClient
      ensures request.Some? ==> request.value == (newWorkdir, if newPrompt == "" then None else Some(newPrompt))
    {
      if newWorkdir == "" || !hasClient {
        return None;
      }
      request := Some((newWorkdir, if newPrompt == "" then None else Some(newPrompt)));
    }

    /** After the backend accepted the creation: the form is closed and cleared. */
    method CreateSessionDone()
      modifies this
      ensures !showNewSession && newWorkdir == "" && newPrompt == ""
      ensures connected == old(connected) && sessions == old(sessions) && attention == old(attention)
      ensures messages == old(messages) && url == old(url) && token == old(token) && hasClient == old(hasClient)
      ensures activeSessionId == old(activeSessionId) && filter == old(filter) && inputText == old(inputText)
    {
      showNewSession := false;
      newWorkdir := "";
      newPrompt := "";
    }

    /**
     * `sendMessage`, up to the backend call: nothing for blank input or without an
     * active session, otherwise the active id and the input as typed (untrimmed).
     */
    method SendMessage() returns (request: Option<(string, string)>)
      ensures request.Some? <==> !IsBlank(inputText) && activeSessionId.Some? && activeSessionId.value != "" && hasClient
      ensures request.Some? ==> request.value == (activeSessionId.value, inputText)
    {
      TrimEmptyIffBlank(inputText);
      if Trim(inputText) == "" || activeSessionId.None? || activeSessionId.value == "" || !hasClient {
        return None;
      }
      request := Some((activeSessionId.value, inputText));
    }

    /** After the backend accepted the message: the input is cleared. */
    method SendMessageDone()
      modifies this
      ensures inputText == ""
      ensures connected == old(connected) && sessions == old(sessions) && attention == old(attention)
      ensures messages == old(messages) && url == old(url) && token == old(token) && hasClient == old(hasClient)
      ensures activeSessionId == old(activeSessionId) && filter == old(filter)
      ensures newWorkdir == old(newWorkdir) && newPrompt == old(newPrompt) && showNewSession == old(showNewSession)
    {
      inputText := "";
    }

    /** `activeSession`: the first session with the active id. */
    function ActiveSession(): (r: Option<LegacySession>)
      reads this
      ensures r.Some? ==> activeSessionId.Some? && r.value in sessions && r.value.id == activeSessionId.value
      ensures r.None? ==> activeSessionId.None? || forall i :: 0 <= i < |sessions| ==> sessions[i].id != activeSessionId.value
    {
      if activeSessionId.None? then None
      else
        var id := activeSessionId.value;
        var k := FirstIndex(sessions, (s: LegacySession) => s.id == id);
        if k < 0 then None else Some(sessions[k])
    }

    /** `messages[activeSessionId] || []`. */
    function SessionMessages(): (r: seq<Message>)
      reads this
      ensures activeSessionId.Some? && activeSessionId.value in messages ==> r == messages[activeSessionId.value]
      ensures activeSessionId.None? || activeSessionId.value !in messages ==> r == []
    {
      if activeSessionId.Some? && activeSessionId.value in messages then messages[activeSessionId.value] else []
    }

    /** The attention items of the active session, in order. */
    function SessionAttention(): (r: seq<Attention>)
      reads this
      ensures forall i :: 0 <= i < |r| ==> r[i] in attention && activeSessionId == Some(r[i].sessionId)
      ensures forall i :: 0 <= i < |attention| && activeSessionId == Some(attention[i].sessionId) ==> attention[i] in r
      ensures r == ActiveAttention(attention, activeSessionId)
    {
      ActiveAttention(attention, activeSessionId)
    }

    /** `filteredGroups`: the grouping with the selected filter applied. */
    function FilteredGroups(): seq<WorkdirGroup<LegacySession>>
      reads this
    {
      ApplyFilter(Groups(sessions, attention, Legacy), LegacyFilter(filter))
    }
  }

  /** The 'attention' filter shows only sessions with attention, and no empty group; 'all' shows every group. */
  lemma LegacyFilterSpec(sessions: seq<LegacySession>, attention: seq<Attention>, filter: string)
    ensures var shown := ApplyFilter(Groups(sessions, attention, Legacy), LegacyFilter(filter));
      && (filter != "attention" ==> shown == Groups(sessions, attention, Legacy))
      && (filter == "attention" ==> forall g :: g in shown ==>
            |g.sessions| > 0 && forall m :: m in g.sessions ==> |m.attention| > 0)
  {
    AttentionFilterSpec(Groups(sessions, attention, Legacy), LegacyFilter(filter));
  }
}
