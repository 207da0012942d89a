/**
 * The session synchronisation engine (src/hooks/useSession.ts) as an object whose
 * fields are the hook's state cells, plus the URL hash and the id kept in local
 * storage. An awaited backend call is modelled by what crosses it: a method
 * returns the request it sends, or receives the call's outcome as a parameter
 * or in a completion method.
 */
module UseSession {
  import opened Wrappers
  import opened Strings
  import opened Seqs
  import opened SessionTypes
  import opened ApiTypes
  import opened SessionTransitions

  /** The part of the engine's state that push events change. */
  datatype PushState = PushState(
    sessions: seq<Session>,
    attention: seq<Attention>,
    messages: map<string, seq<Message>>,
    interactions: map<string, seq<ResolvedInteraction>>,
    awaiting: bool,
    hash: string)

  /** Neither list holds two entries with the same id. */
  ghost predicate WellFormed(st: PushState) {
    DistinctIds(st.sessions) && DistinctAttention(st.attention)
  }

  /** One push event applied to the state; `persisted` is the id kept in local storage. */
  function ApplyEvent(st: PushState, e: WsEvent, persisted: Option<string>): (r: PushState)
    ensures WellFormed(st) ==> WellFormed(r)
  {
    match e
    case SessionCreated(s, _) =>
      var c := OnCreated(st.sessions, s, st.hash);
      OnCreatedKeepsDistinct(st.sessions, s, st.hash);
      st.(sessions := c.sessions, hash := c.hash)
    case SessionUpdated(s) =>
      var ss := UpdateSession(st.sessions, s);
      SameIdsDistinct(st.sessions, ss);
      st.(sessions := ss)
    case SessionEnded(id, _) =>
      st.(sessions := RemoveSession(st.sessions, id), attention := RemoveAttentionOf(st.attention, id),
          awaiting := if Some(id) == persisted then false else st.awaiting)
    case SessionMessage(sid, m) =>
      st.(messages := OnMessageMap(st.messages, sid, m),
          awaiting := if Some(sid) == persisted then false else st.awaiting)
    case AttentionRequested(a) =>
      st.(attention := UpsertAttention(st.attention, a))
    case AttentionResolved(id) =>
      st.(attention := RemoveAttention(st.attention, id))
    case InteractionResolved(sid, it) =>
      st.(interactions := AppendInteraction(st.interactions, sid, it))
  }

  /** A run of push events, in arrival order. */
  function ApplyEvents(st: PushState, es: seq<WsEvent>, persisted: Option<string>): (r: PushState)
    ensures WellFormed(st) ==> WellFormed(r)
    decreases |es|
  {
    if es == [] then st else ApplyEvents(ApplyEvent(st, es[0], persisted), es[1..], persisted)
  }

  /** Events for other sessions and other attention ids leave a session's messages and the awaiting flag alone. */
  lemma EventsFrame(st: PushState, e: WsEvent, persisted: Option<string>)
    ensures var r := ApplyEvent(st, e, persisted);
      && (!e.SessionCreated? && !e.SessionUpdated? && !e.SessionEnded? ==> r.sessions == st.sessions)
      && (!e.SessionEnded? && !e.AttentionRequested? && !e.AttentionResolved? ==> r.attention == st.attention)
      && (!e.SessionMessage? ==> r.messages == st.messages)
      && (!e.InteractionResolved? ==> r.interactions == st.interactions)
      && (!e.SessionCreated? ==> r.hash == st.hash)
      && (r.awaiting != st.awaiting ==> (e.SessionEnded? || e.SessionMessage?) && st.awaiting && !r.awaiting)
  {
  }

  /** The backend's `createSession(workdir, prompt, name, config)` call; `config` carries the permission mode. */
  datatype CreateRequest = CreateRequest(workdir: string, prompt: Option<string>, name: Option<string>, config: Option<string>)

  /** The backend's `resolveAttention(attentionId, resolution)` call. */
  datatype ResolveRequest = ResolveRequest(attentionId: string, resolution: Resolution)

  /** The engine. */
  class Engine {
    var connected: bool
    var loginError: Option<string>
    var hasClient: bool
    var sessions: seq<Session>
    var attention: seq<Attention>
    var messages: map<string, seq<Message>>
    var interactions: map<string, seq<ResolvedInteraction>>
    var activeSessionId: Option<string>
    var awaitingResponse: bool
    var isRefreshing: bool
    /** `window.location.hash`, including its '#'. */
    var hash: string
    /** The active id kept in local storage. */
    var persistedActive: Option<string>

    ghost function View(): PushState
      reads this
    {
      PushState(sessions, attention, messages, interactions, awaitingResponse, hash)
    }

    /** The location-sync effect has run for the current active id. */
    ghost predicate Synced()
      reads this
    {
      hash == SyncedHash(activeSessionId) && persistedActive == SyncedStorage(activeSessionId)
    }

    /** Mounting: the active id comes from the hash when it names a session, else from storage; then the sync effect runs. */
    constructor (hash0: string, stored0: Option<string>)
      ensures activeSessionId == (if HashSessionId(hash0).Some? then HashSessionId(hash0) else stored0)
      ensures Synced()
      ensures !connected && loginError.None? && !hasClient && sessions == [] && attention == []
      ensures messages == map[] && interactions == map[] && !awaitingResponse && !isRefreshing
    {
      connected := false;
      loginError := None;
      hasClient := false;
      sessions := [];
      attention := [];
      messages := map[];
      interactions := map[];
      var initial := if HashSessionId(hash0).Some? then HashSessionId(hash0) else stored0;
      activeSessionId := initial;
      awaitingResponse := false;
      isRefreshing := false;
      hash := SyncedHash(initial);
      persistedActive := SyncedStorage(initial);
    }

    /**
     * `setActiveSessionId`: the sync effect depends on the active id only, so it
     * runs (storing the id and rewriting the hash) only when the value changes.
     */
    method SetActive(v: Option<string>)
      modifies this`activeSessionId, this`hash, this`persistedActive
      ensures activeSessionId == v
      ensures v != old(activeSessionId) ==> Synced()
      ensures v == old(activeSessionId) ==> hash == old(hash) && persistedActive == old(persistedActive)
    {
      if v != activeSessionId {
        activeSessionId := v;
        if Truthy(v) {
          persistedActive := v;
          var newHash := SessionHash(v.value);
          if hash != newHash {
            hash := newHash;
          }
        } else {
          persistedActive := None;
          if hash != "" {
            hash := "";
          }
        }
      }
    }

    /** The session the active id names, if it is listed. */
    function ActiveSession(): (r: Option<Session>)
      reads this
      ensures r.Some? <==> activeSessionId.Some? && exists i :: 0 <= i < |sessions| && sessions[i].id == activeSessionId.value
      ensures r.Some? ==> r.value in sessions && r.value.id == activeSessionId.value
    {
      FindSession(sessions, activeSessionId)
    }

    /** The active session's messages, or none. */
    function SessionMessages(): (r: seq<Message>)
      reads this
      ensures activeSessionId.Some? && activeSessionId.value in messages ==> r == messages[activeSessionId.value]
      ensures activeSessionId.Some? && activeSessionId.value !in messages ==> r == []
      ensures activeSessionId.None? && "" in messages ==> r == messages[""]
      ensures activeSessionId.None? && "" !in messages ==> r == []
    {
      var k := activeSessionId.GetOr("");
      if k in messages then messages[k] else []
    }

    /** The attention items of the active session, in order. */
    function SessionAttention(): (r: seq<Attention>)
      reads this
      ensures forall i :: 0 <= i < |r| ==> r[i] in attention && Some(r[i].sessionId) == activeSessionId
      ensures forall i :: 0 <= i < |attention| && Some(attention[i].sessionId) == activeSessionId ==> attention[i] in r
      ensures r == ActiveAttention(attention, activeSessionId)
    {
      ActiveAttention(attention, activeSessionId)
    }

    /** `connect`: nothing without a token; otherwise the error is cleared and a client subscribes. */
    method Connect(token: string) returns (subscribed: bool)
      modifies this`loginError, this`hasClient
      ensures subscribed <==> token != ""
      ensures subscribed ==> loginError.None? && hasClient
      ensures !subscribed ==> loginError == old(loginError) && hasClient == old(hasClient)
    {
      if token == "" {
        return false;
      }
      loginError := None;
      hasClient := true;
      return true;
    }

    /** The socket opened: connected, and the error cleared; the session and attention lists are then requested. */
    method OnConnect()
      modifies this`connected, this`loginError
      ensures connected && loginError.None?
    {
      connected := true;
      loginError := None;
    }

    /**
     * Both bootstrap lists arrived. The lists are replaced; the id to restore comes
     * from the hash when it carries the session prefix (even if that gives ''),
     * otherwise from storage; it is activated only when it is non-empty and listed,
     * and then its history is to be fetched.
     */
    method OnBootstrapLoaded(listedSessions: seq<Session>, listedAttention: seq<Attention>)
      returns (load: Option<string>)
      modifies this`sessions, this`attention, this`activeSessionId, this`hash, this`persistedActive
      ensures sessions == listedSessions && attention == listedAttention
      ensures var wanted := if HashSessionId(old(hash)).Some? then HashSessionId(old(hash)) else old(persistedActive);
        load == (if Truthy(wanted) && IndexOfId(listedSessions, wanted.value) >= 0 then wanted else None)
      ensures load.Some? ==> activeSessionId == load && (load != old(activeSessionId) ==> Synced())
      ensures load.None? ==> (activeSessionId == old(activeSessionId) && hash == old(hash)
        && persistedActive == old(persistedActive))
    {
      sessions := listedSessions;
      attention := listedAttention;
      var fromHash := HashSessionId(hash);
      var wanted := if fromHash.Some? then fromHash else persistedActive;
      if Truthy(wanted) && IndexOfId(listedSessions, wanted.value) >= 0 {
        SetActive(wanted);
        load := wanted;
      } else {
        load := None;
      }
    }

    /** A history fetch finished: a reply carrying messages (even none) is stored under its id. */
    method OnHistoryLoaded(id: string, history: Option<seq<Message>>)
      modifies this`messages
      ensures messages == if history.Some? then old(messages)[id := history.value] else old(messages)
    {
      if history.Some? {
        messages := messages[id := history.value];
      }
    }

    method OnDisconnect()
      modifies this`connected
      ensures !connected
    {
      connected := false;
    }

    method OnError()
      modifies this`loginError
      ensures loginError == Some("Connection failed - check token")
    {
      loginError := Some("Connection failed - check token");
    }

    /** `session:created` (with the corrected placeholder rule). */
    method OnSessionCreated(s: Session)
      modifies this`sessions, this`hash
      ensures var c := OnCreated(old(sessions), s, old(hash)); sessions == c.sessions && hash == c.hash
      ensures DistinctIds(old(sessions)) ==> DistinctIds(sessions)
    {
      var c := OnCreated(sessions, s, hash);
      OnCreatedKeepsDistinct(sessions, s, hash);
      sessions, hash := c.sessions, c.hash;
    }

    method OnSessionUpdated(s: Session)
      modifies this`sessions
      ensures sessions == UpdateSession(old(sessions), s)
      ensures |sessions| == |old(sessions)|
    {
      sessions := UpdateSession(sessions, s);
    }

    /** `session:ended`: the session and its attention go; awaiting clears only for the stored active id. */
    method OnSessionEnded(id: string)
      modifies this`sessions, this`attention, this`awaitingResponse
      ensures sessions == RemoveSession(old(sessions), id)
      ensures attention == RemoveAttentionOf(old(attention), id)
      ensures awaitingResponse == if Some(id) == persistedActive then false else old(awaitingResponse)
    {
      sessions := RemoveSession(sessions, id);
      attention := RemoveAttentionOf(attention, id);
      if Some(id) == persistedActive {
        awaitingResponse := false;
      }
    }

    method OnMessage(sid: string, m: Message)
      modifies this`messages, this`awaitingResponse
      ensures messages == OnMessageMap(old(messages), sid, m)
      ensures awaitingResponse == if Some(sid) == persistedActive then false else old(awaitingResponse)
    {
      messages := OnMessageMap(messages, sid, m);
      if Some(sid) == persistedActive {
        awaitingResponse := false;
      }
    }

    method OnAttention(a: Attention)
      modifies this`attention
      ensures attention == UpsertAttention(old(attention), a)
    {
      attention := UpsertAttention(attention, a);
    }

    method OnAttentionResolved(id: string)
      modifies this`attention
      ensures attention == RemoveAttention(old(attention), id)
    {
      attention := RemoveAttention(attention, id);
    }

    method OnInteractionResolved(sid: string, it: ResolvedInteraction)
      modifies this`interactions
      ensures interactions == AppendInteraction(old(interactions), sid, it)
    {
      interactions := AppendInteraction(interactions, sid, it);
    }

    /** A push event, handled by the handler its tag selects. */
    method Receive(e: WsEvent)
      modifies this`sessions, this`attention, this`messages, this`interactions, this`awaitingResponse, this`hash
      ensures View() == ApplyEvent(old(View()), e, persistedActive)
    {
      match e
      case SessionCreated(s, _) => OnSessionCreated(s);
      case SessionUpdated(s) => OnSessionUpdated(s);
      case SessionEnded(id, _) => OnSessionEnded(id);
      case SessionMessage(sid, m) => OnMessage(sid, m);
      case AttentionRequested(a) => OnAttention(a);
      case AttentionResolved(id) => OnAttentionResolved(id);
      case InteractionResolved(sid, it) => OnInteractionResolved(sid, it);
    }

    /** `refreshSessions`, up to its backend calls: only with a client and no refresh in flight. */
    method BeginRefresh() returns (started: bool)
      modifies this`isRefreshing
      ensures started <==> old(hasClient) && !old(isRefreshing)
      ensures isRefreshing == (old(isRefreshing) || started)
    {
      if !hasClient || isRefreshing {
        return false;
      }
      isRefreshing := true;
      return true;
    }

    /** The refresh finished: on success both lists are replaced; in every case the flag is cleared. */
    method EndRefresh(listedSessions: Option<seq<Session>>, listedAttention: Option<seq<Attention>>)
      modifies this`sessions, this`attention, this`isRefreshing
      ensures !isRefreshing
      ensures listedSessions.Some? && listedAttention.Some? ==>
        sessions == listedSessions.value && attention == listedAttention.value
      ensures !(listedSessions.Some? && listedAttention.Some?) ==>
        sessions == old(sessions) && attention == old(attention)
    {
      if listedSessions.Some? && listedAttention.Some? {
        sessions := listedSessions.value;
        attention := listedAttention.value;
      }
      isRefreshing := false;
    }

    /** `selectSession`: activates the id, clears awaiting, and fetches history not yet loaded. */
    method SelectSession(id: string) returns (fetch: bool)
      modifies this`activeSessionId, this`hash, this`persistedActive, this`awaitingResponse
      ensures activeSessionId == Some(id) && !awaitingResponse
      ensures Some(id) != old(activeSessionId) ==> Synced()
      ensures fetch <==> id !in messages && hasClient
    {
      SetActive(Some(id));
      awaitingResponse := false;
      fetch := id !in messages && hasClient;
    }

    /**
     * `createSession`, up to its backend call: a placeholder is put first and the
     * hash pointed at it. Returns the placeholder id and the creation request sent
     * to the backend (workdir, prompt and name as given, the mode as `config`), or
     * nothing without a client.
     */
    method CreateSession(workdir: string, prompt: Option<string>, name: Option<string>, mode: Option<string>, now: nat)
      returns (tempId: Option<string>, request: Option<CreateRequest>)
      modifies this`sessions, this`hash
      ensures tempId.Some? <==> request.Some?
      ensures !old(hasClient) ==> tempId.None? && sessions == old(sessions) && hash == old(hash)
      ensures old(hasClient) ==> (tempId == Some(TempId(now))
        && request == Some(CreateRequest(workdir, prompt, name, CreateConfig(mode)))
        && sessions == [Placeholder(workdir, name, mode, now)] + old(sessions)
        && hash == SessionHash(TempId(now)))
      ensures DistinctIds(old(sessions)) && IndexOfId(old(sessions), TempId(now)) == -1 ==> DistinctIds(sessions)
    {
      if !hasClient {
        return None, None;
      }
      var p := Placeholder(workdir, name, mode, now);
      ghost var before := sessions;
      sessions := [p] + sessions;
      hash := SessionHash(p.id);
      if DistinctIds(before) && IndexOfId(before, p.id) == -1 {
        forall i, j | 0 <= i < j < |sessions| ensures sessions[i].id != sessions[j].id {
          if i > 0 {
            assert sessions[i] == before[i - 1] && sessions[j] == before[j - 1];
          }
        }
      }
      return Some(p.id), Some(CreateRequest(workdir, prompt, name, CreateConfig(mode)));
    }

    /** The backend refused the creation: the placeholder is removed and the hash cleared. */
    method OnCreateFailed(tempId: string)
      modifies this`sessions, this`hash
      ensures sessions == RemoveSession(old(sessions), tempId) && hash == ""
    {
      sessions := RemoveSession(sessions, tempId);
      hash := "";
    }

    /**
     * The delayed refresh after a creation: without a client, or when the list
     * request fails, nothing changes; otherwise the list is replaced and the hash
     * moves to the newest real session of the workdir if it still names the placeholder.
     */
    method OnCreationRefresh(tempId: string, workdir: string, listed: Option<seq<Session>>)
      modifies this`sessions, this`hash
      ensures !hasClient || listed.None? ==> sessions == old(sessions) && hash == old(hash)
      ensures hasClient && listed.Some? ==> (sessions == listed.value
        && hash == RedirectHash(old(hash), tempId, NewestReal(listed.value, workdir)))
    {
      if !hasClient || listed.None? {
        return;
      }
      sessions := listed.value;
      var newest := NewestReal(listed.value, workdir);
      if newest.Some? && hash == SessionHash(tempId) {
        hash := SessionHash(newest.value.id);
      }
    }

    /** `deleteSession` after a successful backend call; a failed call changes nothing. */
    method DeleteSession(id: string, succeeded: bool)
      modifies this`sessions, this`messages, this`activeSessionId, this`hash, this`persistedActive
      ensures !(hasClient && succeeded) ==> (sessions == old(sessions) && messages == old(messages)
        && activeSessionId == old(activeSessionId) && hash == old(hash))
      ensures !(hasClient && succeeded && old(activeSessionId) == Some(id)) ==>
        hash == old(hash) && persistedActive == old(persistedActive)
      ensures hasClient && succeeded ==> (sessions == RemoveSession(old(sessions), id)
        && messages == old(messages) - {id}
        && activeSessionId == (if old(activeSessionId) == Some(id) then None else old(activeSessionId)))
      ensures hasClient && succeeded && old(activeSessionId) == Some(id) ==> Synced()
    {
      if !hasClient || !succeeded {
        return;
      }
      sessions := RemoveSession(sessions, id);
      messages := messages - {id};
      if activeSessionId == Some(id) {
        SetActive(None);
      }
    }

    /** `renameSession`: the error of a failed call propagates to the caller and nothing changes. */
    method RenameSession(id: string, name: string, succeeded: bool) returns (rejected: bool)
      modifies this`sessions
      ensures rejected <==> hasClient && !succeeded
      ensures sessions == if hasClient && succeeded then RenameIn(old(sessions), id, name) else old(sessions)
    {
      rejected := hasClient && !succeeded;
      if hasClient && succeeded {
        sessions := RenameIn(sessions, id, name);
      }
    }

    /** `updateSessionPermissionMode`: a failed call is swallowed and changes nothing. */
    method UpdateSessionPermissionMode(id: string, mode: string, succeeded: bool)
      modifies this`sessions
      ensures sessions == if hasClient && succeeded then SetModeIn(old(sessions), id, mode) else old(sessions)
    {
      if hasClient && succeeded {
        sessions := SetModeIn(sessions, id, mode);
      }
    }

    /**
     * `sendMessage`: blank text, no active session or no client change nothing;
     * otherwise an optimistic echo is appended to the active session's list and
     * the engine waits for a reply.
     */
    method SendMessage(text: string) returns (sent: bool)
      modifies this`messages, this`awaitingResponse
      ensures sent <==> !IsBlank(text) && Truthy(activeSessionId) && hasClient
      ensures !sent ==> messages == old(messages) && awaitingResponse == old(awaitingResponse)
      ensures sent ==> (awaitingResponse
        && var id := activeSessionId.value;
           messages == old(messages)[id := (if id in old(messages) then old(messages)[id] else []) + [OptimisticEcho(text)]])
    {
      TrimEmptyIffBlank(text);
      if Trim(text) == "" || !Truthy(activeSessionId) || !hasClient {
        return false;
      }
      var id := activeSessionId.value;
      messages := messages[id := (if id in messages then messages[id] else []) + [OptimisticEcho(text)]];
      awaitingResponse := true;
      return true;
    }

    /**
     * `resolveAttention`: the request sent to the backend, naming the attention
     * item and carrying its resolution; the attention list is left to the push events.
     */
    method ResolveAttention(id: string, behavior: Behavior, message: Option<string>)
      returns (request: Option<ResolveRequest>)
      ensures request.Some? <==> hasClient
      ensures request.Some? ==> (request.value.attentionId == id
        && request.value.resolution.behavior == behavior
        && (request.value.resolution.message.Some? <==> Truthy(message))
        && (request.value.resolution.message.Some? ==> request.value.resolution.message == message))
    {
      if !hasClient {
        return None;
      }
      return Some(ResolveRequest(id, ResolutionFor(behavior, message)));
    }

    /** `interruptSession`: the id sent to the backend's interrupt call, which needs a client. */
    method InterruptSession(id: string) returns (interrupt: Option<string>)
      ensures interrupt.Some? <==> hasClient
      ensures interrupt.Some? ==> interrupt.value == id
    {
      if !hasClient {
        return None;
      }
      return Some(id);
    }

    /**
     * The hash changed (back/forward navigation or a hash assignment). A session
     * hash naming a different id activates it, and its history is fetched when not
     * loaded, a client exists and it is not a placeholder. An empty hash deactivates.
     */
    method OnHashChange() returns (fetch: Option<string>)
      modifies this`activeSessionId, this`hash, this`persistedActive
      ensures var named := HashSessionId(old(hash));
        && (named.Some? && named != old(activeSessionId) ==> activeSessionId == named && Synced())
        && ((named.Some? && named != old(activeSessionId) && named.value !in messages && hasClient
              && !StartsWith(named.value, PendingPrefix)) <==> fetch.Some?)
        && (fetch.Some? ==> fetch == named)
        && (named.None? && old(hash) == "" && Truthy(old(activeSessionId)) ==> activeSessionId.None? && Synced())
        && (named == old(activeSessionId) || (named.None? && !(old(hash) == "" && Truthy(old(activeSessionId)))) ==>
              activeSessionId == old(activeSessionId) && hash == old(hash) && persistedActive == old(persistedActive))
    {
      var named := HashSessionId(hash);
      fetch := None;
      if named.Some? {
        var id := named.value;
        if named != activeSessionId {
          SetActive(named);
          if id !in messages && hasClient && !StartsWith(id, PendingPrefix) {
            fetch := named;
          }
        }
      } else if hash == "" && Truthy(activeSessionId) {
        SetActive(None);
      }
    }
  }

  /** Pushes are handled one at a time: a run split in two is the second half applied after the first. */
  lemma {:induction false} EventsCompose(st: PushState, a: seq<WsEvent>, b: seq<WsEvent>, persisted: Option<string>)
    ensures ApplyEvents(st, a + b, persisted) == ApplyEvents(ApplyEvents(st, a, persisted), b, persisted)
    decreases |a|
  {
    if a == [] {
      assert [] + b == b;
    } else {
      ConcatTail(a, b);
      EventsCompose(ApplyEvent(st, a[0], persisted), a[1..], b, persisted);
    }
  }
}
