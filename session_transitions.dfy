/**
 * The pure state updates of the session engine (src/hooks/useSession.ts): each
 * push event and each user action computes its new session list, attention list,
 * message map or URL hash from the old one with a map, a filter or a spread.
 */
module SessionTransitions {
  import opened Wrappers
  import opened Strings
  import opened Sorting
  import opened Seqs
  import opened SessionTypes
  import Content

  const PendingPrefix: string := "pending_"
  const HashPrefix: string := "#session="

  function SessionId(s: Session): string { s.id }
  function AttentionId(a: Attention): string { a.id }

  ghost predicate DistinctIds(ss: seq<Session>) { DistinctBy(ss, SessionId) }
  ghost predicate DistinctAttention(items: seq<Attention>) { DistinctBy(items, AttentionId) }

  /** A nullable string is truthy in JavaScript when it is present and not ''. */
  predicate Truthy(o: Option<string>) { o.Some? && o.value != "" }

  /** The ids of a session list, in order. */
  function IdsOf(ss: seq<Session>): (ids: seq<string>)
    ensures |ids| == |ss| && forall i :: 0 <= i < |ss| ==> ids[i] == ss[i].id
  {
    if ss == [] then [] else [ss[0].id] + IdsOf(ss[1..])
  }

  // ---------------------------------------------------------------- URL hash

  /** The hash that names a session: `#session=<id>`. */
  function SessionHash(id: string): (h: string)
    ensures StartsWith(h, HashPrefix) && h[|HashPrefix|..] == id
  {
    HashPrefix + id
  }

  /** The session id a hash names (`hash.slice(9)` after the prefix test), if any. */
  function HashSessionId(hash: string): (r: Option<string>)
    ensures r.Some? <==> StartsWith(hash, HashPrefix)
  {
    if StartsWith(hash, HashPrefix) then Some(hash[|HashPrefix|..]) else None
  }

  /** Reading a session hash gives back its id, and a hash naming an id is that id's hash. */
  lemma HashRoundTrip(id: string, hash: string)
    ensures HashSessionId(SessionHash(id)) == Some(id)
    ensures HashSessionId(hash) == Some(id) ==> SessionHash(id) == hash
  {
    if HashSessionId(hash) == Some(id) {
      assert hash == hash[..|HashPrefix|] + hash[|HashPrefix|..];
    }
  }

  /** Where the location-sync effect leaves the hash and stored id for an active id. */
  function SyncedHash(active: Option<string>): (h: string)
    ensures Truthy(active) ==> HashSessionId(h) == Some(active.value)
    ensures !Truthy(active) ==> h == ""
  {
    if Truthy(active) then SessionHash(active.value) else ""
  }

  function SyncedStorage(active: Option<string>): (p: Option<string>)
    ensures p.Some? <==> Truthy(active)
    ensures p.Some? ==> active == p
  {
    if Truthy(active) then active else None
  }

  // ---------------------------------------------------------------- session list

  /** Every entry with id `id` becomes `s`; all others stay, in place. */
  function ReplaceId(ss: seq<Session>, id: string, s: Session): (r: seq<Session>)
    ensures |r| == |ss|
    ensures forall i :: 0 <= i < |ss| ==> r[i] == if ss[i].id == id then s else ss[i]
  {
    if ss == [] then [] else [if ss[0].id == id then s else ss[0]] + ReplaceId(ss[1..], id, s)
  }

  /** `session:updated`: the entry with the pushed session's id is replaced wholesale. */
  function UpdateSession(ss: seq<Session>, s: Session): (r: seq<Session>)
    ensures IdsOf(r) == IdsOf(ss)
    ensures forall i :: 0 <= i < |ss| ==> r[i] == if ss[i].id == s.id then s else ss[i]
  {
    ReplaceId(ss, s.id, s)
  }

  /** An update for an id the list does not hold changes nothing: updates never insert. */
  lemma UpdateUnknownIsNoop(ss: seq<Session>, s: Session)
    requires forall i :: 0 <= i < |ss| ==> ss[i].id != s.id
    ensures UpdateSession(ss, s) == ss
  {
  }

  /** Two updates for the same id leave the last one. */
  lemma UpdateLastWins(ss: seq<Session>, a: Session, b: Session)
    requires a.id == b.id
    ensures UpdateSession(UpdateSession(ss, a), b) == UpdateSession(ss, b)
  {
  }

  /** The same ids in the same order keep the list free of duplicates. */
  lemma SameIdsDistinct(ss: seq<Session>, r: seq<Session>)
    requires IdsOf(r) == IdsOf(ss)
    ensures DistinctIds(ss) ==> DistinctIds(r)
  {
    if DistinctIds(ss) {
      forall i, j | 0 <= i < j < |r| ensures r[i].id != r[j].id {
        assert IdsOf(r)[i] == ss[i].id && IdsOf(r)[j] == ss[j].id;
      }
    }
  }

  /** The list without the entries carrying `id`. */
  function RemoveSession(ss: seq<Session>, id: string): (r: seq<Session>)
    ensures forall i :: 0 <= i < |r| ==> r[i] in ss && r[i].id != id
    ensures forall i :: 0 <= i < |ss| && ss[i].id != id ==> ss[i] in r
    ensures DistinctIds(ss) ==> DistinctIds(r)
  {
    var r := Filter(ss, (x: Session) => x.id != id);
    FilterDistinct(ss, (x: Session) => x.id != id, SessionId);
    r
  }

  /** The attention list without the items raised by session `sid`. */
  function RemoveAttentionOf(items: seq<Attention>, sid: string): (r: seq<Attention>)
    ensures forall i :: 0 <= i < |r| ==> r[i] in items && r[i].sessionId != sid
    ensures forall i :: 0 <= i < |items| && items[i].sessionId != sid ==> items[i] in r
    ensures DistinctAttention(items) ==> DistinctAttention(r)
  {
    var r := Filter(items, (a: Attention) => a.sessionId != sid);
    FilterDistinct(items, (a: Attention) => a.sessionId != sid, AttentionId);
    r
  }

  /**
   * Removing keeps the other entries in their order, each as often as it was
   * listed: the empty list stays empty, and an entry added at the end survives
   * at the end exactly when its id differs.
   */
  lemma RemoveSessionSnoc(ss: seq<Session>, x: Session, id: string)
    ensures RemoveSession([], id) == []
    ensures RemoveSession(ss + [x], id) == RemoveSession(ss, id) + (if x.id != id then [x] else [])
  {
    FilterSnoc(ss, x, (y: Session) => y.id != id);
  }

  /** Likewise for dropping a session's attention items. */
  lemma RemoveAttentionOfSnoc(items: seq<Attention>, x: Attention, sid: string)
    ensures RemoveAttentionOf([], sid) == []
    ensures RemoveAttentionOf(items + [x], sid) == RemoveAttentionOf(items, sid) + (if x.sessionId != sid then [x] else [])
  {
    FilterSnoc(items, x, (a: Attention) => a.sessionId != sid);
  }

  /** The attention items raised by the session `active` names (none when it names none), in order. */
  function ActiveAttention(items: seq<Attention>, active: Option<string>): (r: seq<Attention>)
    ensures forall i :: 0 <= i < |r| ==> r[i] in items && Some(r[i].sessionId) == active
    ensures forall i :: 0 <= i < |items| && Some(items[i].sessionId) == active ==> items[i] in r
    ensures active.None? ==> r == []
  {
    var r := Filter(items, (a: Attention) => Some(a.sessionId) == active);
    assert r != [] ==> Some(r[0].sessionId) == active;
    r
  }

  /** The active session's items keep their order and multiplicity. */
  lemma ActiveAttentionSnoc(items: seq<Attention>, x: Attention, active: Option<string>)
    ensures ActiveAttention([], active) == []
    ensures ActiveAttention(items + [x], active)
         == ActiveAttention(items, active) + (if Some(x.sessionId) == active then [x] else [])
  {
    FilterSnoc(items, x, (a: Attention) => Some(a.sessionId) == active);
  }

  /** The index of the first placeholder created for `workdir`, or -1. */
  function FirstPendingFor(ss: seq<Session>, workdir: string): (k: int)
    ensures -1 <= k < |ss|
    ensures k == -1 <==> forall i :: 0 <= i < |ss| ==> ss[i].pendingFor != Some(workdir)
    ensures k >= 0 ==> (ss[k].pendingFor == Some(workdir)
      && forall j :: 0 <= j < k ==> ss[j].pendingFor != Some(workdir))
  {
    FirstIndex(ss, (x: Session) => x.pendingFor == Some(workdir))
  }

  /** The session list and URL hash after a `session:created` push. */
  datatype Created = Created(sessions: seq<Session>, hash: string)

  /**
   * `session:created` as the source handles it: the first placeholder for the
   * pushed session's workdir is replaced by it (and a hash naming the placeholder
   * is pointed at it); with no placeholder, any entry with that id is dropped and
   * the session appended. The event's `tempId` is not consulted.
   */
  function OnCreatedAsWritten(ss: seq<Session>, s: Session, hash: string): (r: Created)
    ensures FirstPendingFor(ss, s.workdir) >= 0 ==> |r.sessions| == |ss|
    ensures |r.sessions| <= |ss| + 1
  {
    var k := FirstPendingFor(ss, s.workdir);
    if k >= 0 then
      var pid := ss[k].id;
      Created(ReplaceId(ss, pid, s), if hash == SessionHash(pid) then SessionHash(s.id) else hash)
    else
      Created(RemoveSession(ss, s.id) + [s], hash)
  }

  /**
   * The counterexample to "exactly one entry has the pushed id": a refresh has
   * already delivered session R, the user has since opened a second placeholder
   * for the same workdir, and the late `session:created` for R replaces that
   * placeholder, so R is listed twice.
   */
  lemma OnCreatedAsWrittenDuplicates()
    ensures var w := "/w";
      var r := Session("R", w, None, Idle, None, 1, 1, "default", None);
      var p := Session("pending_2", w, None, Idle, None, 2, 2, "default", Some(w));
      var out := OnCreatedAsWritten([p, r], r, "").sessions;
      DistinctIds([p, r]) && out == [r, r] && !DistinctIds(out)
  {
    var w := "/w";
    var r := Session("R", w, None, Idle, None, 1, 1, "default", None);
    var p := Session("pending_2", w, None, Idle, None, 2, 2, "default", Some(w));
    assert FirstPendingFor([p, r], w) == 0;
    var out := OnCreatedAsWritten([p, r], r, "").sessions;
    assert out[0] == r && out[1] == r;
  }

  /** The index of the entry with id `id`, or -1. */
  function IndexOfId(ss: seq<Session>, id: string): (k: int)
    ensures -1 <= k < |ss|
    ensures k == -1 <==> forall i :: 0 <= i < |ss| ==> ss[i].id != id
    ensures k >= 0 ==> ss[k].id == id && forall j :: 0 <= j < k ==> ss[j].id != id
  {
    FirstIndex(ss, (x: Session) => x.id == id)
  }

  /**
   * `session:created`, corrected: when a placeholder is pending for the pushed
   * session's workdir but the list already holds the session, the listed entry
   * is replaced where it stands and the placeholder is left for its own
   * confirmation; every other case follows the source's rule.
   */
  function OnCreated(ss: seq<Session>, s: Session, hash: string): (r: Created)
  {
    if FirstPendingFor(ss, s.workdir) >= 0 && IndexOfId(ss, s.id) >= 0 then Created(ReplaceId(ss, s.id, s), hash)
    else OnCreatedAsWritten(ss, s, hash)
  }

  /** On a list without duplicates, replacing an id is a single-index update. */
  lemma ReplaceDistinctIsUpdate(ss: seq<Session>, k: int, s: Session)
    requires DistinctIds(ss) && 0 <= k < |ss|
    ensures ReplaceId(ss, ss[k].id, s) == ss[k := s]
  {
  }

  /** The pushed session at index `k` and no other entry with its id. */
  ghost predicate SoleEntry(out: seq<Session>, s: Session, k: int) {
    0 <= k < |out| && out[k] == s && forall j :: 0 <= j < |out| && j != k ==> out[j].id != s.id
  }

  /** Updating one index of a duplicate-free list to a session with the same id keeps it duplicate-free. */
  lemma UpdateInPlaceDistinct(ss: seq<Session>, k: int, s: Session)
    requires DistinctIds(ss) && 0 <= k < |ss|
    requires forall j :: 0 <= j < |ss| && j != k ==> ss[j].id != s.id
    ensures DistinctIds(ss[k := s]) && SoleEntry(ss[k := s], s, k)
  {
  }

  /**
   * After the corrected `session:created` the list is still free of duplicate
   * ids and holds exactly one entry with the pushed id: the pushed session.
   */
  lemma OnCreatedKeepsDistinct(ss: seq<Session>, s: Session, hash: string)
    ensures var out := OnCreated(ss, s, hash).sessions;
      DistinctIds(ss) ==> DistinctIds(out) && exists k :: SoleEntry(out, s, k)
  {
    if DistinctIds(ss) {
      OnCreatedDistinctCases(ss, s, hash);
    }
  }

  lemma OnCreatedDistinctCases(ss: seq<Session>, s: Session, hash: string)
    requires DistinctIds(ss)
    ensures var out := OnCreated(ss, s, hash).sessions;
      DistinctIds(out) && exists k :: SoleEntry(out, s, k)
  {
    var out := OnCreated(ss, s, hash).sessions;
    var e := IndexOfId(ss, s.id);
    var k := FirstPendingFor(ss, s.workdir);
    if k >= 0 && e >= 0 {
      ReplaceDistinctIsUpdate(ss, e, s);
      UpdateInPlaceDistinct(ss, e, s);
      assert SoleEntry(out, s, e);
    } else if k >= 0 {
      ReplaceDistinctIsUpdate(ss, k, s);
      UpdateInPlaceDistinct(ss, k, s);
      assert SoleEntry(out, s, k);
    } else {
      var rest := RemoveSession(ss, s.id);
      AppendDistinct(rest, s, SessionId);
      assert out == rest + [s];
      assert SoleEntry(out, s, |out| - 1);
    }
  }

  /**
   * For a session the list does not hold yet, the corrected rule is the source's:
   * the first placeholder for its workdir is replaced in place, the length is
   * unchanged and the hash follows when it named the placeholder; with no
   * placeholder, the session is appended.
   */
  lemma OnCreatedNewSession(ss: seq<Session>, s: Session, hash: string)
    requires DistinctIds(ss) && forall i :: 0 <= i < |ss| ==> ss[i].id != s.id
    ensures var k := FirstPendingFor(ss, s.workdir); var r := OnCreated(ss, s, hash);
      && r == OnCreatedAsWritten(ss, s, hash)
      && (k >= 0 ==> (r.sessions == ss[k := s]
            && r.hash == if hash == SessionHash(ss[k].id) then SessionHash(s.id) else hash))
      && (k == -1 ==> r.sessions == ss + [s] && r.hash == hash)
  {
    var k := FirstPendingFor(ss, s.workdir);
    if k >= 0 {
      ReplaceDistinctIsUpdate(ss, k, s);
    } else {
      FilterKeepsAll(ss, (x: Session) => x.id != s.id);
    }
  }

  /** On a duplicate-free list, removing a listed id takes out just that entry. */
  lemma RemoveListedSession(ss: seq<Session>, e: int)
    requires DistinctIds(ss) && 0 <= e < |ss|
    ensures RemoveSession(ss, ss[e].id) == ss[..e] + ss[e + 1..]
  {
    var id, before, after := ss[e].id, ss[..e], ss[e + 1..];
    assert ss == before + [ss[e]] + after;
    forall i | 0 <= i < |before| ensures before[i].id != id {
      assert SessionId(ss[i]) != SessionId(ss[e]);
    }
    forall i | 0 <= i < |after| ensures after[i].id != id {
      assert after[i] == ss[e + 1 + i] && SessionId(ss[e]) != SessionId(ss[e + 1 + i]);
    }
    FilterDropsOne(before, ss[e], after, (x: Session) => x.id != id);
  }

  /**
   * For a session already listed, the corrected rule leaves the hash and
   * replaces the entry in place when a placeholder is pending for its workdir;
   * with none pending it is the source's rule: the old entry goes and the
   * session is appended.
   */
  lemma OnCreatedKnownSession(ss: seq<Session>, s: Session, hash: string)
    requires DistinctIds(ss) && IndexOfId(ss, s.id) >= 0
    ensures var e := IndexOfId(ss, s.id); var r := OnCreated(ss, s, hash);
      && r.hash == hash
      && (FirstPendingFor(ss, s.workdir) >= 0 ==> r.sessions == ss[e := s])
      && (FirstPendingFor(ss, s.workdir) == -1 ==> r.sessions == ss[..e] + ss[e + 1..] + [s])
  {
    var e := IndexOfId(ss, s.id);
    ReplaceDistinctIsUpdate(ss, e, s);
    RemoveListedSession(ss, e);
  }

  // ---------------------------------------------------------------- messages

  /** Whether `m` is an optimistic user echo whose text is `text`. */
  predicate IsOptimisticEcho(m: Message, text: string) {
    m.optimistic && m.role == User && Content.ExtractTextContent(m.content) == text
  }

  /** The index of the first optimistic user message with text `text`, or -1. */
  function FirstEcho(existing: seq<Message>, text: string): (k: int)
    ensures -1 <= k < |existing|
    ensures k == -1 <==> forall i :: 0 <= i < |existing| ==> !IsOptimisticEcho(existing[i], text)
    ensures k >= 0 ==> (IsOptimisticEcho(existing[k], text)
      && forall j :: 0 <= j < k ==> !IsOptimisticEcho(existing[j], text))
  {
    FirstIndex(existing, (m: Message) => IsOptimisticEcho(m, text))
  }

  /**
   * A pushed message joins a session's list: a user message replaces the first
   * optimistic echo of its text in place; anything else is appended.
   */
  function Reconcile(existing: seq<Message>, m: Message): (r: seq<Message>)
    ensures |r| == |existing| || |r| == |existing| + 1
    ensures r[..|existing|] == existing || |r| == |existing|
  {
    var k := if m.role == User then FirstEcho(existing, Content.ExtractTextContent(m.content)) else -1;
    if k >= 0 then existing[k := m] else existing + [m]
  }

  /**
   * The count stays the same exactly when the message is a user message and an
   * optimistic echo of its text exists; then the first echo is the one replaced
   * and every other entry stays. Otherwise the message is appended.
   */
  lemma ReconcileSpec(existing: seq<Message>, m: Message)
    ensures var r := Reconcile(existing, m); var text := Content.ExtractTextContent(m.content);
      && (|r| == |existing| <==>
            m.role == User && exists i :: 0 <= i < |existing| && IsOptimisticEcho(existing[i], text))
      && (|r| == |existing| ==> var k := FirstEcho(existing, text);
            r[k] == m && forall j :: 0 <= j < |r| && j != k ==> r[j] == existing[j])
      && (|r| == |existing| + 1 ==> r == existing + [m])
  {
  }

  /** A message for one session leaves every other session's list alone. */
  function OnMessageMap(msgs: map<string, seq<Message>>, sid: string, m: Message): (r: map<string, seq<Message>>)
    ensures r.Keys == msgs.Keys + {sid}
    ensures r[sid] == Reconcile(if sid in msgs then msgs[sid] else [], m)
    ensures forall k :: k in msgs && k != sid ==> r[k] == msgs[k]
  {
    msgs[sid := Reconcile(if sid in msgs then msgs[sid] else [], m)]
  }

  /** The optimistic echo that `sendMessage` appends. */
  function OptimisticEcho(text: string): Message {
    Message(None, User, Text(text), None, true)
  }

  /** The pushed copy of a sent message replaces its echo, so the count is what it was after sending. */
  lemma EchoThenPushReconciles(existing: seq<Message>, text: string, pushed: Message)
    requires pushed.role == User && Content.ExtractTextContent(pushed.content) == text
    requires forall i :: 0 <= i < |existing| ==> !IsOptimisticEcho(existing[i], text)
    ensures Reconcile(existing + [OptimisticEcho(text)], pushed) == existing + [pushed]
  {
    var sent := existing + [OptimisticEcho(text)];
    assert IsOptimisticEcho(sent[|existing|], text);
    assert FirstEcho(sent, text) == |existing|;
  }

  // ---------------------------------------------------------------- attention

  /** `attention:requested`: any item with the same id is dropped and the new one appended. */
  function UpsertAttention(items: seq<Attention>, a: Attention): (r: seq<Attention>)
    ensures |r| >= 1 && r[|r| - 1] == a
    ensures forall i :: 0 <= i < |r| - 1 ==> r[i].id != a.id && r[i] in items
    ensures forall i :: 0 <= i < |items| && items[i].id != a.id ==> items[i] in r
    ensures DistinctAttention(items) ==> DistinctAttention(r)
  {
    var rest := RemoveAttention(items, a.id);
    AppendDistinct(rest, a, AttentionId);
    rest + [a]
  }

  /** `attention:resolved`: the items with that id are removed, all others kept in order. */
  function RemoveAttention(items: seq<Attention>, id: string): (r: seq<Attention>)
    ensures forall i :: 0 <= i < |r| ==> r[i] in items && r[i].id != id
    ensures forall i :: 0 <= i < |items| && items[i].id != id ==> items[i] in r
    ensures DistinctAttention(items) ==> DistinctAttention(r)
  {
    var r := Filter(items, (x: Attention) => x.id != id);
    FilterDistinct(items, (x: Attention) => x.id != id, AttentionId);
    r
  }

  /** Resolving keeps the other items in their order, each as often as it was listed. */
  lemma RemoveAttentionSnoc(items: seq<Attention>, x: Attention, id: string)
    ensures RemoveAttention([], id) == []
    ensures RemoveAttention(items + [x], id) == RemoveAttention(items, id) + (if x.id != id then [x] else [])
  {
    FilterSnoc(items, x, (y: Attention) => y.id != id);
  }

  /**
   * A request leaves the other items in their order, each as often as it was
   * listed, and puts the new item last.
   */
  lemma UpsertAttentionSnoc(items: seq<Attention>, x: Attention, a: Attention)
    ensures UpsertAttention([], a) == [a]
    ensures UpsertAttention(items + [x], a)
         == RemoveAttention(items, a.id) + (if x.id != a.id then [x] else []) + [a]
  {
    RemoveAttentionSnoc(items, x, a.id);
  }

  /** Exactly one item carries the id of a just-requested attention item. */
  lemma UpsertUnique(items: seq<Attention>, a: Attention)
    ensures var r := UpsertAttention(items, a);
      forall i :: 0 <= i < |r| ==> (r[i].id == a.id <==> i == |r| - 1)
  {
  }

  /** Resolving what was just requested removes it and leaves the others in order. */
  lemma RequestThenResolve(items: seq<Attention>, a: Attention)
    ensures RemoveAttention(UpsertAttention(items, a), a.id) == RemoveAttention(items, a.id)
  {
    var rest := RemoveAttention(items, a.id);
    FilterIdempotent(items, (x: Attention) => x.id != a.id);
    assert Filter(rest + [a], (x: Attention) => x.id != a.id) == Filter(rest, (x: Attention) => x.id != a.id) by {
      FilterAppendDropped(rest, a, (x: Attention) => x.id != a.id);
    }
  }

  lemma {:induction false} FilterAppendDropped<T>(s: seq<T>, x: T, p: T -> bool)
    requires !p(x)
    ensures Filter(s + [x], p) == Filter(s, p)
  {
    if s == [] {
      assert [x][1..] == [];
    } else {
      FilterAppendDropped(s[1..], x, p);
      assert (s + [x])[1..] == s[1..] + [x];
    }
  }

  /** `resolveAttention`'s answer: the message is sent only when non-empty. */
  function ResolutionFor(behavior: Behavior, message: Option<string>): (r: Resolution)
    ensures r.behavior == behavior
    ensures r.message.Some? <==> Truthy(message)
    ensures r.message.Some? ==> r.message == message
  {
    if Truthy(message) then Resolution(behavior, message) else Resolution(behavior, None)
  }

  // ---------------------------------------------------------------- interactions

  /** `interaction:resolved`: appended to that session's list only. */
  function AppendInteraction(im: map<string, seq<ResolvedInteraction>>, sid: string, it: ResolvedInteraction)
    : (r: map<string, seq<ResolvedInteraction>>)
    ensures r.Keys == im.Keys + {sid}
    ensures r[sid] == (if sid in im then im[sid] else []) + [it]
    ensures forall k :: k in im && k != sid ==> r[k] == im[k]
  {
    im[sid := (if sid in im then im[sid] else []) + [it]]
  }

  // ---------------------------------------------------------------- createSession

  /** The id of a placeholder created at `now` (milliseconds). */
  function TempId(now: nat): (id: string)
    ensures StartsWith(id, PendingPrefix)
  {
    PendingPrefix + NatToString(now)
  }

  /** Placeholders created at different instants have different ids. */
  lemma TempIdInjective(a: nat, b: nat)
    requires TempId(a) == TempId(b)
    ensures a == b
  {
    assert TempId(a)[|PendingPrefix|..] == NatToString(a);
    assert TempId(b)[|PendingPrefix|..] == NatToString(b);
    NatToStringInjective(a, b);
  }

  /** The permission mode sent as `config`: only a mode that is set and not 'default'. */
  function CreateConfig(mode: Option<string>): (c: Option<string>)
    ensures c.Some? <==> Truthy(mode) && mode.value != "default"
    ensures c.Some? ==> c == mode
  {
    if Truthy(mode) && mode.value != "default" then mode else None
  }

  /** The placeholder shown while a creation is in flight. */
  function Placeholder(workdir: string, name: Option<string>, mode: Option<string>, now: nat): (p: Session)
    ensures StartsWith(p.id, PendingPrefix) && p.id == TempId(now)
    ensures p.workdir == workdir && p.pendingFor == Some(workdir) && p.status == Idle
    ensures p.name == (if Truthy(name) then name else None)
    ensures p.permissionMode == mode.GetOr("default") && p.configMode == CreateConfig(mode)
    ensures p.created == now && p.modified == now
  {
    Session(TempId(now), workdir, if Truthy(name) then name else None, Idle, CreateConfig(mode),
            now, now, mode.GetOr("default"), Some(workdir))
  }

  /** A failed creation removes its placeholder: with a listed id this restores the list. */
  lemma RollbackRestores(ss: seq<Session>, p: Session)
    requires forall i :: 0 <= i < |ss| ==> ss[i].id != p.id
    ensures RemoveSession([p] + ss, p.id) == ss
  {
    assert ([p] + ss)[1..] == ss;
    FilterKeepsAll(ss, (x: Session) => x.id != p.id);
  }

  // ---------------------------------------------------------------- delayed refresh

  /** Newest created first: the order `sort((a, b) => b.created - a.created)` gives. */
  function NewerFirst(a: Session, b: Session): bool { b.created - a.created <= 0 }

  lemma NewerFirstIsPreorder()
    ensures TotalPreorder(NewerFirst)
  {
  }

  /** A confirmed (non-placeholder) session of `workdir`. */
  predicate IsRealIn(s: Session, workdir: string) {
    s.workdir == workdir && !StartsWith(s.id, PendingPrefix)
  }

  /** The session the delayed refresh redirects to: the newest real one in the workdir. */
  function NewestReal(listed: seq<Session>, workdir: string): (r: Option<Session>)
    ensures r.None? <==> forall i :: 0 <= i < |listed| ==> !IsRealIn(listed[i], workdir)
    ensures r.Some? ==> (r.value in listed && IsRealIn(r.value, workdir)
      && forall i :: 0 <= i < |listed| && IsRealIn(listed[i], workdir) ==> listed[i].created <= r.value.created)
  {
    var matching := Filter(listed, (s: Session) => IsRealIn(s, workdir));
    var sorted := Sort(matching, NewerFirst);
    if |sorted| == 0 then None
    else
      NewerFirstIsPreorder();
      SortFirstIsLeast(matching, NewerFirst);
      assert sorted[0] in multiset(sorted);
      assert sorted[0] in matching;
      assert forall i :: 0 <= i < |listed| && IsRealIn(listed[i], workdir) ==> listed[i] in matching;
      Some(sorted[0])
  }

  /** The hash after the delayed refresh: moved to the new session only if it still names the placeholder. */
  function RedirectHash(hash: string, tempId: string, newest: Option<Session>): (h: string)
    ensures h != hash ==> newest.Some? && hash == SessionHash(tempId) && h == SessionHash(newest.value.id)
    ensures newest.Some? && hash == SessionHash(tempId) ==> h == SessionHash(newest.value.id)
  {
    if newest.Some? && hash == SessionHash(tempId) then SessionHash(newest.value.id) else hash
  }

  // ---------------------------------------------------------------- rename, mode, delete

  /** Every entry with id `id` gets `name`; nothing else changes. */
  function RenameIn(ss: seq<Session>, id: string, name: string): (r: seq<Session>)
    ensures IdsOf(r) == IdsOf(ss)
    ensures forall i :: 0 <= i < |ss| ==> r[i] == if ss[i].id == id then ss[i].(name := Some(name)) else ss[i]
  {
    if ss == [] then []
    else [if ss[0].id == id then ss[0].(name := Some(name)) else ss[0]] + RenameIn(ss[1..], id, name)
  }

  /** Every entry with id `id` gets permission mode `mode`; nothing else changes. */
  function SetModeIn(ss: seq<Session>, id: string, mode: string): (r: seq<Session>)
    ensures IdsOf(r) == IdsOf(ss)
    ensures forall i :: 0 <= i < |ss| ==> r[i] == if ss[i].id == id then ss[i].(permissionMode := mode) else ss[i]
  {
    if ss == [] then []
    else [if ss[0].id == id then ss[0].(permissionMode := mode) else ss[0]] + SetModeIn(ss[1..], id, mode)
  }

  /** The first session with id `id`: `sessions.find(s => s.id === id)`. */
  function FindSession(ss: seq<Session>, id: Option<string>): (r: Option<Session>)
    ensures r.Some? <==> id.Some? && exists i :: 0 <= i < |ss| && ss[i].id == id.value
    ensures r.Some? ==> r.value == ss[IndexOfId(ss, id.value)]
  {
    if id.None? then None
    else var k := IndexOfId(ss, id.value); if k >= 0 then Some(ss[k]) else None
  }
}
