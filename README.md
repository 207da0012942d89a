# A verified model of the clarvis web client and its proxy

This project models, in Dafny, the logic of a browser client for a service that
runs coding-agent sessions, and of the small Node server that sits between the
browser and that service. Everything the client and the proxy decide is stated
as datatypes, functions, classes and methods, and the properties their authors
rely on are proved as contracts and lemmas.

The model covers:

- **The session synchronisation engine** (`src/hooks/useSession.ts`). The
  hook's state cells become the fields of the class `UseSession.Engine`: the
  session list, the attention list, the message map, the resolved interactions,
  the active id, the awaiting flag, the refreshing flag, the URL hash and the id
  kept in local storage. Every push event and every user action is a method.
  Each method computes its new state with a pure transition of
  `SessionTransitions`. An awaited backend call is modelled by what crosses it:
  `createSession`, `resolveAttention` and `interruptSession` return the request
  they send, and the other actions receive the call's outcome, as a parameter or
  in a completion method. Under the corrected `session:created` rule (see
  Findings), the lemmas show that every push event, and so every run of them,
  keeps the session list and the attention list free of duplicate ids. They also show that replacements happen at
  the same index and that each event changes only what its handler names.
- **Content helpers** (`Content`), the shared **grouping by workdir**
  (`Grouping`) and the sidebar's **search and attention filters**
  (`UseSessionGroups`). The grouping is the imperative double loop of the
  source.
- **The backend clients.** `ApiClient` covers the request headers, error
  extraction, the socket subscription as an object, and event dispatch.
  `LegacyClient` is the older client.
- **The legacy single-file app**: its grouping, filters and reducers
  (`LegacyApp`).
- **The proxy.**
  - `ServerConfig`: configuration parsing.
  - `ServerRoutes`: request routing and upgrade routing.
  - `Browse`: the directory browser's allow-list check and outcomes.
  - `ApiProxy`: REST forwarding.
  - `WebSocketProxy`: the WebSocket bridge, including the exact bytes of the
    101 reply. That reply is the server opening handshake of section 4.2.2 of
    RFC 6455, framed as in section 2.1 of RFC 9112. The module also covers a
    declined upgrade.
  - Both proxy objects carry a `crashed` flag for the exceptions nothing
    catches, which end the proxy process. There are three: a second
    `writeHead` on a REST reply, a `token` outside the characters
    `http.request` accepts, and an error on the browser's socket before the
    upgrade listener handles it.
- **UI state machines.**
  - `UseModal`: the modal stack.
  - `UseSlashCommands`: the slash-command menu.
  - `UseRename`: the rename editor.
  - `UseFileBrowser`: the file browser's history.
  - `AppView`: the view rules of `App.tsx`, which are auto-naming, the collapse
    and page-size maps, input handling and the skip-permissions confirmation.
- **Pure view rules.**
  - `Sidebar`: the collapse override.
  - `SessionGroupView`: pagination.
  - `MessageInput`: key dispatch.
  - `MessageList`: the merged transcript.
- **The markdown helpers** (`Markdown`).
  - Language alias resolution.
  - Fence-language extraction, as the source's match loop.
  - HTML escaping, with its round trip.
  - The code-block renderer's choice.
  - On-demand language loading.
  - The bounded render cache with first-in-first-out eviction, as a class over
    the module-level `Set` and `Map`.

The shared modules are:

- `Wrappers`: `Option`, standing in for `undefined` and `null`.
- `Strings`: the JavaScript string built-ins the source uses.
- `Seqs`: `filter`, `map` and `findIndex`, with distinctness by key.
- `Sorting`: a stable sort by a total preorder, standing in for
  `Array.prototype.sort`.
- `SessionTypes` and `ApiTypes`: the records and push events of the service.

Nothing in the model talks to the network, the filesystem, the clock or the
DOM. The following are all parameters or inputs of the methods:

- requests, which are records;
- replies, which are inputs;
- the time;
- the filesystem;
- the fuzzy matcher's result;
- the markdown parser;
- the highlighter;
- the success of a dynamic import.

## Model

| member | source | states |
|---|---|---|
| Content.TextsOf | src/utils/content.ts:14-18 | the texts of the `text` blocks, never more texts than blocks; their order and count are stated by `Content.TextsOfSnoc` |
| Content.TextsOfSnoc | src/utils/content.ts:14-18 | the texts come out in block order, one per text block: none for no blocks, and a block added at the end adds its text at the end exactly when it is a text block |
| Content.ExtractTextOfStringOrMissing | src/utils/content.ts:7-12 | missing content gives '' and string content is returned unchanged |
| Content.BlockTextsRecoverable | src/utils/content.ts:14-18 | the newline-joined result of a block array splits back into exactly the text blocks' texts, in order, when none holds a newline |
| Content.NonTextBlocksIgnored | src/utils/content.ts:16 | inserting a non-text block anywhere leaves the extracted texts unchanged |
| Content.ExtractTextOfObject | src/utils/content.ts:21-25 | an object yields a non-empty result exactly when its `text` field is present and non-empty, and then that field |
| Content.HasToolUse | src/utils/content.ts:29-32 | true exactly when the content is a block array with some `tool_use` block |
| Content.GetWorkdirName | src/utils/content.ts:35-38 | the result is the suffix after the last '/', holds no '/', and is the whole path when it has no '/' |
| Content.WorkdirNameExamples | src/utils/content.test.ts:53-67 | nested path, single segment and trailing slash give "project", "project" and "" |
| SessionTransitions.IdsOf | src/hooks/useSession.ts:174 | the ids of a session list, position by position |
| SessionTransitions.SessionHash | src/hooks/useSession.ts:81 | the hash for a session starts with `#session=` and the rest is the id |
| SessionTransitions.HashSessionId | src/hooks/useSession.ts:62-65 | a hash names a session exactly when it starts with `#session=` |
| SessionTransitions.HashRoundTrip | src/hooks/useSession.ts:96-98 | reading the id back from a session's hash gives the id, and a hash that names an id is that id's hash |
| SessionTransitions.SyncedHash | src/hooks/useSession.ts:78-91 | with a non-empty active id the hash names it; otherwise the hash is cleared |
| SessionTransitions.SyncedStorage | src/hooks/useSession.ts:79-86 | the stored active id is kept exactly when the active id is non-empty, and then equals it |
| SessionTransitions.ReplaceId | src/hooks/useSession.ts:174 | every entry with the given id becomes the new session; the others and the length are unchanged |
| SessionTransitions.UpdateSession | src/hooks/useSession.ts:180-182 | `session:updated` keeps the ids in order and replaces the entries with the pushed id |
| SessionTransitions.UpdateUnknownIsNoop | src/hooks/useSession.ts:181 | an update for an id the list does not hold changes nothing |
| SessionTransitions.UpdateLastWins | src/hooks/useSession.ts:181 | two updates of the same id amount to the second one |
| SessionTransitions.SameIdsDistinct | src/hooks/useSession.ts:181 | a list with the same ids as a duplicate-free list is duplicate-free |
| SessionTransitions.RemoveSession | src/hooks/useSession.ts:184 | the kept entries are exactly the entries without that id, and no duplicate id appears |
| SessionTransitions.RemoveSessionSnoc | src/hooks/useSession.ts:184 | the kept entries stay in their order, each as often as it was listed: the empty list stays empty, and an entry added at the end survives at the end exactly when its id differs |
| SessionTransitions.RemoveAttentionOf | src/hooks/useSession.ts:185 | `session:ended` drops exactly the attention items of that session |
| SessionTransitions.RemoveAttentionOfSnoc | src/hooks/useSession.ts:185 | the other sessions' items stay in their order, each as often as it was listed |
| SessionTransitions.ActiveAttention | src/hooks/useSession.ts:75 | the attention items raised by the session the active id names; none when no session is active |
| SessionTransitions.ActiveAttentionSnoc | src/hooks/useSession.ts:75 | those items keep their input order and multiplicity |
| SessionTransitions.FirstPendingFor | src/hooks/useSession.ts:167 | the first placeholder created for the workdir, or -1 when there is none |
| SessionTransitions.OnCreatedAsWritten | src/hooks/useSession.ts:164-179 | `session:created` as written: with a placeholder pending for the workdir the length is kept; the list never grows by more than one entry |
| SessionTransitions.OnCreatedAsWrittenDuplicates | src/hooks/useSession.ts:167-174 | a late `session:created` for an already listed session that meets a second placeholder lists that session twice |
| SessionTransitions.IndexOfId | src/hooks/useSession.ts:167 | the first entry with the id, or -1 when there is none |
| SessionTransitions.ReplaceDistinctIsUpdate | src/hooks/useSession.ts:174 | on a duplicate-free list, replacing an id is a one-index update |
| SessionTransitions.UpdateInPlaceDistinct | src/hooks/useSession.ts:174 | writing a session over the one entry that may share its id keeps the list duplicate-free |
| SessionTransitions.OnCreated | src/hooks/useSession.ts:164-179 | the corrected `session:created` rule; `OnCreatedKeepsDistinct`, `OnCreatedDistinctCases`, `OnCreatedNewSession` and `OnCreatedKnownSession` state it |
| SessionTransitions.OnCreatedKeepsDistinct | src/hooks/useSession.ts:164-179 | corrected `session:created` keeps the list duplicate-free and leaves exactly one entry with the pushed id |
| SessionTransitions.OnCreatedDistinctCases | src/hooks/useSession.ts:168-177 | on each branch (listed id with a placeholder pending, placeholder, remove and append) the pushed session is the sole entry with its id |
| SessionTransitions.OnCreatedNewSession | src/hooks/useSession.ts:167-177 | for an unknown id: the first placeholder is replaced in place and a hash naming it follows; with none the session is appended |
| SessionTransitions.RemoveListedSession | src/hooks/useSession.ts:177 | on a duplicate-free list, removing a listed id takes out exactly that entry and keeps the rest in order |
| SessionTransitions.OnCreatedKnownSession | src/hooks/useSession.ts:164-179 | for a listed id (corrected rule) the hash is unchanged; with a placeholder pending the entry is replaced in place, with none the old entry goes and the session is appended last, as the source does |
| SessionTransitions.FirstEcho | src/hooks/useSession.ts:198-200 | the first optimistic user message with the pushed text, or -1 |
| SessionTransitions.Reconcile | src/hooks/useSession.ts:193-208 | the messages either keep their count or gain the message at the end |
| SessionTransitions.ReconcileSpec | src/hooks/useSession.ts:196-208 | the count is kept exactly when a user message finds an optimistic echo; then the first echo is replaced and nothing else changes; otherwise the message is appended |
| SessionTransitions.OnMessageMap | src/hooks/useSession.ts:191-209 | a message changes only its own session's list |
| SessionTransitions.EchoThenPushReconciles | src/hooks/useSession.ts:375-378 | the server's copy of a sent message replaces its echo |
| SessionTransitions.UpsertAttention | src/hooks/useSession.ts:215-217 | `attention:requested` drops the items with that id and appends the new one last |
| SessionTransitions.RemoveAttention | src/hooks/useSession.ts:218-220 | `attention:resolved` keeps exactly the items with other ids |
| SessionTransitions.RemoveAttentionSnoc | src/hooks/useSession.ts:218-220 | the kept items stay in their order, each as often as it was listed |
| SessionTransitions.UpsertAttentionSnoc | src/hooks/useSession.ts:215-217 | a request keeps the items with other ids in their order, each as often as it was listed, and puts the new item last |
| SessionTransitions.UpsertUnique | src/hooks/useSession.ts:216 | after a request exactly one item, the last, has that id |
| SessionTransitions.RequestThenResolve | src/hooks/useSession.ts:215-220 | resolving what was just requested leaves what removing it from the old list leaves |
| SessionTransitions.ResolutionFor | src/hooks/useSession.ts:389 | the resolution carries the behaviour, and carries the message exactly when it is non-empty |
| SessionTransitions.AppendInteraction | src/hooks/useSession.ts:221-226 | a resolved interaction is appended to its session's list only |
| SessionTransitions.TempId | src/hooks/useSession.ts:284 | placeholder ids start with `pending_` |
| SessionTransitions.TempIdInjective | src/hooks/useSession.ts:284 | different creation times give different placeholder ids |
| SessionTransitions.CreateConfig | src/hooks/useSession.ts:279-281 | a config is sent exactly when the mode is non-empty and not `default` |
| SessionTransitions.Placeholder | src/hooks/useSession.ts:286-296 | the placeholder's id, workdir, pending marker, status, optional name, mode, config and timestamps |
| SessionTransitions.RollbackRestores | src/hooks/useSession.ts:299-328 | removing the placeholder after a failed create gives back the list before it |
| SessionTransitions.NewerFirstIsPreorder | src/hooks/useSession.ts:316 | the newest-first comparison is a total preorder |
| SessionTransitions.NewestReal | src/hooks/useSession.ts:314-317 | the newest confirmed session of the workdir, or none exactly when there is no such session |
| SessionTransitions.RedirectHash | src/hooks/useSession.ts:318-320 | the hash moves only when it still names the placeholder and a new session was found, and then names that session |
| SessionTransitions.RenameIn | src/hooks/useSession.ts:354-356 | only the renamed session's name changes |
| SessionTransitions.SetModeIn | src/hooks/useSession.ts:363-365 | only that session's permission mode changes |
| SessionTransitions.FindSession | src/hooks/useSession.ts:73 | `activeSession` is the first entry with the active id, absent exactly when none has it |
| UseSession.ApplyEvent | src/hooks/useSession.ts:164-226 | under the corrected `session:created` rule, each push event handler keeps the session and attention lists free of duplicate ids |
| UseSession.ApplyEvents | src/hooks/useSession.ts:164-226 | under the corrected `session:created` rule, a run of push events keeps both lists duplicate-free |
| UseSession.EventsFrame | src/hooks/useSession.ts:164-226 | each event changes only the state its handler names; the awaiting flag only clears, and only on `session:ended` or a message |
| UseSession.EventsCompose | src/hooks/useSession.ts:129-227 | pushes are handled one at a time: a run split in two is its second half applied to the state the first half leaves |
| UseSession.Engine.constructor | src/hooks/useSession.ts:56-91 | the initial active id comes from a `#session=` hash, else from storage; empty lists; the sync effect has run |
| UseSession.Engine.SetActive | src/hooks/useSession.ts:77-91 | a changed active id is stored and written to the hash (or both cleared); an unchanged one triggers nothing |
| UseSession.Engine.ActiveSession | src/hooks/useSession.ts:73 | the listed session with the active id, absent exactly when none is listed |
| UseSession.Engine.SessionMessages | src/hooks/useSession.ts:74 | the active session's messages, none when its id has no list, and with no active session the list stored under '' if there is one |
| UseSession.Engine.SessionAttention | src/hooks/useSession.ts:75 | exactly the attention items of the active session, as `ActiveAttention` gives them, in input order |
| UseSession.Engine.Connect | src/hooks/useSession.ts:122-127 | nothing happens without a token; otherwise the error is cleared and a client exists |
| UseSession.Engine.OnConnect | src/hooks/useSession.ts:130-132 | the socket opening marks the engine connected and clears the error |
| UseSession.Engine.OnBootstrapLoaded | src/hooks/useSession.ts:133-151 | both lists are replaced; the id from the hash or else from storage is activated only when non-empty and listed, and is then the history to load |
| UseSession.Engine.OnHistoryLoaded | src/hooks/useSession.ts:152-159 | a reply that carries messages is stored under its session; a failure changes nothing |
| UseSession.Engine.OnDisconnect | src/hooks/useSession.ts:162 | the engine is marked disconnected |
| UseSession.Engine.OnError | src/hooks/useSession.ts:163 | the login error reads `Connection failed - check token` |
| UseSession.Engine.OnSessionCreated | src/hooks/useSession.ts:164-179 | the corrected `session:created` rule, which keeps the list duplicate-free |
| UseSession.Engine.OnSessionUpdated | src/hooks/useSession.ts:180-182 | the pushed session replaces its entry and the length is kept |
| UseSession.Engine.OnSessionEnded | src/hooks/useSession.ts:183-190 | the session and its attention are removed; awaiting clears only when the id is the stored active id |
| UseSession.Engine.OnMessage | src/hooks/useSession.ts:191-214 | the message is reconciled into its session's list; awaiting clears only for the stored active id |
| UseSession.Engine.OnAttention | src/hooks/useSession.ts:215-217 | the attention item is upserted |
| UseSession.Engine.OnAttentionResolved | src/hooks/useSession.ts:218-220 | the resolved attention item is removed |
| UseSession.Engine.OnInteractionResolved | src/hooks/useSession.ts:221-226 | the interaction is appended to its session's list |
| UseSession.Engine.Receive | src/hooks/useSession.ts:129-227 | dispatching a push event has the effect the pure event function gives |
| UseSession.Engine.BeginRefresh | src/hooks/useSession.ts:238-240 | a refresh starts only with a client and none in flight, and then sets the flag |
| UseSession.Engine.EndRefresh | src/hooks/useSession.ts:241-252 | on success both lists are replaced, on failure neither is; the flag is always cleared |
| UseSession.Engine.SelectSession | src/hooks/useSession.ts:255-269 | the id becomes active, awaiting clears, and history is fetched exactly when it is not loaded and a client exists |
| UseSession.Engine.CreateSession | src/hooks/useSession.ts:271-306 | with a client the placeholder goes first, the hash names it, and the request sent carries the workdir, prompt and name as given and the mode as `config` only when set and not 'default'; without one nothing changes and nothing is sent; a fresh id keeps the list duplicate-free |
| UseSession.Engine.OnCreateFailed | src/hooks/useSession.ts:325-330 | a failed creation removes the placeholder and clears the hash |
| UseSession.Engine.OnCreationRefresh | src/hooks/useSession.ts:308-324 | the fresh list replaces the old one and the hash is redirected as the redirect rule says; without a client or on failure nothing changes |
| UseSession.Engine.DeleteSession | src/hooks/useSession.ts:333-349 | after a successful delete the session and its messages go and an active id naming it is cleared; a failure changes nothing; the hash and the stored id change only when the deleted session was active |
| UseSession.Engine.RenameSession | src/hooks/useSession.ts:351-357 | only after a successful call is the name changed; a failed call is rejected to the caller |
| UseSession.Engine.UpdateSessionPermissionMode | src/hooks/useSession.ts:359-369 | only after a successful call is the mode changed; a failure is swallowed |
| UseSession.Engine.SendMessage | src/hooks/useSession.ts:371-381 | a non-blank text with an active session and a client appends an optimistic echo and sets awaiting; otherwise nothing changes |
| UseSession.Engine.ResolveAttention | src/hooks/useSession.ts:383-391 | with a client, the request names the attention item, and its resolution carries the behaviour, and the message exactly when it is non-empty |
| UseSession.Engine.InterruptSession | src/hooks/useSession.ts:393-396 | the interrupt call goes out, with the given id, exactly when a client exists |
| UseSession.Engine.OnHashChange | src/hooks/useSession.ts:94-120 | a hash naming another id activates it and fetches unloaded, non-placeholder history with a client; an empty hash deactivates; otherwise nothing changes |
| Grouping.IndexAttention | src/hooks/useSessionGroups.ts:12-20 | the first loop maps every session id to exactly its attention items, in input order, and stores no empty list |
| Grouping.IndexStep | src/hooks/useSessionGroups.ts:13-19 | one turn of the first loop appends the item to its own session's list only |
| Grouping.CollectGroups | src/hooks/useSessionGroups.ts:22-43 | the second loop creates one group per key, in order of first appearance, holding that key's sessions in input order with their attention items |
| Grouping.CollectStep | src/hooks/useSessionGroups.ts:27-42 | one turn of the second loop adds the session to its key's group, creating the group the first time |
| Grouping.SortEachGroup | src/hooks/useSessionGroups.ts:46-53 | the third loop sorts each group's members newest first and leaves the keys |
| Grouping.LookUp | src/hooks/useSessionGroups.ts:62 | `keys.map(k => groups[k])`, position by position |
| Grouping.KeysInOrderSpec | src/hooks/useSessionGroups.ts:22-43 | a key is listed exactly when some session has it |
| Grouping.KeysDistinct | src/hooks/useSessionGroups.ts:27-41 | each key is listed once |
| Grouping.MembersOfAbsentKey | src/hooks/useSessionGroups.ts:27-42 | a key no session has has no members |
| Grouping.MembersBelong | src/hooks/useSessionGroups.ts:29-40 | every member is an input session with that key and carries exactly its attention items |
| Grouping.MemberPresent | src/hooks/useSessionGroups.ts:23-42 | every session is a member of its key |
| Grouping.MemberCountAll | src/hooks/useSessionGroups.ts:23-42 | over all keys the members are as many as the sessions |
| Grouping.CountPreserved | src/hooks/useSessionGroups.ts:11-63 | grouping neither loses nor repeats a session |
| Grouping.InGroups | src/hooks/useSessionGroups.ts:56-62 | the result holds exactly the groups of the sessions' keys |
| Grouping.EverySessionGrouped | src/hooks/useSessionGroups.ts:23-62 | every session is in its key's group, with exactly its attention items |
| Grouping.GroupKeysDistinct | src/hooks/useSessionGroups.ts:56-62 | no two groups share a workdir |
| Grouping.GroupContents | src/hooks/useSessionGroups.ts:24-42 | a group is named after its key, is not empty, and each member is an input session of that key with its own attention items |
| Grouping.NewerFirstIsPreorder | src/hooks/useSessionGroups.ts:49-51 | the newest-first comparator is a total preorder |
| Grouping.HigherFirstIsPreorder | src/hooks/useSessionGroups.ts:56-60 | the rank comparator is a total preorder |
| Grouping.GroupsOrdered | src/hooks/useSessionGroups.ts:45-60 | members are newest first within a group and groups are by rank, highest first |
| Grouping.AttentionPart | src/hooks/useSessionGroups.ts:140-143 | cutting a group to its sessions with attention keeps its name and workdir |
| Grouping.AttentionFilterSpec | src/hooks/useSessionGroups.ts:136-145 | `all` shows the groups unchanged; `attention` shows exactly the sessions with attention, inside the cut-down groups that keep any |
| UseSessionGroups.GroupKey | src/hooks/useSessionGroups.ts:24 | an empty workdir groups under `Unknown`; any other under itself |
| UseSessionGroups.ByLatestAgrees | src/hooks/useSessionGroups.ts:56-60 | on keys that name groups, comparing keys by their group's first `modified` is comparing the groups |
| UseSessionGroups.SortedKeysKnown | src/hooks/useSessionGroups.ts:56-62 | the sorted keys still all name groups, so the final `filter` drops nothing |
| UseSessionGroups.SortedKeysGiveGroups | src/hooks/useSessionGroups.ts:56-62 | looking up the sorted keys gives the specified groups |
| UseSessionGroups.GroupByWorkdir | src/hooks/useSessionGroups.ts:11-63 | the three loops and the key sort compute the specified grouping |
| UseSessionGroups.GroupingPartitions | src/hooks/useSessionGroups.ts:11-63 | every session is in exactly one group, no workdir repeats, and the count is kept |
| UseSessionGroups.GroupedSessionContents | src/hooks/useSessionGroups.ts:24-42 | a group is named by `getWorkdirName` of its workdir and each member is an input session of it with its own attention items |
| UseSessionGroups.GroupingOrdered | src/hooks/useSessionGroups.ts:45-60 | members by `modified`, newest first; groups by their first member's `modified`, newest first |
| UseSessionGroups.Narrow | src/hooks/useSessionGroups.ts:121-131 | narrowing a group keeps its name and workdir |
| UseSessionGroups.BlankSearchShowsAll | src/hooks/useSessionGroups.ts:102 | a blank query shows the groups unchanged |
| UseSessionGroups.SearchSpec | src/hooks/useSessionGroups.ts:101-133 | a matched workdir shows its whole group; otherwise only the matched sessions, and empty groups vanish |
| UseSessionGroups.FilteredGroups | src/hooks/useSessionGroups.ts:101-145 | the attention filter over the search result; `UseSessionGroups.BlankSearchShowsAll`, `UseSessionGroups.SearchSpec` and `Grouping.AttentionFilterSpec` state the two stages |
| UseSessionGroups.SearchExpanded | src/hooks/useSessionGroups.ts:148-156 | with a non-blank query every shown group's workdir maps to false (open); else nothing |
| UseSessionGroups.SearchExpandedBlank | src/hooks/useSessionGroups.ts:148-156 | the expanded map is empty exactly when the query is blank or nothing is shown |
| ApiClient.DefaultHeaders | src/api/client.ts:27-29 | every request carries a JSON content type and `Bearer <token>` authorization |
| ApiClient.MergeHeaders | src/api/client.ts:27-31 | the headers are the defaults and the caller's, and a caller-supplied header wins |
| ApiClient.RequestFor | src/api/client.ts:25-32 | the request goes to `/api` + path with the caller's method and body and the merged headers |
| ApiClient.Failure | src/api/client.ts:34-39 | a request fails exactly when the response is not OK |
| ApiClient.ErrorMessageSpec | src/api/client.ts:34-37 | the thrown message is the body's `error`, the status text for a non-JSON body, and `Request failed` when the JSON has no `error` |
| ApiClient.BrowsePath | src/api/client.ts:88-90 | an empty path asks for `/browse`; any other adds `?path=` and the encoded path |
| ApiClient.BrowseRequest | src/api/client.ts:88-91 | `browse` is a plain GET to `/api/browse…` with the default headers |
| ApiClient.DispatchSpec | src/api/client.ts:149-175 | each of the seven tags selects its own handler, no two the same, and the call carries all of the event's fields |
| ApiClient.HandleFrame | src/api/client.ts:132-139 | only a well-formed event whose handler is registered causes a call, and then exactly that event's call |
| ApiClient.SocketUrl | src/api/client.ts:115-116 | the socket URL uses `wss://` on https and `ws://` otherwise, and ends in `/ws?token=` + token |
| ApiClient.Client.constructor | src/api/client.ts:15-22 | a new client has its token, no socket and no handlers |
| ApiClient.Client.Subscribe | src/api/client.ts:112-117 | `subscribe` records the handlers and opens the socket at the socket URL |
| ApiClient.Client.OnOpen | src/api/client.ts:119-122 | on open the subscribe frame is sent, then `onConnect` is called if registered |
| ApiClient.Client.OnClose | src/api/client.ts:124-126 | on close `onDisconnect` is called if registered, and nothing else happens |
| ApiClient.Client.OnSocketError | src/api/client.ts:128-130 | on a socket error `onError` is called if registered |
| ApiClient.Client.OnSocketMessage | src/api/client.ts:132-139 | a frame causes at most its handler's call; a malformed frame changes nothing and the socket stays open |
| ApiClient.Client.Unsubscribe | src/api/client.ts:141-146 | the returned closure closes an open socket once and leaves none; a second call is a no-op |
| ApiClient.Client.Disconnect | src/api/client.ts:178-181 | `disconnect` closes an open socket and leaves none; a second call is a no-op |
| ApiClient.SubscribeLifecycle | src/api/client.ts:112-146 | subscribing, opening and closing twice gives: subscribe frame, `onConnect`, one close |
| LegacyClient.LegacyDispatchSpec | public/js/client.js:107-129 | six tags are dispatched, each to the handler the current client uses for it; `interaction:resolved` calls nothing |
| LegacyClient.LegacyHandleFrame | public/js/client.js:92-97 | only a well-formed event with a case and a registered handler causes a call, and then that event's call |
| LegacyClient.StripTrailingSlash | public/js/client.js:5 | one trailing '/' is removed, and nothing else changes |
| LegacyClient.StripOneSlashOnly | public/js/client.js:5 | only one slash goes: `http://h//` keeps one |
| LegacyClient.HttpToWs | public/js/client.js:76 | a leading `http` becomes `ws`; anything else is kept |
| LegacyClient.LegacySocketUrl | public/js/client.js:76 | the socket URL ends with `?token=` + token |
| LegacyClient.HttpPrefix | public/js/client.js:76 | the rewrite replaces exactly the leading `http` |
| LegacyClient.LegacySocketSchemes | public/js/client.js:76 | `http://` gives `ws://` and `https://` gives `wss://`, with the token appended |
| LegacyClient.LegacySocketUpperCase | public/js/client.js:76 | the match is case-sensitive: `HTTP://` is left alone |
| LegacyClient.LegacyRequestFor | public/js/client.js:11-20 | the request goes to base + path with the caller's method and body and the same header merge |
| LegacyClient.LegacyFailure | public/js/client.js:21-25 | a request fails exactly when the response is not OK |
| LegacyClient.LegacyErrorMessageSpec | public/js/client.js:21-24 | the message is never empty: `error`, or the status text for a non-JSON body, else `Request failed`; it differs from the current client only where that one gives '' |
| LegacyClient.LegacyClient.constructor | public/js/client.js:4-9 | the base URL loses one trailing '/'; no socket, no handlers |
| LegacyClient.LegacyClient.Subscribe | public/js/client.js:73-77 | the handlers are recorded and the socket opened at the derived URL |
| LegacyClient.LegacyClient.OnOpen | public/js/client.js:79-82 | the subscribe frame, then `onConnect`; with no socket the call throws first and nothing happens |
| LegacyClient.LegacyClient.OnClose | public/js/client.js:84-86 | `onDisconnect` is called if registered |
| LegacyClient.LegacyClient.OnSocketError | public/js/client.js:88-90 | `onError` is called if registered |
| LegacyClient.LegacyClient.OnSocketMessage | public/js/client.js:92-97 | a frame causes at most its handler's call; malformed ones are swallowed |
| LegacyClient.LegacyClient.Unsubscribe | public/js/client.js:99-104 | an open socket is closed once and forgotten |
| LegacyClient.LegacyUnsubscribeTwice | public/js/client.js:92-104 | a second unsubscribe and a malformed frame add nothing |
| LegacyApp.LegacyKey | public/js/app.js:37 | an empty workdir groups under `unknown`; any other under itself |
| LegacyApp.LegacyName | public/js/app.js:38 | the group name is the last path segment, or `Unknown` when that is empty |
| LegacyApp.MaxActivity | public/js/app.js:53-54 | the largest `lastActivity` of a group's sessions |
| LegacyApp.LegacyGroupByWorkdir | public/js/app.js:26-57 | the legacy loops and sorts compute the specified grouping with the legacy key, name, time and rank |
| LegacyApp.LegacyGroupingPartitions | public/js/app.js:35-46 | every session is in exactly one group, no workdir repeats, and the count is kept |
| LegacyApp.FirstIsLatest | public/js/app.js:48-54 | in a group sorted newest first, the largest activity is the first session's |
| LegacyApp.LegacyGroupOrdered | public/js/app.js:48-50 | a group is non-empty, sorted by `lastActivity` newest first, and ranked by its first session |
| LegacyApp.LegacyGroupsOrdered | public/js/app.js:52-56 | groups are ordered by their latest activity, newest first |
| LegacyApp.LegacyFilter | public/js/app.js:157 | only the value `attention` selects the attention filter |
| LegacyApp.LegacyApp.FilteredGroups | public/js/app.js:157-159 | the legacy grouping with the selected filter; `LegacyApp.LegacyFilterSpec` states it |
| LegacyApp.LegacyFilterSpec | public/js/app.js:156-159 | `attention` shows only sessions with attention and no empty group; any other value shows every group |
| LegacyApp.LegacyCreated | public/js/app.js:102-104 | `session:created` drops entries with that id and appends the session last |
| LegacyApp.LegacyCreatedSnoc | public/js/app.js:103 | the entries with other ids keep their order, each as often as it was listed, before the new session |
| LegacyApp.LegacyUpdated | public/js/app.js:105-107 | `session:updated` replaces every entry with that id and keeps the length |
| LegacyApp.LegacyEnded | public/js/app.js:108-109 | `session:ended` keeps exactly the sessions with other ids |
| LegacyApp.LegacyEndedSnoc | public/js/app.js:109 | the kept sessions stay in their order, each as often as it was listed |
| LegacyApp.LegacyMessage | public/js/app.js:112-117 | a message is always appended to its own session's list, with no reconciliation |
| LegacyApp.LegacyCreatedUnique | public/js/app.js:103 | after `session:created` exactly one entry, the last, has the id |
| LegacyApp.LegacyUpdateRules | public/js/app.js:106 | an update for an unknown id changes nothing; of two updates of one id the last wins |
| LegacyApp.LegacyMessageCounts | public/js/app.js:115 | each message adds exactly one entry to its session's list |
| LegacyApp.LegacyApp.constructor | public/js/app.js:60-75 | the stored configuration, or `http://localhost:3100` with no token; empty state and filter `all` |
| LegacyApp.LegacyApp.Connect | public/js/app.js:85-89 | a client is created only when URL and token are both set, with the normalised base URL; no other state changes |
| LegacyApp.LegacyApp.Handle | public/js/app.js:91-124 | each handler applies its reducer: connected flag, created/updated/ended on sessions, ended/requested/resolved on attention, append on messages |
| LegacyApp.LegacyApp.OnListed | public/js/app.js:94-99 | the bootstrap replaces both lists |
| LegacyApp.LegacyApp.CreateSession | public/js/app.js:134-136 | a creation is requested only with a workdir, with the prompt omitted when empty |
| LegacyApp.LegacyApp.CreateSessionDone | public/js/app.js:137-139 | after the backend accepts, the form is closed and cleared |
| LegacyApp.LegacyApp.SendMessage | public/js/app.js:142-144 | a message is sent only when the input is not blank and a session is active |
| LegacyApp.LegacyApp.SendMessageDone | public/js/app.js:145 | after the backend accepts, the input is cleared |
| LegacyApp.LegacyApp.ActiveSession | public/js/app.js:152 | the session with the active id, or none when no session has it |
| LegacyApp.LegacyApp.SessionMessages | public/js/app.js:153 | the active session's messages, or none |
| LegacyApp.LegacyApp.SessionAttention | public/js/app.js:154 | exactly the attention items of the active session, as `ActiveAttention` gives them, in input order |
| ServerConfig.EnvOr | src/server/config.ts:4-6 | a set, non-empty variable is used; an unset or empty one gives the fallback |
| ServerConfig.DigitPrefix | src/server/config.ts:4 | the longest run of leading digits |
| ServerConfig.ParseInt | src/server/config.ts:4 | `parseInt` gives NaN exactly when no digit follows the whitespace and sign |
| ServerConfig.ParseIntRoundTrip | src/server/config.ts:4 | `parseInt` reads back the decimal text of a number and stops at the first non-digit |
| ServerConfig.ParseIntDigitLed | src/server/config.ts:4 | text that starts with a digit is read as its digit prefix |
| ServerConfig.DigitPrefixOf | src/server/config.ts:4 | the digit prefix of digits followed by a non-digit is those digits |
| ServerConfig.Port | src/server/config.ts:4 | `PORT`; `ServerConfig.PortDefault`, `ServerConfig.ParseInt` and `ServerConfig.ParseIntRoundTrip` state it |
| ServerConfig.PortDefault | src/server/config.ts:4 | an unset or empty `PORT` gives 3000 |
| ServerConfig.BackendUrl | src/server/config.ts:6 | the backend URL defaults to `http://localhost:3100` and is never empty |
| ServerConfig.AllowedRoots | src/server/config.ts:16-18 | the allowed roots are never empty |
| ServerConfig.RootEntries | src/server/config.ts:10-13 | the usable entries of `ALLOWED_ROOTS`; `ServerConfig.AllowedRootsSpec` states them |
| ServerConfig.AllowedRootsSpec | src/server/config.ts:10-18 | the roots are the trimmed, non-empty comma-separated entries, resolved, in order; with none, the resolved home directory alone |
| ServerConfig.AllowedRootsUnset | src/server/config.ts:16-18 | an unset variable gives the resolved home directory alone |
| Browse.WithinRootsSpec | src/server/routes/browse.ts:12-17 | a canonical path is allowed exactly when it equals some root or continues one after a '/' |
| Browse.IsWithinAllowedRoots | src/server/routes/browse.ts:12-17 | the target is resolved and then matched against the roots; `Browse.WithinRootsSpec` states the match |
| Browse.PrefixSiblingOutside | src/server/routes/browse.ts:14-16 | `/home/userX` is not under `/home/user`, while `/home/user/x` is |
| Browse.RootEntries | src/server/routes/browse.ts:27-31 | one directory entry per root, in order, named by its last segment |
| Browse.Directories | src/server/routes/browse.ts:52-67 | the kept entries are exactly the visible names whose stat says directory, each with its joined path |
| Browse.DirectoriesSnoc | src/server/routes/browse.ts:52-67 | no names give no entries, and a name appended to the listing appends its entry exactly when it is visible and a directory, so the entries keep listing order |
| Browse.ByNameIsPreorder | src/server/routes/browse.ts:68 | the name order is a total preorder |
| Browse.NoPathListsRoots | src/server/routes/browse.ts:26-34 | with no path: one directory entry per root, path '' and `isRoot` true |
| Browse.OutcomeCascade | src/server/routes/browse.ts:36-74 | out of bounds is 403 whatever the filesystem holds; in bounds but missing is 404; a failed read is 500; otherwise a listing |
| Browse.ListingSpec | src/server/routes/browse.ts:51-70 | a listing holds exactly the visible directories, sorted by name, with the canonical path and `isRoot` false |
| Browse.HandleBrowse | src/server/routes/browse.ts:19-75 | the whole handler; `Browse.NoPathListsRoots`, `Browse.OutcomeCascade` and `Browse.ListingSpec` state its outcomes |
| ServerRoutes.StartsWithChain | src/server/index.ts:12-14 | a URL that starts with `/api/browse` starts with `/api/` |
| ServerRoutes.RouteFor | src/server/index.ts:9-19 | the request router; `ServerRoutes.RouteSpec` and `ServerRoutes.RouteExamples` state its choices |
| ServerRoutes.UpgradeFor | src/server/index.ts:23-29 | the upgrade router; `ServerRoutes.UpgradeSpec` states its choice |
| ServerRoutes.RouteSpec | src/server/index.ts:9-19 | `/api/browse…` is browsed, checked first; other `/api/…` is proxied; everything else, and a missing URL, is static |
| ServerRoutes.RouteExamples | src/server/index.ts:12-15 | `/api/browsers` is browsed, `/api` is static, `/api/sessions` is proxied |
| ServerRoutes.UpgradeSpec | src/server/index.ts:23-29 | an upgrade is proxied exactly when its URL starts with `/ws`; a missing URL is refused |
| ApiProxy.BackendPath | src/server/routes/api-proxy.ts:8 | one leading `/api` is removed; a missing URL gives `/` |
| ApiProxy.BackendPathOnce | src/server/routes/api-proxy.ts:8 | only one `/api` goes: `/api/api/x` becomes `/api/x` |
| ApiProxy.OutboundFor | src/server/routes/api-proxy.ts:5-13 | the method is kept and the headers too, except `host`, which becomes the backend's |
| ApiProxy.Reply.constructor | src/server/routes/api-proxy.ts:4 | no head written, nothing sent yet, not crashed |
| ApiProxy.Reply.OnBackendResponse | src/server/routes/api-proxy.ts:14-17 | the backend's status, or 500 when it has none, and its headers are copied; on a reply whose head was already written `writeHead` throws, the reply is unchanged and the process crashes |
| ApiProxy.Reply.OnBackendError | src/server/routes/api-proxy.ts:19-23 | an outbound error before any head answers 502 with `{"error":"Backend unavailable"}`; after the head `writeHead(502)` throws, the reply is unchanged and the process crashes |
| ApiProxy.FailedForward | src/server/routes/api-proxy.ts:19-23 | a backend that fails before answering gives the caller 502 and that body, without a crash |
| ApiProxy.ResetAfterHead | src/server/routes/api-proxy.ts:14-23 | a backend that answers and then fails leaves the caller its status and headers and crashes the process |
| WebSocketProxy.HeaderLine | src/server/routes/websocket.ts:27 | a field line is `name: ` followed by the value and ended by CRLF |
| WebSocketProxy.FieldLinesReference | src/server/routes/websocket.ts:25-29 | the header block is the lines of the defined headers, in order |
| WebSocketProxy.FieldLinesSound | src/server/routes/websocket.ts:25-29 | every line written is the line of a defined header |
| WebSocketProxy.FieldLinesComplete | src/server/routes/websocket.ts:25-29 | no defined header is skipped |
| WebSocketProxy.FieldLinesNone | src/server/routes/websocket.ts:26 | undefined headers give no line at all |
| WebSocketProxy.UpgradeHeaders | src/server/routes/websocket.ts:14-19 | the incoming headers, with `host`, `connection: Upgrade` and `upgrade: websocket` overriding |
| WebSocketProxy.OutboundRequest | src/server/routes/websocket.ts:6-20 | a GET to `/?token=` + token (`null` when absent), on the backend port or 80, with the upgrade headers |
| WebSocketProxy.RequestPathValid | src/server/routes/websocket.ts:7-12 | `http.request` accepts the outbound path exactly when the decoded token (or `null`) has only characters U+0021 to U+00FF |
| WebSocketProxy.SpacedTokenRefused | src/server/routes/websocket.ts:7-12 | `?token=a%20b` reaches `http.request` as a path with a space, which it refuses; a missing token gives an accepted path |
| WebSocketProxy.Bridge.constructor | src/server/routes/websocket.ts:5-20 | the bridge sends the outbound request and has written nothing yet; it has crashed exactly when `http.request` refuses the path |
| WebSocketProxy.Bridge.WriteFieldLines | src/server/routes/websocket.ts:25-29 | the header loop writes exactly the header block |
| WebSocketProxy.Bridge.OnUpgrade | src/server/routes/websocket.ts:22-41 | on accept: the 101 line, the header block, the empty line, then the head only when non-empty |
| WebSocketProxy.Bridge.OnResponse | src/server/routes/websocket.ts:43-54 | on decline: the status line, the header block, the empty line, then the body |
| WebSocketProxy.Bridge.OnRequestError | src/server/routes/websocket.ts:56-59 | a transport error destroys the browser's socket and writes nothing |
| WebSocketProxy.Bridge.OnBackendSocketError | src/server/routes/websocket.ts:39 | after the upgrade, an error on the service's socket destroys the browser's |
| WebSocketProxy.Bridge.OnClientSocketError | src/server/routes/websocket.ts:22-41 | after the upgrade, an error on the browser's socket destroys the service's; before it, and while a refusal is relayed, no listener handles the error and the process crashes |
| WebSocketProxy.BytesAppend | src/server/routes/websocket.ts:23-34 | the bytes of two runs of writes are the bytes of each, in order |
| WebSocketProxy.UpgradeBytes | src/server/routes/websocket.ts:23-34 | the browser receives the 101 line, the field lines, CRLF and the head; an empty head adds no byte |
| WebSocketProxy.ResponseBytes | src/server/routes/websocket.ts:44-53 | a relayed response reads as status line, field lines, CRLF and body |
| WebSocketProxy.StatusLineCode | src/server/routes/websocket.ts:44 | the status line starts `HTTP/1.1 ` and its digits read back as the code |
| UseModal.ActiveOf | src/hooks/useModal.ts:22-25 | there is an active modal exactly when the stack is non-empty, and it is the top entry's id |
| UseModal.DataOf | src/hooks/useModal.ts:27-30 | the modal data is the top entry's data, and none on an empty stack |
| UseModal.OpenedSpec | src/hooks/useModal.ts:32-47 | after opening, the new modal is active and carries its data; it is pushed over the stack exactly when it is a child of the top modal, otherwise it replaces the whole stack |
| UseModal.ClosedSpec | src/hooks/useModal.ts:49-55 | closing drops exactly the top entry and shows its parent; a stack of one or none becomes empty |
| UseModal.ChildrenFacts | src/types/ui.ts:11-15 | only the file browser is ever a child, it has no children of its own, and it is not its own parent |
| UseModal.NestedDepth | src/types/ui.ts:11-15 | a stack where each entry is a child of the one below holds at most two modals |
| UseModal.NestedPreserved | src/hooks/useModal.ts:32-59 | opening, closing and closing all keep the stack nested, so it never holds more than two modals |
| UseModal.ModalStack.constructor | src/hooks/useModal.ts:20 | the stack starts empty |
| UseModal.ModalStack.OpenModal | src/hooks/useModal.ts:32-47 | the new stack is the opened stack of the old one |
| UseModal.ModalStack.CloseModal | src/hooks/useModal.ts:49-55 | the new stack is the closed stack of the old one |
| UseModal.ModalStack.CloseAllModals | src/hooks/useModal.ts:57-59 | the stack becomes empty |
| UseModal.Scenarios | src/hooks/useModal.test.ts:23-78 | new session then file browser stacks two, closing returns to new session, closing all empties the stack, and a modal's data is read back |
| UseSlashCommands.FilteredCommands | src/hooks/useSlashCommands.ts:27-35 | an empty filter lists every command; otherwise a command is listed exactly when its name or description contains the filter, ignoring case; never more than the full list |
| UseSlashCommands.FilterIgnoresCase | src/hooks/useSlashCommands.ts:30-34 | filtering by a text and by its lower-cased form give the same list |
| UseSlashCommands.FilteredKeepsOrder | src/hooks/useSlashCommands.ts:31-34 | the matching commands come out in their original order: appending a command to the list appends it to the result exactly when it matches |
| UseSlashCommands.ArrowDownIndex | src/hooks/useSlashCommands.ts:53-55 | the highlight moves down one row, but not past the last listed command |
| UseSlashCommands.ArrowUpIndex | src/hooks/useSlashCommands.ts:57-59 | the highlight moves up one row, but not above the first |
| UseSlashCommands.ArrowsStayInRange | src/hooks/useSlashCommands.ts:53-59 | from a highlight inside a non-empty list both arrows keep it inside; on an empty list arrow-down gives -1 |
| UseSlashCommands.SlashMenu.constructor | src/hooks/useSlashCommands.ts:23-25 | the menu starts hidden with an empty filter and the first row highlighted |
| UseSlashCommands.SlashMenu.SetSlashFilter | src/hooks/useSlashCommands.ts:24 | only the filter changes |
| UseSlashCommands.SlashMenu.SetSelectedSlashIndex | src/hooks/useSlashCommands.ts:25 | only the highlighted row changes |
| UseSlashCommands.SlashMenu.OpenSlashMenu | src/hooks/useSlashCommands.ts:37-39 | the menu is shown and nothing else changes |
| UseSlashCommands.SlashMenu.CloseSlashMenu | src/hooks/useSlashCommands.ts:41-45 | the menu is hidden, the filter cleared and the highlight reset to the first row |
| UseSlashCommands.SlashMenu.SelectCommand | src/hooks/useSlashCommands.ts:47-51 | the input becomes '/' plus the command's name plus a space; the menu is hidden and the filter cleared, the highlight kept |
| UseSlashCommands.SlashMenu.HandleArrowDown | src/hooks/useSlashCommands.ts:53-55 | the highlight moves down within the currently filtered list |
| UseSlashCommands.SlashMenu.HandleArrowUp | src/hooks/useSlashCommands.ts:57-59 | the highlight moves up, stopping at the first row |
| UseRename.SaveCallFor | src/hooks/useRename.ts:32-35 | the save callback runs exactly when an id is being edited and the edited name is not blank, and it receives that id and the trimmed name, which is non-empty |
| UseRename.Rename.constructor | src/hooks/useRename.ts:19-20 | nothing is being edited and the edited name is empty |
| UseRename.Rename.StartRename | src/hooks/useRename.ts:22-25 | the given session is being edited, starting from its current name |
| UseRename.Rename.SetEditedName | src/hooks/useRename.ts:20 | only the edited name changes |
| UseRename.Rename.CancelRename | src/hooks/useRename.ts:27-30 | editing stops and the edited name is cleared |
| UseRename.Rename.SaveRename | src/hooks/useRename.ts:32-38 | the save call is the one the rule gives; without a call, editing stops at once; with one, the state waits for the call to settle |
| UseRename.Rename.SaveSettled | src/hooks/useRename.ts:34-37 | a save that resolves stops editing and clears the name; one that rejects leaves both as they were |
| UseRename.RenameFlow | src/hooks/useRename.ts:22-38 | start, type a padded name and save: the callback gets the trimmed name and editing stops |
| UseFileBrowser.HistoryAfter | src/hooks/useFileBrowser.ts:30-34 | a loaded non-root path is appended to the history, loading the roots clears it, and a root path leaves it unchanged |
| UseFileBrowser.FileBrowser.constructor | src/hooks/useFileBrowser.ts:18-20 | empty path, entries and history |
| UseFileBrowser.FileBrowser.LoadBrowsePath | src/hooks/useFileBrowser.ts:22-26 | a browse of the path is started exactly when there is a client |
| UseFileBrowser.FileBrowser.OnPathLoaded | src/hooks/useFileBrowser.ts:26-37 | a reply sets the entries and path (empty when missing) and updates the history; a failed browse changes nothing |
| UseFileBrowser.FileBrowser.NavigateUp | src/hooks/useFileBrowser.ts:40-60 | with more than one visited path the last is dropped and the new last one is reloaded; otherwise, or for an empty parent, the roots are loaded; no client means no request |
| UseFileBrowser.FileBrowser.OnParentLoaded | src/hooks/useFileBrowser.ts:47-53 | a reply sets the entries and path; a failure changes nothing and falls back to loading the roots |
| UseFileBrowser.FileBrowser.Reset | src/hooks/useFileBrowser.ts:62-66 | path, entries and history are emptied |
| UseFileBrowser.DownDownUp | src/hooks/useFileBrowser.ts:22-60 | two directories down gives a history of both, going up reloads the first and keeps only it, and loading the roots clears the history |
| AppView.AutoName | src/App.tsx:184-190 | the name derived for a new session; `AppView.AutoNameExplicit`, `AppView.AutoNameShort` and `AppView.AutoNameLong` state it |
| AppView.AutoNameExplicit | src/App.tsx:184-198 | an explicit name is passed unchanged; with neither name nor prompt no name is passed |
| AppView.AutoNameShort | src/App.tsx:185-186 | a prompt within the 128-character limit names the session by its trimmed text, and gives no name when blank |
| AppView.AutoNameLong | src/App.tsx:185-189 | a longer prompt whose trimmed head has a space is cut before the last space and ends in '...'; a generated name never exceeds the limit plus three |
| AppView.Toggled | src/App.tsx:114-119 | the workdir's flag flips, an unset flag counting as expanded, and every other workdir keeps its flag |
| AppView.CollapseAll | src/App.tsx:121-132 | when every workdir is collapsed all flags are cleared; otherwise exactly the sessions' workdirs are marked collapsed |
| AppView.CollapseAllTwice | src/App.tsx:121-132 | pressing collapse-all twice, starting from a state where some workdir is expanded, expands everything |
| AppView.ShowMore | src/App.tsx:135-140 | the workdir's count grows by the given amount from its stored value, five when unset; other counts are unchanged |
| AppView.ShowAll | src/App.tsx:142-147 | the workdir's count becomes the total; other counts are unchanged |
| AppView.App.constructor | src/App.tsx:50-69 | empty input; the collapse flags and page sizes are the stored ones, or empty when nothing usable is stored; the empty new-session form in the default mode; nothing staged |
| AppView.App.ToggleWorkdirCollapse | src/App.tsx:114-119 | the flags become the toggled flags |
| AppView.App.CollapseAllWorkdirs | src/App.tsx:121-132 | the flags become the collapse-all result for the sessions' workdirs |
| AppView.App.ShowMoreSessions | src/App.tsx:135-140 | the counts become the show-more result |
| AppView.App.ShowAllSessions | src/App.tsx:142-147 | the counts become the show-all result |
| AppView.App.HandleInputChange | src/App.tsx:150-158 | the input is stored; a leading '/' opens the menu filtered by the rest of the text, anything else closes and resets it |
| AppView.App.HandleSend | src/App.tsx:160-165 | blank input sends nothing and changes nothing; otherwise the text is sent unchanged, the input cleared and the menu closed |
| AppView.App.SetForm | src/App.tsx:61-66 | only the form changes |
| AppView.App.HandleCreateSession | src/App.tsx:180-201 | without a workdir nothing happens; otherwise the session is created with the workdir, the prompt when non-empty, the derived name and the mode, every modal closes and the form resets |
| AppView.App.HandlePermissionModeChange | src/App.tsx:212-218 | the skip-permissions mode is staged and nothing is sent; any other mode is sent at once |
| AppView.App.ConfirmPermissionChange | src/App.tsx:220-228 | the staged change, if any, is sent, and nothing stays staged |
| AppView.StagedSkip | src/App.tsx:212-228 | the skip-permissions mode reaches the session only after confirmation |
| Sidebar.IsWorkdirCollapsed | src/components/Sidebar/Sidebar.tsx:73-78 | whether a group shows collapsed; `Sidebar.CollapseRule` states it |
| Sidebar.VisibleCount | src/components/Sidebar/Sidebar.tsx:80-82 | a group's page size; `Sidebar.VisibleCountRule` states it |
| Sidebar.AllCollapsed | src/components/Sidebar/Sidebar.tsx:84-85 | the collapse-all indicator; `Sidebar.CollapseAllIndicator` states it |
| Sidebar.CollapseRule | src/components/Sidebar/Sidebar.tsx:73-78 | while the query is not blank only the search's map decides, and a workdir it does not list is collapsed; otherwise only the stored flag decides, and an unset one is expanded |
| Sidebar.CollapseAllIndicator | src/components/Sidebar/Sidebar.tsx:84-85 | after collapse-all from a partly expanded state the indicator shows all collapsed and every workdir is collapsed; from an all-collapsed state it no longer shows; toggling a workdir flips how it shows |
| Sidebar.VisibleCountRule | src/components/Sidebar/Sidebar.tsx:80-82 | a workdir without a stored count shows the default; after show-all it shows its total; show-more adds five to what it showed |
| SessionGroupView.SliceEnd | src/components/Sidebar/SessionGroup.tsx:42 | slicing never goes past the group, and a non-negative count is cut to the group's size |
| SessionGroupView.VisibleSessions | src/components/Sidebar/SessionGroup.tsx:42 | the visible sessions are a prefix of the group, as long as the count or the whole group, whichever is shorter |
| SessionGroupView.Rows | src/components/Sidebar/SessionGroup.tsx:76-78 | a collapsed group shows no rows, an expanded one its visible sessions |
| SessionGroupView.OverflowFor | src/components/Sidebar/SessionGroup.tsx:43-99 | the overflow buttons; `SessionGroupView.PaginationSpec` and `SessionGroupView.ShowMoreReveals` state them |
| SessionGroupView.PaginationSpec | src/components/Sidebar/SessionGroup.tsx:42-99 | rows are hidden exactly when the group is longer than the count, and then shown plus hidden is the group; otherwise all rows show; "show more" appears iff rows are hidden and names between one and five of them; "show all" only past five hidden rows |
| SessionGroupView.ShowMoreReveals | src/components/Sidebar/SessionGroup.tsx:93-99 | after "show more" exactly as many more rows appear as its label said; after "show all" every row shows and nothing is hidden |
| MessageInput.HandleKeyDown | src/components/Chat/MessageInput.tsx:49-77 | the key handler; `MessageInput.KeyDispatch` states it |
| MessageInput.KeyDispatch | src/components/Chat/MessageInput.tsx:49-77 | while the menu lists commands the arrows only move, Tab or an unshifted Enter picks the highlighted command (if the highlight is in range) and never sends, and Escape closes; otherwise an unshifted Enter sends; a shifted Enter never sends |
| MessageInput.SendDisabledIffBlank | src/components/Chat/MessageInput.tsx:115 | the send button is disabled exactly while the input is disabled or blank |
| MessageList.ByTimeIsPreorder | src/components/Chat/MessageList.tsx:27-31 | comparing by time is a total preorder |
| MessageList.MergedTranscript | src/components/Chat/MessageList.tsx:18-32 | the transcript has one item per message and per interaction |
| MessageList.MergedSpec | src/components/Chat/MessageList.tsx:18-32 | the transcript is in time order, a permutation of the tagged messages and interactions, holds each of them, and items with the same time keep their input order, messages first |
| Markdown.AliasTargetsListed | src/utils/markdown.ts:69-106 | every alias in the table maps to one of the listed canonical names |
| Markdown.AliasTargetsHaveLoaders | src/utils/markdown.ts:8-106 | every canonical name an alias maps to has a language loader |
| Markdown.AliasTargetsAreNotAliases | src/utils/markdown.ts:69-106 | no canonical name is itself an alias, so one lookup suffices |
| Markdown.AliasTargetsLowerCase | src/utils/markdown.ts:69-106 | every canonical name is in lower case |
| Markdown.AliasTargets | src/utils/markdown.ts:8-106 | an alias names a lower-case language that has a loader and is not an alias |
| Markdown.ResolveLanguage | src/utils/markdown.ts:108-111 | the resolved name is lower case and not an alias; it is the lower-cased input, or the language the lower-cased input is an alias for, which has a loader |
| Markdown.ResolveIdempotent | src/utils/markdown.ts:108-116 | resolving a resolved name gives it back, so resolving again inside the loader changes nothing |
| Markdown.ResolveIgnoresCase | src/utils/markdown.ts:108-111 | resolution ignores the input's case, and an alias resolves to a language with a loader |
| Markdown.InheritedNamesNotAliases | src/utils/markdown.ts:69-106 | no name a plain object inherits is an own entry of the alias table |
| Markdown.AliasLookupAsWritten | src/utils/markdown.ts:110 | indexing the table finds something exactly for its own entries and the inherited names, and an own entry gives its string |
| Markdown.ResolveLanguageAsWritten | src/utils/markdown.ts:108-111 | the lookup as written yields an inherited member, not a string, exactly for the inherited names |
| Markdown.ResolveAsWrittenAgrees | src/utils/markdown.ts:108-111 | away from the inherited names the lookup as written gives the same string as the own-entry lookup |
| Markdown.InheritedResolutions | src/utils/markdown.ts:108-111 | for "constructor" and "__proto__" the lookup as written yields an inherited member, while the own-entry lookup yields the names themselves |
| Markdown.WordEnd | src/utils/markdown.ts:133 | the greedy word run stops at the end of the text or at the first non-word character |
| Markdown.FenceWords | src/utils/markdown.ts:133-140 | every name captured after three backticks is a non-empty run of word characters |
| Markdown.CollectSpec | src/utils/markdown.ts:134-142 | adding names to the insertion-ordered set keeps what it held in place, keeps it duplicate-free, and adds exactly the resolved names |
| Markdown.ExtractedLanguages | src/utils/markdown.ts:132-143 | the extracted languages; `Markdown.ExtractedLanguagesSpec` and `Markdown.ExtractedLanguagesOrder` state them |
| Markdown.ExtractedLanguagesSpec | src/utils/markdown.ts:132-143 | the extracted list is duplicate-free, lower case, and holds exactly the resolved names of the fences |
| Markdown.ExtractedLanguagesOrder | src/utils/markdown.ts:134-142 | the languages of the first fences come first, in the order they first appear |
| Markdown.ExtractLanguages | src/utils/markdown.ts:132-143 | the match loop returns the extracted-language list |
| Markdown.CollectAsWritten | src/utils/markdown.ts:134-142 | the extraction loop as written, on the looked-up values: what was collected stays in front |
| Markdown.CollectAsWrittenMembers | src/utils/markdown.ts:134-142 | as written, the collected values are exactly the lookups of the fence words |
| Markdown.LoadAllAsWritten | src/utils/markdown.ts:108-129 | the awaited loads reject exactly when some collected value is an inherited member, since resolving it again calls `toLowerCase` on a function or object |
| Markdown.LoadsAsWritten | src/utils/markdown.ts:184-185 | the loads a render awaits, as written; `Markdown.LoadsAsWrittenSpec` states when they reject |
| Markdown.LoadsAsWrittenSpec | src/utils/markdown.ts:184-185 | as written, a render rejects exactly for messages with a fence whose word is, in lower case, a name a plain object inherits |
| Markdown.ConstructorFenceRejects | src/utils/markdown.ts:110 | for the message `` ```constructor `` the awaited loads, and so the render, reject |
| Markdown.ConstructorFenceResolved | src/utils/markdown.ts:132-143 | with the own-entry lookup the same message extracts the single plain name "constructor" |
| Markdown.EscapeHtml | src/utils/markdown.ts:145-151 | the escaping chain; `Markdown.EscapeHtmlOnePass`, `Markdown.EscapeHtmlNoMarkup` and `Markdown.EscapeRoundTrip` state it |
| Markdown.EscapeHtmlOnePass | src/utils/markdown.ts:145-151 | because '&' is replaced first, the chain of replacements equals escaping each character once |
| Markdown.EscapeHtmlNoMarkup | src/utils/markdown.ts:145-151 | escaped text holds no '<', '>' or '"' |
| Markdown.EscapeRoundTrip | src/utils/markdown.ts:145-151 | reading the entities back from escaped text gives the original text |
| Markdown.CodeLanguage | src/utils/markdown.ts:159 | a missing or empty fence language gives the empty class name, any other its resolved name |
| Markdown.RenderCode | src/utils/markdown.ts:158-169 | the code-block renderer; `Markdown.RenderCodeSpec` states it |
| Markdown.RenderCodeSpec | src/utils/markdown.ts:158-169 | a block is wrapped in the tags for its resolved language; its body is the highlighter's output exactly when the language is named and loaded, and otherwise holds no markup and reads back as the code |
| Markdown.LoadedAfterSpec | src/utils/markdown.ts:113-129 | loading adds exactly the resolved names that have a loader and whose import succeeds, and keeps every loaded name |
| Markdown.FenceLanguagesLoaded | src/utils/markdown.ts:184-185 | a render loads exactly the extracted languages that have a loader and import successfully |
| Markdown.StoredSpec | src/utils/markdown.ts:189-193 | storing keeps at most 500 distinct non-empty keys matching the entries; at capacity a new key evicts the oldest and goes last; the new value is stored and every other entry is kept |
| Markdown.Renderer.constructor | src/utils/markdown.ts:173 | nothing is loaded and the cache is empty |
| Markdown.Renderer.LoadLanguage | src/utils/markdown.ts:113-129 | the result is true exactly when the resolved language was loaded or has a loader whose import succeeds, and only then is it added |
| Markdown.Renderer.RenderMarkdown | src/utils/markdown.ts:177-196 | empty text renders as '' and changes nothing; a non-empty cached rendering is returned as is; otherwise the fence languages are loaded, the text parsed with them and the result stored |
| Markdown.Renderer.LoadLanguages | src/utils/markdown.ts:185 | the loaded set becomes the one the successive loads give, and stays within the languages with loaders |
| Markdown.Renderer.Store | src/utils/markdown.ts:189-193 | the cache becomes the stored keys and entries, and stays well formed |
| Markdown.RenderTwice | src/utils/markdown.ts:180-181 | rendering the same text twice gives the same result whenever the first result is non-empty |

## Left out

- Network, sockets and streams. `fetch`, `WebSocket` and `http.request` calls become request records, and their replies or failures become method inputs. A socket is an append-only sequence of written chunks, and a response body piped into it is given as its chunks. The two-way relay between the sockets after an accepted upgrade is not modelled, nor is the streaming of REST response bodies by `pipe`.
- Timers and clocks. `Date.now()` is a parameter. `setTimeout` becomes an explicit event in the model: the delayed refresh after session creation. ISO timestamps are the integer milliseconds they denote, so parsing dates, and the `NaN` an unparsable date would give, are not modelled.
- Concurrency. `Promise.all` in start-up, in refresh and in language loading is modelled as one call after another. The race between the timer and the push events becomes any order of the separate event methods.
- Browser globals. `window.location.hash`, `history.replaceState`, the `hashchange` listener and `localStorage` are plain fields; the hash-change handler is an explicit method. The values `useStorage` loads for the app's collapse flags and page sizes are parameters of `AppView.App`'s constructor, with `None` for a missing, empty or unparsable entry, which gives `{}` as `src/utils/storage.ts` does. Writing them back on every change is not modelled.
- The filesystem and path library used by the browse route (`existsSync`, `readdirSync`, `statSync`, `path.resolve`, `path.join`, `homedir`, `process.env`). These are a parameter record and a canonicalisation function the model does not interpret.
- Foreign libraries. Fuse.js search is given as its sets of matched ids and workdirs. `marked` and `highlight.js` are function parameters, the success of the dynamic `import()` of a language module is a parameter, and `encodeURIComponent` is a parameter of the browse URL.
- String built-ins. `trim` removes a fixed set of whitespace characters. `toLowerCase` maps ASCII letters only. `localeCompare` is code-unit lexicographic order.
- Object key order. Plain-object and `Map` dictionaries keyed by workdir are modelled as a map plus the sequence of keys in insertion order, and that sequence is used wherever the source enumerates the keys. Keys that look like array indices, which JavaScript would enumerate first, are not modelled. Neither are keys that name inherited `Object.prototype` members: a session id or workdir such as `constructor` finds an inherited function in `groupByWorkdir`'s plain objects, and the `push` on it throws (src/hooks/useSessionGroups.ts:14-31, public/js/app.js:29-42).
- A JSON `null` error body. `error.error` on it throws in src/api/client.ts:35-36; `ApiClient` models an error body as a record that may lack the field, not as a JSON value that may be `null`.
- A missing backend client. Where an action would fail for lack of one, the model issues no request.
- The endpoint wrappers of both clients. The calls `listSessions`, `getSession`, `createSession`, `deleteSession`, `sendMessage`, `interruptSession`, `getAttention`, `resolveAttention`, `getWorkdirConfig`, `renameSession`, `updateSession` and `getHealth` each pass a fixed path and body to the client's `fetch`. Only that shared `fetch` and the `browse` URL are modelled. The engine's creation, resolution and interrupt requests are returned by its methods; for its other calls only the outcome is modelled, as a method parameter.
- The legacy app's `resolveAttention` and its saving of the connection settings to `localStorage`. Both are thin wrappers around I/O calls.
- The rest of `src/App.tsx`:
  - the global keyboard shortcuts;
  - the effect that fetches a workdir's configuration when its modal opens;
  - `openFileBrowser`, `selectDirectory`, `handleNewSession` and `handleSelectSession`, which only forward to the modelled hooks;
  - the JSX.
- Components that only render: the message, attention card, session item, session header, login view, the modals, the search box and `MarkdownContent.tsx`. The markup of the modelled components, and the markup of the legacy app, are also not modelled.
- `src/hooks/usePullToRefresh.ts`, which handles DOM touch gestures.
- Static file serving: `server.js` and `src/server/routes/static.ts`.
- `src/utils/time.test.ts`. The file it tests, `time.ts`, is not part of this model.
- ApiProxy.Reply.OnBackendError: records the thrown `writeHead` as `crashed`. The end of the process, which drops every other connection, is not modelled, and the reply accepts further events.
- WebSocketProxy.Bridge.OnClientSocketError: records the unhandled `error` event as `crashed`. As for the REST reply, the end of the process is not modelled.
- SessionTransitions.OnCreatedAsWritten: its own contract states only how the length changes. Its failure to keep ids distinct is exhibited by the counterexample lemma below.
- SessionGroupView.PaginationSpec: stated for non-negative counts. `SliceEnd` models a negative count as JavaScript's `slice` does, but that count cannot arise from the app's handlers.

## Findings

| source | as written | input that shows it | evidently intended | confidence | as-written member | corrected member |
|---|---|---|---|---|---|---|
| src/hooks/useSession.ts:164-178 | `session:created` replaces the first placeholder pending for the pushed session's workdir, even when the list already holds an entry with the pushed id | A refresh has already listed session R for workdir /w. The user then creates a second session in /w, which adds a placeholder. The late `session:created` for R replaces that placeholder, so R is listed twice. | When a placeholder is pending but the session is already listed, the listed entry is replaced where it stands and the placeholder is left for its own confirmation, so exactly one entry has its id | not executed | SessionTransitions.OnCreatedAsWrittenDuplicates | SessionTransitions.OnCreatedKeepsDistinct |
| src/utils/markdown.ts:110 | `aliases[lower] ?? lower` reads inherited `Object.prototype` members, so "constructor" or "__proto__" resolves to a function or an object instead of a string | For the message `` ```constructor ``, `extractLanguages` collects the inherited `Object` function. `loadLanguage` then calls `toLowerCase` on it and throws, so `renderMarkdown` rejects. | Only the table's own entries are aliases; any other name resolves to itself in lower case | not executed | Markdown.ConstructorFenceRejects | Markdown.ConstructorFenceResolved |
