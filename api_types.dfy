/** The push events of the session service's WebSocket feed, and the browse reply. */
module ApiTypes {
  import opened Wrappers
  import opened SessionTypes

  /** The seven push events, one constructor per `type` tag. */
  datatype WsEvent =
    | SessionCreated(session: Session, tempId: string)
    | SessionUpdated(session: Session)
    | SessionEnded(sessionId: string, reason: Option<string>)
    | SessionMessage(sessionId: string, message: Message)
    | AttentionRequested(attention: Attention)
    | AttentionResolved(attentionId: string)
    | InteractionResolved(sessionId: string, interaction: ResolvedInteraction)

  /** The wire tag of each event. */
  function Tag(e: WsEvent): string {
    match e
    case SessionCreated(_, _) => "session:created"
    case SessionUpdated(_) => "session:updated"
    case SessionEnded(_, _) => "session:ended"
    case SessionMessage(_, _) => "session:message"
    case AttentionRequested(_) => "attention:requested"
    case AttentionResolved(_) => "attention:resolved"
    case InteractionResolved(_, _) => "interaction:resolved"
  }

  datatype EntryType = Directory | File

  datatype BrowserEntry = BrowserEntry(name: string, path: string, entryType: EntryType)

  datatype BrowseResponse = BrowseResponse(entries: seq<BrowserEntry>, path: string, isRoot: bool)
}
