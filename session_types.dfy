/**
 * The records of the session service as the web client sees them: sessions,
 * message content, messages, attention items and resolved interactions.
 * Timestamps, which the service sends as ISO-8601 strings, are modelled as the
 * integer milliseconds they denote.
 */
module SessionTypes {
  import opened Wrappers

  datatype Status = Idle | Running

  /**
   * A session. `configMode` is the `permissionMode` of its `config` record;
   * `pendingFor` is set only on the client's own placeholder while the service
   * has not yet confirmed a creation.
   */
  datatype Session = Session(
    id: string,
    workdir: string,
    name: Option<string>,
    status: Status,
    configMode: Option<string>,
    created: int,
    modified: int,
    permissionMode: string,
    pendingFor: Option<string>)

  /** One block of structured message content. Tool input is kept as opaque text. */
  datatype ContentBlock =
    | TextBlock(text: string)
    | ToolUse(toolId: string, toolName: string, input: string)
    | ToolResult(toolUseId: string, result: Content)

  /**
   * The shapes message content takes: missing, a plain string, an array of
   * blocks, or an object with an optional `text` field.
   */
  datatype Content =
    | Absent
    | Text(s: string)
    | Blocks(blocks: seq<ContentBlock>)
    | TextField(text: Option<string>)

  datatype Role = User | Assistant

  /** A transcript message; `optimistic` marks the client's own echo of a message it sent. */
  datatype Message = Message(
    id: Option<string>,
    role: Role,
    content: Content,
    timestamp: Option<int>,
    optimistic: bool)

  datatype AttentionKind = Permission | ErrorKind | Completion

  /** An item that needs the user's decision, raised by a session. */
  datatype Attention = Attention(
    id: string,
    sessionId: string,
    kind: AttentionKind,
    message: Option<string>,
    toolName: Option<string>)

  datatype Behavior = Allow | Deny

  /** The answer sent back for an attention item. */
  datatype Resolution = Resolution(behavior: Behavior, message: Option<string>)

  /** A past decision, shown in the transcript. */
  datatype ResolvedInteraction = ResolvedInteraction(
    kind: string,
    toolName: Option<string>,
    resolution: Behavior,
    message: Option<string>,
    resolvedAt: int)
}
