/** The catalogue's records (internal/model/types.go), one datatype per entity. */
module Model {

  datatype Option<+T> = None | Some(value: T)

  /** Nanoseconds since the zero time.Time, which is therefore 0. */
  type Time = int
  const ZERO_TIME: Time := 0
  const SECOND: int := 1_000_000_000
  const MINUTE: int := 60 * SECOND

  datatype Origin = Managed | Discovered | OtherOrigin(name: string)

  datatype SessionState = Pending | Running | Paused | Stopped | Errored | OtherState(name: string)

  datatype ResumeStrategy = NativeId | OtherStrategy(name: string)

  datatype Capabilities = Capabilities(supportsResume: bool, supportsNative: bool, rest: map<string, bool>)

  /** `rest` holds the fields no modelled operation reads or writes. */
  datatype Session = Session(
    id: string,
    adapter: string,
    origin: Origin,
    nativeId: string,
    resumeStrategy: ResumeStrategy,
    workspacePath: string,
    workspaceRoot: string,
    workspaceId: string,
    conversationId: string,
    detailPath: string,
    preview: string,
    capabilities: Capabilities,
    state: SessionState,
    createdAt: Time,
    lastSeen: Time,
    rest: map<string, string>)

  datatype Workspace = Workspace(id: string, rest: map<string, string>)

  datatype Conversation = Conversation(
    id: string,
    sessionId: string,
    nativeId: string,
    workspaceId: string,
    state: string,
    createdAt: Time,
    updatedAt: Time)

  /** What discovery reports for one transcript on disk (history.Record). */
  datatype Record = Record(session: Session, workspace: Workspace, conversation: Conversation)
}
