/**
 * The agent's conversational state as both Playground components derive it from
 * the agent participant's metadata (src/components/playground/Playground.tsx and
 * src/components/iphone/Playground.tsx), the conditions the UI reads off it, and
 * the close guard of src/components/playground/ConnectModal.tsx.
 */
module Agent {
  import opened Wrappers
  import opened Json

  /**
   * The six names of `AgentState` (src/lib/types.ts). The metadata value is stored
   * without any check, so a value outside the six is kept as `Unlisted`.
   */
  datatype AgentState =
    | Idle
    | Listening
    | Speaking
    | Thinking
    | Offline
    | Starting
    | Unlisted(raw: Json)

  /** The string a listed state is spelled with. */
  function Name(s: AgentState): Option<string> {
    match s
    case Idle => Some("idle")
    case Listening => Some("listening")
    case Speaking => Some("speaking")
    case Thinking => Some("thinking")
    case Offline => Some("offline")
    case Starting => Some("starting")
    case Unlisted(_) => None
  }

  /** The state a metadata value denotes: one of the six names, or anything else kept as it is. */
  function FromJson(j: Json): (s: AgentState)
    ensures s.Unlisted? ==> s.raw == j
    ensures !s.Unlisted? ==> Name(s).Some? && j == JStr(Name(s).value)
  {
    match j
    case JStr("idle") => Idle
    case JStr("listening") => Listening
    case JStr("speaking") => Speaking
    case JStr("thinking") => Thinking
    case JStr("offline") => Offline
    case JStr("starting") => Starting
    case _ => Unlisted(j)
  }

  /** Spelling a listed state and reading it back gives the state. */
  lemma FromJsonName(s: AgentState)
    requires !s.Unlisted?
    ensures Name(s).Some? && FromJson(JStr(Name(s).value)) == s
  {
  }

  /** A value is kept as `Unlisted` exactly when it is not the spelling of a listed state. */
  lemma FromJsonUnlisted(j: Json)
    ensures FromJson(j).Unlisted? <==> forall s: AgentState :: !s.Unlisted? ==> j != JStr(Name(s).value)
  {
    if !FromJson(j).Unlisted? {
      var s := FromJson(j);
      assert j == JStr(Name(s).value);
    }
  }

  /** What the component sees of the agent participant: its metadata text. */
  datatype AgentParticipant = AgentParticipant(metadata: string)

  /** Why deriving the state can throw. */
  datatype AgentError =
    | MetadataUnparsable  // `JSON.parse` rejects the metadata text
    | MetadataNull        // the metadata is the text of `null`: reading `agent_state` of it throws

  /** `agentMd.agent_state`: the member of an object, and `undefined` for any other non-null value. */
  function AgentStateMember(md: Json): Option<Json>
    requires !md.JNull?
  {
    if md.JObj? then Get(md.fields, "agent_state") else None
  }

  /**
   * The effect that sets `agentState`. `parse` stands for `JSON.parse`, which is not
   * modelled: `None` is a syntax error.
   */
  function DeriveAgentState(agent: Option<AgentParticipant>, parse: string -> Option<Json>): (r: Result<AgentState, AgentError>)
    ensures agent.None? ==> r == Success(Offline)
    ensures agent.Some? && agent.value.metadata == "" ==> r == Success(Starting)
    ensures agent.Some? && agent.value.metadata != "" && parse(agent.value.metadata).None? ==> r == Failure(MetadataUnparsable)
    ensures r.Failure? ==> agent.Some? && agent.value.metadata != ""
    ensures agent.Some? && agent.value.metadata != "" && parse(agent.value.metadata) == Some(JNull) ==> r == Failure(MetadataNull)
    ensures r.Success? && r.value.Unlisted? ==> Truthy(r.value.raw)
  {
    match agent
    case None => Success(Offline)
    case Some(p) =>
      var md :- if p.metadata == "" then Success(JObj([])) else Parsed(parse(p.metadata));
      var field := AgentStateMember(md);
      if field.Some? && Truthy(field.value) then Success(FromJson(field.value)) else Success(Starting)
  }

  function Parsed(j: Option<Json>): (r: Result<Json, AgentError>)
    ensures r.Success? ==> !r.value.JNull?
  {
    match j
    case None => Failure(MetadataUnparsable)
    case Some(JNull) => Failure(MetadataNull)
    case Some(v) => Success(v)
  }

  /** Metadata that carries a listed state under `agent_state` yields that state. */
  lemma PublishedStateIsRead(s: AgentState, text: string, parse: string -> Option<Json>, before: seq<(string, Json)>)
    requires !s.Unlisted? && text != ""
    requires parse(text) == Some(JObj(before + [("agent_state", JStr(Name(s).value))]))
    ensures DeriveAgentState(Some(AgentParticipant(text)), parse) == Success(s)
  {
    var fields := before + [("agent_state", JStr(Name(s).value))];
    assert fields[..|fields| - 1] == before;
  }

  /** Metadata without a truthy `agent_state` means the agent is starting. */
  lemma MissingStateIsStarting(text: string, parse: string -> Option<Json>)
    requires text != "" && parse(text).Some? && !parse(text).value.JNull?
    requires AgentStateMember(parse(text).value).None? || !Truthy(AgentStateMember(parse(text).value).value)
    ensures DeriveAgentState(Some(AgentParticipant(text)), parse) == Success(Starting)
  {
  }

  /** The visualiser mode: "thinking" and "talking" for two states, "idle" for every other. */
  function VisualizerState(s: AgentState): (v: string)
    ensures v == "thinking" <==> s == Thinking
    ensures v == "talking" <==> s == Speaking
    ensures v == "idle" <==> s != Thinking && s != Speaking
  {
    if s == Thinking then "thinking"
    else if s == Speaking then "talking"
    else "idle"
  }

  /** `agentState !== "offline"`. */
  predicate IsAgentConnected(s: AgentState) {
    s != Offline
  }

  /** `['offline', 'starting'].includes(agentState)`: the loading screen replaces the tiles. */
  predicate ShowLoading(s: AgentState) {
    s in [Offline, Starting]
  }

  /** The loading screen shows while connected only when the agent is starting. */
  lemma LoadingWhileConnected(s: AgentState)
    ensures ShowLoading(s) && IsAgentConnected(s) <==> s == Starting
    ensures !IsAgentConnected(s) ==> ShowLoading(s)
  {
  }

  /** A prop the connect modal can call. */
  datatype ModalCall = CallsOnClose | CallsOnConnect

  /** `handleClose`: the modal closes only in a conversational state. */
  function HandleClose(s: AgentState): (calls: seq<ModalCall>)
    ensures |calls| <= 1 && CallsOnConnect !in calls
    ensures CallsOnClose in calls <==> s == Thinking || s == Speaking || s == Listening
  {
    if s in [Thinking, Speaking, Listening] then [CallsOnClose] else []
  }

  /** `handleConnect`: it asks to connect once and leaves the modal open. */
  function HandleConnect(): (calls: seq<ModalCall>)
    ensures |calls| == 1 && calls[0] == CallsOnConnect
    ensures CallsOnClose !in calls
  {
    [CallsOnConnect]
  }

  /** Closing is a no-op while idle, offline or starting; any state that closes is a connected one past loading. */
  lemma CloseGuard(s: AgentState)
    ensures s == Idle || s == Offline || s == Starting ==> HandleClose(s) == []
    ensures HandleClose(s) != [] ==> IsAgentConnected(s) && !ShowLoading(s)
  {
  }
}
