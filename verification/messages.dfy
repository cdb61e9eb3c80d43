/** The records that travel through the chat layer (src/components/chat/chat.ts). */
module Messages {
  import opened Wrappers

  /** One message of the conversation, with the wire fields of `ChatMessage`. */
  datatype ChatMessage = ChatMessage(
    id: string,
    timestamp: int,
    message: string,
    isAssistant: bool,
    highlightWordCount: int,
    deleted: bool,
    participant: string,
    parentId: string,
    altIds: seq<string>,
    conversationId: string,
    characterId: string,
    model: string,
    messageType: string
  )

  /** The transport's view of a room member: the fields the chat layer reads. */
  datatype Participant = Participant(identity: string, name: string)

  /**
   * `ReceivedChatMessage`: a message plus the participant it arrived from
   * (`from`, absent for history entries) and the time of its latest edit.
   */
  datatype Received = Received(msg: ChatMessage, sender: Option<Participant>, editTimestamp: Option<int>)

  /** `msg.from?.identity`: the sender's identity, absent when there is no sender. */
  function SenderIdentity(r: Received): Option<string> {
    match r.sender
    case Some(p) => Some(p.identity)
    case None => None
  }

  /** A plain message read back from the wire: no sender and no edit time. */
  function Unannotated(m: ChatMessage): (r: Received)
    ensures r.msg == m && r.sender.None? && r.editTimestamp.None?
  {
    Received(m, None, None)
  }

  /** A history array as it is read back: every entry without sender or edit time. */
  function UnannotatedAll(ms: seq<ChatMessage>): (rs: seq<Received>)
    ensures |rs| == |ms|
    ensures forall i :: 0 <= i < |ms| ==> rs[i] == Unannotated(ms[i])
  {
    if |ms| == 0 then [] else [Unannotated(ms[0])] + UnannotatedAll(ms[1..])
  }

  /** The ways the message pipeline can fail. */
  datatype ChatError =
    | Malformed        // a payload whose shape is not a chat message (or an array of them)
    | EmptyHistory     // a history array with no element: `'id' in undefined` throws
    | PublishRejected  // the transport refused to send
}
