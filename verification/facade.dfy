/**
 * The facade `setupChat` returns in src/components/chat/chat.ts: the module-level
 * registry that decides whether a wire subscription is made, `send`, `update`,
 * `updateHistory` and `destroy`. Publishing is an abstract call whose outcome is a
 * parameter; the effects of each operation are returned as a trace.
 */
module Facade {
  import opened Wrappers
  import opened Json
  import opened Messages
  import opened Codec
  import opened Reducer

  /** The default topics of the components library (`DataTopic.CHAT`, `DataTopic.CHAT_UPDATE`). */
  const DefaultChatTopic: string := "lk-chat-topic"
  const DefaultUpdateTopic: string := "lk-chat-update-topic"

  /** `ChatOptions`: every field may be left out. */
  datatype ChatOptions = ChatOptions(
    messageEncoder: Option<ChatMessage -> Json>,
    messageDecoder: Option<Decoder>,
    channelTopic: Option<string>,
    updateChannelTopic: Option<string>
  )

  /** The resolved configuration of one `setupChat` call. */
  datatype Chat = Chat(topic: string, updateTopic: string, encode: ChatMessage -> Json, decode: Decoder, local: Participant)

  /** Rooms are compared by identity; a number stands for the room object. */
  type RoomId = nat

  /** `topicSubjectMap`: for each room, the topics that already have a message subject. */
  type Registry = map<RoomId, set<string>>

  datatype Setup = Setup(registry: Registry, wireTopics: seq<string>, chat: Chat)

  /** `??` on every option: a given option is used, a missing one falls back to the default. */
  function Configure(options: ChatOptions, local: Participant): (c: Chat)
    ensures options.channelTopic.None? ==> c.topic == DefaultChatTopic
    ensures options.channelTopic.Some? ==> c.topic == options.channelTopic.value
    ensures options.updateChannelTopic.None? ==> c.updateTopic == DefaultUpdateTopic
    ensures options.updateChannelTopic.Some? ==> c.updateTopic == options.updateChannelTopic.value
    ensures options.messageEncoder.Some? ==> c.encode == options.messageEncoder.value
    ensures options.messageDecoder.Some? ==> c.decode == options.messageDecoder.value
    ensures options.messageEncoder.None? && options.messageDecoder.None? ==> DefaultCodec(c)
    ensures c.local == local
  {
    Chat(
      options.channelTopic.GetOr(DefaultChatTopic),
      options.updateChannelTopic.GetOr(DefaultUpdateTopic),
      options.messageEncoder.GetOr(Encode),
      options.messageDecoder.GetOr(Decode),
      local)
  }

  /**
   * `setupChat`'s registry step. The wire subscription (to the chat and update
   * topics only) is created exactly when the room had no registry entry; the room's
   * entry then holds the chat topic and no other room's entry changes.
   */
  function SetupChat(registry: Registry, room: RoomId, options: ChatOptions, local: Participant): (s: Setup)
    ensures room !in registry ==> s.wireTopics == [s.chat.topic, s.chat.updateTopic]
    ensures room in registry ==> s.wireTopics == []
    ensures room in s.registry && s.chat.topic in s.registry[room]
    ensures room in registry ==> s.registry[room] == registry[room] + {s.chat.topic}
    ensures forall r :: r in registry && r != room ==> r in s.registry && s.registry[r] == registry[r]
    ensures s.registry.Keys == registry.Keys + {room}
  {
    var chat := Configure(options, local);
    var topics := if room in registry then registry[room] else {};
    var wire := if room in registry then [] else [chat.topic, chat.updateTopic];
    Setup(registry[room := topics + {chat.topic}], wire, chat)
  }

  /** `destroy`: the whole registry is cleared, whichever room disconnected. */
  function Destroy(registry: Registry): (r: Registry)
    ensures forall room :: room !in r
  {
    map[]
  }

  /** After any `destroy`, the next setup of any room subscribes to the wire again. */
  lemma SetupAfterDestroySubscribes(registry: Registry, room: RoomId, options: ChatOptions, local: Participant)
    ensures SetupChat(Destroy(registry), room, options, local).wireTopics != []
  {
  }

  /** A second setup on a room with an entry never subscribes, even with different topics. */
  lemma SecondSetupHasNoWire(registry: Registry, room: RoomId, o1: ChatOptions, o2: ChatOptions, local: Participant)
    ensures SetupChat(SetupChat(registry, room, o1, local).registry, room, o2, local).wireTopics == []
  {
  }

  /** The wire subscription forwards exactly the events whose topic it subscribed to. */
  predicate Forwards(wireTopics: seq<string>, raw: RawMessage) {
    raw.topic.Some? && raw.topic.value in wireTopics
  }

  /** Unless a configured topic is the history topic itself, no history event ever arrives from the wire. */
  lemma WireCarriesNoHistory(s: Setup, raw: RawMessage)
    requires s.chat.topic != HistoryTopic && s.chat.updateTopic != HistoryTopic
    requires s.wireTopics == [] || s.wireTopics == [s.chat.topic, s.chat.updateTopic]
    requires Forwards(s.wireTopics, raw)
    ensures raw.topic != Some(HistoryTopic)
  {
  }

  // ---------------------------------------------------------------------------
  // Publishing operations

  /** What an operation does, in order: flips the sending flag, publishes, or echoes to the local stream. */
  datatype Effect =
    | Sending(flag: bool)
    | Publish(payload: Json, topic: string, reliable: bool)
    | Echo(raw: RawMessage)

  datatype Outcome<T> = Outcome(effects: seq<Effect>, result: Result<T, ChatError>)

  /** The message `send` and `update` build: fixed placeholder fields, `alt_ids` holding only the id. */
  function NewMessage(id: string, text: string, now: int): (m: ChatMessage)
    ensures m.id == id && m.altIds == [id] && m.message == text && m.timestamp == now
    ensures !m.isAssistant && !m.deleted && m.parentId == "" && m.highlightWordCount == 0
  {
    ChatMessage(id, now, text, false, 0, false, "participant_id", "", [id],
                "conversation_id", "character_id", "model_name", "message_type")
  }

  /**
   * The publish bracket shared by `send` and `update`: the flag goes up, the payload
   * is published on `publishTopic`, and only when that succeeds is it echoed on the
   * chat topic and returned; the flag comes down on every path.
   */
  function Publishing(chat: Chat, m: ChatMessage, publishTopic: string, published: bool): (o: Outcome<ChatMessage>)
    ensures Bracketed(o.effects) && EchoAfterPublish(o.effects)
    ensures o.result.Success? <==> published
    ensures Echoes(o.effects) <==> published
    ensures o.result.Success? ==> o.result.value == m
    ensures o.effects[1] == Publish(chat.encode(m), publishTopic, true)
    ensures forall i :: 0 <= i < |o.effects| && o.effects[i].Publish? ==> i == 1
    ensures forall i :: 0 <= i < |o.effects| && o.effects[i].Echo? ==>
      i == 2 && o.effects[i].raw == RawMessage(chat.encode(m), Some(chat.topic), Some(chat.local))
  {
    var payload := chat.encode(m);
    if published then
      var effects := [Sending(true), Publish(payload, publishTopic, true),
                      Echo(RawMessage(payload, Some(chat.topic), Some(chat.local))), Sending(false)];
      assert effects[2].Echo? && effects[1].Publish?;
      Outcome(effects, Success(m))
    else
      Outcome([Sending(true), Publish(payload, publishTopic, true), Sending(false)], Failure(PublishRejected))
  }

  /** The flag is raised first, lowered last, and touched nowhere in between. */
  predicate Bracketed(effects: seq<Effect>) {
    && |effects| >= 2
    && effects[0] == Sending(true)
    && effects[|effects| - 1] == Sending(false)
    && forall i :: 0 < i < |effects| - 1 ==> !effects[i].Sending?
  }

  /** Every echo comes after a publish. */
  predicate EchoAfterPublish(effects: seq<Effect>) {
    forall i :: 0 <= i < |effects| && effects[i].Echo? ==> exists j :: 0 <= j < i && effects[j].Publish?
  }

  predicate Echoes(effects: seq<Effect>) {
    exists i :: 0 <= i < |effects| && effects[i].Echo?
  }

  /** `send`: a fresh message under the given id and clock, published on the chat topic. */
  function Send(chat: Chat, text: string, now: int, uuid: string, published: bool): (o: Outcome<ChatMessage>)
    ensures Bracketed(o.effects) && EchoAfterPublish(o.effects)
    ensures o.result.Success? <==> published
    ensures Echoes(o.effects) <==> published
    ensures o.result.Success? ==> o.result.value == NewMessage(uuid, text, now)
    ensures forall i :: 0 <= i < |o.effects| && o.effects[i].Publish? ==>
      o.effects[i] == Publish(chat.encode(NewMessage(uuid, text, now)), chat.topic, true)
  {
    Publishing(chat, NewMessage(uuid, text, now), chat.topic, published)
  }

  /** `update`: a message reusing `messageId`, published on the update topic but echoed on the chat topic. */
  function Update(chat: Chat, text: string, messageId: string, now: int, published: bool): (o: Outcome<ChatMessage>)
    ensures Bracketed(o.effects) && EchoAfterPublish(o.effects)
    ensures o.result.Success? <==> published
    ensures Echoes(o.effects) <==> published
    ensures o.result.Success? ==> o.result.value.id == messageId && o.result.value.altIds == [messageId]
    ensures forall i :: 0 <= i < |o.effects| && o.effects[i].Publish? ==> o.effects[i].topic == chat.updateTopic
    ensures forall i :: 0 <= i < |o.effects| && o.effects[i].Echo? ==> o.effects[i].raw.topic == Some(chat.topic)
  {
    Publishing(chat, NewMessage(messageId, text, now), chat.updateTopic, published)
  }

  /**
   * `updateHistory`: the array is published on the history topic and, on success,
   * echoed there; a failed publish is swallowed, so the call never fails, and it
   * never touches the sending flag.
   */
  function UpdateHistory(chat: Chat, ms: seq<ChatMessage>, published: bool): (o: Outcome<()>)
    ensures o.result.Success?
    ensures forall i :: 0 <= i < |o.effects| ==> !o.effects[i].Sending?
    ensures Echoes(o.effects) <==> published
    ensures |o.effects| >= 1 && o.effects[0] == Publish(EncodeArray(ms), HistoryTopic, true)
  {
    var payload := EncodeArray(ms);
    if published then
      var effects := [Publish(payload, HistoryTopic, true), Echo(RawMessage(payload, Some(HistoryTopic), Some(chat.local)))];
      assert effects[1].Echo?;
      Outcome(effects, Success(()))
    else
      Outcome([Publish(payload, HistoryTopic, true)], Success(()))
  }

  /** The values the `isSending` observable takes during an operation, starting from `initial`. */
  function SendingValues(initial: bool, effects: seq<Effect>): seq<bool> {
    [initial] + Flags(effects)
  }

  function Flags(effects: seq<Effect>): seq<bool> {
    if |effects| == 0 then []
    else (if effects[0].Sending? then [effects[0].flag] else []) + Flags(effects[1..])
  }

  lemma {:induction false} FlagsOfBracket(effects: seq<Effect>)
    requires Bracketed(effects)
    ensures Flags(effects) == [true, false]
  {
    var inner := effects[1..|effects| - 1];
    assert effects == [effects[0]] + inner + [effects[|effects| - 1]];
    FlagsNone(inner);
    FlagsAppend([effects[0]] + inner, [effects[|effects| - 1]]);
    FlagsAppend([effects[0]], inner);
  }

  lemma {:induction false} FlagsNone(effects: seq<Effect>)
    requires forall i :: 0 <= i < |effects| ==> !effects[i].Sending?
    ensures Flags(effects) == []
  {
    if |effects| > 0 {
      FlagsNone(effects[1..]);
    }
  }

  lemma {:induction false} FlagsAppend(a: seq<Effect>, b: seq<Effect>)
    ensures Flags(a + b) == Flags(a) + Flags(b)
    decreases |a|
  {
    if |a| == 0 {
      assert a + b == b;
    } else {
      var head := if a[0].Sending? then [a[0].flag] else [];
      assert (a + b)[0] == a[0];
      assert (a + b)[1..] == a[1..] + b;
      assert Flags(a + b) == head + Flags(a[1..] + b);
      FlagsAppend(a[1..], b);
      assert Flags(a) == head + Flags(a[1..]);
    }
  }

  /** Whether the publish succeeds or fails, `isSending` goes false, true, false and is never left raised. */
  lemma SendFlagNeverStuck(chat: Chat, text: string, now: int, uuid: string, published: bool)
    ensures SendingValues(false, Send(chat, text, now, uuid, published).effects) == [false, true, false]
  {
    FlagsOfBracket(Send(chat, text, now, uuid, published).effects);
  }

  lemma UpdateFlagNeverStuck(chat: Chat, text: string, messageId: string, now: int, published: bool)
    ensures SendingValues(false, Update(chat, text, messageId, now, published).effects) == [false, true, false]
  {
    FlagsOfBracket(Update(chat, text, messageId, now, published).effects);
  }

  // ---------------------------------------------------------------------------
  // Local echoes meet the reducer

  /** The configuration with the default codec. */
  ghost predicate DefaultCodec(chat: Chat) {
    && (forall m :: chat.encode(m) == Encode(m))
    && (forall j :: chat.decode(j) == Decode(j))
  }

  /**
   * With the default codec, the payload `send` publishes decodes to the message it
   * returns, and its local echo appends that message, attributed to the local
   * participant, to any state that does not yet hold an entry with its id.
   */
  lemma SendEchoAppends(chat: Chat, acc: seq<Received>, text: string, now: int, uuid: string)
    requires DefaultCodec(chat) && chat.topic != HistoryTopic
    requires forall i :: 0 <= i < |acc| ==> acc[i].msg.id != uuid
    ensures var o := Send(chat, text, now, uuid, true);
      && o.effects[1].Publish?
      && Decode(o.effects[1].payload) == Success(Unannotated(o.result.value))
      && o.result.value.message == text
      && o.effects[2].Echo?
      && Step(chat.decode, acc, o.effects[2].raw) == Success(acc + [Received(o.result.value, Some(chat.local), None)])
  {
    var m := NewMessage(uuid, text, now);
    DecodeEncode(m);
    AppendFresh(chat.decode, acc, RawMessage(Encode(m), Some(chat.topic), Some(chat.local)), Unannotated(m));
  }

  /**
   * With the default codec, the local echo of `update` edits the first entry with
   * `messageId` when the local participant already has an entry with that id: the
   * text is replaced, the original timestamp kept and the update's time recorded.
   */
  lemma UpdateEchoEdits(chat: Chat, acc: seq<Received>, text: string, messageId: string, now: int, k: nat)
    requires DefaultCodec(chat) && chat.topic != HistoryTopic
    requires k < |acc| && acc[k].msg.id == messageId
    requires forall j :: 0 <= j < k ==> acc[j].msg.id != messageId
    requires exists i :: 0 <= i < |acc| && acc[i].msg.id == messageId && SenderIdentity(acc[i]) == Some(chat.local.identity)
    ensures var o := Update(chat, text, messageId, now, true);
      && o.effects[2].Echo?
      && Step(chat.decode, acc, o.effects[2].raw).Success?
      && var next := Step(chat.decode, acc, o.effects[2].raw).value;
      && |next| == |acc|
      && next[k].msg.message == text
      && next[k].msg.timestamp == acc[k].msg.timestamp
      && next[k].editTimestamp == Some(now)
      && forall j :: 0 <= j < |acc| && j != k ==> next[j] == acc[j]
  {
    var m := NewMessage(messageId, text, now);
    DecodeEncode(m);
    var raw := RawMessage(Encode(m), Some(chat.topic), Some(chat.local));
    var value := Unannotated(m).(sender := raw.sender);
    var i :| 0 <= i < |acc| && acc[i].msg.id == messageId && SenderIdentity(acc[i]) == Some(chat.local.identity);
    assert SameSenderAndId(acc[i], value);
    EditInPlace(chat.decode, acc, raw, Unannotated(m));
  }

  /** The echo of a successful `updateHistory` with more than one message makes the local state exactly those messages. */
  lemma HistoryEchoReplaces(chat: Chat, acc: seq<Received>, ms: seq<ChatMessage>)
    requires |ms| > 1
    ensures var o := UpdateHistory(chat, ms, true);
      o.effects[1].Echo? && Step(chat.decode, acc, o.effects[1].raw) == Success(UnannotatedAll(ms))
  {
    DecodeArrayEncodeArray(ms);
  }

  /** The echo of a successful `updateHistory([])` ends the local message stream with an error. */
  lemma EmptyHistoryEchoFails(chat: Chat, acc: seq<Received>)
    ensures var o := UpdateHistory(chat, [], true);
      o.effects[1].Echo? && Step(chat.decode, acc, o.effects[1].raw) == Failure(EmptyHistory)
  {
    DecodeArrayEncodeArray([]);
  }
}
