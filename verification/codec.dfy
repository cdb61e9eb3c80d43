/**
 * The default message codec of src/components/chat/chat.ts (`encode`, `decode`,
 * `encodeArray`, `decodeArray`), at the level of JSON values.
 */
module Codec {
  import opened Wrappers
  import opened Json
  import opened Messages

  function Strings(ids: seq<string>): (items: seq<Json>)
    ensures |items| == |ids|
    ensures forall i :: 0 <= i < |ids| ==> items[i] == JStr(ids[i])
  {
    if |ids| == 0 then [] else [JStr(ids[0])] + Strings(ids[1..])
  }

  /** Reads an array whose elements are all strings. */
  function ReadStrings(items: seq<Json>): Option<seq<string>> {
    if |items| == 0 then Some([])
    else match items[0]
      case JStr(s) =>
        (match ReadStrings(items[1..])
         case Some(rest) => Some([s] + rest)
         case None => None)
      case _ => None
  }

  lemma {:induction false} ReadStringsRoundTrip(ids: seq<string>)
    ensures ReadStrings(Strings(ids)) == Some(ids)
  {
    if |ids| > 0 {
      assert Strings(ids)[1..] == Strings(ids[1..]);
      ReadStringsRoundTrip(ids[1..]);
      assert [ids[0]] + ids[1..] == ids;
    }
  }

  /** `JSON.stringify` of a message: one member per field, in the order `send` builds them. */
  function Encode(m: ChatMessage): (j: Json)
    ensures j.JObj? && |j.fields| == |Keys|
  {
    JObj([
      ("id", JStr(m.id)),
      ("message", JStr(m.message)),
      ("timestamp", JNum(m.timestamp)),
      ("is_assistant", JBool(m.isAssistant)),
      ("highlight_word_count", JNum(m.highlightWordCount)),
      ("deleted", JBool(m.deleted)),
      ("participant", JStr(m.participant)),
      ("parent_id", JStr(m.parentId)),
      ("alt_ids", JArr(Strings(m.altIds))),
      ("conversation_id", JStr(m.conversationId)),
      ("character_id", JStr(m.characterId)),
      ("model", JStr(m.model)),
      ("type", JStr(m.messageType))
    ])
  }

  function GetString(fields: seq<(string, Json)>, key: string): Option<string> {
    match Get(fields, key)
    case Some(JStr(s)) => Some(s)
    case _ => None
  }

  function GetNumber(fields: seq<(string, Json)>, key: string): Option<int> {
    match Get(fields, key)
    case Some(JNum(n)) => Some(n)
    case _ => None
  }

  function GetBool(fields: seq<(string, Json)>, key: string): Option<bool> {
    match Get(fields, key)
    case Some(JBool(b)) => Some(b)
    case _ => None
  }

  function GetStrings(fields: seq<(string, Json)>, key: string): Option<seq<string>> {
    match Get(fields, key)
    case Some(JArr(items)) => ReadStrings(items)
    case _ => None
  }

  /** Every field of the message is read from the member of its name, with its type; a missing or mistyped member fails the read. */
  function ReadMessage(fields: seq<(string, Json)>): (r: Option<ChatMessage>)
    ensures r.Some? ==>
      && GetString(fields, "id") == Some(r.value.id)
      && GetString(fields, "message") == Some(r.value.message)
      && GetNumber(fields, "timestamp") == Some(r.value.timestamp)
      && GetBool(fields, "is_assistant") == Some(r.value.isAssistant)
      && GetNumber(fields, "highlight_word_count") == Some(r.value.highlightWordCount)
      && GetBool(fields, "deleted") == Some(r.value.deleted)
      && GetString(fields, "participant") == Some(r.value.participant)
      && GetString(fields, "parent_id") == Some(r.value.parentId)
      && GetStrings(fields, "alt_ids") == Some(r.value.altIds)
      && GetString(fields, "conversation_id") == Some(r.value.conversationId)
      && GetString(fields, "character_id") == Some(r.value.characterId)
      && GetString(fields, "model") == Some(r.value.model)
      && GetString(fields, "type") == Some(r.value.messageType)
    ensures GetString(fields, "id").None? || GetString(fields, "message").None? ==> r.None?
  {
    var id :- GetString(fields, "id");
    var message :- GetString(fields, "message");
    var timestamp :- GetNumber(fields, "timestamp");
    var isAssistant :- GetBool(fields, "is_assistant");
    var highlight :- GetNumber(fields, "highlight_word_count");
    var deleted :- GetBool(fields, "deleted");
    var participant :- GetString(fields, "participant");
    var parentId :- GetString(fields, "parent_id");
    var altIds :- GetStrings(fields, "alt_ids");
    var conversationId :- GetString(fields, "conversation_id");
    var characterId :- GetString(fields, "character_id");
    var model :- GetString(fields, "model");
    var messageType :- GetString(fields, "type");
    Some(ChatMessage(id, timestamp, message, isAssistant, highlight, deleted, participant,
                     parentId, altIds, conversationId, characterId, model, messageType))
  }

  /**
   * `JSON.parse` of one message. The sender is never read from the payload; an
   * `editTimestamp` member, when the payload has one, is kept.
   */
  function Decode(j: Json): (r: Result<Received, ChatError>)
    ensures r.Success? <==> j.JObj? && ReadMessage(j.fields).Some?
    ensures r.Success? ==> r.value.msg == ReadMessage(j.fields).value && r.value.sender.None?
    ensures r.Success? ==> r.value.editTimestamp == GetNumber(j.fields, "editTimestamp")
    ensures r.Failure? ==> r.error == Malformed
  {
    match j
    case JObj(fields) =>
      (match ReadMessage(fields)
       case Some(m) => Success(Received(m, None, GetNumber(fields, "editTimestamp")))
       case None => Failure(Malformed))
    case _ => Failure(Malformed)
  }

  /** `JSON.stringify` of a message array. */
  function EncodeArray(ms: seq<ChatMessage>): (j: Json)
    ensures j.JArr? && |j.items| == |ms|
    ensures forall i :: 0 <= i < |ms| ==> j.items[i] == Encode(ms[i])
  {
    JArr(seq(|ms|, i requires 0 <= i < |ms| => Encode(ms[i])))
  }

  /** Decodes every element in order; the first element that is not a message fails the whole array. */
  function DecodeAll(items: seq<Json>): (r: Result<seq<Received>, ChatError>)
    ensures r.Success? <==> forall i :: 0 <= i < |items| ==> Decode(items[i]).Success?
    ensures r.Success? ==> |r.value| == |items| && forall i :: 0 <= i < |items| ==> Decode(items[i]) == Success(r.value[i])
    ensures r.Failure? ==> r.error == Malformed
  {
    if |items| == 0 then Success([])
    else
      match Decode(items[0])
      case Failure(e) => Failure(e)
      case Success(first) =>
        match DecodeAll(items[1..])
        case Failure(e) =>
          assert exists i :: 1 <= i < |items| && Decode(items[i]).Failure? by {
            var i :| 0 <= i < |items[1..]| && Decode(items[1..][i]).Failure?;
            assert items[1..][i] == items[i + 1];
          }
          Failure(e)
        case Success(rest) =>
          assert forall i :: 1 <= i < |items| ==> items[i] == items[1..][i - 1];
          Success([first] + rest)
  }

  /** `JSON.parse` of a history payload: every element must be a message. */
  function DecodeArray(j: Json): (r: Result<seq<Received>, ChatError>)
    ensures !j.JArr? ==> r == Failure(Malformed)
    ensures r.Failure? ==> r.error == Malformed
    ensures r.Success? ==> |r.value| == |j.items| && forall i :: 0 <= i < |r.value| ==> r.value[i].sender.None?
  {
    match j
    case JArr(items) => DecodeAll(items)
    case _ => Failure(Malformed)
  }

  /** The member names `Encode` writes, in order. */
  const Keys: seq<string> := [
    "id", "message", "timestamp", "is_assistant", "highlight_word_count", "deleted",
    "participant", "parent_id", "alt_ids", "conversation_id", "character_id", "model", "type"
  ]

  lemma EncodeKeys(m: ChatMessage)
    ensures |Encode(m).fields| == |Keys|
    ensures forall i :: 0 <= i < |Keys| ==> Encode(m).fields[i].0 == Keys[i]
  {
  }

  /** No member name is written twice, and none is `editTimestamp`. */
  lemma KeysDistinct()
    ensures forall i, j :: 0 <= i < j < |Keys| ==> Keys[i] != Keys[j]
    ensures forall i :: 0 <= i < |Keys| ==> Keys[i] != "editTimestamp"
  {
  }

  /** Every member `Encode` writes is read back with the value written. */
  lemma {:induction false} GetEncoded(m: ChatMessage, i: nat)
    requires i < |Keys|
    ensures Get(Encode(m).fields, Keys[i]) == Some(Encode(m).fields[i].1)
  {
    EncodeKeys(m);
    KeysDistinct();
    GetLastOccurrence(Encode(m).fields, Keys[i], i);
  }

  /** Every field of an encoded message is read back as written. */
  lemma {:induction false} ReadEncoded(m: ChatMessage)
    ensures ReadMessage(Encode(m).fields) == Some(m)
  {
    FieldsOfEncoded(m);
    ReadMessageOf(Encode(m).fields, m);
  }

  /** A member list holding every field of `m`, with its type, reads as `m`. */
  lemma {:induction false} ReadMessageOf(fields: seq<(string, Json)>, m: ChatMessage)
    requires GetString(fields, "id") == Some(m.id)
    requires GetString(fields, "message") == Some(m.message)
    requires GetNumber(fields, "timestamp") == Some(m.timestamp)
    requires GetBool(fields, "is_assistant") == Some(m.isAssistant)
    requires GetNumber(fields, "highlight_word_count") == Some(m.highlightWordCount)
    requires GetBool(fields, "deleted") == Some(m.deleted)
    requires GetString(fields, "participant") == Some(m.participant)
    requires GetString(fields, "parent_id") == Some(m.parentId)
    requires GetStrings(fields, "alt_ids") == Some(m.altIds)
    requires GetString(fields, "conversation_id") == Some(m.conversationId)
    requires GetString(fields, "character_id") == Some(m.characterId)
    requires GetString(fields, "model") == Some(m.model)
    requires GetString(fields, "type") == Some(m.messageType)
    ensures ReadMessage(fields) == Some(m)
  {
  }

  /** Each member `Encode` writes is read back, with its type, as the field it came from. */
  lemma {:induction false} FieldsOfEncoded(m: ChatMessage)
    ensures GetString(Encode(m).fields, "id") == Some(m.id)
    ensures GetString(Encode(m).fields, "message") == Some(m.message)
    ensures GetNumber(Encode(m).fields, "timestamp") == Some(m.timestamp)
    ensures GetBool(Encode(m).fields, "is_assistant") == Some(m.isAssistant)
    ensures GetNumber(Encode(m).fields, "highlight_word_count") == Some(m.highlightWordCount)
    ensures GetBool(Encode(m).fields, "deleted") == Some(m.deleted)
    ensures GetString(Encode(m).fields, "participant") == Some(m.participant)
    ensures GetString(Encode(m).fields, "parent_id") == Some(m.parentId)
    ensures GetStrings(Encode(m).fields, "alt_ids") == Some(m.altIds)
    ensures GetString(Encode(m).fields, "conversation_id") == Some(m.conversationId)
    ensures GetString(Encode(m).fields, "character_id") == Some(m.characterId)
    ensures GetString(Encode(m).fields, "model") == Some(m.model)
    ensures GetString(Encode(m).fields, "type") == Some(m.messageType)
  {
    LeadingFieldsOfEncoded(m);
    TrailingFieldsOfEncoded(m);
  }

  lemma {:induction false} LeadingFieldsOfEncoded(m: ChatMessage)
    ensures GetString(Encode(m).fields, "id") == Some(m.id)
    ensures GetString(Encode(m).fields, "message") == Some(m.message)
    ensures GetNumber(Encode(m).fields, "timestamp") == Some(m.timestamp)
    ensures GetBool(Encode(m).fields, "is_assistant") == Some(m.isAssistant)
    ensures GetNumber(Encode(m).fields, "highlight_word_count") == Some(m.highlightWordCount)
    ensures GetBool(Encode(m).fields, "deleted") == Some(m.deleted)
    ensures GetString(Encode(m).fields, "participant") == Some(m.participant)
  {
    GetEncoded(m, 0);
    GetEncoded(m, 1);
    GetEncoded(m, 2);
    GetEncoded(m, 3);
    GetEncoded(m, 4);
    GetEncoded(m, 5);
    GetEncoded(m, 6);
  }

  lemma {:induction false} TrailingFieldsOfEncoded(m: ChatMessage)
    ensures GetString(Encode(m).fields, "parent_id") == Some(m.parentId)
    ensures GetStrings(Encode(m).fields, "alt_ids") == Some(m.altIds)
    ensures GetString(Encode(m).fields, "conversation_id") == Some(m.conversationId)
    ensures GetString(Encode(m).fields, "character_id") == Some(m.characterId)
    ensures GetString(Encode(m).fields, "model") == Some(m.model)
    ensures GetString(Encode(m).fields, "type") == Some(m.messageType)
  {
    GetEncoded(m, 7);
    GetEncoded(m, 8);
    GetEncoded(m, 9);
    GetEncoded(m, 10);
    GetEncoded(m, 11);
    GetEncoded(m, 12);
    ReadStringsRoundTrip(m.altIds);
  }

  /** An encoded message carries no edit time. */
  lemma NoEditTimestamp(m: ChatMessage)
    ensures GetNumber(Encode(m).fields, "editTimestamp") == None
  {
    EncodeKeys(m);
    KeysDistinct();
    GetAbsent(Encode(m).fields, "editTimestamp");
  }

  /** Decoding an encoded message gives the same message, with no sender and no edit time. */
  lemma DecodeEncode(m: ChatMessage)
    ensures Decode(Encode(m)) == Success(Unannotated(m))
  {
    ReadEncoded(m);
    NoEditTimestamp(m);
  }

  /** Decoding an encoded array gives the same messages, in order, none annotated. */
  lemma DecodeArrayEncodeArray(ms: seq<ChatMessage>)
    ensures DecodeArray(EncodeArray(ms)) == Success(UnannotatedAll(ms))
  {
    DecodeAllEncoded(ms);
  }

  lemma {:induction false} DecodeAllEncoded(ms: seq<ChatMessage>)
    ensures DecodeAll(EncodeArray(ms).items) == Success(UnannotatedAll(ms))
    decreases |ms|
  {
    if |ms| > 0 {
      var items := EncodeArray(ms).items;
      DecodeEncode(ms[0]);
      assert Decode(items[0]) == Success(Unannotated(ms[0]));
      assert items[1..] == EncodeArray(ms[1..]).items;
      DecodeAllEncoded(ms[1..]);
    }
  }
}
