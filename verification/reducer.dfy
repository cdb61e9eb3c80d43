/**
 * The conversation reducer of src/components/chat/chat.ts: the `map` stage that
 * decodes each inbound raw message and the `scan` stage that folds the decoded
 * values into the list of received messages.
 */
module Reducer {
  import opened Wrappers
  import opened Json
  import opened Messages
  import opened Codec

  /** The fixed topic of history snapshots. */
  const HistoryTopic: string := "chat_history_update"

  /** One inbound event: a payload, the topic it came on, and the participant it came from. */
  datatype RawMessage = RawMessage(payload: Json, topic: Option<string>, sender: Option<Participant>)

  /** A single-message decoder: the default `Decode` or one supplied in the chat options. */
  type Decoder = Json -> Result<Received, ChatError>

  /**
   * The `map` stage. A history-topic payload is read with the default array
   * decoder; any other payload with `decoder`, and the result is stamped with the
   * event's sender. Decoding failures are not caught.
   */
  function Parse(decoder: Decoder, raw: RawMessage): (r: Result<seq<Received>, ChatError>)
    ensures raw.topic == Some(HistoryTopic) ==> r == DecodeArray(raw.payload)
    ensures raw.topic != Some(HistoryTopic) ==> (r.Success? <==> decoder(raw.payload).Success?)
    ensures raw.topic != Some(HistoryTopic) && r.Success? ==>
      |r.value| == 1 && r.value[0].msg == decoder(raw.payload).value.msg && r.value[0].sender == raw.sender
    ensures raw.topic != Some(HistoryTopic) && r.Failure? ==> r.error == decoder(raw.payload).error
  {
    if raw.topic == Some(HistoryTopic) then DecodeArray(raw.payload)
    else
      var m :- decoder(raw.payload);
      Success([m.(sender := raw.sender)])
  }

  /** Some entry of `acc` came from the same sender identity as `value` and has its id. */
  predicate HasOwnEntry(acc: seq<Received>, value: Received) {
    exists i :: 0 <= i < |acc| && SameSenderAndId(acc[i], value)
  }

  predicate SameSenderAndId(a: Received, b: Received) {
    SenderIdentity(a) == SenderIdentity(b) && a.msg.id == b.msg.id
  }

  predicate HasId(acc: seq<Received>, id: string) {
    exists i :: 0 <= i < |acc| && acc[i].msg.id == id
  }

  /** `findIndex` on the id alone: the first entry carrying `id`. */
  function FirstIndexOf(acc: seq<Received>, id: string): (k: nat)
    requires HasId(acc, id)
    ensures k < |acc| && acc[k].msg.id == id
    ensures forall j :: 0 <= j < k ==> acc[j].msg.id != id
  {
    if acc[0].msg.id == id then 0
    else
      assert HasId(acc[1..], id) by {
        var i :| 0 <= i < |acc| && acc[i].msg.id == id;
        assert acc[1..][i - 1].msg.id == id;
      }
      1 + FirstIndexOf(acc[1..], id)
  }

  /** The entry an edit writes: the new content, the original send time, the new time as edit time. */
  function Edited(original: Received, value: Received): Received {
    Received(value.msg.(timestamp := original.msg.timestamp), value.sender, Some(value.msg.timestamp))
  }

  /** The `scan` accumulator. */
  function Accumulate(acc: seq<Received>, values: seq<Received>): (r: Result<seq<Received>, ChatError>)
    ensures r.Failure? <==> |values| == 0
    ensures r.Failure? ==> r.error == EmptyHistory
    ensures |values| > 1 ==> r == Success(values)
    ensures |values| == 1 && !HasOwnEntry(acc, values[0]) ==> r == Success(acc + [values[0]])
    ensures |values| == 1 && HasOwnEntry(acc, values[0]) ==>
      |r.value| == |acc| && forall i :: 0 <= i < |acc| ==> r.value[i].msg.id == acc[i].msg.id
  {
    if |values| > 1 then Success(values)
    else if |values| == 0 then Failure(EmptyHistory)
    else
      var value := values[0];
      if HasOwnEntry(acc, value) then
        var k := FirstIndexOf(acc, value.msg.id);
        Success(acc[k := Edited(acc[k], value)])
      else Success(acc + [value])
  }

  /** One inbound event folded into the state. */
  function Step(decoder: Decoder, acc: seq<Received>, raw: RawMessage): (r: Result<seq<Received>, ChatError>)
    ensures raw.topic != Some(HistoryTopic) ==> (r.Success? <==> decoder(raw.payload).Success?)
    ensures raw.topic != Some(HistoryTopic) && r.Failure? ==> r.error == decoder(raw.payload).error
    ensures raw.topic == Some(HistoryTopic) && r.Failure? ==> r.error == Malformed || r.error == EmptyHistory
  {
    var values :- Parse(decoder, raw);
    Accumulate(acc, values)
  }

  /** What an observer of the message list sees: the last list emitted, and the error that ended the stream, if any. */
  datatype Observed = Observed(messages: seq<Received>, error: Option<ChatError>)

  /** The fold over a sequence of events from state `acc`; the first failing event ends the stream. */
  function Run(decoder: Decoder, acc: seq<Received>, events: seq<RawMessage>): (o: Observed)
    ensures o.error.Some? ==>
      exists i :: 0 <= i < |events| && (events[i].topic == Some(HistoryTopic) || decoder(events[i].payload).Failure?)
    decreases |events|
  {
    if |events| == 0 then Observed(acc, None)
    else match Step(decoder, acc, events[0])
      case Failure(e) => Observed(acc, Some(e))
      case Success(next) =>
        var o := Run(decoder, next, events[1..]);
        assert o.error.Some? ==>
          (exists i :: 1 <= i < |events| && (events[i].topic == Some(HistoryTopic) || decoder(events[i].payload).Failure?)) by {
          if o.error.Some? {
            var i :| 0 <= i < |events[1..]|
              && (events[1..][i].topic == Some(HistoryTopic) || decoder(events[1..][i].payload).Failure?);
            assert events[1..][i] == events[i + 1];
          }
        }
        o
  }

  // ---------------------------------------------------------------------------
  // Single-message events

  /** A message with no entry of the same sender and id is appended; earlier entries stay as they were. */
  lemma AppendFresh(decoder: Decoder, acc: seq<Received>, raw: RawMessage, d: Received)
    requires raw.topic != Some(HistoryTopic)
    requires decoder(raw.payload) == Success(d)
    requires !HasOwnEntry(acc, d.(sender := raw.sender))
    ensures Step(decoder, acc, raw).Success?
    ensures var next := Step(decoder, acc, raw).value;
      && |next| == |acc| + 1
      && next[..|acc|] == acc
      && next[|acc|] == d.(sender := raw.sender)
  {
  }

  /**
   * A message whose sender already has an entry with its id overwrites the FIRST
   * entry with that id: it takes the new content and sender, keeps the original
   * timestamp and records the new timestamp as the edit time; nothing else changes.
   */
  lemma EditInPlace(decoder: Decoder, acc: seq<Received>, raw: RawMessage, d: Received)
    requires raw.topic != Some(HistoryTopic)
    requires decoder(raw.payload) == Success(d)
    requires HasOwnEntry(acc, d.(sender := raw.sender))
    ensures Step(decoder, acc, raw).Success?
    ensures var next := Step(decoder, acc, raw).value;
      exists k :: 0 <= k < |acc| && acc[k].msg.id == d.msg.id
        && (forall j :: 0 <= j < k ==> acc[j].msg.id != d.msg.id)
        && |next| == |acc|
        && next[k].msg == d.msg.(timestamp := acc[k].msg.timestamp)
        && next[k].sender == raw.sender
        && next[k].editTimestamp == Some(d.msg.timestamp)
        && (forall j :: 0 <= j < |acc| && j != k ==> next[j] == acc[j])
  {
    var value := d.(sender := raw.sender);
    assert HasId(acc, value.msg.id) by {
      var i :| 0 <= i < |acc| && SameSenderAndId(acc[i], value);
    }
    var k := FirstIndexOf(acc, value.msg.id);
    var next := Step(decoder, acc, raw).value;
    assert next == acc[k := Edited(acc[k], value)];
  }

  /**
   * The overwritten entry is chosen by id alone, so an edit from one sender can
   * overwrite another sender's entry that carries the same id, leaving its own
   * earlier entry untouched.
   */
  lemma EditRetargetsFirstId(decoder: Decoder, x: Participant, y: Participant, a: ChatMessage, b: ChatMessage, raw: RawMessage, d: Received)
    requires x.identity != y.identity && a.id == b.id
    requires raw.topic != Some(HistoryTopic) && raw.sender == Some(y)
    requires decoder(raw.payload) == Success(d) && d.msg.id == a.id
    ensures var acc := [Received(a, Some(x), None), Received(b, Some(y), None)];
      && Step(decoder, acc, raw).Success?
      && Step(decoder, acc, raw).value[0].sender == Some(y)
      && Step(decoder, acc, raw).value[1] == acc[1]
  {
    var acc := [Received(a, Some(x), None), Received(b, Some(y), None)];
    assert SameSenderAndId(acc[1], d.(sender := raw.sender));
  }

  // ---------------------------------------------------------------------------
  // History events

  /** A history payload decoding to more than one message replaces the whole state with it. */
  lemma HistoryReplaces(decoder: Decoder, acc: seq<Received>, raw: RawMessage, ms: seq<Received>)
    requires raw.topic == Some(HistoryTopic)
    requires DecodeArray(raw.payload) == Success(ms) && |ms| > 1
    ensures Step(decoder, acc, raw) == Success(ms)
  {
  }

  /** A history payload decoding to exactly one message is handled like a single message that has no sender. */
  lemma HistoryOfOne(decoder: Decoder, acc: seq<Received>, raw: RawMessage, m: Received)
    requires raw.topic == Some(HistoryTopic)
    requires DecodeArray(raw.payload) == Success([m])
    ensures !HasOwnEntry(acc, m) ==> Step(decoder, acc, raw) == Success(acc + [m])
    ensures HasOwnEntry(acc, m) ==> Step(decoder, acc, raw).Success? && |Step(decoder, acc, raw).value| == |acc|
  {
  }

  /** An empty history array ends the stream with an error. */
  lemma HistoryEmptyFails(decoder: Decoder, acc: seq<Received>, raw: RawMessage)
    requires raw.topic == Some(HistoryTopic)
    requires DecodeArray(raw.payload) == Success([])
    ensures Step(decoder, acc, raw) == Failure(EmptyHistory)
  {
  }

  // ---------------------------------------------------------------------------
  // The fold

  /** Folding two event sequences one after the other is folding their concatenation. */
  lemma {:induction false} RunAppend(decoder: Decoder, acc: seq<Received>, e1: seq<RawMessage>, e2: seq<RawMessage>)
    ensures Run(decoder, acc, e1 + e2)
      == (var first := Run(decoder, acc, e1);
          if first.error.Some? then first else Run(decoder, first.messages, e2))
    decreases |e1|
  {
    if |e1| > 0 {
      assert (e1 + e2)[0] == e1[0];
      assert (e1 + e2)[1..] == e1[1..] + e2;
      match Step(decoder, acc, e1[0])
      case Failure(_) =>
      case Success(next) => RunAppend(decoder, next, e1[1..], e2);
    } else {
      assert e1 + e2 == e2;
    }
  }

  /** Whatever came before, a history event of more than one message leaves exactly that history. */
  lemma HistoryWins(decoder: Decoder, acc: seq<Received>, events: seq<RawMessage>, raw: RawMessage, ms: seq<Received>)
    requires Run(decoder, acc, events).error.None?
    requires raw.topic == Some(HistoryTopic)
    requires DecodeArray(raw.payload) == Success(ms) && |ms| > 1
    ensures Run(decoder, acc, events + [raw]) == Observed(ms, None)
  {
    RunAppend(decoder, acc, events, [raw]);
    HistoryReplaces(decoder, Run(decoder, acc, events).messages, raw, ms);
  }

  predicate NoHistory(events: seq<RawMessage>) {
    forall i :: 0 <= i < |events| ==> events[i].topic != Some(HistoryTopic)
  }

  /**
   * Without history events the list never shrinks and every entry keeps the id
   * it had: messages are only appended or edited in place.
   */
  lemma {:induction false} RunKeepsPositions(decoder: Decoder, acc: seq<Received>, events: seq<RawMessage>)
    requires NoHistory(events)
    ensures var out := Run(decoder, acc, events).messages;
      |out| >= |acc| && forall i :: 0 <= i < |acc| ==> out[i].msg.id == acc[i].msg.id
    decreases |events|
  {
    if |events| > 0 {
      match Step(decoder, acc, events[0])
      case Failure(_) =>
      case Success(next) =>
        assert |next| >= |acc| && forall i :: 0 <= i < |acc| ==> next[i].msg.id == acc[i].msg.id;
        assert NoHistory(events[1..]) by {
          forall i | 0 <= i < |events[1..]| ensures events[1..][i].topic != Some(HistoryTopic) {
            assert events[1..][i] == events[i + 1];
          }
        }
        RunKeepsPositions(decoder, next, events[1..]);
    }
  }

  /** At most one entry per id. */
  predicate UniqueIds(acc: seq<Received>) {
    forall i, j :: 0 <= i < j < |acc| ==> acc[i].msg.id != acc[j].msg.id
  }

  /** Every entry carrying `value`'s id came from `value`'s sender. */
  predicate IdOwnedBy(acc: seq<Received>, value: Received) {
    forall i :: 0 <= i < |acc| && acc[i].msg.id == value.msg.id ==> SenderIdentity(acc[i]) == SenderIdentity(value)
  }

  /**
   * A single message keeps ids unique as long as no other sender already holds
   * its id; with that proviso an id is never listed twice.
   */
  lemma SingleKeepsIdsUnique(acc: seq<Received>, value: Received)
    requires UniqueIds(acc) && IdOwnedBy(acc, value)
    ensures Accumulate(acc, [value]).Success?
    ensures UniqueIds(Accumulate(acc, [value]).value)
  {
    if !HasOwnEntry(acc, value) {
      forall i | 0 <= i < |acc| ensures acc[i].msg.id != value.msg.id {
        if acc[i].msg.id == value.msg.id {
          assert SameSenderAndId(acc[i], value);
        }
      }
    }
  }

  /** The reducer never sorts: two messages appended in decreasing time order stay in that order. */
  lemma NeverSorts(decoder: Decoder, p: Participant, early: ChatMessage, late: ChatMessage, r1: RawMessage, r2: RawMessage)
    requires late.timestamp > early.timestamp && late.id != early.id
    requires r1.topic != Some(HistoryTopic) && r2.topic != Some(HistoryTopic)
    requires r1.sender == Some(p) && r2.sender == Some(p)
    requires decoder(r1.payload) == Success(Unannotated(late))
    requires decoder(r2.payload) == Success(Unannotated(early))
    ensures var out := Run(decoder, [], [r1, r2]).messages;
      |out| == 2 && out[0].msg.timestamp > out[1].msg.timestamp
  {
    var first := Received(late, Some(p), None);
    assert Parse(decoder, r1) == Success([first]);
    var empty: seq<Received> := [];
    assert !HasOwnEntry(empty, first);
    assert empty + [first] == [first];
    assert Accumulate(empty, [first]) == Success([first]);
    assert Step(decoder, [], r1) == Success([first]);
    var second := Received(early, Some(p), None);
    assert Parse(decoder, r2) == Success([second]);
    assert !HasOwnEntry([first], second);
    assert [first] + [second] == [first, second];
    assert Accumulate([first], [second]) == Success([first, second]);
    assert Step(decoder, [first], r2) == Success([first, second]);
    assert [r1, r2][1..] == [r2];
    assert Run(decoder, [first, second], []) == Observed([first, second], None);
    assert Run(decoder, [first], [r2]) == Observed([first, second], None);
    assert Run(decoder, [], [r1, r2]) == Observed([first, second], None);
  }
}
