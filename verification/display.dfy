/**
 * What the desktop Playground (src/components/playground/Playground.tsx) shows of
 * the conversation and around it: one display row per chat message, the mobile
 * tab list and the invite link.
 */
module Display {
  import opened Wrappers
  import opened Messages
  import Reducer

  /** `ChatMessageType`: a row of the chat tile. */
  datatype Row = Row(name: string, message: string, timestamp: int, isSelf: bool, highlightWordCount: int)

  /** The name a row is labelled with: the sender's name, or a fallback by authorship. */
  function RowName(r: Received): (name: string)
    ensures r.sender.Some? && r.sender.value.name != "" ==> name == r.sender.value.name
    ensures (r.sender.None? || r.sender.value.name == "") && r.msg.isAssistant ==> name == "Agent"
    ensures (r.sender.None? || r.sender.value.name == "") && !r.msg.isAssistant ==> name == "You"
  {
    if r.sender.Some? && r.sender.value.name != "" then r.sender.value.name
    else if r.msg.isAssistant then "Agent"
    else "You"
  }

  /** One iteration of the loop over `chatMessages`. */
  function ToRow(r: Received): (row: Row)
    ensures row.name == RowName(r)
    ensures row.message == r.msg.message && row.timestamp == r.msg.timestamp
    ensures row.highlightWordCount == r.msg.highlightWordCount
    ensures row.isSelf <==> !r.msg.isAssistant
  {
    Row(RowName(r), r.msg.message, r.msg.timestamp, !r.msg.isAssistant, r.msg.highlightWordCount)
  }

  /** The rows in conversation order: nothing is sorted, merged or dropped. */
  function Rows(ms: seq<Received>): (rows: seq<Row>)
    ensures |rows| == |ms|
    ensures forall i :: 0 <= i < |ms| ==> rows[i] == ToRow(ms[i])
  {
    if |ms| == 0 then [] else Rows(ms[..|ms| - 1]) + [ToRow(ms[|ms| - 1])]
  }

  /** Rows of a concatenation are the concatenation of the rows. */
  lemma RowsAppend(a: seq<Received>, b: seq<Received>)
    ensures Rows(a + b) == Rows(a) + Rows(b)
  {
  }

  /** A message the reducer appends shows up as one more row at the bottom, and the rows above stay. */
  lemma AppendedMessageIsLastRow(acc: seq<Received>, value: Received)
    requires !Reducer.HasOwnEntry(acc, value)
    ensures Reducer.Accumulate(acc, [value]).Success?
    ensures Rows(Reducer.Accumulate(acc, [value]).value) == Rows(acc) + [ToRow(value)]
  {
    RowsAppend(acc, [value]);
  }

  /** An edit changes the row of the edited message and no other row. */
  lemma EditedMessageKeepsOtherRows(acc: seq<Received>, value: Received, i: nat)
    requires Reducer.HasOwnEntry(acc, value)
    requires i < |acc| && i != Reducer.FirstIndexOf(acc, value.msg.id)
    ensures Reducer.Accumulate(acc, [value]).Success?
    ensures |Rows(Reducer.Accumulate(acc, [value]).value)| == |acc|
    ensures Rows(Reducer.Accumulate(acc, [value]).value)[i] == Rows(acc)[i]
  {
  }

  /** The members of `PlaygroundOutputs`. */
  datatype Output = Video | Audio | Chat

  /** The titles of the tabs the tabbed tile can hold. */
  datatype Tab = VideoTab | AudioTab | ChatTab | SettingsTab | CanvasTab | SdTab | GameTab

  /** Both tiles are switched off by constants in the desktop component. */
  const DisplayVideoTile := false
  const DisplayAudioTile := false

  /** `outputs?.includes(o)`: an absent list includes nothing. */
  predicate Includes(outputs: Option<seq<Output>>, o: Output) {
    outputs.Some? && o in outputs.value
  }

  /** The `mobileTabs` list, in push order. */
  function DesktopTabs(outputs: Option<seq<Output>>): (tabs: seq<Tab>)
    ensures VideoTab !in tabs && AudioTab !in tabs
    ensures ChatTab in tabs <==> Includes(outputs, Chat)
    ensures |tabs| >= 4 && tabs[|tabs| - 4..] == [SettingsTab, CanvasTab, SdTab, GameTab]
  {
    (if Includes(outputs, Video) && DisplayVideoTile then [VideoTab] else [])
    + (if Includes(outputs, Audio) && DisplayAudioTile then [AudioTab] else [])
    + (if Includes(outputs, Chat) then [ChatTab] else [])
    + [SettingsTab, CanvasTab, SdTab, GameTab]
  }

  /** `initialTab={mobileTabs.length - 1}`. */
  function InitialTab(tabs: seq<Tab>): (i: int)
    ensures |tabs| > 0 ==> 0 <= i < |tabs| && tabs[i] == tabs[|tabs| - 1]
  {
    |tabs| - 1
  }

  /** The tabbed tile always opens on the Game tab. */
  lemma OpensOnGame(outputs: Option<seq<Output>>)
    ensures DesktopTabs(outputs)[InitialTab(DesktopTabs(outputs))] == GameTab
  {
    var tabs := DesktopTabs(outputs);
    assert tabs[|tabs| - 4..][3] == GameTab;
  }

  const InvitePrefix := "https://purfect.me/talk/"
  const RoomQuery := "?room="

  /** The text "Copy Invite Link" puts on the clipboard. */
  function InviteLink(characterId: string, room: string): (link: string)
    ensures |link| == |InvitePrefix| + |characterId| + |RoomQuery| + |room|
    ensures link[..|InvitePrefix|] == InvitePrefix
  {
    InvitePrefix + characterId + RoomQuery + room
  }

  /** The index of the first `c` in `s`, if any. */
  function IndexOf(s: string, c: char): (r: Option<nat>)
    ensures r.Some? ==> r.value < |s| && s[r.value] == c && c !in s[..r.value]
    ensures r.None? ==> c !in s
  {
    if |s| == 0 then None
    else if s[0] == c then Some(0)
    else
      match IndexOf(s[1..], c)
      case None => None
      case Some(k) =>
        assert s[1..][..k] == s[1..k + 1];
        assert s[..k + 1] == [s[0]] + s[1..k + 1];
        Some(k + 1)
  }

  /** Reads a character id and a room back out of an invite link. */
  function ParseInvite(link: string): (r: Option<(string, string)>)
    ensures r.Some? ==> InviteLink(r.value.0, r.value.1) == link
  {
    if |link| < |InvitePrefix| || link[..|InvitePrefix|] != InvitePrefix then None
    else
      var rest := link[|InvitePrefix|..];
      match IndexOf(rest, '?')
      case None => None
      case Some(q) =>
        if q + |RoomQuery| <= |rest| && rest[q..q + |RoomQuery|] == RoomQuery then
          assert link == InvitePrefix + rest[..q] + RoomQuery + rest[q + |RoomQuery|..];
          Some((rest[..q], rest[q + |RoomQuery|..]))
        else None
  }

  /** A character id without '?' and any room are recovered from their invite link. */
  lemma {:induction false} ParseInviteLink(characterId: string, room: string)
    requires '?' !in characterId
    ensures ParseInvite(InviteLink(characterId, room)) == Some((characterId, room))
  {
    var link := InviteLink(characterId, room);
    var rest := link[|InvitePrefix|..];
    assert rest == characterId + RoomQuery + room;
    IndexOfAfter(characterId, RoomQuery + room);
    assert rest[..|characterId|] == characterId;
    assert rest[|characterId|..|characterId| + |RoomQuery|] == RoomQuery;
    assert rest[|characterId| + |RoomQuery|..] == room;
  }

  lemma {:induction false} IndexOfAfter(a: string, b: string)
    requires '?' !in a && |b| > 0 && b[0] == '?'
    ensures IndexOf(a + b, '?') == Some(|a|)
  {
    if |a| > 0 {
      assert (a + b)[1..] == a[1..] + b;
      IndexOfAfter(a[1..], b);
    }
  }
}
