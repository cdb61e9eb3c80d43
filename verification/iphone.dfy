/**
 * The phone layout of the Playground (src/components/iphone/Playground.tsx): spoken
 * transcripts merged with the chat into one list ordered by time, the panel
 * visibility switches and the tab list.
 */
module IPhone {
  import opened Wrappers
  import opened Messages
  import opened Display
  import Sorting

  /** What a "transcription" packet carries, once decoded. */
  datatype TranscriptPayload = TranscriptPayload(text: string, timestamp: Option<int>)

  /** The payload's timestamp when it is present and positive, otherwise the current time `now`. */
  function TranscriptTimestamp(p: TranscriptPayload, now: int): (t: int)
    ensures p.timestamp.Some? && p.timestamp.value > 0 ==> t == p.timestamp.value
    ensures p.timestamp.None? || p.timestamp.value <= 0 ==> t == now
    ensures now > 0 ==> t > 0
  {
    if p.timestamp.Some? && p.timestamp.value > 0 then p.timestamp.value else now
  }

  /** A transcript becomes a row of one's own, without highlighting, at the end of the list. */
  function AppendTranscript(transcripts: seq<Row>, p: TranscriptPayload, now: int): (r: seq<Row>)
    ensures |r| == |transcripts| + 1 && r[..|transcripts|] == transcripts
    ensures r[|transcripts|].name == "You" && r[|transcripts|].isSelf
    ensures r[|transcripts|].highlightWordCount == 0
    ensures r[|transcripts|].message == p.text
    ensures r[|transcripts|].timestamp == TranscriptTimestamp(p, now)
  {
    transcripts + [Row("You", p.text, TranscriptTimestamp(p, now), true, 0)]
  }

  function Timestamp(row: Row): int {
    row.timestamp
  }

  /** `[...transcripts, ...chat rows].sort((a, b) => a.timestamp - b.timestamp)`. */
  function Merge(transcripts: seq<Row>, chat: seq<Received>): (rows: seq<Row>)
    ensures |rows| == |transcripts| + |chat|
    ensures multiset(rows) == multiset(transcripts) + multiset(Rows(chat))
  {
    Sorting.Sort(transcripts + Rows(chat), Timestamp)
  }

  /**
   * The merged list is ordered by time, and the rows sharing a timestamp keep their
   * order: the transcripts first, then the chat rows.
   */
  lemma MergeOrdered(transcripts: seq<Row>, chat: seq<Received>, t: int)
    ensures Sorting.Sorted(Merge(transcripts, chat), Timestamp)
    ensures Sorting.WithKey(Merge(transcripts, chat), Timestamp, t)
         == Sorting.WithKey(transcripts, Timestamp, t) + Sorting.WithKey(Rows(chat), Timestamp, t)
  {
    Sorting.SortSorted(transcripts + Rows(chat), Timestamp);
    Sorting.SortStable(transcripts + Rows(chat), Timestamp, t);
    Sorting.WithKeyAppend(transcripts, Rows(chat), Timestamp, t);
  }

  /** Which panels are shown. */
  datatype Visibility = Visibility(video: bool, voice: bool, chat: bool, settings: bool)

  const InitialVisibility := Visibility(true, true, false, false)

  datatype Toggle = ShowVideo | ShowChat | ShowSettings

  /**
   * The three toggle handlers. The chat and settings handlers clear the video flag
   * twice and never touch the voice flag.
   */
  function ApplyToggle(v: Visibility, t: Toggle): (w: Visibility)
    ensures t == ShowVideo ==> w == InitialVisibility
    ensures t != ShowVideo ==> w.voice == v.voice && !w.video
    ensures w.chat <==> t == ShowChat
    ensures w.settings <==> t == ShowSettings
  {
    match t
    case ShowVideo => Visibility(true, true, false, false)
    case ShowChat => v.(video := false, chat := true, settings := false)
    case ShowSettings => v.(video := false, chat := false, settings := true)
  }

  /** The toggles applied in order: the panel shown is the one the last toggle asked for. */
  function ApplyToggles(v: Visibility, ts: seq<Toggle>): (w: Visibility)
    ensures |ts| == 0 ==> w == v
    ensures |ts| > 0 ==> (w.video <==> ts[|ts| - 1] == ShowVideo)
    ensures |ts| > 0 ==> (w.chat <==> ts[|ts| - 1] == ShowChat)
    ensures |ts| > 0 ==> (w.settings <==> ts[|ts| - 1] == ShowSettings)
    decreases |ts|
  {
    if |ts| == 0 then v else ApplyToggles(ApplyToggle(v, ts[0]), ts[1..])
  }

  /** Exactly one of the video, chat and settings panels is shown. */
  predicate ExactlyOne(v: Visibility) {
    (if v.video then 1 else 0) + (if v.chat then 1 else 0) + (if v.settings then 1 else 0) == 1
  }

  /** From the initial state, any sequence of toggles shows exactly one main panel and keeps the voice panel on. */
  lemma {:induction false} TogglesKeepOnePanel(v: Visibility, ts: seq<Toggle>)
    requires ExactlyOne(v) && v.voice
    ensures ExactlyOne(ApplyToggles(v, ts)) && ApplyToggles(v, ts).voice
    decreases |ts|
  {
    if |ts| > 0 {
      TogglesKeepOnePanel(ApplyToggle(v, ts[0]), ts[1..]);
    }
  }

  lemma InitialOnePanel()
    ensures ExactlyOne(InitialVisibility) && InitialVisibility.voice
  {
  }

  /** The position of a tab in the order the phone layout pushes them. */
  function Rank(t: Tab): nat {
    match t
    case VideoTab => 0
    case AudioTab => 1
    case ChatTab => 2
    case SettingsTab => 3
    case CanvasTab => 4
    case SdTab => 5
    case GameTab => 6
  }

  /**
   * The phone tab list: each output that is configured, then Settings; every tab at
   * most once, in the order Video, Audio, Chat, Settings.
   */
  function PhoneTabs(outputs: Option<seq<Output>>): (tabs: seq<Tab>)
    ensures VideoTab in tabs <==> Includes(outputs, Video)
    ensures AudioTab in tabs <==> Includes(outputs, Audio)
    ensures ChatTab in tabs <==> Includes(outputs, Chat)
    ensures |tabs| >= 1 && tabs[|tabs| - 1] == SettingsTab
    ensures SettingsTab !in tabs[..|tabs| - 1]
    ensures forall i, j :: 0 <= i < j < |tabs| ==> Rank(tabs[i]) < Rank(tabs[j])
  {
    (if Includes(outputs, Video) then [VideoTab] else [])
    + (if Includes(outputs, Audio) then [AudioTab] else [])
    + (if Includes(outputs, Chat) then [ChatTab] else [])
    + [SettingsTab]
  }

  /** The phone tile opens on Settings. */
  lemma PhoneOpensOnSettings(outputs: Option<seq<Output>>)
    ensures PhoneTabs(outputs)[InitialTab(PhoneTabs(outputs))] == SettingsTab
  {
  }
}
