# purfect.me chat-state model

A Dafny model of the chat-state layer of the purfect.me voice-and-chat
playground and of the small decision and step functions its pages compute
around it. Time, identifiers, random names, JSON parsing, token signing and the
outcome of every publish are parameters. Each operation is a pure function, or
a fold over a sequence of events.

What is modelled, by module:

- `Messages`, `Codec`: the `ChatMessage` and `ReceivedChatMessage` records.
  Also the default `JSON.stringify`/`JSON.parse` codec, over JSON values: a
  message becomes one object member per field, and object lookups take the last
  occurrence of a key.
- `Reducer`: the `map` + `scan` pipeline of `setupChat`, as a fold over raw
  events.
  - A history-topic payload is decoded as an array. Any other payload goes
    through the configured decoder and is stamped with its sender.
  - An array of more than one message replaces the state.
  - One message either edits or is appended. It is an edit when an entry with
    the same sender identity and id exists, and the edit then overwrites the
    first entry with that id. An empty array fails.
  - A decoding failure ends the stream.
- `Facade`:
  - the module-level room registry that decides whether a wire subscription
    is made, and `destroy`;
  - `send`, `update` and `updateHistory` as traces of effects: the `isSending`
    flag, the publish, and the local echo.
- `Commands`: the `!cmd[n]` parser of the chat tile and its dispatch on the
  four command names.
- `Highlight`: the split of a message on white-space runs, the colouring of the
  first `highlight_word_count` words, and the border colour.
- `Agent`:
  - the agent state derived from participant metadata, and the visualiser mode;
  - `isAgentConnected` and the loading-screen condition;
  - the connect modal's guards.
- `Display`: chat messages as display rows, the desktop tab list, and the
  invite link.
- `Sorting`, `IPhone`:
  - the phone layout's transcript rows;
  - the stable timestamp sort merging transcripts and chat;
  - the panel visibility toggles and the phone tab list.
- `Page`: `createRoomName`, the metadata rows, `handleConnect`, the room
  renewal on disconnect, and the outputs list.
- `Token`: the access-token endpoint's checks, in their order, with their
  status codes, the room-name pattern, and the grant.
- `IndexPage`: the character search filter, the guard on the fetched list, and
  the card route.
- `Loading`: the progress and flavour-text counters of the loading screen.

Where an informal description of the system and its code differ, the model
follows the code:

- the reducer never sorts the conversation;
- a message that fails to decode is not dropped: it ends the message stream;
- the command parser does not resolve its numeric argument to a message or an
  alternative id;
- the phone layout's chat and settings toggles clear the video flag twice and
  never touch the voice flag.

## Model

| member | source | states |
|---|---|---|
| `Json.GetLastOccurrence` | src/components/chat/chat.ts:58 | a parsed object's member is the value at the key's last occurrence |
| `Json.GetAbsent` | src/components/chat/chat.ts:58 | a key that occurs nowhere reads as absent |
| `Json.Get` | src/components/chat/chat.ts:58-59 | absent exactly when no member has the key |
| `Json.GetFindsLast` | src/components/chat/chat.ts:58-59 | a found value is the one stored at the last occurrence of the key |
| `Json.Truthy` | src/components/playground/Playground.tsx:256 | the falsy values are exactly `null`, `false`, `0` and the empty string |
| `Text.Lower` | src/pages/index.tsx:34 | lower-casing keeps the length and maps each character on its own; ASCII letters only |
| `Messages.Unannotated` | src/components/chat/chat.ts:27-30 | a message read back from the wire has no sender and no edit time |
| `Messages.UnannotatedAll` | src/components/chat/chat.ts:59 | a history array reads back element by element with no sender or edit time |
| `Codec.Strings` | src/components/chat/chat.ts:19 | `alt_ids` is written as an array of JSON strings, element for element |
| `Codec.ReadStringsRoundTrip` | src/components/chat/chat.ts:19 | an array of strings written for `alt_ids` reads back as the same ids |
| `Codec.EncodeArray` | src/components/chat/chat.ts:56 | the array encoding holds one encoded message per message, in order |
| `Codec.Encode` | src/components/chat/chat.ts:55 | a message encodes to one object with one member per wire name; with `Codec.DecodeEncode` it is the inverse of `Codec.Decode` |
| `Codec.ReadMessage` | src/components/chat/chat.ts:58 | a message is read only when every field is present with its type, and then each field is the member of its name |
| `Codec.Decode` | src/components/chat/chat.ts:58 | only an object holding every field decodes; the result has no sender, keeps a numeric `editTimestamp` member, and failure is `Malformed` |
| `Codec.DecodeAll` | src/components/chat/chat.ts:59 | the array decodes exactly when every element does, element for element in order; one bad element fails the whole array |
| `Codec.DecodeArray` | src/components/chat/chat.ts:59 | a non-array fails; a decoded history has one message per element, none with a sender |
| `Codec.EncodeKeys` | src/components/chat/chat.ts:138-152 | the encoding writes exactly the thirteen wire member names, in the order `send`'s object literal builds them |
| `Codec.KeysDistinct` | src/components/chat/chat.ts:10-24 | no member name is written twice, and none is `editTimestamp` |
| `Codec.GetEncoded` | src/components/chat/chat.ts:55-58 | every member the encoding writes is read back with the value written |
| `Codec.FieldsOfEncoded` | src/components/chat/chat.ts:55-58 | each of the thirteen fields is read back, with its type, as the value it came from |
| `Codec.LeadingFieldsOfEncoded` | src/components/chat/chat.ts:11-17 | the first seven fields read back as written |
| `Codec.TrailingFieldsOfEncoded` | src/components/chat/chat.ts:18-23 | the last six fields read back as written, including the id list |
| `Codec.ReadMessageOf` | src/components/chat/chat.ts:58 | a member list holding every field of a message, each with its type, decodes to that message |
| `Codec.ReadEncoded` | src/components/chat/chat.ts:55-58 | reading the members of an encoded message gives the message back |
| `Codec.NoEditTimestamp` | src/components/chat/chat.ts:27-30 | an encoded message carries no edit time |
| `Codec.DecodeEncode` | src/components/chat/chat.ts:55-58 | default round trip: `decode(encode(m))` is `m`, with no sender and no edit time |
| `Codec.DecodeArrayEncodeArray` | src/components/chat/chat.ts:56-59 | default round trip for history arrays, in order |
| `Codec.DecodeAllEncoded` | src/components/chat/chat.ts:56-59 | every element of an encoded array decodes to its message |
| `Reducer.FirstIndexOf` | src/components/chat/chat.ts:114 | `findIndex` on the id: an entry with that id, and none before it has it |
| `Reducer.Parse` | src/components/chat/chat.ts:92-102 | a history-topic payload goes to the array decoder; any other goes to the configured decoder, whose failure is passed on uncaught, and yields one message stamped with the event sender |
| `Reducer.Accumulate` | src/components/chat/chat.ts:103-127 | an empty array fails; several messages replace the state; one message without a same-sender entry is appended, and one with such an entry keeps the length and every position's id |
| `Reducer.Step` | src/components/chat/chat.ts:91-127 | a non-history event fails exactly when the decoder fails, with the decoder's error; a history event can fail only as malformed or empty |
| `Reducer.Run` | src/components/chat/chat.ts:91-129 | the stream ends in an error only if some event is a history event or one the decoder rejects |
| `Reducer.AppendFresh` | src/components/chat/chat.ts:110-125 | a message with no entry of the same sender and id is appended at the end; length grows by one and earlier entries stay |
| `Reducer.EditInPlace` | src/components/chat/chat.ts:110-123 | with a same-sender, same-id entry, the first entry with the id takes the new content, keeps its timestamp and records the new time as edit time; the length and every other entry stay |
| `Reducer.EditRetargetsFirstId` | src/components/chat/chat.ts:112-117 | edit detection uses the sender, but the overwritten entry is the first with the id, even when another sender owns it |
| `Reducer.HistoryReplaces` | src/components/chat/chat.ts:93-106 | a history payload of more than one message makes the state exactly those messages, whatever came before |
| `Reducer.HistoryOfOne` | src/components/chat/chat.ts:107-125 | a history payload of one message takes the single-message path: appended without a same-sender entry, otherwise an edit that keeps the length |
| `Reducer.HistoryEmptyFails` | src/components/chat/chat.ts:107-111 | an empty history payload fails the step |
| `Reducer.RunAppend` | src/components/chat/chat.ts:103-127 | folding two event sequences one after the other is folding their concatenation |
| `Reducer.HistoryWins` | src/components/chat/chat.ts:104-106 | after any events that ended without error, a history of more than one message leaves exactly those messages |
| `Reducer.RunKeepsPositions` | src/components/chat/chat.ts:107-125 | without history events the list never shrinks and no entry moves: an earlier entry keeps its id at its position |
| `Reducer.SingleKeepsIdsUnique` | src/components/chat/chat.ts:110-125 | if ids are unique and the incoming id is owned by its own sender whenever it is present, ids stay unique |
| `Reducer.NeverSorts` | src/components/chat/chat.ts:103-127 | two messages arrive in reverse time order and stay in arrival order |
| `Facade.Configure` | src/components/chat/chat.ts:65-133 | a given channel or update topic is used as is, a missing one falls back to the chat or chat-update default; a given encoder or decoder is used, and with neither the default codec is in place; the local participant is kept |
| `Facade.SetupChat` | src/components/chat/chat.ts:71-84 | the wire subscription is made, for the chat and update topics only, exactly when the room had no entry; the room's entry gains the chat topic and no other room changes |
| `Facade.Destroy` | src/components/chat/chat.ts:223-227 | destroy clears every room's entry |
| `Facade.SetupAfterDestroySubscribes` | src/components/chat/chat.ts:71-84 | after destroy, the next setup of any room subscribes again |
| `Facade.SecondSetupHasNoWire` | src/components/chat/chat.ts:72-84 | a second setup of the same room never subscribes, whatever its topics |
| `Facade.WireCarriesNoHistory` | src/components/chat/chat.ts:82 | the wire never delivers a history event unless a configured topic is the history topic |
| `Facade.NewMessage` | src/components/chat/chat.ts:138-152 | the built message carries the given id, text and time, `alt_ids == [id]`, not assistant, not deleted, no parent, no highlighting |
| `Facade.Publishing` | src/components/chat/chat.ts:152-167 | the flag goes up first and down last on both paths; one publish; the echo and the result exist exactly when the publish succeeds, and the echo comes after it |
| `Facade.Send` | src/components/chat/chat.ts:135-168 | `send` publishes the new message on the chat topic inside the bracket, echoes and returns it only on success |
| `Facade.Update` | src/components/chat/chat.ts:170-203 | `update` reuses the message id, publishes on the update topic but echoes on the chat topic |
| `Facade.UpdateHistory` | src/components/chat/chat.ts:205-221 | `updateHistory` never fails, never touches the flag, publishes the array on the history topic and echoes only on success |
| `Facade.FlagsOfBracket` | src/components/chat/chat.ts:153-167 | a bracketed trace sets the flag true and then false, nothing else |
| `Facade.FlagsAppend` | src/components/chat/chat.ts:153-167 | the flag values of a joined trace are the values of its parts, in order |
| `Facade.FlagsNone` | src/components/chat/chat.ts:154-165 | a trace that never touches the flag yields no flag values |
| `Facade.SendFlagNeverStuck` | src/components/chat/chat.ts:153-167 | whatever the publish does, `isSending` goes false, true, false during `send` |
| `Facade.UpdateFlagNeverStuck` | src/components/chat/chat.ts:188-202 | whatever the publish does, `isSending` goes false, true, false during `update` |
| `Facade.SendEchoAppends` | src/components/chat/chat.ts:135-168 | with the default codec, the published payload decodes to the returned message, and its echo appends it, from the local participant, to a state without its id |
| `Facade.UpdateEchoEdits` | src/components/chat/chat.ts:170-203 | with the default codec, when an entry with the id comes from the local identity, the echo of `update` edits the first entry with the id in place: new text, original time, edit time set, other entries unchanged |
| `Facade.HistoryEchoReplaces` | src/components/chat/chat.ts:205-217 | the echo of a successful `updateHistory` with more than one message makes the state exactly those messages |
| `Facade.EmptyHistoryEchoFails` | src/components/chat/chat.ts:205-217 | the echo of `updateHistory([])` ends the message stream with an error |
| `Commands.DigitRun` | src/components/chat/ChatTile.tsx:25 | the leading run of `\d` characters: all digits, stopped at a non-digit or at the end |
| `Commands.Captured` | src/components/chat/ChatTile.tsx:25 | a group's capture is a non-empty digit string |
| `Commands.FirstMatch` | src/components/chat/ChatTile.tsx:25 | the search finds the leftmost `[digits]` group at or after a position, or reports none |
| `Commands.ParseCommand` | src/components/chat/ChatTile.tsx:25-26 | after dropping the first character: no argument exactly when there is no `[digits]` group, the whole rest then being the command; otherwise the command is the text before the first group and the argument that group's decimal value |
| `Commands.PrefixMatch` | src/components/chat/ChatTile.tsx:25 | a group inside a prefix is a group of the whole string |
| `Commands.DigitRunPrefix` | src/components/chat/ChatTile.tsx:25 | the digit run of a string is that of any prefix reaching past it |
| `Commands.DigitRunAppend` | src/components/chat/ChatTile.tsx:25 | a digit run stops where the digits stop, whatever follows |
| `Commands.DigitRunAll` | src/components/chat/ChatTile.tsx:25 | a digit string followed by a non-digit runs exactly its length |
| `Commands.FirstMatchIs` | src/components/chat/ChatTile.tsx:25 | a group with no group before it is the one the search finds |
| `Commands.ParseComposed` | src/components/chat/ChatTile.tsx:25-26 | `x name[digits] tail` parses to `name` and the digits' value, whatever the tail holds, later groups included |
| `Commands.ParseAtMatch` | src/components/chat/ChatTile.tsx:25-26 | the parse is determined by the first group the search finds |
| `Commands.GroupAfterName` | src/components/chat/ChatTile.tsx:25 | a group written after a name matches there and captures its digits |
| `Commands.NameMatchStaysInside` | src/components/chat/ChatTile.tsx:25 | a group found inside the name part cannot reach into the following bracket |
| `Commands.ParsePlain` | src/components/chat/ChatTile.tsx:25-26 | a command without a group parses to its text after the first character, with no argument |
| `Commands.FirstCharIgnored` | src/components/chat/ChatTile.tsx:25 | the first character is discarded whatever it is |
| `Commands.Classify` | src/components/chat/ChatTile.tsx:28-47 | exactly `help`, `fw`, `rgen` and `alt` are recognised; every other name is unknown |
| `Commands.HandleCommand` | src/components/chat/ChatTile.tsx:23-48 | handling a command logs exactly one line and nothing else: fixed lines for `help` and `rgen`, the numeric argument for `fw` and `alt`, and the raw command for any other name; it never calls `onCommand` and changes no messages |
| `Commands.ForwardZero` | src/components/chat/ChatTile.tsx:25-36 | `!fw[0]` is the forward command with argument 0, and its log line carries that 0 |
| `Commands.ArgumentLoggedOnlyForForwardAndAlt` | src/components/chat/ChatTile.tsx:28-47 | the log line carries the argument exactly when the command is `fw` or `alt` |
| `Commands.UnknownLogsRawCommand` | src/components/chat/ChatTile.tsx:45-46 | an unknown command with an argument, `!zz[5]`, logs the whole raw command text, not the parsed name or argument |
| `Highlight.WordRunStops` | src/components/chat/ChatMessage.tsx:27 | the word run holds no white space and stops at white space or the end |
| `Highlight.SpaceRunStops` | src/components/chat/ChatMessage.tsx:27 | the separator run is all white space and stops at a non-space or the end |
| `Highlight.SplitStep` | src/components/chat/ChatMessage.tsx:27 | the split is a leading word, a non-empty white-space run, and the split of the rest |
| `Highlight.SplitUnfold` | src/components/chat/ChatMessage.tsx:27 | one unfolding of the split at the first separator |
| `Highlight.SeparatorRun` | src/components/chat/ChatMessage.tsx:27 | after the leading word comes a non-empty run of white space |
| `Highlight.SplitAlternates` | src/components/chat/ChatMessage.tsx:27 | even pieces hold no white space; odd pieces are non-empty white-space runs |
| `Highlight.AlternatingCons` | src/components/chat/ChatMessage.tsx:27 | a word and a separator in front of an alternating split keep it alternating |
| `Highlight.SplitConcat` | src/components/chat/ChatMessage.tsx:27 | joining the pieces reproduces the message |
| `Highlight.Split` | src/components/chat/ChatMessage.tsx:27 | the split is never empty; `Highlight.SplitAlternates` and `Highlight.SplitConcat` state that it alternates words and white-space runs and loses no character |
| `Highlight.ConcatPair` | src/components/chat/ChatMessage.tsx:27 | joining distributes over the first two pieces |
| `Highlight.BlankIsAllSpace` | src/components/chat/ChatMessage.tsx:31 | `trim() === ''` holds exactly for empty or all-white-space pieces |
| `Highlight.BlankPieces` | src/components/chat/ChatMessage.tsx:27-33 | a piece is blank exactly when it is a separator or an empty end |
| `Highlight.CountStrongAppend` | src/components/chat/ChatMessage.tsx:35-51 | one more coloured piece adds one to the accented count exactly when it is accented |
| `Highlight.Coloring` | src/components/chat/ChatMessage.tsx:30-53 | one span per piece, each coloured as the running word count decides |
| `Highlight.ColorMessage` | src/components/chat/ChatMessage.tsx:27-53 | the loop with its running counter produces exactly that colouring of the split |
| `Highlight.ColoringKeepsText` | src/components/chat/ChatMessage.tsx:27-53 | the rendered spans, in order, spell the message |
| `Highlight.ColoringClasses` | src/components/chat/ChatMessage.tsx:31-38 | blank pieces are never counted or coloured; one's own words are never accented or dimmed |
| `Highlight.StrongIsPrefix` | src/components/chat/ChatMessage.tsx:44 | any word before an accented word is accented: the accented words form a prefix |
| `Highlight.WordsBeforeMonotone` | src/components/chat/ChatMessage.tsx:35 | the word counter never decreases |
| `Highlight.StrongCount` | src/components/chat/ChatMessage.tsx:35-51 | on another's message exactly min(`highlight_word_count`, number of words) words are accented |
| `Highlight.StrongCountPrefix` | src/components/chat/ChatMessage.tsx:35-51 | the same count holds for every prefix of the pieces |
| `Highlight.Expected` | src/components/chat/ChatMessage.tsx:31-51 | the colour of one piece, as `Highlight.ColorMessage` computes it: blank pieces plain, one's own words grey, otherwise strong while fewer than `highlight_word_count` words precede |
| `Highlight.BorderClass` | src/components/chat/ChatMessage.tsx:55-59 | selection takes precedence over authorship: `-400` selected, else gray for self, else `-700` |
| `Agent.FromJsonName` | src/lib/types.ts:18-24 | each of the six state names reads back as its state |
| `Agent.FromJsonUnlisted` | src/lib/types.ts:18-24 | a metadata value is kept as an unlisted state exactly when it spells none of the six |
| `Agent.FromJson` | src/lib/types.ts:18-24 | an unlisted state keeps the value it came from, and a listed state came from exactly its own name |
| `Agent.DeriveAgentState` | src/components/playground/Playground.tsx:247-261 | no agent gives offline; empty metadata gives starting; unparsable metadata or the text `null` throws; a value outside the six is truthy |
| `Agent.Parsed` | src/components/playground/Playground.tsx:253-256 | a parsed metadata value that goes on to be read is not `null` |
| `Agent.PublishedStateIsRead` | src/components/iphone/Playground.tsx:254-268 | metadata carrying a state name under `agent_state` yields that state |
| `Agent.MissingStateIsStarting` | src/components/iphone/Playground.tsx:263-267 | metadata without a truthy `agent_state` yields starting |
| `Agent.VisualizerState` | src/components/playground/Playground.tsx:206-213 | thinking gives "thinking", speaking gives "talking", every other state gives "idle" |
| `Agent.LoadingWhileConnected` | src/components/playground/Playground.tsx:773 | the loading screen shows while connected exactly when the agent is starting, and always while offline |
| `Agent.IsAgentConnected` | src/components/playground/Playground.tsx:263 | every state but offline counts as connected; specified with the loading condition by `Agent.LoadingWhileConnected` |
| `Agent.ShowLoading` | src/components/playground/Playground.tsx:773 | the loading screen shows for offline and starting; specified by `Agent.LoadingWhileConnected` |
| `Agent.HandleClose` | src/components/playground/ConnectModal.tsx:16-21 | `onClose` is called exactly in the thinking, speaking and listening states, and `onConnect` never |
| `Agent.HandleConnect` | src/components/playground/ConnectModal.tsx:24-27 | `onConnect` is called exactly once and `onClose` never |
| `Agent.CloseGuard` | src/components/playground/ConnectModal.tsx:18 | closing is a no-op while idle, offline or starting; a state that closes is connected and past loading |
| `Display.RowName` | src/components/playground/Playground.tsx:321-330 | the sender's name when non-empty, else "Agent" for the assistant, else "You" |
| `Display.ToRow` | src/components/playground/Playground.tsx:319-337 | a row copies text, time and highlight count, and is one's own exactly when not from the assistant |
| `Display.Rows` | src/components/playground/Playground.tsx:316-339 | one row per message, same length, same order: nothing sorted, merged or dropped |
| `Display.RowsAppend` | src/components/playground/Playground.tsx:318-338 | the rows of joined lists are the joined rows |
| `Display.AppendedMessageIsLastRow` | src/components/playground/Playground.tsx:316-339 | a message the reducer appends becomes one more row at the bottom, and the rows above stay |
| `Display.EditedMessageKeepsOtherRows` | src/components/playground/Playground.tsx:316-339 | an edit changes the edited message's row and no other |
| `Display.DesktopTabs` | src/components/playground/Playground.tsx:654-752 | never a Video or Audio tab; Chat exactly when the outputs include chat; always ending Settings, Canvas, SD, Game |
| `Display.InitialTab` | src/components/playground/Playground.tsx:781 | the initial tab is the last one |
| `Display.OpensOnGame` | src/components/playground/Playground.tsx:735-781 | the desktop tabbed tile opens on Game |
| `Display.InviteLink` | src/components/playground/Playground.tsx:495 | the link starts with `https://purfect.me/talk/` and has exactly the parts' length |
| `Display.IndexOf` | src/components/playground/Playground.tsx:495 | the first occurrence of a character, or none |
| `Display.ParseInvite` | src/components/playground/Playground.tsx:495 | whatever is read out of a link rebuilds that link |
| `Display.ParseInviteLink` | src/components/playground/Playground.tsx:495 | a character id without `?` and any room are recovered from their invite link |
| `Display.IndexOfAfter` | src/components/playground/Playground.tsx:495 | the first `?` of an invite link follows the character id |
| `Sorting.WithKeyAppend` | src/components/iphone/Playground.tsx:311-332 | the rows of one timestamp in joined lists are the joined rows of that timestamp |
| `Sorting.Insert` | src/components/iphone/Playground.tsx:333 | insertion adds exactly the element |
| `Sorting.Sort` | src/components/iphone/Playground.tsx:333 | sorting is a permutation |
| `Sorting.InsertSorted` | src/components/iphone/Playground.tsx:333 | inserting into a sorted list keeps it sorted |
| `Sorting.InsertWithKey` | src/components/iphone/Playground.tsx:333 | an inserted row goes after every row with its timestamp |
| `Sorting.SortSorted` | src/components/iphone/Playground.tsx:333 | the sort orders by timestamp, ascending |
| `Sorting.SortStable` | src/components/iphone/Playground.tsx:333 | the sort is stable: the rows of each timestamp keep their order |
| `IPhone.TranscriptTimestamp` | src/components/iphone/Playground.tsx:278-281 | the payload's timestamp when present and positive, otherwise the current time |
| `IPhone.AppendTranscript` | src/components/iphone/Playground.tsx:282-291 | one row appended at the end: "You", one's own, no highlighting, the text and that timestamp |
| `IPhone.Merge` | src/components/iphone/Playground.tsx:310-335 | the merge holds exactly the transcripts and the chat rows: as many as both together |
| `IPhone.MergeOrdered` | src/components/iphone/Playground.tsx:310-335 | the merge is ordered by timestamp, and on a tie transcripts come first, each group in its order |
| `IPhone.ApplyToggle` | src/components/iphone/Playground.tsx:187-205 | video restores the initial panels; chat and settings clear video, show only themselves and leave voice alone |
| `IPhone.ApplyToggles` | src/components/iphone/Playground.tsx:187-205 | after a sequence of toggles, no toggle changes nothing; otherwise video, chat and settings are each shown exactly when the last toggle was theirs |
| `IPhone.TogglesKeepOnePanel` | src/components/iphone/Playground.tsx:175-205 | after any sequence of toggles exactly one of video, chat, settings is shown, and voice stays on |
| `IPhone.InitialOnePanel` | src/components/iphone/Playground.tsx:175-178 | initially exactly one main panel (video) is shown, and voice is on |
| `IPhone.PhoneTabs` | src/components/iphone/Playground.tsx:523-571 | Video, Audio and Chat each exactly when configured, then Settings once and last; every tab occurs at most once and the tabs keep the order Video, Audio, Chat, Settings |
| `IPhone.PhoneOpensOnSettings` | src/components/iphone/Playground.tsx:602 | the phone tabbed tile opens on Settings |
| `Page.CreateRoomName` | src/pages/playground.tsx:209-213 | the name is the first part, a dash, the second part |
| `Page.GeneratedNameAccepted` | src/pages/playground.tsx:209-213 | two 4-character alphanumeric parts always make a name the token endpoint's pattern accepts |
| `Page.MetadataRows` | src/pages/playground.tsx:91-104 | the URL row, first, exactly when the URL is set and not the default; the room and identity rows, last, exactly when there is no custom token and the identity is set |
| `Page.ShowsUrl` | src/pages/playground.tsx:93 | the URL row condition: the URL is set, non-empty and not the deployment default; specified by `Page.MetadataRows` |
| `Page.ShowsSession` | src/pages/playground.tsx:96 | the room and identity rows condition: no custom token and a non-empty identity; specified by `Page.MetadataRows` |
| `Page.HandleConnect` | src/pages/playground.tsx:114-123 | the flag always follows `connect`; URL and token change only on a connect with options |
| `Page.RenewRoom` | src/pages/playground.tsx:85-89 | a change of the flag to false brings a new room name, and nothing else changes |
| `Page.DisconnectRenewsRoom` | src/pages/playground.tsx:85-123 | a disconnect from a connected page renews the room; a connect keeps it |
| `Page.DropBooleans` | src/pages/playground.tsx:112 | the filter keeps exactly the outputs among the items |
| `Page.DropBooleansKeepsEnabled` | src/pages/playground.tsx:108-112 | each output is listed exactly when its condition holds, in the literal's order |
| `Page.Outputs` | src/pages/playground.tsx:108-112 | the outputs are exactly Audio, Video, Chat |
| `Page.OutputsShowChat` | src/pages/playground.tsx:108-112 | with the page's outputs the desktop tiles offer a Chat tab |
| `Token.FindRoomPattern` | src/pages/api/token.ts:18-39 | the search the handler runs: the leftmost index at or after the start position where `\w{4}-\w{4}` matches, and none exactly when it matches at no such index |
| `Token.FindsAnyMatch` | src/pages/api/token.ts:18-41 | searching from the start finds a match exactly when the room name matches the pattern somewhere |
| `Token.MatchesRoomPattern` | src/pages/api/token.ts:18-39 | `roomName.match(roomPattern)` is truthy: `\w{4}-\w{4}` occurs at some index; specified by `Token.FindsAnyMatch` and `Token.PatternUnanchored` |
| `Token.PatternUnanchored` | src/pages/api/token.ts:18 | the pattern is unanchored: text around a matching name does not stop the match |
| `Token.GrantFor` | src/pages/api/token.ts:43-49 | the grant is for the requested room, with join, publish, publish data and subscribe |
| `Token.HandleToken` | src/pages/api/token.ts:20-61 | 403 exactly when identity or room is missing or empty; a 200 carries the request's identity and a name that matches the pattern |
| `Token.EnvCheckedBeforeRoom` | src/pages/api/token.ts:28-41 | missing credentials give 500 before the room name is looked at |
| `Token.RoomCheckedLast` | src/pages/api/token.ts:32-41 | with the other checks passed, 400 exactly when the room name does not match |
| `Token.SignsRequestedRoom` | src/pages/api/token.ts:43-60 | a request that passes is signed for its room; the signer's token gives 200, its error 500 |
| `IndexPage.FilterCharacters` | src/pages/index.tsx:33-35 | a character is listed exactly when its lower-cased name contains the lower-cased query, as often as it was fetched |
| `IndexPage.MatchesQuery` | src/pages/index.tsx:34 | the case-insensitive containment test the filter applies; specified by `IndexPage.FilterCharacters` and `IndexPage.EmptyQueryKeepsAll` |
| `IndexPage.FilterSelectsMatches` | src/pages/index.tsx:33-35 | the filter keeps exactly the matching positions, in fetch order |
| `IndexPage.EmptyQueryKeepsAll` | src/pages/index.tsx:34 | an empty query lists every character |
| `IndexPage.FetchCharacters` | src/pages/index.tsx:37-56 | the list is replaced, element for element, only when the body is an array |
| `IndexPage.CardRoute` | src/pages/index.tsx:12-14 | the route is `/talk/` followed by the id |
| `IndexPage.RouteId` | src/pages/index.tsx:13 | the id a talk route names rebuilds that route |
| `IndexPage.CardRouteNamesCharacter` | src/pages/index.tsx:12-14 | a card routes to its own character's id |
| `Loading.Tick` | src/components/playground/LoadingScreen.tsx:10-17 | one callback adds 10, or stops at exactly 90 once the sum would reach 90 |
| `Loading.Ticks` | src/components/playground/LoadingScreen.tsx:10-17 | a stopped timer stays as it is, and while it still runs after n callbacks each one has added exactly 10 |
| `Loading.ProgressAfter` | src/components/playground/LoadingScreen.tsx:5-18 | after n callbacks the bar shows min(10 n, 90), and the timer runs exactly while below 90 |
| `Loading.ProgressBounds` | src/components/playground/LoadingScreen.tsx:5-17 | the bar stays in [0, 90] on a multiple of 10 and never goes back |
| `Loading.ProgressStaysAtCap` | src/components/playground/LoadingScreen.tsx:12-14 | once at 90 the timer is cleared and the bar stays at 90 |
| `Loading.TextTick` | src/components/playground/LoadingScreen.tsx:34-36 | a callback shows the current text and keeps the index below 4 |
| `Loading.TextTicks` | src/components/playground/LoadingScreen.tsx:34-36 | the index stays below 4 after any number of callbacks; `Loading.FlavorAfter` gives the text shown |
| `Loading.FlavorAfter` | src/components/playground/LoadingScreen.tsx:6-37 | no text before the first callback; after n callbacks the index is n mod 4 and the text the ((n-1) mod 4)-th |

## Left out

- JSON text, UTF-8 and `TextEncoder`/`TextDecoder`: payloads are JSON values. `JSON.parse` of agent metadata is the `parse` parameter of `Agent.DeriveAgentState`.
- Decoding is typed. A payload that lacks a field, or has a field of the wrong type, fails to decode, while the source's unchecked cast (`as ReceivedChatMessage`) would carry `undefined` on. Numbers are integers.
- The LiveKit transport (`sendMessage`, `setupDataMessageHandler`, `room.once`), RxJS subjects and operators, and React state. The reducer is an explicit fold over events. A publish is a boolean outcome parameter. The wire subscription is a list of topics.
- The scan mutates its accumulator in place before copying it, which also changes the list emitted one step earlier. The model has no aliasing and keeps only the new list.
- Concurrency between in-flight sends and inbound events: each event is one atomic step.
- `Date.now`, `new Date().getTime()`, `crypto.randomUUID` and `generateRandomAlphanumeric` (not part of this model) are parameters. The alphanumeric, length-4 output of the generator is the precondition of `Page.GeneratedNameAccepted`.
- `Commands.ParseCommand`: strings are sequences of Unicode code points, so `slice(1)` drops one whole character. JavaScript drops one UTF-16 code unit, which leaves a lone surrogate when the first character lies outside the Basic Multilingual Plane. A Dafny `char` cannot hold a lone surrogate, so that case is not modelled.
- `Commands.ParsePlain`: the same code-point reading of `slice(1)` as `Commands.ParseCommand`; the lone-surrogate case is not modelled.
- `Commands.ParseComposed`: the same code-point reading of `slice(1)` as `Commands.ParseCommand`; the lone-surrogate case is not modelled.
- `Commands.FirstCharIgnored`: the first character dropped is a code point, not a UTF-16 code unit; the lone-surrogate case is not modelled.
- `Commands.HandleCommand`: the parsed name comes from the code-point `slice(1)` of `Commands.ParseCommand`; the lone-surrogate case is not modelled. The `Unknown command` line carries the raw command, so that line is exact.
- `Text.Lower` lower-cases ASCII letters only. Unicode `toLowerCase` is not modelled.
- `Display.RowName`: the "Unknown" fallback is not modelled. `is_assistant` is a boolean in the model, so that branch cannot be reached.
- `parseInt` is read as an unbounded decimal value. Digit strings beyond the safe-integer range are not rounded.
- The transcript payload of the phone layout is already decoded. A non-numeric `timestamp` counts as absent.
- `new URL(req.url)` and its parse error are not modelled: the handler starts from the query parameters. JWT signing is the `Signer` parameter, and its thrown error's message is the failure value.
- The desktop Playground's data handler for background images and prompts, canvas and iframe capture, html2canvas, the fal realtime client, audio visualiser volumes and the inline three.js pages are browser and graphics side effects.
- The timers of the loading screen: each callback is one step, and unmounting is not modelled.
- `Page.RenewRoom` models the renewal when `shouldConnect` changes to false. The effect's first run on mount, with its initial false value, also renews the name; that run is not modelled.
- The fetch in the character list is modelled by its three outcomes. The list elements are converted by an unchecked parameter, as the source casts them.
- `Agent.PublishedStateIsRead` assumes the parser returns an object whose last `agent_state` member is the state name; JSON syntax itself is not modelled.
