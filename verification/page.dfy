/**
 * The playground page (src/pages/playground.tsx): room names, the metadata rows it
 * hands to the Playground, the connect handler and the list of outputs.
 */
module Page {
  import opened Wrappers
  import opened Text
  import Token
  import opened Display

  /**
   * `createRoomName`: two generated parts joined by a dash. The generator is not
   * part of this model, so its two outputs are parameters.
   */
  function CreateRoomName(a: string, b: string): (name: string)
    ensures |name| == |a| + 1 + |b|
    ensures name[..|a|] == a && name[|a|] == '-' && name[|a| + 1..] == b
  {
    a + "-" + b
  }

  predicate AllAlphanumeric(s: string) {
    forall i :: 0 <= i < |s| ==> IsAlphanumeric(s[i])
  }

  /** Two alphanumeric parts of length four always give a name the token endpoint accepts. */
  lemma GeneratedNameAccepted(a: string, b: string)
    requires |a| == 4 && |b| == 4 && AllAlphanumeric(a) && AllAlphanumeric(b)
    ensures Token.MatchesRoomPattern(CreateRoomName(a, b))
  {
    var name := CreateRoomName(a, b);
    assert name[5..] == b;
    assert Token.RoomPatternAt(name, 0);
  }

  /** `PlaygroundMeta`: a labelled value shown in the settings panel. */
  datatype Meta = Meta(name: string, value: string)

  /** JavaScript truthiness of an optional string. */
  predicate Truthy(s: Option<string>) {
    s.Some? && s.value != ""
  }

  /** The URL row is shown for a URL that is set and is not the deployment's default. */
  predicate ShowsUrl(liveKitUrl: Option<string>, envUrl: Option<string>) {
    Truthy(liveKitUrl) && liveKitUrl != envUrl
  }

  /** The room and identity rows are shown when no custom token is in use and the identity is set. */
  predicate ShowsSession(customToken: Option<string>, identity: string) {
    !Truthy(customToken) && identity != ""
  }

  /**
   * The metadata rows, built as the effect on URL, room, identity and custom token
   * does: the URL row first when shown, then the room and identity rows when shown,
   * and nothing else.
   */
  function MetadataRows(liveKitUrl: Option<string>, envUrl: Option<string>, customToken: Option<string>,
                        roomName: string, identity: string): (md: seq<Meta>)
    ensures |md| == (if ShowsUrl(liveKitUrl, envUrl) then 1 else 0) + (if ShowsSession(customToken, identity) then 2 else 0)
    ensures ShowsUrl(liveKitUrl, envUrl) ==> md[0] == Meta("LiveKit URL", liveKitUrl.value)
    ensures ShowsSession(customToken, identity) ==>
      md[|md| - 2] == Meta("Room Name", roomName) && md[|md| - 1] == Meta("Participant Identity", identity)
  {
    (if ShowsUrl(liveKitUrl, envUrl) then [Meta("LiveKit URL", liveKitUrl.value)] else [])
    + (if ShowsSession(customToken, identity) then [Meta("Room Name", roomName), Meta("Participant Identity", identity)] else [])
  }

  /** The page state `handleConnect` writes to. */
  datatype PageState = PageState(shouldConnect: bool, liveKitUrl: Option<string>, customToken: Option<string>, roomName: string)

  /** What the connect form supplies. */
  datatype ConnectOpts = ConnectOpts(url: string, token: string)

  /** `handleConnect`: URL and token change only on a connect with options; the flag always follows `connect`. */
  function HandleConnect(st: PageState, connect: bool, opts: Option<ConnectOpts>): (next: PageState)
    ensures next.shouldConnect == connect && next.roomName == st.roomName
    ensures connect && opts.Some? ==> next.liveKitUrl == Some(opts.value.url) && next.customToken == Some(opts.value.token)
    ensures !(connect && opts.Some?) ==> next.liveKitUrl == st.liveKitUrl && next.customToken == st.customToken
  {
    var st' := if connect && opts.Some? then st.(liveKitUrl := Some(opts.value.url), customToken := Some(opts.value.token)) else st;
    st'.(shouldConnect := connect)
  }

  /**
   * The effect keyed on `shouldConnect`: when the flag has changed to false, the
   * room gets the freshly generated name `newName`.
   */
  function RenewRoom(before: PageState, after: PageState, newName: string): (next: PageState)
    ensures next == after || next == after.(roomName := newName)
    ensures before.shouldConnect != after.shouldConnect && !after.shouldConnect ==> next.roomName == newName
    ensures before.shouldConnect == after.shouldConnect || after.shouldConnect ==> next == after
  {
    if before.shouldConnect != after.shouldConnect && !after.shouldConnect then after.(roomName := newName) else after
  }

  /** A disconnect leads to a new room; a connect keeps the room the token was fetched for. */
  lemma DisconnectRenewsRoom(st: PageState, opts: Option<ConnectOpts>, newName: string)
    ensures st.shouldConnect ==> RenewRoom(st, HandleConnect(st, false, opts), newName).roomName == newName
    ensures RenewRoom(st, HandleConnect(st, true, opts), newName).roomName == st.roomName
    ensures !RenewRoom(st, HandleConnect(st, false, opts), newName).shouldConnect
  {
  }

  /** An element of the `outputs` array literal before filtering: `cond && output`. */
  datatype Item = BoolItem(b: bool) | OutputItem(o: Output)

  function AndItem(cond: bool, o: Output): Item {
    if cond then OutputItem(o) else BoolItem(false)
  }

  /** `.filter((item) => typeof item !== "boolean")`. */
  function DropBooleans(items: seq<Item>): (outs: seq<Output>)
    ensures |outs| <= |items|
    ensures forall o :: o in outs <==> OutputItem(o) in items
  {
    if |items| == 0 then []
    else (if items[0].OutputItem? then [items[0].o] else []) + DropBooleans(items[1..])
  }

  /** Each output is listed exactly when its condition holds, in the literal's order. */
  lemma {:induction false} DropBooleansKeepsEnabled(conds: seq<bool>, os: seq<Output>)
    requires |conds| == |os|
    ensures DropBooleans(seq(|os|, i requires 0 <= i < |os| => AndItem(conds[i], os[i])))
         == Enabled(conds, os)
  {
    var items := seq(|os|, i requires 0 <= i < |os| => AndItem(conds[i], os[i]));
    if |os| > 0 {
      DropBooleansKeepsEnabled(conds[1..], os[1..]);
      assert items[1..] == seq(|os[1..]|, i requires 0 <= i < |os[1..]| => AndItem(conds[1..][i], os[1..][i]));
    }
  }

  /** The outputs whose condition holds, in order. */
  function Enabled(conds: seq<bool>, os: seq<Output>): seq<Output>
    requires |conds| == |os|
  {
    if |os| == 0 then [] else (if conds[0] then [os[0]] else []) + Enabled(conds[1..], os[1..])
  }

  /** The page enables all three outputs. */
  function Outputs(): (outs: seq<Output>)
    ensures outs == [Audio, Video, Chat]
  {
    var conds := [true, true, true];
    var os := [Audio, Video, Chat];
    DropBooleansKeepsEnabled(conds, os);
    DropBooleans(seq(|os|, i requires 0 <= i < |os| => AndItem(conds[i], os[i])))
  }

  /** With the page's outputs, both layouts offer a chat tab. */
  lemma OutputsShowChat()
    ensures ChatTab in DesktopTabs(Some(Outputs()))
  {
  }
}
