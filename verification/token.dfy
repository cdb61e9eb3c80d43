/**
 * The access-token endpoint (src/pages/api/token.ts): it checks the query in a
 * fixed order, answers 403, 500 or 400 on the first failed check, and otherwise
 * signs a grant for the requested room.
 */
module Token {
  import opened Wrappers
  import opened Text

  /** Four `\w` characters starting at `i`. */
  predicate WordQuad(s: string, i: int)
    requires 0 <= i && i + 4 <= |s|
  {
    IsWordChar(s[i]) && IsWordChar(s[i + 1]) && IsWordChar(s[i + 2]) && IsWordChar(s[i + 3])
  }

  /** `\w{4}\-\w{4}` matches at index `i`. */
  predicate RoomPatternAt(s: string, i: int) {
    0 <= i && i + 9 <= |s| && WordQuad(s, i) && s[i + 4] == '-' && WordQuad(s, i + 5)
  }

  /** `roomName.match(/\w{4}\-\w{4}/)` succeeds: the pattern has no anchors, so it may match anywhere. */
  predicate MatchesRoomPattern(s: string) {
    exists i | 0 <= i <= |s| - 9 :: RoomPatternAt(s, i)
  }

  /**
   * The leftmost index at or after `from` where the pattern matches, scanning left
   * to right as the regular-expression engine does.
   */
  function FindRoomPattern(s: string, from: nat): (at: Option<nat>)
    ensures at.Some? ==> from <= at.value && RoomPatternAt(s, at.value)
    ensures at.Some? ==> forall j :: from <= j < at.value ==> !RoomPatternAt(s, j)
    ensures at.None? <==> forall j :: from <= j ==> !RoomPatternAt(s, j)
    decreases |s| - from
  {
    if from + 9 > |s| then None
    else if WordQuad(s, from) && s[from + 4] == '-' && WordQuad(s, from + 5) then
      assert RoomPatternAt(s, from);
      Some(from)
    else
      assert !RoomPatternAt(s, from);
      FindRoomPattern(s, from + 1)
  }

  /** Searching from the start finds a match exactly when the name matches the pattern somewhere. */
  lemma FindsAnyMatch(s: string)
    ensures FindRoomPattern(s, 0).None? <==> !MatchesRoomPattern(s)
  {
    if FindRoomPattern(s, 0).Some? {
      assert RoomPatternAt(s, FindRoomPattern(s, 0).value);
    }
  }

  /** Text around a match does not hide it. */
  lemma PatternUnanchored(before: string, s: string, after: string)
    requires MatchesRoomPattern(s)
    ensures MatchesRoomPattern(before + s + after)
  {
    var i :| 0 <= i <= |s| - 9 && RoomPatternAt(s, i);
    var t := before + s + after;
    assert t[|before| + i..|before| + i + 9] == s[i..i + 9];
    assert RoomPatternAt(t, |before| + i);
  }

  /** The query parameters the handler reads; `null` when a parameter is missing. */
  datatype Query = Query(roomName: Option<string>, identity: Option<string>, name: Option<string>, metadata: Option<string>)

  /** The server's key and secret from the environment. */
  datatype Env = Env(apiKey: Option<string>, apiSecret: Option<string>)

  /** The identity fields the token is issued for. */
  datatype Claims = Claims(identity: string, name: Option<string>, metadata: Option<string>)

  /** `VideoGrant`: the room and what the holder may do in it. */
  datatype Grant = Grant(room: string, roomJoin: bool, canPublish: bool, canPublishData: bool, canSubscribe: bool)

  /** Token signing with the key and secret; a failure carries the error's message. */
  type Signer = (string, string, Claims, Grant) -> Result<string, string>

  datatype Body = Message(text: string) | TokenResult(identity: string, accessToken: string)

  datatype Response = Response(status: int, body: Body)

  /** `x || undefined` and `!x`: an empty parameter counts as missing. */
  function Present(p: Option<string>): Option<string> {
    if p.Some? && p.value != "" then p else None
  }

  /** The grant issued for a room: join, publish, publish data and subscribe. */
  function GrantFor(roomName: string): (g: Grant)
    ensures g.room == roomName
    ensures g.roomJoin && g.canPublish && g.canPublishData && g.canSubscribe
  {
    Grant(roomName, true, true, true, true)
  }

  /**
   * The handler: 403 without identity or room, then 500 without credentials, then
   * 400 when the room-name search finds nothing, and otherwise the signer's outcome.
   */
  function HandleToken(q: Query, env: Env, sign: Signer): (r: Response)
    ensures Present(q.identity).None? || Present(q.roomName).None? ==> r.status == 403
    ensures r.status == 403 ==> Present(q.identity).None? || Present(q.roomName).None?
    ensures r.status == 200 ==> r.body.TokenResult? && r.body.identity == q.identity.value
    ensures r.status == 200 ==> MatchesRoomPattern(q.roomName.value)
    ensures r.status in {200, 400, 403, 500}
  {
    var identity := Present(q.identity);
    var roomName := Present(q.roomName);
    if identity.None? || roomName.None? then
      Response(403, Message("identity and roomName have to be specified in the request"))
    else if Present(env.apiKey).None? || Present(env.apiSecret).None? then
      Response(500, Message("Environment variables aren't set up correctly"))
    else if FindRoomPattern(roomName.value, 0).None? then
      Response(400, Message("Invalid roomName"))
    else
      var claims := Claims(identity.value, Present(q.name), Present(q.metadata));
      match sign(env.apiKey.value, env.apiSecret.value, claims, GrantFor(roomName.value))
      case Success(token) => Response(200, TokenResult(identity.value, token))
      case Failure(message) => Response(500, Message(message))
  }

  /** The environment is checked after the parameters and before the room name. */
  lemma EnvCheckedBeforeRoom(q: Query, env: Env, sign: Signer)
    requires Present(q.identity).Some? && Present(q.roomName).Some?
    requires Present(env.apiKey).None? || Present(env.apiSecret).None?
    ensures HandleToken(q, env, sign).status == 500
  {
  }

  /** With parameters and environment in place, the answer is 400 exactly when the room name fails the pattern. */
  lemma RoomCheckedLast(q: Query, env: Env, sign: Signer)
    requires Present(q.identity).Some? && Present(q.roomName).Some?
    requires Present(env.apiKey).Some? && Present(env.apiSecret).Some?
    ensures HandleToken(q, env, sign).status == 400 <==> !MatchesRoomPattern(q.roomName.value)
  {
    FindsAnyMatch(q.roomName.value);
  }

  /** A request that passes every check is signed for exactly its room, and answered with the signer's outcome. */
  lemma SignsRequestedRoom(q: Query, env: Env, sign: Signer)
    requires Present(q.identity).Some? && Present(q.roomName).Some?
    requires Present(env.apiKey).Some? && Present(env.apiSecret).Some?
    requires MatchesRoomPattern(q.roomName.value)
    ensures var out := sign(env.apiKey.value, env.apiSecret.value,
                            Claims(q.identity.value, Present(q.name), Present(q.metadata)), GrantFor(q.roomName.value));
      && (out.Success? ==> HandleToken(q, env, sign) == Response(200, TokenResult(q.identity.value, out.value)))
      && (out.Failure? ==> HandleToken(q, env, sign) == Response(500, Message(out.error)))
  {
  }
}
