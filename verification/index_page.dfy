/**
 * The character list page (src/pages/index.tsx): the search filter, the guard on
 * the fetched list and the route a card leads to.
 */
module IndexPage {
  import opened Json
  import opened Text

  /** `Character` (src/lib/types.ts), with the fields the page reads. */
  datatype Character = Character(id: string, name: string, bio: string)

  /** A character is listed when its name contains the query, ignoring case. */
  predicate MatchesQuery(c: Character, query: string) {
    Contains(Lower(c.name), Lower(query))
  }

  /** `characters.filter(...)`. */
  function FilterCharacters(cs: seq<Character>, query: string): (r: seq<Character>)
    ensures |r| <= |cs|
    ensures forall c :: c in r <==> c in cs && MatchesQuery(c, query)
    ensures forall c :: multiset(r)[c] == if MatchesQuery(c, query) then multiset(cs)[c] else 0
  {
    if |cs| == 0 then []
    else
      assert cs == [cs[0]] + cs[1..];
      (if MatchesQuery(cs[0], query) then [cs[0]] else []) + FilterCharacters(cs[1..], query)
  }

  /** The elements of `b` at the positions `mask` marks, in their order in `b`. */
  function Select<T>(b: seq<T>, mask: seq<bool>): (a: seq<T>)
    requires |mask| == |b|
    ensures |a| <= |b|
  {
    if |b| == 0 then [] else (if mask[0] then [b[0]] else []) + Select(b[1..], mask[1..])
  }

  /** Which fetched characters the query matches, position by position. */
  function MatchMask(cs: seq<Character>, query: string): (mask: seq<bool>)
    ensures |mask| == |cs|
    ensures forall i :: 0 <= i < |cs| ==> mask[i] == MatchesQuery(cs[i], query)
  {
    seq(|cs|, i requires 0 <= i < |cs| => MatchesQuery(cs[i], query))
  }

  /**
   * The filter keeps exactly the characters at the matching positions, in the
   * order they were fetched: an order-preserving subsequence.
   */
  lemma {:induction false} FilterSelectsMatches(cs: seq<Character>, query: string)
    ensures FilterCharacters(cs, query) == Select(cs, MatchMask(cs, query))
  {
    if |cs| > 0 {
      FilterSelectsMatches(cs[1..], query);
      assert MatchMask(cs, query)[1..] == MatchMask(cs[1..], query);
    }
  }

  /** An empty query lists every character. */
  lemma {:induction false} EmptyQueryKeepsAll(cs: seq<Character>)
    ensures FilterCharacters(cs, "") == cs
  {
    if |cs| > 0 {
      ContainsEmpty(Lower(cs[0].name));
      EmptyQueryKeepsAll(cs[1..]);
    }
  }

  /** How `fetch("/api/get-character-list")` ended. */
  datatype Fetched =
    | NotOk        // the response status was not ok: an error is thrown and caught
    | Failed       // the request or the body's JSON parse threw
    | Body(data: Json)

  /**
   * The list after the fetch effect: replaced by the array's elements (cast to
   * characters by `asCharacter`, an unchecked type assertion) and otherwise kept.
   */
  function FetchCharacters(current: seq<Character>, fetched: Fetched, asCharacter: Json -> Character): (r: seq<Character>)
    ensures !(fetched.Body? && fetched.data.JArr?) ==> r == current
    ensures fetched.Body? && fetched.data.JArr? ==>
      |r| == |fetched.data.items| && forall i :: 0 <= i < |r| ==> r[i] == asCharacter(fetched.data.items[i])
  {
    if fetched.Body? && fetched.data.JArr? then
      seq(|fetched.data.items|, i requires 0 <= i < |fetched.data.items| => asCharacter(fetched.data.items[i]))
    else current
  }

  const TalkPrefix := "/talk/"

  /** `handleCardClick`: the route to talk to a character. */
  function CardRoute(c: Character): (route: string)
    ensures |route| == |TalkPrefix| + |c.id|
    ensures route[..|TalkPrefix|] == TalkPrefix
  {
    TalkPrefix + c.id
  }

  /** The character id a talk route names. */
  function RouteId(route: string): (id: string)
    requires |route| >= |TalkPrefix| && route[..|TalkPrefix|] == TalkPrefix
    ensures TalkPrefix + id == route
  {
    route[|TalkPrefix|..]
  }

  /** A card's route names the card's character. */
  lemma CardRouteNamesCharacter(c: Character)
    ensures RouteId(CardRoute(c)) == c.id
  {
  }
}
