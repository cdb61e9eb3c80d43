/**
 * JSON values as `JSON.parse` produces them and `JSON.stringify` consumes them.
 * The text syntax and its UTF-8 encoding are not modelled: a payload on the wire
 * is represented by the value it carries.
 */
module Json {
  import opened Wrappers

  datatype Json =
    | JNull
    | JBool(b: bool)
    | JNum(n: int)
    | JStr(s: string)
    | JArr(items: seq<Json>)
    | JObj(fields: seq<(string, Json)>)

  /** Member lookup in a parsed object: when a key is repeated, the last occurrence wins. */
  function Get(fields: seq<(string, Json)>, key: string): (v: Option<Json>)
    ensures v.None? <==> forall j :: 0 <= j < |fields| ==> fields[j].0 != key
    decreases |fields|
  {
    if |fields| == 0 then None
    else if fields[|fields| - 1].0 == key then Some(fields[|fields| - 1].1)
    else Get(fields[..|fields| - 1], key)
  }

  /** A key that occurs at index `i` and at no later index is found with the value stored there. */
  lemma {:induction false} GetLastOccurrence(fields: seq<(string, Json)>, key: string, i: nat)
    requires i < |fields| && fields[i].0 == key
    requires forall j :: i < j < |fields| ==> fields[j].0 != key
    ensures Get(fields, key) == Some(fields[i].1)
    decreases |fields|
  {
    if i < |fields| - 1 {
      GetLastOccurrence(fields[..|fields| - 1], key, i);
    }
  }

  /** A found value is the one stored at the key's last occurrence. */
  lemma {:induction false} GetFindsLast(fields: seq<(string, Json)>, key: string) returns (i: nat)
    requires Get(fields, key).Some?
    ensures i < |fields| && fields[i] == (key, Get(fields, key).value)
    ensures forall j :: i < j < |fields| ==> fields[j].0 != key
    decreases |fields|
  {
    if fields[|fields| - 1].0 == key {
      i := |fields| - 1;
    } else {
      i := GetFindsLast(fields[..|fields| - 1], key);
    }
  }

  /** A key that occurs nowhere is not found. */
  lemma {:induction false} GetAbsent(fields: seq<(string, Json)>, key: string)
    requires forall j :: 0 <= j < |fields| ==> fields[j].0 != key
    ensures Get(fields, key) == None
    decreases |fields|
  {
    if |fields| > 0 {
      GetAbsent(fields[..|fields| - 1], key);
    }
  }

  /** JavaScript truthiness of a parsed value. */
  predicate Truthy(j: Json): (b: bool)
    ensures !b <==> j == JNull || j == JBool(false) || j == JNum(0) || j == JStr("")
  {
    match j
    case JNull => false
    case JBool(b) => b
    case JNum(n) => n != 0
    case JStr(s) => s != ""
    case JArr(_) => true
    case JObj(_) => true
  }
}
