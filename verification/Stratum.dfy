/** Stratum messages after JSON decoding, and the identity a login stands for. */
module Stratum {
  import opened Wrappers

  /** A decoded JSON value. A number carries the text `String(n)` spells it with;
      `JBeyondDouble` is a literal too large for a double: `typeof` says number,
      `Number.isFinite` says no. */
  datatype Json =
    | JNull
    | JBool(b: bool)
    | JNumber(n: real, spelling: string)
    | JBeyondDouble(negative: bool)
    | JText(text: string)
    | JList(items: seq<Json>)
    | JObject(fields: seq<(string, Json)>)

  /** `String(value)`. A null inside a list spells nothing. */
  function Spell(value: Json): string {
    match value
    case JNull => "null"
    case JBool(b) => if b then "true" else "false"
    case JNumber(_, spelling) => spelling
    case JBeyondDouble(negative) => if negative then "-Infinity" else "Infinity"
    case JText(text) => text
    case JList(items) => SpellItems(items)
    case JObject(_) => "[object Object]"
  }

  function SpellItems(items: seq<Json>): string {
    if items == [] then ""
    else
      var first := if items[0] == JNull then "" else Spell(items[0]);
      if |items| == 1 then first else first + "," + SpellItems(items[1..])
  }

  /** `String(params[i])`, with `undefined` for a parameter that is not there. */
  function SpellParam(params: seq<Json>, i: nat): string {
    if i < |params| then Spell(params[i]) else "undefined"
  }

  /** A number id is held as the text `String(id)` spells it with. */
  datatype Id = NullId | NumberId(spelling: string) | TextId(text: string)

  function Key(id: Id): string {
    match id
    case NullId => "null"
    case NumberId(spelling) => spelling
    case TextId(text) => text
  }

  datatype Method =
    | Subscribe
    | Authorize
    | Submit
    | Notify
    | SetDifficulty
    | SetTarget
    | SetExtranonce
    | Reconnect
    | OtherMethod(name: string)

  datatype StratumError = StratumError(code: int, message: string, data: Option<Json>)

  datatype Message =
    | Request(id: Id, verb: Method, params: seq<Json>)
    | Response(id: Id, result: Json, error: Option<StratumError>)

  /** The only definition of an accepted share, for proxy and tap alike. */
  predicate IsShareAccepted(message: Message) {
    message.Response? && message.error.None? && message.result == JBool(true)
  }

  /** A response that can be matched to a request by its id. */
  predicate AnswersKey(message: Message, key: string) {
    message.Response? && message.id != NullId && Key(message.id) == key
  }

  /** `params.slice(n)`: empty when there are fewer than n. */
  function Slice<T>(params: seq<T>, n: nat): seq<T> {
    if n <= |params| then params[n..] else []
  }

  datatype WorkerIdentity = WorkerIdentity(username: string, workerName: string, login: string)

  datatype ParsedLogin = Known(identity: WorkerIdentity) | Refused(reason: string)
}
