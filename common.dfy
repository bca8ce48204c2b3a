/** Values shared by every part of the listener: optional values, the JSON
    values that flow between the chain client, the store and the query
    builder, the event records the chain client returns, and ASCII case
    folding (the stand-in for the case-insensitive regular expressions the
    store filters use). */
module Common {

  datatype Option<+T> = None | Some(value: T)

  /** A JSON value as JSON.parse produces it (numbers restricted to integers). */
  datatype Json =
    | JNull
    | JBool(b: bool)
    | JNum(n: int)
    | JStr(s: string)
    | JArr(items: seq<Json>)
    | JObj(fields: map<string, Json>)

  /** JavaScript truthiness of a JSON value. */
  predicate Truthy(j: Json)
  {
    match j
    case JNull => false
    case JBool(b) => b
    case JNum(n) => n != 0
    case JStr(s) => s != ""
    case JArr(_) => true
    case JObj(_) => true
  }

  /** One log entry as the chain client returns it (web3's EventData), with
      `network` absent until the watcher tags it; `other` holds the remaining
      fields (logIndex, signature, raw, ...) that the store drops. */
  datatype EventData = EventData(
    address: string,
    blockNumber: nat,
    transactionHash: string,
    event: string,
    returnValues: map<string, Json>,
    network: Option<string>,
    other: map<string, Json>)

  /** What an event handler receives: one live event or a batch of past events. */
  datatype Payload = Single(data: EventData) | Batch(items: seq<EventData>)

  /** Largest block number of a non-empty batch (Math.max over the batch). */
  function MaxBlock(items: seq<EventData>): (m: nat)
    requires |items| > 0
    ensures forall i :: 0 <= i < |items| ==> items[i].blockNumber <= m
    ensures exists i :: 0 <= i < |items| && items[i].blockNumber == m
  {
    if |items| == 1 then items[0].blockNumber
    else
      var rest := MaxBlock(items[1..]);
      assert forall i :: 1 <= i < |items| ==> items[i] == items[1..][i - 1];
      if items[0].blockNumber >= rest then items[0].blockNumber else rest
  }

  /** ASCII lower-casing of one character. */
  function LowerChar(c: char): char
  {
    if 'A' <= c <= 'Z' then (c as int + 32) as char else c
  }

  /** String.prototype.toLowerCase, restricted to ASCII letters. */
  function Lower(s: string): (r: string)
  {
    if s == [] then [] else [LowerChar(s[0])] + Lower(s[1..])
  }

  /** Lower-casing keeps the length and folds every character on its own. */
  lemma {:induction false} LowerSpec(s: string)
    ensures |Lower(s)| == |s|
    ensures forall i :: 0 <= i < |s| ==> Lower(s)[i] == LowerChar(s[i])
  {
    if s != [] {
      LowerSpec(s[1..]);
      assert forall i :: 1 <= i < |s| ==> Lower(s)[i] == Lower(s[1..])[i - 1];
    }
  }

  /** Concatenation is associative (the solver does not apply this by itself). */
  lemma AppendAssoc<T>(a: seq<T>, b: seq<T>, c: seq<T>)
    ensures a + b + c == a + (b + c)
  {
  }

  /** Folding twice is folding once, so every string matches its own
      lower-cased form. */
  lemma LowerIdempotent(s: string)
    ensures Lower(Lower(s)) == Lower(s)
    ensures SameIgnoringCase(s, Lower(s))
  {
    LowerSpec(s);
    LowerSpec(Lower(s));
  }

  /** Case-insensitive equality, the model of a `new RegExp(x, 'i')` filter. */
  predicate SameIgnoringCase(a: string, b: string)
  {
    Lower(a) == Lower(b)
  }

  /** The properties every plain JavaScript object inherits from
      Object.prototype: `key in obj` is true for these even when `obj` has no
      such own property. */
  const ObjectPrototypeNames: set<string> := {
    "constructor", "hasOwnProperty", "isPrototypeOf", "propertyIsEnumerable",
    "toLocaleString", "toString", "valueOf", "__proto__",
    "__defineGetter__", "__defineSetter__", "__lookupGetter__", "__lookupSetter__"}

  /** `x ?? d` for a field an update leaves undefined. */
  function GetOr<T>(o: Option<T>, d: T): T
  {
    if o.Some? then o.value else d
  }
}
