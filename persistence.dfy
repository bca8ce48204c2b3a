/** The document store behind the listener (src/modules/database.ts), as the
    state it keeps: three collections in insertion order (Mongo's natural
    order, so that "the first document matching a filter" is the one with
    the smallest index, and an index plays the part of an object id).
    Contracts and tokens carry the unique indexes their schemas declare;
    events carry none. Every `new RegExp(x, 'i')` filter is approximated by
    ASCII case-insensitive equality, and `new RegExp(undefined, 'i')`, which
    matches every string, by an absent (`None`) filter field. */
module Persistence {
  import opened Common

  /** The interface descriptor (ABI) is stored and forwarded, never inspected. */
  type Abi = Json

  datatype ContractDoc = ContractDoc(
    address: string,
    latestBlock: int,
    network: string,
    events: seq<string>,
    jsonInterface: Abi)

  /** A stored event. The event schema has no `network` path, so the store
      keeps no network for an event. */
  datatype EventDoc = EventDoc(
    address: string,
    blockNumber: nat,
    transactionHash: string,
    event: string,
    returnValues: map<string, Json>)

  /** The object literal insertEvent/insertEvents hand to the store. */
  datatype EventRow = EventRow(
    address: string,
    network: Option<string>,
    event: string,
    transactionHash: string,
    blockNumber: nat,
    returnValues: map<string, Json>)

  datatype TokenDoc = TokenDoc(
    address: string,
    network: string,
    tokenId: string,
    blockNumber: int,
    data: Json)

  /** The argument of updateContract; an absent field is `undefined`. */
  datatype ContractUpdate = ContractUpdate(
    id: Option<nat>,
    address: Option<string>,
    network: Option<string>,
    latestBlock: Option<int>,
    events: Option<seq<string>>,
    jsonInterface: Option<Abi>)

  // ---------------------------------------------------------------------
  // Unique indexes
  // ---------------------------------------------------------------------

  /** The `{address: 1, network: 1}` unique index of the contract schema. */
  predicate UniqueContracts(cs: seq<ContractDoc>)
  {
    forall i, j :: 0 <= i < j < |cs| ==>
      cs[i].address != cs[j].address || cs[i].network != cs[j].network
  }

  /** The `{address: 1, network: 1, tokenId: 1}` unique index of the token schema. */
  predicate UniqueTokens(ts: seq<TokenDoc>)
  {
    forall i, j :: 0 <= i < j < |ts| ==>
      ts[i].address != ts[j].address || ts[i].network != ts[j].network || ts[i].tokenId != ts[j].tokenId
  }

  predicate HasContractKey(cs: seq<ContractDoc>, address: string, network: string)
  {
    exists i :: 0 <= i < |cs| && cs[i].address == address && cs[i].network == network
  }

  predicate HasTokenKey(ts: seq<TokenDoc>, address: string, network: string, tokenId: string)
  {
    exists i :: 0 <= i < |ts| && ts[i].address == address && ts[i].network == network && ts[i].tokenId == tokenId
  }

  // ---------------------------------------------------------------------
  // Contracts
  // ---------------------------------------------------------------------

  /** isExistContract: a case-insensitive match on the address alone. */
  predicate AnyAddressMatches(cs: seq<ContractDoc>, address: string)
  {
    exists i :: 0 <= i < |cs| && SameIgnoringCase(cs[i].address, address)
  }

  /** insertContract: a save that the unique index rejects on a duplicate
      (address, network); `ok` is false exactly then. */
  function InsertContractInto(cs: seq<ContractDoc>, d: ContractDoc): (r: (seq<ContractDoc>, bool))
    ensures UniqueContracts(cs) ==> UniqueContracts(r.0)
  {
    if HasContractKey(cs, d.address, d.network) then (cs, false) else (cs + [d], true)
  }

  predicate ContractFilter(d: ContractDoc, address: Option<string>, network: Option<string>)
  {
    (address.None? || SameIgnoringCase(d.address, address.value)) &&
    (network.None? || SameIgnoringCase(d.network, network.value))
  }

  /** The first document, in natural order, that a contract filter selects. */
  function FirstContractMatch(cs: seq<ContractDoc>, address: Option<string>, network: Option<string>): (r: Option<nat>)
    ensures r.Some? ==> r.value < |cs| && ContractFilter(cs[r.value], address, network)
    ensures r.Some? ==> forall j :: 0 <= j < r.value ==> !ContractFilter(cs[j], address, network)
    ensures r.None? ==> forall j :: 0 <= j < |cs| ==> !ContractFilter(cs[j], address, network)
  {
    if cs == [] then None
    else if ContractFilter(cs[0], address, network) then Some(0)
    else match FirstContractMatch(cs[1..], address, network)
      case None => None
      case Some(k) => Some(k + 1)
  }

  /** The id path: findByIdAndUpdate sets every defined field, address and
      network included; a clash with the unique index leaves the store as it
      was, and so does an unknown id. */
  function UpdateContractById(cs: seq<ContractDoc>, id: nat, u: ContractUpdate): (r: seq<ContractDoc>)
  {
    if id >= |cs| then cs
    else
      var old_ := cs[id];
      var new_ := ContractDoc(
        GetOr(u.address, old_.address),
        GetOr(u.latestBlock, old_.latestBlock),
        GetOr(u.network, old_.network),
        GetOr(u.events, old_.events),
        GetOr(u.jsonInterface, old_.jsonInterface));
      if exists j :: 0 <= j < |cs| && j != id && cs[j].address == new_.address && cs[j].network == new_.network
      then cs
      else cs[id := new_]
  }

  /** The filter path: findOneAndUpdate on the first document whose address
      and network match; only latestBlock, events and jsonInterface are
      written. */
  function UpdateContractByFilter(cs: seq<ContractDoc>, u: ContractUpdate): (r: seq<ContractDoc>)
  {
    match FirstContractMatch(cs, u.address, u.network)
    case None => cs
    case Some(i) =>
      cs[i := cs[i].(
        latestBlock := GetOr(u.latestBlock, cs[i].latestBlock),
        events := GetOr(u.events, cs[i].events),
        jsonInterface := GetOr(u.jsonInterface, cs[i].jsonInterface))]
  }

  /** updateContract: a truthy id selects the id path. */
  function UpdateContractIn(cs: seq<ContractDoc>, u: ContractUpdate): seq<ContractDoc>
  {
    if u.id.Some? then UpdateContractById(cs, u.id.value, u) else UpdateContractByFilter(cs, u)
  }

  /** Neither path of updateContract breaks the unique index. */
  lemma UpdateContractKeepsIndex(cs: seq<ContractDoc>, u: ContractUpdate)
    requires UniqueContracts(cs)
    ensures UniqueContracts(UpdateContractIn(cs, u))
    ensures |UpdateContractIn(cs, u)| == |cs|
  {
    if u.id.None? {
      var r := UpdateContractByFilter(cs, u);
      assert forall i :: 0 <= i < |cs| ==> r[i].address == cs[i].address && r[i].network == cs[i].network;
    }
  }

  /** Without an id, updateContract never changes an address or a network. */
  lemma FilterPathKeepsKeys(cs: seq<ContractDoc>, u: ContractUpdate)
    requires u.id.None?
    ensures |UpdateContractIn(cs, u)| == |cs|
    ensures forall i :: 0 <= i < |cs| ==>
      UpdateContractIn(cs, u)[i].address == cs[i].address && UpdateContractIn(cs, u)[i].network == cs[i].network
  {
  }

  /** The filter path writes at most one document: the first that matches. */
  lemma FilterPathWritesFirstMatch(cs: seq<ContractDoc>, u: ContractUpdate, i: nat)
    requires u.id.None? && i < |cs|
    requires UpdateContractIn(cs, u)[i] != cs[i]
    ensures ContractFilter(cs[i], u.address, u.network)
    ensures forall j :: 0 <= j < i ==> !ContractFilter(cs[j], u.address, u.network)
    ensures forall j :: 0 <= j < |cs| && j != i ==> UpdateContractIn(cs, u)[j] == cs[j]
  {
  }

  /** With an id, address and network can change, as long as the new pair is
      not already taken by another document. */
  lemma IdPathRenames(cs: seq<ContractDoc>, id: nat, address: string, network: string)
    requires id < |cs|
    requires !HasContractKey(cs, address, network)
    ensures var r := UpdateContractIn(cs, ContractUpdate(Some(id), Some(address), Some(network), None, None, None));
      r[id].address == address && r[id].network == network &&
      r[id].latestBlock == cs[id].latestBlock && r[id].events == cs[id].events
  {
  }

  /** isExistContract ignores the network (and the letter case): renaming a
      document's network never changes its answer. */
  lemma ExistenceIgnoresNetwork(cs: seq<ContractDoc>, i: nat, network: string, address: string)
    requires i < |cs|
    ensures AnyAddressMatches(cs[i := cs[i].(network := network)], address) == AnyAddressMatches(cs, address)
  {
    var cs' := cs[i := cs[i].(network := network)];
    assert forall j :: 0 <= j < |cs| ==> cs'[j].address == cs[j].address;
  }

  /** Two addresses equal ignoring case get the same existence answer. */
  lemma ExistenceIgnoresCase(cs: seq<ContractDoc>, a: string, b: string)
    requires SameIgnoringCase(a, b)
    ensures AnyAddressMatches(cs, a) == AnyAddressMatches(cs, b)
  {
  }

  /** After insertContract, whether it was saved or rejected as a duplicate,
      the address exists. */
  lemma InsertedExists(cs: seq<ContractDoc>, d: ContractDoc)
    ensures AnyAddressMatches(InsertContractInto(cs, d).0, d.address)
  {
    var r := InsertContractInto(cs, d).0;
    if HasContractKey(cs, d.address, d.network) {
      var i :| 0 <= i < |cs| && cs[i].address == d.address && cs[i].network == d.network;
      assert SameIgnoringCase(r[i].address, d.address);
    } else {
      assert r[|cs|] == d;
      assert SameIgnoringCase(r[|cs|].address, d.address);
    }
  }

  // ---------------------------------------------------------------------
  // Events and the stored cursor
  // ---------------------------------------------------------------------

  /** The projection of lines 147-165 (and the object of insertEvent). */
  function Projected(d: EventData): EventRow
  {
    EventRow(d.address, d.network, d.event, d.transactionHash, d.blockNumber, d.returnValues)
  }

  /** Casting against the event schema (strict): the `network` path is dropped. */
  function Cast(r: EventRow): EventDoc
  {
    EventDoc(r.address, r.blockNumber, r.transactionHash, r.event, r.returnValues)
  }

  function StoredAll(ds: seq<EventData>): (r: seq<EventDoc>)
    ensures |r| == |ds|
    ensures forall i :: 0 <= i < |ds| ==> r[i] == Cast(Projected(ds[i]))
  {
    if ds == [] then [] else [Cast(Projected(ds[0]))] + StoredAll(ds[1..])
  }

  /** insertEvents: an empty batch returns early; otherwise every event is
      appended, in order (no index forbids duplicates). */
  function InsertEventsInto(es: seq<EventDoc>, ds: seq<EventData>): seq<EventDoc>
  {
    if |ds| <= 0 then es else es + StoredAll(ds)
  }

  /** After insertEvents, the old documents come first and the i-th new one
      carries the i-th event's address, block, hash, name and return values;
      a stored event document has no network. */
  lemma StoredEventFields(es: seq<EventDoc>, ds: seq<EventData>, i: nat)
    requires i < |ds|
    ensures |InsertEventsInto(es, ds)| == |es| + |ds| && InsertEventsInto(es, ds)[..|es|] == es
    ensures var d := InsertEventsInto(es, ds)[|es| + i];
      d.address == ds[i].address && d.blockNumber == ds[i].blockNumber &&
      d.transactionHash == ds[i].transactionHash && d.event == ds[i].event &&
      d.returnValues == ds[i].returnValues
  {
  }

  /** The first event of a batch that carries block `m`. */
  function FirstAtBlock(ds: seq<EventData>, m: nat): (r: Option<nat>)
    ensures r.Some? ==> r.value < |ds| && ds[r.value].blockNumber == m
    ensures r.Some? ==> forall j :: 0 <= j < r.value ==> ds[j].blockNumber != m
    ensures r.None? ==> forall j :: 0 <= j < |ds| ==> ds[j].blockNumber != m
  {
    if ds == [] then None
    else if ds[0].blockNumber == m then Some(0)
    else match FirstAtBlock(ds[1..], m)
      case None => None
      case Some(k) => Some(k + 1)
  }

  lemma FirstBlockIndex(ds: seq<EventData>, m: nat, k: nat)
    requires k < |ds| && ds[k].blockNumber == m
    requires forall j :: 0 <= j < k ==> ds[j].blockNumber != m
    ensures FirstAtBlock(ds, m) == Some(k)
  {
    assert ds[k].blockNumber == m;
  }

  /** The cursor eventHandler writes: nothing for an empty batch, the batch
      maximum with the address of the first event that carries it, or the
      single event's own block. */
  function CursorWrite(p: Payload): (r: Option<(string, nat)>)
    ensures p.Batch? && p.items == [] ==> r.None?
    ensures p.Batch? && p.items != [] ==> r.Some? && r.value.1 == MaxBlock(p.items)
    ensures p.Single? ==> r == Some((p.data.address, p.data.blockNumber))
  {
    match p
    case Single(d) => Some((d.address, d.blockNumber))
    case Batch(ds) =>
      if |ds| > 0 then
        var m := MaxBlock(ds);
        var k := FirstAtBlock(ds, m);
        Some((ds[k.value].address, ds[k.value].blockNumber))
      else None
  }

  /** The contract update eventHandler issues: address only, network left
      undefined (so any network matches), latestBlock only. */
  function CursorUpdate(address: string, block: nat): ContractUpdate
  {
    ContractUpdate(None, Some(address), None, Some(block), None, None)
  }

  function EventHandlerContracts(cs: seq<ContractDoc>, p: Payload): seq<ContractDoc>
  {
    match CursorWrite(p)
    case None => cs
    case Some(w) => UpdateContractIn(cs, CursorUpdate(w.0, w.1))
  }

  function EventHandlerEvents(es: seq<EventDoc>, p: Payload): seq<EventDoc>
  {
    match p
    case Single(d) => es + [Cast(Projected(d))]
    case Batch(ds) => if |ds| > 0 then InsertEventsInto(es, ds) else es
  }

  /** An empty batch writes nothing at all. */
  lemma EmptyBatchWritesNothing(cs: seq<ContractDoc>, es: seq<EventDoc>)
    ensures EventHandlerContracts(cs, Batch([])) == cs
    ensures EventHandlerEvents(es, Batch([])) == es
  {
  }

  /** The stored cursor is overwritten, never compared: a late single event
      lowers it. */
  lemma StoredCursorCanDecrease(d: EventData, old_: nat)
    requires d.blockNumber < old_
    ensures var before := [ContractDoc(d.address, old_, "rinkeby", [d.event], JNull)];
      EventHandlerContracts(before, Single(d))[0].latestBlock == d.blockNumber < before[0].latestBlock
  {
    var before := [ContractDoc(d.address, old_, "rinkeby", [d.event], JNull)];
    assert ContractFilter(before[0], Some(d.address), None);
  }

  /** A document that the filter selects, with none before it that it
      selects, is the first match. */
  lemma {:induction false} FirstContractMatchAt(cs: seq<ContractDoc>, address: Option<string>, network: Option<string>, i: nat)
    requires i < |cs| && ContractFilter(cs[i], address, network)
    requires forall j :: 0 <= j < i ==> !ContractFilter(cs[j], address, network)
    ensures FirstContractMatch(cs, address, network) == Some(i)
  {
    if i > 0 {
      assert !ContractFilter(cs[0], address, network);
      forall j | 0 <= j < i - 1 ensures !ContractFilter(cs[1..][j], address, network) {
        assert cs[1..][j] == cs[j + 1];
      }
      FirstContractMatchAt(cs[1..], address, network, i - 1);
    }
  }

  /** The first document whose address matches, ignoring case, is the one
      an address-only filter selects. */
  lemma FirstAddressMatch(cs: seq<ContractDoc>, a: string, i: nat)
    requires i < |cs| && SameIgnoringCase(cs[i].address, a)
    requires forall j :: 0 <= j < i ==> !SameIgnoringCase(cs[j].address, a)
    ensures FirstContractMatch(cs, Some(a), None) == Some(i)
  {
    FirstContractMatchAt(cs, Some(a), None, i);
  }

  /** For a batch, the first document matching the address of the first
      event at the batch maximum gets exactly that maximum; nothing else
      changes. */
  lemma BatchCursorIsMax(cs: seq<ContractDoc>, ds: seq<EventData>, k: nat, i: nat)
    requires k < |ds| && ds[k].blockNumber == MaxBlock(ds)
    requires forall j :: 0 <= j < k ==> ds[j].blockNumber != MaxBlock(ds)
    requires i < |cs| && SameIgnoringCase(cs[i].address, ds[k].address)
    requires forall j :: 0 <= j < i ==> !SameIgnoringCase(cs[j].address, ds[k].address)
    ensures EventHandlerContracts(cs, Batch(ds))[i].latestBlock == MaxBlock(ds)
    ensures forall j :: 0 <= j < |cs| && j != i ==> EventHandlerContracts(cs, Batch(ds))[j] == cs[j]
  {
    FirstBlockIndex(ds, MaxBlock(ds), k);
    FirstAddressMatch(cs, ds[k].address, i);
  }

  // ---------------------------------------------------------------------
  // Tokens
  // ---------------------------------------------------------------------

  /** insertToken: a save the unique index rejects on a duplicate key. */
  function InsertTokenInto(ts: seq<TokenDoc>, t: TokenDoc): (r: (seq<TokenDoc>, bool))
    ensures UniqueTokens(ts) ==> UniqueTokens(r.0)
  {
    if HasTokenKey(ts, t.address, t.network, t.tokenId) then (ts, false) else (ts + [t], true)
  }

  predicate SameTokenKey(d: TokenDoc, t: TokenDoc)
  {
    SameIgnoringCase(d.address, t.address) && SameIgnoringCase(d.network, t.network) &&
    SameIgnoringCase(d.tokenId, t.tokenId)
  }

  /** The filter of updateToken: the same key and a strictly older block. */
  predicate TokenFilter(d: TokenDoc, t: TokenDoc)
  {
    SameTokenKey(d, t) && d.blockNumber < t.blockNumber
  }

  /** The first stored token document an incoming one may overwrite. */
  function FirstOlderToken(ts: seq<TokenDoc>, t: TokenDoc): (r: Option<nat>)
    ensures r.Some? ==> r.value < |ts| && TokenFilter(ts[r.value], t)
    ensures r.Some? ==> forall j :: 0 <= j < r.value ==> !TokenFilter(ts[j], t)
    ensures r.None? ==> forall j :: 0 <= j < |ts| ==> !TokenFilter(ts[j], t)
  {
    if ts == [] then None
    else if TokenFilter(ts[0], t) then Some(0)
    else match FirstOlderToken(ts[1..], t)
      case None => None
      case Some(k) => Some(k + 1)
  }

  /** updateToken: findOneAndUpdate without upsert, writing blockNumber and data. */
  function UpdateTokenIn(ts: seq<TokenDoc>, t: TokenDoc): seq<TokenDoc>
  {
    match FirstOlderToken(ts, t)
    case None => ts
    case Some(i) => ts[i := ts[i].(blockNumber := t.blockNumber, data := t.data)]
  }

  /** methodHandler: an insert (a duplicate-key rejection is swallowed), then
      an update in the `finally` step. */
  function MethodHandlerOn(ts: seq<TokenDoc>, t: TokenDoc): seq<TokenDoc>
  {
    UpdateTokenIn(InsertTokenInto(ts, t).0, t)
  }

  /** updateToken never inserts, never touches a key, never lowers a block,
      and changes only a record whose stored block is strictly older. */
  lemma UpdateTokenLastBlockWins(ts: seq<TokenDoc>, t: TokenDoc)
    ensures |UpdateTokenIn(ts, t)| == |ts|
    ensures forall i :: 0 <= i < |ts| ==>
      var r := UpdateTokenIn(ts, t)[i];
      r.address == ts[i].address && r.network == ts[i].network && r.tokenId == ts[i].tokenId &&
      r.blockNumber >= ts[i].blockNumber &&
      (r != ts[i] ==> TokenFilter(ts[i], t) && r.blockNumber == t.blockNumber && r.data == t.data)
    ensures UniqueTokens(ts) ==> UniqueTokens(UpdateTokenIn(ts, t))
  {
  }

  /** A record that is the only one matching the key case-insensitively ends
      with the larger of the two blocks, and the incoming data exactly when
      the incoming block is newer. */
  lemma UpdateTokenSoleMatch(ts: seq<TokenDoc>, t: TokenDoc, i: nat)
    requires i < |ts| && SameTokenKey(ts[i], t)
    requires forall j :: 0 <= j < |ts| && j != i ==> !SameTokenKey(ts[j], t)
    ensures UpdateTokenIn(ts, t)[i].blockNumber == if ts[i].blockNumber < t.blockNumber then t.blockNumber else ts[i].blockNumber
    ensures UpdateTokenIn(ts, t)[i].data == if ts[i].blockNumber < t.blockNumber then t.data else ts[i].data
    ensures forall j :: 0 <= j < |ts| && j != i ==> UpdateTokenIn(ts, t)[j] == ts[j]
  {
    var k := FirstOlderToken(ts, t);
    if ts[i].blockNumber < t.blockNumber {
      assert TokenFilter(ts[i], t);
      assert k == Some(i);
    } else {
      assert k.None?;
    }
  }

  /** The token key of `t` is held by exactly the record at `i`. */
  predicate OnlyRecordAt(ts: seq<TokenDoc>, t: TokenDoc, i: nat)
  {
    i < |ts| && ts[i].address == t.address && ts[i].network == t.network && ts[i].tokenId == t.tokenId &&
    forall j :: 0 <= j < |ts| && j != i ==>
      ts[j].address != t.address || ts[j].network != t.network || ts[j].tokenId != t.tokenId
  }

  /** After methodHandler exactly one record holds the token key, with the
      larger of the stored and the incoming block; this needs no other
      record to match the key case-insensitively. */
  lemma MethodHandlerKeepsNewest(ts: seq<TokenDoc>, t: TokenDoc)
    requires UniqueTokens(ts)
    requires forall j :: 0 <= j < |ts| && SameTokenKey(ts[j], t) ==>
      ts[j].address == t.address && ts[j].network == t.network && ts[j].tokenId == t.tokenId
    ensures UniqueTokens(MethodHandlerOn(ts, t))
    ensures exists i: nat :: (OnlyRecordAt(MethodHandlerOn(ts, t), t, i) &&
      (HasTokenKey(ts, t.address, t.network, t.tokenId) ==>
         i < |ts| && MethodHandlerOn(ts, t)[i].blockNumber ==
           if ts[i].blockNumber < t.blockNumber then t.blockNumber else ts[i].blockNumber) &&
      (!HasTokenKey(ts, t.address, t.network, t.tokenId) ==> MethodHandlerOn(ts, t)[i] == t))
  {
    var ins := InsertTokenInto(ts, t).0;
    if HasTokenKey(ts, t.address, t.network, t.tokenId) {
      var i :| 0 <= i < |ts| && ts[i].address == t.address && ts[i].network == t.network && ts[i].tokenId == t.tokenId;
      assert ins == ts;
      SameIgnoringCaseRefl(t);
      forall j | 0 <= j < |ts| && j != i ensures !SameTokenKey(ts[j], t) {
        if SameTokenKey(ts[j], t) {
          if j < i { assert false; } else { assert false; }
        }
      }
      UpdateTokenSoleMatch(ts, t, i);
      UpdateTokenLastBlockWins(ts, t);
      assert OnlyRecordAt(MethodHandlerOn(ts, t), t, i);
    } else {
      var i := |ts|;
      assert ins == ts + [t];
      SameIgnoringCaseRefl(t);
      forall j | 0 <= j < |ins| && j != i ensures !SameTokenKey(ins[j], t) {
        assert ins[j] == ts[j];
      }
      UpdateTokenSoleMatch(ins, t, i);
      UpdateTokenLastBlockWins(ins, t);
      assert OnlyRecordAt(MethodHandlerOn(ts, t), t, i);
    }
  }

  lemma SameIgnoringCaseRefl(t: TokenDoc)
    ensures SameTokenKey(t, t)
  {
  }

  /** On a store without the key, the first methodHandler inserts it. */
  lemma MethodHandlerInserts(ts: seq<TokenDoc>, t: TokenDoc)
    requires !HasTokenKey(ts, t.address, t.network, t.tokenId)
    requires forall j :: 0 <= j < |ts| ==> !SameTokenKey(ts[j], t)
    ensures MethodHandlerOn(ts, t) == ts + [t]
  {
    var ins := ts + [t];
    assert forall j :: 0 <= j < |ts| ==> ins[j] == ts[j];
    assert !TokenFilter(t, t);
    assert FirstOlderToken(ins, t).None?;
  }

  /** Out-of-order delivery: block 10 then block 5 leaves block 10 and its data. */
  lemma OutOfOrderTokenUpdates(ts: seq<TokenDoc>, t10: TokenDoc, t5: TokenDoc)
    requires ts == []
    requires t10.blockNumber == 10 && t5.blockNumber == 5
    requires t5.address == t10.address && t5.network == t10.network && t5.tokenId == t10.tokenId
    ensures MethodHandlerOn(MethodHandlerOn(ts, t10), t5) == [t10]
  {
    MethodHandlerInserts(ts, t10);
    var s1 := [t10];
    assert HasTokenKey(s1, t5.address, t5.network, t5.tokenId) by { assert s1[0] == t10; }
    assert InsertTokenInto(s1, t5).0 == s1;
    assert !TokenFilter(s1[0], t5);
    assert FirstOlderToken(s1, t5).None?;
  }

  // ---------------------------------------------------------------------
  // The store as an object
  // ---------------------------------------------------------------------

  class Database {
    var contracts: seq<ContractDoc>
    var events: seq<EventDoc>
    var tokens: seq<TokenDoc>

    ghost predicate Valid()
      reads this
    {
      UniqueContracts(contracts) && UniqueTokens(tokens)
    }

    /** An empty store (the connection itself is not modelled). */
    constructor ()
      ensures Valid() && contracts == [] && events == [] && tokens == []
    {
      contracts, events, tokens := [], [], [];
    }

    /** isExistContract(address), once awaited: `exists` scans the
        collection for a document whose address matches, stops at the first
        one, and the answer is whether it found one. */
    method IsExistContract(address: string) returns (r: bool)
      ensures r <==> AnyAddressMatches(contracts, address)
    {
      var i := 0;
      while i < |contracts|
        invariant 0 <= i <= |contracts|
        invariant forall j :: 0 <= j < i ==> !SameIgnoringCase(contracts[j].address, address)
      {
        if SameIgnoringCase(contracts[i].address, address) {
          return true;
        }
        i := i + 1;
      }
      return false;
    }

    method InsertContract(d: ContractDoc) returns (success: bool)
      requires Valid()
      modifies this
      ensures Valid()
      ensures success <==> !HasContractKey(old(contracts), d.address, d.network)
      ensures contracts == if success then old(contracts) + [d] else old(contracts)
      ensures events == old(events) && tokens == old(tokens)
    {
      var r := InsertContractInto(contracts, d);
      contracts, success := r.0, r.1;
    }

    method UpdateContract(u: ContractUpdate)
      requires Valid()
      modifies this
      ensures Valid()
      ensures contracts == UpdateContractIn(old(contracts), u)
      ensures events == old(events) && tokens == old(tokens)
    {
      UpdateContractKeepsIndex(contracts, u);
      contracts := UpdateContractIn(contracts, u);
    }

    method InsertEvent(d: EventData)
      modifies this
      ensures events == old(events) + [Cast(Projected(d))]
      ensures contracts == old(contracts) && tokens == old(tokens)
    {
      events := events + [Cast(Projected(d))];
    }

    method InsertEvents(ds: seq<EventData>)
      modifies this
      ensures events == InsertEventsInto(old(events), ds)
      ensures ds == [] ==> events == old(events)
      ensures contracts == old(contracts) && tokens == old(tokens)
    {
      if |ds| <= 0 {
        return;
      }
      events := events + StoredAll(ds);
    }

    /** eventHandler: store the events, then write the cursor (insertion
        failures are logged and the cursor is written anyway). */
    method EventHandler(p: Payload)
      requires Valid()
      modifies this
      ensures Valid()
      ensures events == EventHandlerEvents(old(events), p)
      ensures contracts == EventHandlerContracts(old(contracts), p)
      ensures tokens == old(tokens)
    {
      match p {
        case Batch(ds) =>
          if |ds| > 0 {
            var w := CursorWrite(p).value;
            InsertEvents(ds);
            UpdateContract(CursorUpdate(w.0, w.1));
          }
        case Single(d) =>
          InsertEvent(d);
          UpdateContract(CursorUpdate(d.address, d.blockNumber));
      }
    }

    method InsertToken(t: TokenDoc) returns (success: bool)
      requires Valid()
      modifies this
      ensures Valid()
      ensures success <==> !HasTokenKey(old(tokens), t.address, t.network, t.tokenId)
      ensures tokens == if success then old(tokens) + [t] else old(tokens)
      ensures contracts == old(contracts) && events == old(events)
    {
      var r := InsertTokenInto(tokens, t);
      tokens, success := r.0, r.1;
    }

    method UpdateToken(t: TokenDoc)
      requires Valid()
      modifies this
      ensures Valid()
      ensures tokens == UpdateTokenIn(old(tokens), t)
      ensures contracts == old(contracts) && events == old(events)
    {
      UpdateTokenLastBlockWins(tokens, t);
      tokens := UpdateTokenIn(tokens, t);
    }

    /** methodHandler: insert, then update whether or not the insert was
        rejected. */
    method MethodHandler(t: TokenDoc)
      requires Valid()
      modifies this
      ensures Valid()
      ensures tokens == MethodHandlerOn(old(tokens), t)
      ensures contracts == old(contracts) && events == old(events)
    {
      var _ := InsertToken(t);
      UpdateToken(t);
    }
  }
}
