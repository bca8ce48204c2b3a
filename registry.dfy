/** The in-memory registry of watched contracts (src/modules/listener.ts):
    a map from address to the contract's watcher, tracked events, cursor
    and network; per-address, per-event "already listening" flags; and the
    requests it hands to the watchers (a past-events load from a block, or a
    live subscription), kept as a log in the order they are issued. The
    property order of the `contracts` object (the order `for...in` walks)
    is kept as a sequence of keys in insertion order. */
module Registry {
  import opened Common
  import opened Persistence
  import opened Watcher

  datatype Entry = Entry(
    address: string,
    listen: Listen,
    events: seq<string>,
    latestBlock: int,
    network: string)

  /** What the registry asks a watcher to do. */
  datatype Request =
    | PastEvents(address: string, event: string, fromBlock: int)
    | Subscribe(address: string, event: string)

  /** The `{success, msg}` objects the registry answers with. */
  datatype Reply = Reply(success: bool, msg: string)

  /** A call either returns normally or dies with a TypeError (a property
      read on `undefined`). */
  datatype Completion = Normal(reply: Reply) | TypeError

  /** The `events` argument of add: one name, or a list. */
  datatype EventsArg = One(event: string) | Many(events: seq<string>)

  function AlreadyExistsMsg(address: string): string
  {
    "Address " + address + " already exsist in db. If you are adding events, please use addEvent."
  }

  function AddedMsg(address: string): string
  {
    "Added contract " + address + " with events."
  }

  function EventAddedMsg(event: string, address: string): string
  {
    "Event " + event + " added in address " + address + "!"
  }

  function EventPresentMsg(event: string, address: string): string
  {
    "Event " + event + " already in address " + address + "!"
  }

  function NoAddressMsg(address: string): string
  {
    "Address " + address + " does not exist in db!"
  }

  function ListeningToMsg(address: string): string
  {
    "Listening to " + address + " for every event."
  }

  const ListeningToAllMsg: string := "Listening to every address for every event."

  // ---------------------------------------------------------------------
  // Cursors
  // ---------------------------------------------------------------------

  /** _updateBlock's rule: the cursor moves only to a strictly larger block. */
  function Bumped(cur: int, n: int): int
  {
    if cur < n then n else cur
  }

  /** The bumped cursor is the larger of the two: it never goes down. */
  lemma BumpedIsMax(cur: int, n: int)
    ensures Bumped(cur, n) >= cur && Bumped(cur, n) >= n
    ensures Bumped(cur, n) == cur || Bumped(cur, n) == n
  {
  }

  /** Repeating a bump with the same block changes nothing. */
  lemma BumpedIdempotent(cur: int, n: int)
    ensures Bumped(Bumped(cur, n), n) == Bumped(cur, n)
  {
  }

  /** The cursor _eventHandlerWrapper bumps: the address of the first record
      with the batch maximum, or the single event's own address and block;
      nothing for an empty batch. */
  function CursorTarget(p: Payload): Option<(string, int)>
  {
    match p
    case Single(d) => Some((d.address, d.blockNumber))
    case Batch(ds) => if |ds| > 0 then Some((ds[0].address, MaxBlock(ds))) else None
  }

  /** The cursors after _eventHandlerWrapper (an unknown address changes none). */
  function WrapperContracts(contracts: map<string, Entry>, p: Payload): map<string, Entry>
  {
    match CursorTarget(p)
    case None => contracts
    case Some(t) =>
      if t.0 in contracts then contracts[t.0 := contracts[t.0].(latestBlock := Bumped(contracts[t.0].latestBlock, t.1))]
      else contracts
  }

  /** For a batch, the registry cursor of the first record's address becomes
      the larger of its old value and the largest block of the batch; an
      empty batch moves no cursor. */
  lemma {:induction false} WrapperCursorIsBatchMax(contracts: map<string, Entry>, ds: seq<EventData>)
    requires |ds| > 0 && ds[0].address in contracts
    ensures var c := WrapperContracts(contracts, Batch(ds))[ds[0].address].latestBlock;
      var old_ := contracts[ds[0].address].latestBlock;
      c >= old_ && (forall i :: 0 <= i < |ds| ==> c >= ds[i].blockNumber) &&
      (c == old_ || exists i :: 0 <= i < |ds| && c == ds[i].blockNumber)
    ensures WrapperContracts(contracts, Batch([])) == contracts
  {
    BumpedIsMax(contracts[ds[0].address].latestBlock, MaxBlock(ds));
  }

  /** What a delivery that reaches the store writes: every event of a
      single record or of a non-empty batch is appended after the stored
      ones. */
  lemma DeliveryStoresEvents(es: seq<EventDoc>, p: Payload)
    requires p.Single? || p.items != []
    ensures |EventHandlerEvents(es, p)| == |es| + (if p.Single? then 1 else |p.items|)
    ensures EventHandlerEvents(es, p)[..|es|] == es
  {
    if p.Batch? {
      StoredEventFields(es, p.items, 0);
    }
  }

  /** The registry and the store disagree on whose cursor a batch moves:
      the registry bumps the first record's address, the store writes the
      address of the first record carrying the maximum. */
  lemma CursorAddressesDiffer(a: EventData, b: EventData)
    requires a.address != b.address && a.blockNumber < b.blockNumber
    ensures CursorTarget(Batch([a, b])).value.0 == a.address
    ensures CursorWrite(Batch([a, b])).value.0 == b.address
  {
    assert MaxBlock([a, b]) == b.blockNumber;
    assert FirstAtBlock([a, b], b.blockNumber) == Some(1);
  }

  // ---------------------------------------------------------------------
  // Flags and the requests the loops issue
  // ---------------------------------------------------------------------

  /** `key in this.contracts`: an own key or an inherited property name. */
  predicate InLocal(contracts: map<string, Entry>, key: string)
  {
    key in contracts || key in ObjectPrototypeNames
  }

  /** `if (address)` for an optional string argument. */
  predicate Given(address: Option<string>)
  {
    address.Some? && address.value != ""
  }

  /** Truthiness of `isListening[addr][e]`: an own flag, or the inherited
      property when the event name is one. */
  predicate FlagOn(flags: map<string, bool>, e: string)
  {
    if e in flags then flags[e] else e in ObjectPrototypeNames
  }

  function FlagsOf(isListening: map<string, map<string, bool>>, a: string): map<string, bool>
  {
    if a in isListening then isListening[a] else map[]
  }

  /** `flags[e] = false` for every listed event, in turn. */
  function FalseFlags(flags: map<string, bool>, evs: seq<string>): (r: map<string, bool>)
    ensures r.Keys == flags.Keys + set e | e in evs
    ensures forall e :: e in evs ==> !r[e]
    ensures forall e :: e in flags && e !in evs ==> r[e] == flags[e]
  {
    if evs == [] then flags else FalseFlags(flags, evs[..|evs| - 1])[evs[|evs| - 1] := false]
  }

  /** One past-events load per tracked event, each from the given block. */
  function PastRequestsFor(a: string, evs: seq<string>, from: int): (r: seq<Request>)
    ensures |r| == |evs|
    ensures forall k :: 0 <= k < |evs| ==> r[k] == PastEvents(a, evs[k], from)
  {
    if evs == [] then [] else PastRequestsFor(a, evs[..|evs| - 1], from) + [PastEvents(a, evs[|evs| - 1], from)]
  }

  /** A subscription for every listed event whose flag is off. */
  function SubscriptionsFor(a: string, evs: seq<string>, flags: map<string, bool>): seq<Request>
  {
    if evs == [] then []
    else
      var e := evs[|evs| - 1];
      SubscriptionsFor(a, evs[..|evs| - 1], flags) + (if FlagOn(flags, e) then [] else [Subscribe(a, e)])
  }

  /** An event is subscribed exactly when it is listed and its flag is off,
      and every request is a subscription on the given address. */
  lemma {:induction false} SubscriptionsForSpec(a: string, evs: seq<string>, flags: map<string, bool>)
    ensures forall e :: Subscribe(a, e) in SubscriptionsFor(a, evs, flags) <==> e in evs && !FlagOn(flags, e)
    ensures forall q :: q in SubscriptionsFor(a, evs, flags) ==> q.Subscribe? && q.address == a
  {
    if evs != [] {
      var init := evs[..|evs| - 1];
      SubscriptionsForSpec(a, init, flags);
      assert evs == init + [evs[|evs| - 1]];
    }
  }

  /** With every flag off, every event gets exactly one subscription, in order. */
  lemma {:induction false} SubscriptionsAllOff(a: string, evs: seq<string>, flags: map<string, bool>)
    requires forall e :: e in evs ==> !FlagOn(flags, e)
    ensures |SubscriptionsFor(a, evs, flags)| == |evs|
    ensures forall k :: 0 <= k < |evs| ==> SubscriptionsFor(a, evs, flags)[k] == Subscribe(a, evs[k])
  {
    if evs != [] {
      var init := evs[..|evs| - 1];
      assert forall e :: e in init ==> e in evs;
      SubscriptionsAllOff(a, init, flags);
    }
  }

  ghost predicate KeysIn(keys: seq<string>, contracts: map<string, Entry>)
  {
    forall k :: k in keys ==> k in contracts
  }

  /** loadPastEvents() over the keys in order. */
  function PastRequestsAll(keys: seq<string>, contracts: map<string, Entry>): seq<Request>
    requires KeysIn(keys, contracts)
  {
    if keys == [] then []
    else
      var a := keys[|keys| - 1];
      PastRequestsAll(keys[..|keys| - 1], contracts) + PastRequestsFor(a, contracts[a].events, contracts[a].latestBlock)
  }

  /** listenEvents() over the keys in order, each address with its own flags. */
  function SubscriptionsAll(keys: seq<string>, contracts: map<string, Entry>, isListening: map<string, map<string, bool>>): seq<Request>
    requires KeysIn(keys, contracts)
  {
    if keys == [] then []
    else
      var a := keys[|keys| - 1];
      SubscriptionsAll(keys[..|keys| - 1], contracts, isListening) + SubscriptionsFor(a, contracts[a].events, FlagsOf(isListening, a))
  }

  /** The requests loadPastEvents(address) issues. */
  function LoadRequests(address: Option<string>, order: seq<string>, contracts: map<string, Entry>): seq<Request>
    requires KeysIn(order, contracts)
  {
    if Given(address) then
      if address.value in contracts then
        PastRequestsFor(address.value, contracts[address.value].events, contracts[address.value].latestBlock)
      else []
    else PastRequestsAll(order, contracts)
  }

  /** The requests listenEvents(address) issues, with `addr` in the loop over
      the whole registry. */
  function ListenRequests(address: Option<string>, order: seq<string>, contracts: map<string, Entry>,
                          isListening: map<string, map<string, bool>>): seq<Request>
    requires KeysIn(order, contracts)
  {
    if Given(address) then
      if address.value in contracts then
        SubscriptionsFor(address.value, contracts[address.value].events, FlagsOf(isListening, address.value))
      else []
    else SubscriptionsAll(order, contracts, isListening)
  }

  /** The whole-registry loop of listenEvents as written: every event of
      every address is looked up in the flags, and subscribed on the watcher,
      of `key` (the string the missing argument turns into); a TypeError as
      soon as there is an event and no such key. */
  function ListenAllAsWritten(keys: seq<string>, contracts: map<string, Entry>,
                              isListening: map<string, map<string, bool>>, key: string): Option<seq<Request>>
    requires KeysIn(keys, contracts)
  {
    if keys == [] then Some([])
    else
      var a := keys[|keys| - 1];
      match ListenAllAsWritten(keys[..|keys| - 1], contracts, isListening, key)
      case None => None
      case Some(rs) =>
        if contracts[a].events == [] then Some(rs)
        else if key !in isListening || key !in contracts then None
        else Some(rs + SubscriptionsFor(key, contracts[a].events, isListening[key]))
  }

  /** Every tracked event of every registered address gets a past-events
      load from that address's cursor. */
  lemma {:induction false} PastRequestsAllCovers(keys: seq<string>, contracts: map<string, Entry>, k: nat, e: string)
    requires KeysIn(keys, contracts) && k < |keys| && e in contracts[keys[k]].events
    ensures PastEvents(keys[k], e, contracts[keys[k]].latestBlock) in PastRequestsAll(keys, contracts)
  {
    var init := keys[..|keys| - 1];
    assert KeysIn(init, contracts) by { assert forall x :: x in init ==> x in keys; }
    if k < |keys| - 1 {
      assert init[k] == keys[k];
      PastRequestsAllCovers(init, contracts, k, e);
    } else {
      var a := keys[k];
      var evs := contracts[a].events;
      var j :| 0 <= j < |evs| && evs[j] == e;
      assert PastRequestsFor(a, evs, contracts[a].latestBlock)[j] == PastEvents(a, e, contracts[a].latestBlock);
    }
  }

  /** Every event whose flag is off, of every registered address, gets a
      subscription on its own address. */
  lemma {:induction false} SubscriptionsAllCovers(keys: seq<string>, contracts: map<string, Entry>,
                                                  isListening: map<string, map<string, bool>>, k: nat, e: string)
    requires KeysIn(keys, contracts) && k < |keys| && e in contracts[keys[k]].events
    requires !FlagOn(FlagsOf(isListening, keys[k]), e)
    ensures Subscribe(keys[k], e) in SubscriptionsAll(keys, contracts, isListening)
  {
    var init := keys[..|keys| - 1];
    assert KeysIn(init, contracts) by { assert forall x :: x in init ==> x in keys; }
    if k < |keys| - 1 {
      assert init[k] == keys[k];
      SubscriptionsAllCovers(init, contracts, isListening, k, e);
    } else {
      SubscriptionsForSpec(keys[k], contracts[keys[k]].events, FlagsOf(isListening, keys[k]));
    }
  }

  /** As written, the whole-registry listenEvents() dies with a TypeError
      on any registry that tracks an event unless `key` (for a missing
      argument, the string "undefined") is itself a registered address. */
  lemma {:induction false} ListenAllAsWrittenFails(keys: seq<string>, contracts: map<string, Entry>,
                                                   isListening: map<string, map<string, bool>>, key: string, k: nat)
    requires KeysIn(keys, contracts) && k < |keys| && contracts[keys[k]].events != []
    requires key !in contracts || key !in isListening
    ensures ListenAllAsWritten(keys, contracts, isListening, key).None?
  {
    var init := keys[..|keys| - 1];
    assert KeysIn(init, contracts) by { assert forall x :: x in init ==> x in keys; }
    if k < |keys| - 1 {
      assert init[k] == keys[k];
      ListenAllAsWrittenFails(init, contracts, isListening, key, k);
    }
  }

  /** The keys of a prefix are keys of the whole. */
  lemma PrefixKeysIn(keys: seq<string>, contracts: map<string, Entry>, i: nat)
    requires KeysIn(keys, contracts) && i <= |keys|
    ensures KeysIn(keys[..i], contracts)
  {
    assert forall x :: x in keys[..i] ==> x in keys;
  }

  /** One more key adds that key's past-events loads at the end. */
  lemma PastRequestsAllStep(keys: seq<string>, contracts: map<string, Entry>, i: nat)
    requires KeysIn(keys, contracts) && i < |keys|
    ensures KeysIn(keys[..i], contracts) && KeysIn(keys[..i + 1], contracts)
    ensures PastRequestsAll(keys[..i + 1], contracts) ==
            PastRequestsAll(keys[..i], contracts) + PastRequestsFor(keys[i], contracts[keys[i]].events, contracts[keys[i]].latestBlock)
  {
    PrefixKeysIn(keys, contracts, i);
    PrefixKeysIn(keys, contracts, i + 1);
    assert keys[..i + 1][..i] == keys[..i];
  }

  /** One more key adds that key's subscriptions at the end. */
  lemma SubscriptionsAllStep(keys: seq<string>, contracts: map<string, Entry>,
                             isListening: map<string, map<string, bool>>, i: nat)
    requires KeysIn(keys, contracts) && i < |keys|
    ensures KeysIn(keys[..i], contracts) && KeysIn(keys[..i + 1], contracts)
    ensures SubscriptionsAll(keys[..i + 1], contracts, isListening) ==
            SubscriptionsAll(keys[..i], contracts, isListening) + SubscriptionsFor(keys[i], contracts[keys[i]].events, FlagsOf(isListening, keys[i]))
  {
    PrefixKeysIn(keys, contracts, i);
    PrefixKeysIn(keys, contracts, i + 1);
    assert keys[..i + 1][..i] == keys[..i];
  }

  /** One more key of the as-written loop: nothing for a key without
      events, the subscriptions of `key` otherwise. */
  lemma ListenAllAsWrittenStep(keys: seq<string>, contracts: map<string, Entry>,
                               isListening: map<string, map<string, bool>>, key: string, i: nat)
    requires KeysIn(keys, contracts) && i < |keys|
    requires ListenAllAsWritten(keys[..i], contracts, isListening, key).Some?
    requires contracts[keys[i]].events == [] || (key in isListening && key in contracts)
    ensures KeysIn(keys[..i], contracts) && KeysIn(keys[..i + 1], contracts)
    ensures var prev := ListenAllAsWritten(keys[..i], contracts, isListening, key).value;
      ListenAllAsWritten(keys[..i + 1], contracts, isListening, key) ==
      Some(if contracts[keys[i]].events == [] then prev
           else prev + SubscriptionsFor(key, contracts[keys[i]].events, isListening[key]))
  {
    PrefixKeysIn(keys, contracts, i);
    PrefixKeysIn(keys, contracts, i + 1);
    assert keys[..i + 1][..i] == keys[..i];
  }

  // ---------------------------------------------------------------------
  // Constructor flag initialisation
  // ---------------------------------------------------------------------

  /** The constructor's loop: for every address with events, create its flag
      map if missing and set each of its events to false. */
  function InitialFlags(keys: seq<string>, contracts: map<string, Entry>,
                        isListening: map<string, map<string, bool>>): map<string, map<string, bool>>
    requires KeysIn(keys, contracts)
  {
    if keys == [] then isListening
    else
      var before := InitialFlags(keys[..|keys| - 1], contracts, isListening);
      var a := keys[|keys| - 1];
      if contracts[a].events == [] then before
      else before[a := FalseFlags(FlagsOf(before, a), contracts[a].events)]
  }

  /** One more key of the flag loop. */
  lemma InitialFlagsStep(keys: seq<string>, contracts: map<string, Entry>,
                         isListening: map<string, map<string, bool>>, i: nat)
    requires KeysIn(keys, contracts) && i < |keys|
    ensures KeysIn(keys[..i], contracts) && KeysIn(keys[..i + 1], contracts)
    ensures var before := InitialFlags(keys[..i], contracts, isListening);
      InitialFlags(keys[..i + 1], contracts, isListening) ==
      if contracts[keys[i]].events == [] then before
      else before[keys[i] := FalseFlags(FlagsOf(before, keys[i]), contracts[keys[i]].events)]
  {
    PrefixKeysIn(keys, contracts, i);
    PrefixKeysIn(keys, contracts, i + 1);
    assert keys[..i + 1][..i] == keys[..i];
  }

  /** After the loop every event of every address has an own flag, false. */
  lemma {:induction false} InitialFlagsOff(keys: seq<string>, contracts: map<string, Entry>,
                                           isListening: map<string, map<string, bool>>, k: nat, e: string)
    requires KeysIn(keys, contracts) && k < |keys| && e in contracts[keys[k]].events
    ensures var fl := InitialFlags(keys, contracts, isListening);
      keys[k] in fl && e in fl[keys[k]] && !fl[keys[k]][e]
  {
    var init := keys[..|keys| - 1];
    assert KeysIn(init, contracts) by { assert forall x :: x in init ==> x in keys; }
    if k < |keys| - 1 {
      assert init[k] == keys[k];
      InitialFlagsOff(init, contracts, isListening, k, e);
    }
  }

  // ---------------------------------------------------------------------
  // The registry object
  // ---------------------------------------------------------------------

  ghost predicate FlagsFalse(isListening: map<string, map<string, bool>>)
  {
    forall a, e :: a in isListening && e in isListening[a] ==> !isListening[a][e]
  }

  ghost predicate Distinct(order: seq<string>)
  {
    forall i, j :: 0 <= i < j < |order| ==> order[i] != order[j]
  }

  /** Keys in order once each, flag maps exactly for the registered
      addresses, each entry under its own address, and no flag ever true. */
  ghost predicate Wellformed(order: seq<string>, contracts: map<string, Entry>,
                             isListening: map<string, map<string, bool>>)
  {
    Distinct(order) && (forall a :: a in contracts <==> a in order) &&
    isListening.Keys == contracts.Keys &&
    (forall a :: a in contracts ==> contracts[a].address == a) &&
    FlagsFalse(isListening)
  }

  /** The constructor's flag loop only turns flags of registered addresses
      off, so it keeps the registry well formed. */
  lemma {:induction false} InitialFlagsKeep(keys: seq<string>, contracts: map<string, Entry>,
                                            isListening: map<string, map<string, bool>>)
    requires KeysIn(keys, contracts) && (forall k :: k in keys ==> k in isListening)
    requires FlagsFalse(isListening)
    ensures InitialFlags(keys, contracts, isListening).Keys == isListening.Keys
    ensures FlagsFalse(InitialFlags(keys, contracts, isListening))
  {
    if keys != [] {
      var init := keys[..|keys| - 1];
      assert forall x :: x in init ==> x in keys;
      InitialFlagsKeep(init, contracts, isListening);
    }
  }

  /** The events argument of add, after the array conversion and the default. */
  function EventList(events: Option<EventsArg>): seq<string>
  {
    match events
    case None => []
    case Some(One(e)) => [e]
    case Some(Many(es)) => es
  }

  /** One more event of the inner flag loop. */
  lemma FalseFlagsStep(flags: map<string, bool>, evs: seq<string>, j: nat)
    requires j < |evs|
    ensures FalseFlags(flags, evs[..j + 1]) == FalseFlags(flags, evs[..j])[evs[j] := false]
  {
    assert evs[..j + 1][..j] == evs[..j];
  }

  /** Storing an entry under its own address, appending the address when it
      is new and turning the entry's flags off keeps the registry well formed. */
  lemma WellformedAfterAdd(order: seq<string>, contracts: map<string, Entry>,
                           isListening: map<string, map<string, bool>>, e: Entry)
    requires Wellformed(order, contracts, isListening)
    ensures Wellformed(if e.address in contracts then order else order + [e.address],
                       contracts[e.address := e],
                       isListening[e.address := FalseFlags(FlagsOf(isListening, e.address), e.events)])
  {
    var a := e.address;
    var order' := if a in contracts then order else order + [a];
    var fl := isListening[a := FalseFlags(FlagsOf(isListening, a), e.events)];
    assert forall x :: x in order' <==> x in order || x == a;
    assert Distinct(order') by {
      if a !in contracts {
        assert a !in order;
        forall i, j | 0 <= i < j < |order'| ensures order'[i] != order'[j] {
          if j == |order| {
            assert order'[i] == order[i];
          } else {
            assert order'[i] == order[i] && order'[j] == order[j];
          }
        }
      }
    }
    assert FlagsFalse(fl) by {
      forall x, ev | x in fl && ev in fl[x] ensures !fl[x][ev] {
        if x != a {
          assert fl[x] == isListening[x];
        } else {
          FlagsOfFalse(isListening, a);
        }
      }
    }
  }

  lemma FlagsOfFalse(isListening: map<string, map<string, bool>>, a: string)
    requires FlagsFalse(isListening)
    ensures forall ev :: ev in FlagsOf(isListening, a) ==> !FlagsOf(isListening, a)[ev]
  {
  }

  /** No flag is ever set to true, so every listenEvents(address) subscribes
      each tracked event of the address again (for `""`, through the
      whole-registry loop): an event that already has a subscription in the
      log gets a second one, whatever was issued in between. */
  lemma {:induction false} ListenResubscribes(rs: seq<Request>, more: seq<Request>, order: seq<string>,
                                              contracts: map<string, Entry>, isListening: map<string, map<string, bool>>,
                                              a: string, e: string)
    requires KeysIn(order, contracts) && FlagsFalse(isListening)
    requires a in contracts && (Given(Some(a)) || a in order)
    requires e in contracts[a].events && (e in FlagsOf(isListening, a) || e !in ObjectPrototypeNames)
    requires Subscribe(a, e) in rs
    ensures var after := rs + more + ListenRequests(Some(a), order, contracts, isListening);
      exists i, j :: 0 <= i < j < |after| && after[i] == Subscribe(a, e) && after[j] == Subscribe(a, e)
  {
    var ls := ListenRequests(Some(a), order, contracts, isListening);
    FlagsOfFalse(isListening, a);
    assert !FlagOn(FlagsOf(isListening, a), e);
    if Given(Some(a)) {
      SubscriptionsForSpec(a, contracts[a].events, FlagsOf(isListening, a));
    } else {
      var k :| 0 <= k < |order| && order[k] == a;
      SubscriptionsAllCovers(order, contracts, isListening, k, e);
    }
    var i :| 0 <= i < |rs| && rs[i] == Subscribe(a, e);
    var j :| 0 <= j < |ls| && ls[j] == Subscribe(a, e);
    var after := rs + more + ls;
    assert after[i] == Subscribe(a, e);
    assert after[|rs| + |more| + j] == Subscribe(a, e);
  }

  /** The inner loop of the flag set-up: create the address's flag map if
      missing, then set every listed event's flag to false. */
  method SetFlagsOff(isListening: map<string, map<string, bool>>, a: string, evs: seq<string>)
    returns (r: map<string, map<string, bool>>)
    ensures r == isListening[a := FalseFlags(FlagsOf(isListening, a), evs)]
  {
    ghost var flags := FlagsOf(isListening, a);
    r := isListening;
    if a !in r {
      r := r[a := map[]];
    } else {
      UpdateSame(r, a);
    }
    assert evs[..0] == [] && FalseFlags(flags, []) == flags;
    var j := 0;
    while j < |evs|
      invariant 0 <= j <= |evs|
      invariant a in r && r == isListening[a := r[a]]
      invariant r[a] == FalseFlags(flags, evs[..j])
    {
      FalseFlagsStep(flags, evs, j);
      ghost var before := r;
      r := r[a := r[a][evs[j] := false]];
      UpdateTwice(isListening, a, before[a], r[a]);
      j := j + 1;
    }
    assert evs[..|evs|] == evs;
  }

  lemma UpdateSame<K, V>(m: map<K, V>, k: K)
    requires k in m
    ensures m[k := m[k]] == m
  {
  }

  lemma UpdateTwice<K, V>(m: map<K, V>, k: K, v: V, w: V)
    ensures m[k := v][k := w] == m[k := w]
  {
  }

  class Listener {
    const db: Database
    const web3: Web3
    /** The network name to RPC URL table. */
    const networks: map<string, string>

    var contracts: map<string, Entry>
    var order: seq<string>
    var isListening: map<string, map<string, bool>>
    var requests: seq<Request>

    /** The store is consistent and the registry well formed. */
    ghost predicate Valid()
      reads this, db
    {
      db.Valid() && Wellformed(order, contracts, isListening)
    }

    /** The store's loadDb does not exist, so _loadDb rejects before adding
        anything and the registry starts empty; the `finally` steps then run
        over it. */
    constructor (db: Database, web3: Web3, networks: map<string, string>)
      requires db.Valid()
      ensures Valid()
      ensures this.db == db && this.web3 == web3 && this.networks == networks
      ensures contracts == map[] && order == [] && isListening == map[] && requests == []
    {
      this.db := db;
      this.web3 := web3;
      this.networks := networks;
      contracts := map[];
      order := [];
      isListening := map[];
      requests := [];
      new;
      InitFlags();
      var _ := LoadPastEvents(None);
      var _ := ListenEvents(None);
    }

    /** The constructor's flag loop over the registry as it stands. */
    method InitFlags()
      requires Valid()
      modifies this
      ensures Valid()
      ensures contracts == old(contracts) && order == old(order) && requests == old(requests)
      ensures isListening == InitialFlags(order, contracts, old(isListening))
    {
      var fl := isListening;
      var i := 0;
      while i < |order|
        invariant 0 <= i <= |order|
        invariant unchanged(this)
        invariant KeysIn(order[..i], contracts)
        invariant fl == InitialFlags(order[..i], contracts, isListening)
      {
        var a := order[i];
        var evs := contracts[a].events;
        InitialFlagsStep(order, contracts, isListening, i);
        if evs != [] {
          fl := SetFlagsOff(fl, a, evs);
        }
        i := i + 1;
      }
      assert order[..|order|] == order;
      InitialFlagsKeep(order, contracts, isListening);
      isListening := fl;
    }

    /** _updateBlock(address, n). `ok` is false for the TypeError an unknown
        address raises; an inherited property name reads an undefined cursor
        and changes nothing. */
    method UpdateBlock(address: string, n: int) returns (ok: bool)
      requires Valid()
      modifies this
      ensures Valid()
      ensures ok <==> InLocal(old(contracts), address)
      ensures address in old(contracts) ==>
        contracts == old(contracts)[address := old(contracts)[address].(latestBlock := Bumped(old(contracts)[address].latestBlock, n))]
      ensures address !in old(contracts) ==> contracts == old(contracts)
      ensures order == old(order) && isListening == old(isListening) && requests == old(requests)
    {
      if address in contracts {
        if contracts[address].latestBlock < n {
          contracts := contracts[address := contracts[address].(latestBlock := n)];
        }
        return true;
      }
      return address in ObjectPrototypeNames;
    }

    /** _eventHandlerWrapper(data): bump the cursor, then hand the data to
        the store; a TypeError in the bump keeps it from the store. */
    method EventHandlerWrapper(p: Payload) returns (ok: bool)
      requires Valid()
      modifies this, db
      ensures Valid()
      ensures ok <==> CursorTarget(p).None? || InLocal(old(contracts), CursorTarget(p).value.0)
      ensures contracts == WrapperContracts(old(contracts), p)
      ensures ok ==> db.contracts == EventHandlerContracts(old(db.contracts), p) &&
                     db.events == EventHandlerEvents(old(db.events), p)
      ensures !ok ==> db.contracts == old(db.contracts) && db.events == old(db.events)
      ensures db.tokens == old(db.tokens)
      ensures order == old(order) && isListening == old(isListening) && requests == old(requests)
    {
      match p {
        case Batch(ds) =>
          if |ds| > 0 {
            ok := UpdateBlock(ds[0].address, MaxBlock(ds));
            if !ok {
              return;
            }
          }
        case Single(d) =>
          ok := UpdateBlock(d.address, d.blockNumber);
          if !ok {
            return;
          }
      }
      ok := true;
      db.EventHandler(p);
    }

    /** _eventHandlerWrapper as the watchers reach it: it is handed over as
        a bare method reference, without `bind`, at listener.ts:213, 237, 261
        and 284, and called as a plain function at listen.ts:185, 206 and
        239. A class body is strict-mode code, so `this` is undefined there
        and the first read through it (`this._updateBlock` at line 81 or 87,
        or `this._db` at line 91 for an empty batch) throws: whatever the
        delivery, no cursor moves and nothing reaches the store. */
    method EventHandlerWrapperAsWritten(p: Payload) returns (c: Completion)
      requires Valid()
      ensures c == TypeError
      ensures contracts == old(contracts) && db.contracts == old(db.contracts) && db.events == old(db.events)
    {
      return TypeError;
    }

    /** The past-events loads for one registered address. */
    method RequestPastEvents(a: string)
      requires Valid() && a in contracts
      modifies this
      ensures Valid()
      ensures contracts == old(contracts) && order == old(order) && isListening == old(isListening)
      ensures requests == old(requests) + PastRequestsFor(a, contracts[a].events, contracts[a].latestBlock)
    {
      var evs := contracts[a].events;
      var from := contracts[a].latestBlock;
      var j := 0;
      while j < |evs|
        invariant 0 <= j <= |evs|
        invariant contracts == old(contracts) && order == old(order) && isListening == old(isListening)
        invariant requests == old(requests) + PastRequestsFor(a, evs[..j], from)
      {
        assert evs[..j + 1][..j] == evs[..j];
        AppendAssoc(old(requests), PastRequestsFor(a, evs[..j], from), [PastEvents(a, evs[j], from)]);
        requests := requests + [PastEvents(a, evs[j], from)];
        j := j + 1;
      }
      assert evs[..|evs|] == evs;
    }

    /** The subscriptions on `key`'s watcher for the listed events whose flag
        among `key`'s flags is off. */
    method SubscribeEach(key: string, evs: seq<string>)
      requires Valid() && key in isListening
      modifies this
      ensures Valid()
      ensures contracts == old(contracts) && order == old(order) && isListening == old(isListening)
      ensures requests == old(requests) + SubscriptionsFor(key, evs, isListening[key])
    {
      var j := 0;
      while j < |evs|
        invariant 0 <= j <= |evs|
        invariant contracts == old(contracts) && order == old(order) && isListening == old(isListening)
        invariant requests == old(requests) + SubscriptionsFor(key, evs[..j], isListening[key])
      {
        assert evs[..j + 1][..j] == evs[..j];
        if !FlagOn(isListening[key], evs[j]) {
          AppendAssoc(old(requests), SubscriptionsFor(key, evs[..j], isListening[key]), [Subscribe(key, evs[j])]);
          requests := requests + [Subscribe(key, evs[j])];
        }
        j := j + 1;
      }
      assert evs[..|evs|] == evs;
    }

    /** The past-events loads for every registered address, in key order. */
    method RequestAllPastEvents()
      requires Valid()
      modifies this
      ensures Valid()
      ensures contracts == old(contracts) && order == old(order) && isListening == old(isListening)
      ensures requests == old(requests) + PastRequestsAll(order, contracts)
    {
      var i := 0;
      while i < |order|
        invariant 0 <= i <= |order|
        invariant Valid()
        invariant contracts == old(contracts) && order == old(order) && isListening == old(isListening)
        invariant KeysIn(order[..i], contracts)
        invariant requests == old(requests) + PastRequestsAll(order[..i], contracts)
      {
        var a := order[i];
        PastRequestsAllStep(order, contracts, i);
        RequestPastEvents(a);
        AppendAssoc(old(requests), PastRequestsAll(order[..i], contracts),
                    PastRequestsFor(a, contracts[a].events, contracts[a].latestBlock));
        i := i + 1;
      }
      assert order[..|order|] == order;
    }

    /** The subscriptions for every registered address, in key order, each
        address with its own flags. */
    method SubscribeAll()
      requires Valid()
      modifies this
      ensures Valid()
      ensures contracts == old(contracts) && order == old(order) && isListening == old(isListening)
      ensures KeysIn(order, contracts)
      ensures requests == old(requests) + SubscriptionsAll(order, contracts, isListening)
    {
      var i := 0;
      while i < |order|
        invariant 0 <= i <= |order|
        invariant Valid()
        invariant contracts == old(contracts) && order == old(order) && isListening == old(isListening)
        invariant KeysIn(order[..i], contracts)
        invariant requests == old(requests) + SubscriptionsAll(order[..i], contracts, isListening)
      {
        var a := order[i];
        SubscriptionsAllStep(order, contracts, isListening, i);
        assert FlagsOf(isListening, a) == isListening[a];
        SubscribeEach(a, contracts[a].events);
        AppendAssoc(old(requests), SubscriptionsAll(order[..i], contracts, isListening),
                    SubscriptionsFor(a, contracts[a].events, isListening[a]));
        i := i + 1;
      }
      assert order[..|order|] == order;
    }

    /** loadPastEvents(address): one load per tracked event from the cursor,
        for the given address or, when none is given, for every address. */
    method LoadPastEvents(address: Option<string>) returns (reply: Reply)
      requires Valid()
      modifies this
      ensures Valid()
      ensures requests == old(requests) + LoadRequests(address, order, contracts)
      ensures Given(address) && address.value in contracts ==> reply == Reply(true, ListeningToMsg(address.value))
      ensures Given(address) && address.value !in contracts ==> reply == Reply(false, NoAddressMsg(address.value))
      ensures !Given(address) ==> reply == Reply(true, ListeningToAllMsg)
      ensures contracts == old(contracts) && order == old(order) && isListening == old(isListening)
    {
      if Given(address) {
        var a := address.value;
        if a in contracts {
          RequestPastEvents(a);
          return Reply(true, ListeningToMsg(a));
        }
        return Reply(false, NoAddressMsg(a));
      }
      RequestAllPastEvents();
      return Reply(true, ListeningToAllMsg);
    }

    /** listenEvents(address) with `addr` in the whole-registry loop: a
        subscription for every event whose flag is off. */
    method ListenEvents(address: Option<string>) returns (reply: Reply)
      requires Valid()
      modifies this
      ensures Valid()
      ensures requests == old(requests) + ListenRequests(address, order, contracts, isListening)
      ensures Given(address) && address.value in contracts ==> reply == Reply(true, ListeningToMsg(address.value))
      ensures Given(address) && address.value !in contracts ==> reply == Reply(false, NoAddressMsg(address.value))
      ensures !Given(address) ==> reply == Reply(true, ListeningToAllMsg)
      ensures contracts == old(contracts) && order == old(order) && isListening == old(isListening)
    {
      if Given(address) {
        var a := address.value;
        if a in contracts {
          SubscribeEach(a, contracts[a].events);
          return Reply(true, ListeningToMsg(a));
        }
        return Reply(false, NoAddressMsg(a));
      }
      SubscribeAll();
      return Reply(true, ListeningToAllMsg);
    }

    /** The whole-registry loop of listenEvents as written, with `key` in
        place of `addr`; false for the TypeError. */
    method SubscribeAllAsWritten(key: string) returns (ok: bool)
      requires Valid()
      modifies this
      ensures Valid()
      ensures contracts == old(contracts) && order == old(order) && isListening == old(isListening)
      ensures KeysIn(order, contracts)
      ensures ok <==> ListenAllAsWritten(order, contracts, isListening, key).Some?
      ensures ok ==> requests == old(requests) + ListenAllAsWritten(order, contracts, isListening, key).value
      ensures !ok ==> requests == old(requests)
    {
      var i := 0;
      while i < |order|
        invariant 0 <= i <= |order|
        invariant Valid()
        invariant contracts == old(contracts) && order == old(order) && isListening == old(isListening)
        invariant KeysIn(order[..i], contracts)
        invariant ListenAllAsWritten(order[..i], contracts, isListening, key).Some?
        invariant requests == old(requests) + ListenAllAsWritten(order[..i], contracts, isListening, key).value
        invariant key !in isListening ==> requests == old(requests)
      {
        var a := order[i];
        var evs := contracts[a].events;
        if evs != [] && key !in isListening {
          ListenAllAsWrittenFails(order, contracts, isListening, key, i);
          return false;
        }
        ListenAllAsWrittenStep(order, contracts, isListening, key, i);
        if evs != [] {
          ghost var prev := ListenAllAsWritten(order[..i], contracts, isListening, key).value;
          SubscribeEach(key, evs);
          AppendAssoc(old(requests), prev, SubscriptionsFor(key, evs, isListening[key]));
        }
        i := i + 1;
      }
      assert order[..|order|] == order;
      return true;
    }

    /** listenEvents(address) as written: the whole-registry loop reads the
        flags and the watcher of `address`, which is undefined there (or the
        empty string), instead of `addr`. */
    method ListenEventsAsWritten(address: Option<string>) returns (c: Completion)
      requires Valid()
      modifies this
      ensures Valid()
      ensures Given(address) ==> c.Normal?
      ensures Given(address) ==> requests == old(requests) + ListenRequests(address, order, contracts, isListening)
      ensures !Given(address) ==>
        var key := if address.None? then "undefined" else "";
        var r := ListenAllAsWritten(order, contracts, isListening, key);
        (c == TypeError <==> r.None?) &&
        (r.Some? ==> c == Normal(Reply(true, ListeningToAllMsg)) && requests == old(requests) + r.value)
      ensures c == TypeError ==> requests == old(requests)
      ensures contracts == old(contracts) && order == old(order) && isListening == old(isListening)
    {
      if Given(address) {
        var reply := ListenEvents(address);
        return Normal(reply);
      }
      var key := if address.None? then "undefined" else "";
      var ok := SubscribeAllAsWritten(key);
      if !ok {
        return TypeError;
      }
      return Normal(Reply(true, ListeningToAllMsg));
    }

    /** _add(listen, network, events, fromBlock): store the entry (a new key
        goes last in the property order), turn the flags of its events off,
        then load its past events and subscribe. */
    method AddEntry(l: Listen, network: string, events: seq<string>, fromBlock: int)
      requires Valid()
      modifies this
      ensures Valid()
      ensures contracts == old(contracts)[l.address := Entry(l.address, l, events, fromBlock, network)]
      ensures order == if l.address in old(contracts) then old(order) else old(order) + [l.address]
      ensures isListening == old(isListening)[l.address := FalseFlags(FlagsOf(old(isListening), l.address), events)]
      ensures requests == old(requests) + LoadRequests(Some(l.address), order, contracts)
                                        + ListenRequests(Some(l.address), order, contracts, isListening)
    {
      var a := l.address;
      WellformedAfterAdd(order, contracts, isListening, Entry(a, l, events, fromBlock, network));
      if a !in contracts {
        order := order + [a];
      }
      contracts := contracts[a := Entry(a, l, events, fromBlock, network)];
      isListening := SetFlagsOff(isListening, a, events);
      var _ := LoadPastEvents(Some(a));
      var _ := ListenEvents(Some(a));
    }

    /** `if (!inDb) this._db.insertContract(...)`: the contract is saved
        only when the store has no document with its address. */
    method PersistIfNew(inDb: bool, d: ContractDoc)
      requires Valid()
      modifies db
      ensures Valid()
      ensures db.contracts == if inDb then old(db.contracts) else InsertContractInto(old(db.contracts), d).0
      ensures db.events == old(db.events) && db.tokens == old(db.tokens)
    {
      if !inDb {
        var _ := db.InsertContract(d);
      }
    }

    /** `if (!inLocal) this._add(new Listen(...), ...)`: a watcher is built
        and registered only for an address that is not yet local. */
    method AddIfNew(network: string, jsonInterface: Json, address: string, evs: seq<string>, lb: int)
      requires Valid()
      modifies this
      ensures Valid()
      ensures !InLocal(old(contracts), address) ==>
        var l := NewListen(web3, RpcOf(network), address, Some(network), Some(jsonInterface));
        contracts == old(contracts)[address := Entry(address, l, evs, lb, network)] &&
        order == old(order) + [address] &&
        isListening == old(isListening)[address := FalseFlags(FlagsOf(old(isListening), address), evs)] &&
        requests == old(requests) + LoadRequests(Some(address), order, contracts)
                                  + ListenRequests(Some(address), order, contracts, isListening)
      ensures InLocal(old(contracts), address) ==>
        contracts == old(contracts) && order == old(order) &&
        isListening == old(isListening) && requests == old(requests)
    {
      if !InLocal(contracts, address) {
        var l := NewListen(web3, RpcOf(network), address, Some(network), Some(jsonInterface));
        assert l.address == address;
        AddEntry(l, network, evs, lb);
      }
    }

    /** add(network, jsonInterface, address, events, latestBlock) with the
        existence check awaited. */
    method Add(network: string, jsonInterface: Json, address: string,
               events: Option<EventsArg>, latestBlock: Option<int>) returns (reply: Reply)
      requires Valid()
      modifies this, db
      ensures Valid()
      ensures !reply.success <==> InLocal(old(contracts), address) && AnyAddressMatches(old(db.contracts), address)
      ensures reply == if reply.success then Reply(true, AddedMsg(address)) else Reply(false, AlreadyExistsMsg(address))
      ensures !reply.success ==> (contracts == old(contracts) && order == old(order) &&
                                  isListening == old(isListening) && requests == old(requests))
      ensures AnyAddressMatches(old(db.contracts), address) ==> db.contracts == old(db.contracts)
      ensures !AnyAddressMatches(old(db.contracts), address) ==>
        db.contracts == InsertContractInto(old(db.contracts),
                          ContractDoc(address, GetOr(latestBlock, 0), network, EventList(events), jsonInterface)).0
      ensures forall a :: a in old(contracts) ==> a in contracts && contracts[a] == old(contracts)[a]
      ensures !InLocal(old(contracts), address) ==> address in contracts
      ensures !InLocal(old(contracts), address) ==>
        contracts[address] == Entry(address, NewListen(web3, RpcOf(network), address, Some(network), Some(jsonInterface)),
                                    EventList(events), GetOr(latestBlock, 0), network)
      ensures !InLocal(old(contracts), address) ==>
        var l := NewListen(web3, RpcOf(network), address, Some(network), Some(jsonInterface));
        contracts == old(contracts)[address := Entry(address, l, EventList(events), GetOr(latestBlock, 0), network)] &&
        order == old(order) + [address] &&
        isListening == old(isListening)[address := FalseFlags(FlagsOf(old(isListening), address), EventList(events))] &&
        requests == old(requests) + LoadRequests(Some(address), order, contracts)
                                  + ListenRequests(Some(address), order, contracts, isListening)
      ensures InLocal(old(contracts), address) ==>
        contracts == old(contracts) && order == old(order) &&
        isListening == old(isListening) && requests == old(requests)
      ensures db.events == old(db.events) && db.tokens == old(db.tokens)
    {
      var evs := EventList(events);
      var lb := GetOr(latestBlock, 0);
      var inDb := db.IsExistContract(address);
      var inLocal := InLocal(contracts, address);
      if inLocal && inDb {
        return Reply(false, AlreadyExistsMsg(address));
      }
      PersistIfNew(inDb, ContractDoc(address, lb, network, evs, jsonInterface));
      AddIfNew(network, jsonInterface, address, evs, lb);
      return Reply(true, AddedMsg(address));
    }

    /** add as written: `isExistContract` is not awaited, so `inDb` is a
        pending promise, always truthy; the contract is never persisted. */
    method AddAsWritten(network: string, jsonInterface: Json, address: string,
                        events: Option<EventsArg>, latestBlock: Option<int>) returns (reply: Reply)
      requires Valid()
      modifies this
      ensures Valid()
      ensures !reply.success <==> InLocal(old(contracts), address)
      ensures reply == if reply.success then Reply(true, AddedMsg(address)) else Reply(false, AlreadyExistsMsg(address))
      ensures !reply.success ==> (contracts == old(contracts) && order == old(order) &&
                                  isListening == old(isListening) && requests == old(requests))
      ensures forall a :: a in old(contracts) ==> a in contracts && contracts[a] == old(contracts)[a]
      ensures !InLocal(old(contracts), address) ==> address in contracts
      ensures !InLocal(old(contracts), address) ==>
        var l := NewListen(web3, RpcOf(network), address, Some(network), Some(jsonInterface));
        contracts == old(contracts)[address := Entry(address, l, EventList(events), GetOr(latestBlock, 0), network)] &&
        order == old(order) + [address] &&
        isListening == old(isListening)[address := FalseFlags(FlagsOf(old(isListening), address), EventList(events))] &&
        requests == old(requests) + LoadRequests(Some(address), order, contracts)
                                  + ListenRequests(Some(address), order, contracts, isListening)
      ensures InLocal(old(contracts), address) ==>
        contracts == old(contracts) && order == old(order) &&
        isListening == old(isListening) && requests == old(requests)
      ensures db.contracts == old(db.contracts)
    {
      var evs := EventList(events);
      var lb := GetOr(latestBlock, 0);
      var inDb := true;
      var inLocal := InLocal(contracts, address);
      if inLocal && inDb {
        return Reply(false, AlreadyExistsMsg(address));
      }
      AddIfNew(network, jsonInterface, address, evs, lb);
      return Reply(true, AddedMsg(address));
    }

    /** addEvent(address, event) with the membership test the right way
        round: a new event is appended, persisted, loaded and subscribed. */
    method AddEvent(address: string, event: string) returns (reply: Reply)
      requires Valid()
      modifies this, db
      ensures Valid()
      ensures address !in old(contracts) ==> reply == Reply(false, NoAddressMsg(address))
      ensures address in old(contracts) && event in old(contracts)[address].events ==>
        (reply == Reply(false, EventPresentMsg(event, address)))
      ensures !reply.success ==> (contracts == old(contracts) && order == old(order) &&
        isListening == old(isListening) && requests == old(requests) && db.contracts == old(db.contracts))
      ensures address in old(contracts) && event !in old(contracts)[address].events ==>
        var e := old(contracts)[address];
        (reply == Reply(true, EventAddedMsg(event, address)) &&
         contracts == old(contracts)[address := e.(events := e.events + [event])] &&
         db.contracts == UpdateContractIn(old(db.contracts),
           ContractUpdate(None, Some(address), Some(e.network), Some(e.latestBlock), Some(e.events + [event]), Some(e.listen.jsonInterface))) &&
         requests == old(requests) + LoadRequests(Some(address), order, contracts)
                                   + ListenRequests(Some(address), order, contracts, isListening))
      ensures order == old(order) && isListening == old(isListening)
      ensures db.events == old(db.events) && db.tokens == old(db.tokens)
    {
      if address !in contracts {
        return Reply(false, NoAddressMsg(address));
      }
      var e := contracts[address];
      if event in e.events {
        return Reply(false, EventPresentMsg(event, address));
      }
      contracts := contracts[address := e.(events := e.events + [event])];
      db.UpdateContract(ContractUpdate(None, Some(e.address), Some(e.network), Some(e.latestBlock),
                                       Some(e.events + [event]), Some(e.listen.jsonInterface)));
      var _ := LoadPastEvents(Some(address));
      var _ := ListenEvents(Some(address));
      return Reply(true, EventAddedMsg(event, address));
    }

    /** addEvent as written: the test is inverted, so a registered address
        is told it does not exist and an unregistered one reads `.events` of
        undefined. It never succeeds, so nothing ever changes: not even where
        the intended addEvent appends (a registered address and a new event). */
    function AddEventAsWritten(address: string, event: string): (c: Completion)
      reads this
      ensures c.Normal? ==> !c.reply.success
      ensures address in contracts ==> c == Normal(Reply(false, NoAddressMsg(address)))
      ensures c.TypeError? ==> address !in contracts
    {
      if !InLocal(contracts, address) then TypeError
      else Normal(Reply(false, NoAddressMsg(address)))
    }

    /** NETWORKS[network]; undefined for an unknown name. */
    function RpcOf(network: string): Option<string>
    {
      if network in networks then Some(networks[network]) else None
    }
  }

}
