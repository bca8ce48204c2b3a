/** The watcher of one contract (src/modules/listen.ts): its construction
    defaults, the recursive halving of a block range when the provider
    reports its 10000-result limit, the range defaults and network tagging
    of a past-events load, live subscriptions and contract-method calls.
    The chain client is an oracle: a query for the closed block range
    `[from, to]` answers with the logs or with an error message. */
module Watcher {
  import opened Common

  // ---------------------------------------------------------------------
  // Construction
  // ---------------------------------------------------------------------

  /** The parts of the chain client the constructor consults: the standard
      token interface (a configuration file), the set of event names web3
      exposes for an interface, and web3's address check. */
  datatype Web3 = Web3(
    standardAbi: Json,
    eventsOf: Json -> set<string>,
    isAddress: string -> bool)

  /** A constructed watcher; every field is read-only after construction. */
  datatype Listen = Listen(
    rpc: Option<string>,
    address: string,
    network: string,
    jsonInterface: Json,
    events: set<string>,
    addressWarning: bool)

  /** The network a watcher reports when none is given (spelled as in the code). */
  const DefaultNetwork: string := "rinkbey"

  /** The constructor, on the path where the provider and the contract
      instance are built: an address that `isAddress` rejects is recorded by
      its warning. */
  function NewListen(web3: Web3, rpc: Option<string>, address: string,
                     network: Option<string>, jsonInterface: Option<Json>): Listen
  {
    var abi := GetOr(jsonInterface, web3.standardAbi);
    Listen(rpc, address, GetOr(network, DefaultNetwork), abi, web3.eventsOf(abi), !web3.isAddress(address))
  }

  /** Leaving out the network and the interface builds the same watcher as
      passing `"rinkbey"` and the standard interface. */
  lemma NewListenDefaults(web3: Web3, rpc: Option<string>, address: string)
    ensures NewListen(web3, rpc, address, None, None) ==
            NewListen(web3, rpc, address, Some(DefaultNetwork), Some(web3.standardAbi))
  {
  }

  /** `??` replaces only a missing value: a given network (the empty string
      included) and a given interface are kept as they are, with the events
      of that interface, and so are the rpc and the address. */
  lemma NewListenKeepsGiven(web3: Web3, rpc: Option<string>, address: string, network: string, abi: Json)
    ensures var l := NewListen(web3, rpc, address, Some(network), Some(abi));
      l.rpc == rpc && l.address == address && l.network == network &&
      l.jsonInterface == abi && l.events == web3.eventsOf(abi)
  {
  }

  /** The address check only warns: two clients that agree on the standard
      interface and the event names build the same watcher apart from the
      warning, which is raised exactly for a rejected address. */
  lemma AddressCheckOnlyWarns(w1: Web3, w2: Web3, rpc: Option<string>, address: string,
                              network: Option<string>, abi: Option<Json>)
    requires w1.standardAbi == w2.standardAbi && w1.eventsOf == w2.eventsOf
    ensures NewListen(w1, rpc, address, network, abi).(addressWarning := false) ==
            NewListen(w2, rpc, address, network, abi).(addressWarning := false)
    ensures NewListen(w1, rpc, address, network, abi).addressWarning <==> !w1.isAddress(address)
  {
  }

  /** `event in this._contract.events`: an own event name, or a property
      every object inherits. */
  predicate HasEvent(l: Listen, event: string)
  {
    event in l.events || event in ObjectPrototypeNames
  }

  /** `{ ...e, network: this.network }` over a list of records. */
  function Tagged(records: seq<EventData>, network: string): (r: seq<EventData>)
    ensures |r| == |records|
    ensures forall i :: 0 <= i < |r| ==> r[i] == records[i].(network := Some(network))
  {
    if records == [] then [] else [records[0].(network := Some(network))] + Tagged(records[1..], network)
  }

  // ---------------------------------------------------------------------
  // The provider
  // ---------------------------------------------------------------------

  datatype Response = Logs(records: seq<EventData>) | Failure(message: string)

  /** getPastEvents(event, {fromBlock, toBlock}) for one fixed event. */
  type RangeFetch = (int, int) -> Response

  const LimitMessage: string := "returned error: query returned more than 10000 results"

  /** The one error that triggers splitting, compared after lower-casing. */
  predicate IsLimitError(r: Response)
  {
    r.Failure? && Lower(r.message) == LimitMessage
  }

  // ---------------------------------------------------------------------
  // Range splitting
  // ---------------------------------------------------------------------

  /** Math.round((start + end) / 2): halves round up. */
  function Middle(s: int, e: int): (m: int)
    ensures 2 * m == s + e || 2 * m == s + e + 1
  {
    (s + e + 1) / 2
  }

  /** What loading a range comes to: the records collected together with the
      ranges whose queries answered, an error rethrown, or a recursion that
      the `fuel` bound cut off. */
  datatype Outcome =
    | Done(records: seq<EventData>, fetched: seq<(int, int)>)
    | Threw(message: string)
    | OutOfFuel

  /** recur(start, end) run sequentially: on the limit error the left half
      is loaded, then the right half; any other error ends the load. */
  function Split(fetch: RangeFetch, s: int, e: int, fuel: nat): Outcome
    decreases fuel
  {
    if fuel == 0 then OutOfFuel
    else
      var resp := fetch(s, e);
      if resp.Logs? then Done(resp.records, [(s, e)])
      else if !IsLimitError(resp) then Threw(resp.message)
      else
        var m := Middle(s, e);
        var left := Split(fetch, s, m, fuel - 1);
        if !left.Done? then left
        else
          var right := Split(fetch, m + 1, e, fuel - 1);
          if !right.Done? then right
          else Done(left.records + right.records, left.fetched + right.fetched)
  }

  /** Block `b` lies in the closed range `[s, e]`. */
  predicate InRange(b: int, s: int, e: int)
  {
    s <= b <= e
  }

  /** The two halves are disjoint, adjacent and cover the range exactly. */
  lemma HalvesPartition(s: int, e: int)
    requires s <= e
    ensures s <= Middle(s, e) <= e
    ensures forall b :: InRange(b, s, e) <==> (InRange(b, s, Middle(s, e)) || InRange(b, Middle(s, e) + 1, e))
    ensures forall b :: !(InRange(b, s, Middle(s, e)) && InRange(b, Middle(s, e) + 1, e))
  {
  }

  /** Both halves are strictly shorter exactly when the range spans at
      least three blocks; for one or two blocks the left half is the whole
      range. */
  lemma HalvesProgress(s: int, e: int)
    requires s <= e
    ensures e - s >= 2 <==> (Middle(s, e) - s < e - s && e - (Middle(s, e) + 1) < e - s)
    ensures e - s <= 1 ==> Middle(s, e) == e
  {
  }

  /** With the limit error on a range of one or two blocks the recursion
      never ends: whatever the bound, it is exhausted. */
  lemma {:induction false} NoProgressDiverges(fetch: RangeFetch, s: int, e: int, fuel: nat)
    requires 0 <= e - s <= 1 && IsLimitError(fetch(s, e))
    ensures Split(fetch, s, e, fuel) == OutOfFuel
    decreases fuel
  {
    if fuel > 0 {
      assert Middle(s, e) == e;
      NoProgressDiverges(fetch, s, e, fuel - 1);
    }
  }

  /** Every error but the limit error comes back unchanged. */
  lemma OtherErrorsRethrown(fetch: RangeFetch, s: int, e: int, fuel: nat)
    requires fuel > 0 && fetch(s, e).Failure? && !IsLimitError(fetch(s, e))
    ensures Split(fetch, s, e, fuel) == Threw(fetch(s, e).message)
  {
  }

  /** The termination measure: a provider that never reports the limit for
      fewer than three blocks lets a load of `[s, e]` finish within
      `e - s` levels of recursion. */
  ghost predicate LimitOnlyOnWideRanges(fetch: RangeFetch)
  {
    forall s: int, e: int :: e - s <= 1 ==> !IsLimitError(fetch(s, e))
  }

  lemma {:induction false} SplitTerminates(fetch: RangeFetch, s: int, e: int, fuel: nat)
    requires LimitOnlyOnWideRanges(fetch)
    requires fuel >= 1 && e - s <= fuel
    ensures Split(fetch, s, e, fuel) != OutOfFuel
    decreases fuel
  {
    if IsLimitError(fetch(s, e)) {
      var m := Middle(s, e);
      SplitTerminates(fetch, s, m, fuel - 1);
      if Split(fetch, s, m, fuel - 1).Done? {
        SplitTerminates(fetch, m + 1, e, fuel - 1);
      }
    }
  }

  /** `fetched` tiles `[s, e]`: it starts at `s`, ends at `e`, each range
      begins right after the previous one ends, and none is empty. */
  predicate Tiles(f: seq<(int, int)>, s: int, e: int)
  {
    |f| > 0 && f[0].0 == s && f[|f| - 1].1 == e &&
    (forall k :: 0 <= k < |f| ==> f[k].0 <= f[k].1) &&
    (forall k :: 0 <= k < |f| - 1 ==> f[k].1 + 1 == f[k + 1].0)
  }

  lemma TilesJoin(f: seq<(int, int)>, g: seq<(int, int)>, s: int, m: int, e: int)
    requires Tiles(f, s, m) && Tiles(g, m + 1, e)
    ensures Tiles(f + g, s, e)
  {
    var h := f + g;
    forall k | 0 <= k < |h| - 1 ensures h[k].1 + 1 == h[k + 1].0 {
      if k == |f| - 1 {
        assert h[k] == f[|f| - 1] && h[k + 1] == g[0];
      } else if k < |f| - 1 {
        assert h[k] == f[k] && h[k + 1] == f[k + 1];
      } else {
        assert h[k] == g[k - |f|] && h[k + 1] == g[k - |f| + 1];
      }
    }
  }

  lemma TilesOne(s: int, e: int)
    requires s <= e
    ensures Tiles([(s, e)], s, e)
  {
  }

  /** A completed load queried ranges that partition the original range. */
  lemma {:induction false} SplitPartitions(fetch: RangeFetch, s: int, e: int, fuel: nat)
    requires s <= e && Split(fetch, s, e, fuel).Done?
    ensures Tiles(Split(fetch, s, e, fuel).fetched, s, e)
    decreases fuel
  {
    if fetch(s, e).Logs? {
      TilesOne(s, e);
    } else {
      if e - s <= 1 {
        NoProgressDiverges(fetch, s, e, fuel);
      } else {
        var m := Middle(s, e);
        var left, right := Split(fetch, s, m, fuel - 1), Split(fetch, m + 1, e, fuel - 1);
        assert Split(fetch, s, e, fuel) == Done(left.records + right.records, left.fetched + right.fetched);
        SplitPartitions(fetch, s, m, fuel - 1);
        SplitPartitions(fetch, m + 1, e, fuel - 1);
        TilesJoin(left.fetched, right.fetched, s, m, e);
      }
    }
  }

  // ---------------------------------------------------------------------
  // Nothing dropped, nothing reordered
  // ---------------------------------------------------------------------

  /** The logs of the chain in block order: no log has a higher block than
      the one after it. */
  predicate InBlockOrder(chain: seq<EventData>)
  {
    |chain| <= 1 || (chain[0].blockNumber <= chain[1].blockNumber && InBlockOrder(chain[1..]))
  }

  /** The logs whose block lies in `[s, e]`, in chain order. */
  function Window(chain: seq<EventData>, s: int, e: int): (w: seq<EventData>)
    ensures |w| <= |chain|
  {
    if chain == [] then []
    else (if s <= chain[0].blockNumber <= e then [chain[0]] else []) + Window(chain[1..], s, e)
  }

  /** A provider that, when it answers, answers with exactly the range's logs. */
  ghost predicate Faithful(fetch: RangeFetch, chain: seq<EventData>)
  {
    forall s: int, e: int :: fetch(s, e).Logs? ==> fetch(s, e).records == Window(chain, s, e)
  }

  /** On a chain in block order that starts above `m`, no log lies at or
      below `m`. */
  lemma {:induction false} WindowAbove(chain: seq<EventData>, s: int, m: int)
    requires InBlockOrder(chain) && (chain != [] ==> chain[0].blockNumber > m)
    ensures Window(chain, s, m) == []
  {
    if chain != [] {
      WindowAbove(chain[1..], s, m);
    }
  }

  /** On a chain in block order, the windows of two adjacent ranges
      concatenate to the window of their union. */
  lemma {:induction false} WindowSplit(chain: seq<EventData>, s: int, m: int, e: int)
    requires InBlockOrder(chain) && s <= m < e
    ensures Window(chain, s, m) + Window(chain, m + 1, e) == Window(chain, s, e)
  {
    if chain != [] {
      var h, rest := chain[0], chain[1..];
      WindowSplit(rest, s, m, e);
      var lo, hi, all := Window(rest, s, m), Window(rest, m + 1, e), Window(rest, s, e);
      if h.blockNumber < s || e < h.blockNumber {
        assert Window(chain, s, m) == lo && Window(chain, m + 1, e) == hi && Window(chain, s, e) == all;
      } else if h.blockNumber <= m {
        assert Window(chain, s, m) == [h] + lo && Window(chain, m + 1, e) == hi && Window(chain, s, e) == [h] + all;
        AppendAssoc([h], lo, hi);
      } else {
        WindowAbove(rest, s, m);
        assert Window(chain, s, m) == lo == [] && Window(chain, m + 1, e) == [h] + hi && Window(chain, s, e) == [h] + all;
      }
    }
  }

  /** A completed load of `[s, e]` from a faithful provider holds exactly
      the logs of that range, in chain order. */
  lemma {:induction false} SplitCollectsWindow(fetch: RangeFetch, chain: seq<EventData>, s: int, e: int, fuel: nat)
    requires InBlockOrder(chain) && Faithful(fetch, chain)
    requires s <= e && Split(fetch, s, e, fuel).Done?
    ensures Split(fetch, s, e, fuel).records == Window(chain, s, e)
    decreases fuel
  {
    if IsLimitError(fetch(s, e)) {
      if e - s <= 1 {
        NoProgressDiverges(fetch, s, e, fuel);
      } else {
        var m := Middle(s, e);
        SplitCollectsWindow(fetch, chain, s, m, fuel - 1);
        SplitCollectsWindow(fetch, chain, m + 1, e, fuel - 1);
        WindowSplit(chain, s, m, e);
      }
    }
  }

  /** A range of 20001 blocks that hits the limit once is loaded as
      `[0, 10000]` and then `[10001, 20000]`. */
  lemma LimitSplitsOnce(fetch: RangeFetch, a: seq<EventData>, b: seq<EventData>)
    requires IsLimitError(fetch(0, 20000))
    requires fetch(0, 10000) == Logs(a) && fetch(10001, 20000) == Logs(b)
    ensures Split(fetch, 0, 20000, 2) == Done(a + b, [(0, 10000), (10001, 20000)])
  {
    assert Middle(0, 20000) == 10000;
  }

  // ---------------------------------------------------------------------
  // _loadPastEvents
  // ---------------------------------------------------------------------

  datatype Status = Completed | Thrown(message: string) | Exhausted

  function StatusOf(o: Outcome): Status
  {
    match o
    case Done(_, _) => Completed
    case Threw(m) => Thrown(m)
    case OutOfFuel => Exhausted
  }

  /** One level of `Split` on the limit error: a left half that does not
      finish decides the outcome. */
  lemma SplitLeftStops(fetch: RangeFetch, s: int, e: int, fuel: nat)
    requires fuel > 0 && IsLimitError(fetch(s, e))
    requires !Split(fetch, s, Middle(s, e), fuel - 1).Done?
    ensures Split(fetch, s, e, fuel) == Split(fetch, s, Middle(s, e), fuel - 1)
  {
  }

  /** Otherwise a right half that does not finish decides it. */
  lemma SplitRightStops(fetch: RangeFetch, s: int, e: int, fuel: nat)
    requires fuel > 0 && IsLimitError(fetch(s, e))
    requires Split(fetch, s, Middle(s, e), fuel - 1).Done?
    requires !Split(fetch, Middle(s, e) + 1, e, fuel - 1).Done?
    ensures Split(fetch, s, e, fuel) == Split(fetch, Middle(s, e) + 1, e, fuel - 1)
  {
  }

  /** Two finished halves are concatenated, left first. */
  lemma SplitBothDone(fetch: RangeFetch, s: int, e: int, fuel: nat)
    requires fuel > 0 && IsLimitError(fetch(s, e))
    requires Split(fetch, s, Middle(s, e), fuel - 1).Done?
    requires Split(fetch, Middle(s, e) + 1, e, fuel - 1).Done?
    ensures var left, right := Split(fetch, s, Middle(s, e), fuel - 1), Split(fetch, Middle(s, e) + 1, e, fuel - 1);
      Split(fetch, s, e, fuel) == Done(left.records + right.records, left.fetched + right.fetched)
  {
  }

  /** A completed status is exactly a finished outcome. */
  lemma CompletedIsDone(o: Outcome)
    ensures StatusOf(o) == Completed <==> o.Done?
  {
  }

  /** The recursive closure: it pushes every answered sub-range onto the
      shared `returnData`, in order. */
  method Recur(fetch: RangeFetch, start: int, end: int, fuel: nat, returnData: seq<EventData>)
    returns (data: seq<EventData>, status: Status)
    ensures status == StatusOf(Split(fetch, start, end, fuel))
    ensures status == Completed ==> data == returnData + Split(fetch, start, end, fuel).records
    decreases fuel
  {
    if fuel == 0 {
      return returnData, Exhausted;
    }
    var resp := fetch(start, end);
    if resp.Logs? {
      return returnData + resp.records, Completed;
    }
    if !IsLimitError(resp) {
      return returnData, Thrown(resp.message);
    }
    var middle := Middle(start, end);
    ghost var left := Split(fetch, start, middle, fuel - 1);
    data, status := Recur(fetch, start, middle, fuel - 1, returnData);
    CompletedIsDone(left);
    if status != Completed {
      SplitLeftStops(fetch, start, end, fuel);
      return;
    }
    ghost var right := Split(fetch, middle + 1, end, fuel - 1);
    data, status := Recur(fetch, middle + 1, end, fuel - 1, data);
    CompletedIsDone(right);
    if status == Completed {
      SplitBothDone(fetch, start, end, fuel);
      AppendAssoc(returnData, left.records, right.records);
    } else {
      SplitRightStops(fetch, start, end, fuel);
    }
  }

  /** _loadPastEvents: the records of `[start, end]`, all of them when the
      load completes. */
  method LoadRange(fetch: RangeFetch, start: int, end: int, fuel: nat)
    returns (data: seq<EventData>, status: Status)
    ensures status == StatusOf(Split(fetch, start, end, fuel))
    ensures status == Completed ==> data == Split(fetch, start, end, fuel).records
  {
    data, status := Recur(fetch, start, end, fuel, []);
    if status == Completed {
      assert [] + Split(fetch, start, end, fuel).records == Split(fetch, start, end, fuel).records;
    }
  }

  /** _loadPastEvents as written: the two halves are started but not
      awaited, so the outer call settles, and `returnData` is returned,
      before either half has pushed anything; an error in a half is never
      rethrown to the caller. */
  function LoadRangeAsWritten(fetch: RangeFetch, s: int, e: int): (r: Outcome)
    ensures !IsLimitError(fetch(s, e)) ==> r == Split(fetch, s, e, 1)
    ensures r.Done? ==> |r.fetched| <= 1
  {
    var resp := fetch(s, e);
    if resp.Logs? then Done(resp.records, [(s, e)])
    else if !IsLimitError(resp) then Threw(resp.message)
    else Done([], [])
  }

  /** Once the first query of a range hits the limit, the unawaited halves
      make the load come back empty, while the awaited load holds every log
      of the range; records are lost whenever the range has logs. */
  lemma LimitPathLosesRecords(fetch: RangeFetch, chain: seq<EventData>, s: int, e: int, fuel: nat)
    requires InBlockOrder(chain) && Faithful(fetch, chain)
    requires s <= e && IsLimitError(fetch(s, e))
    requires Split(fetch, s, e, fuel).Done?
    ensures LoadRangeAsWritten(fetch, s, e) == Done([], [])
    ensures Split(fetch, s, e, fuel).records == Window(chain, s, e)
    ensures Window(chain, s, e) != [] ==> LoadRangeAsWritten(fetch, s, e).records != Split(fetch, s, e, fuel).records
  {
    SplitCollectsWindow(fetch, chain, s, e, fuel);
  }

  // ---------------------------------------------------------------------
  // loadPastEvents
  // ---------------------------------------------------------------------

  /** The `fromBlock`/`toBlock` options a caller may pass; absent is undefined. */
  datatype EventOptions = EventOptions(fromBlock: Option<int>, toBlock: Option<int>)

  /** A number option that `if (x)` takes: present and not 0. */
  predicate Truthy(x: Option<int>)
  {
    x.Some? && x.value != 0
  }

  /** The start of the split range: 0 unless a truthy fromBlock is given. */
  function RangeStart(options: Option<EventOptions>): int
  {
    if options.Some? && options.value.fromBlock.Some? && options.value.fromBlock.value != 0
    then options.value.fromBlock.value else 0
  }

  /** The end of the split range: the chain head unless a truthy toBlock is given. */
  function RangeEnd(options: Option<EventOptions>, head: int): int
  {
    if options.Some? && options.value.toBlock.Some? && options.value.toBlock.value != 0
    then options.value.toBlock.value else head
  }

  /** With no options the range runs from block 0 to the head. Each bound
      is read from its own option alone: an absent field and 0 both leave
      the default, and any other value replaces it. */
  lemma RangeDefaults(from: Option<int>, to: Option<int>, head: int)
    ensures RangeStart(None) == 0 && RangeEnd(None, head) == head
    ensures RangeStart(Some(EventOptions(from, to))) == if Truthy(from) then from.value else RangeStart(None)
    ensures RangeEnd(Some(EventOptions(from, to)), head) == if Truthy(to) then to.value else RangeEnd(None, head)
  {
  }

  /** In particular a fromBlock of 0 is falsy and behaves as if it were absent. */
  lemma ZeroFromBlockIsDefault(to: Option<int>)
    ensures RangeStart(Some(EventOptions(Some(0), to))) == RangeStart(None) == 0
  {
    RangeDefaults(Some(0), to, 0);
  }

  /** What one loadPastEvents call does: warn and do nothing, call the
      handler once with a batch, or rethrow. */
  datatype LoadResult =
    | NotAnEvent
    | Handled(batch: seq<EventData>)
    | Rethrown(message: string)
    | CutOff

  /** loadPastEvents(event, handler, options). `first` is the provider's
      answer to the query with the options as given, `head` the block
      number the chain reports, and `fetch` answers the range queries of the
      split. */
  method LoadPastEvents(l: Listen, event: string, options: Option<EventOptions>,
                        first: Response, head: int, fetch: RangeFetch, fuel: nat)
    returns (r: LoadResult)
    ensures !HasEvent(l, event) ==> r == NotAnEvent
    ensures HasEvent(l, event) && first.Logs? ==> r == Handled(Tagged(first.records, l.network))
    ensures HasEvent(l, event) && first.Failure? && !IsLimitError(first) ==> r == Rethrown(first.message)
    ensures HasEvent(l, event) && IsLimitError(first) ==>
      var o := Split(fetch, RangeStart(options), RangeEnd(options, head), fuel);
      r == (match o
            case Done(records, _) => Handled(Tagged(records, l.network))
            case Threw(m) => Rethrown(m)
            case OutOfFuel => CutOff)
  {
    if !HasEvent(l, event) {
      return NotAnEvent;
    }
    if first.Logs? {
      return Handled(Tagged(first.records, l.network));
    }
    if !IsLimitError(first) {
      return Rethrown(first.message);
    }
    var start := 0;
    var end := head;
    if options.Some? {
      if options.value.fromBlock.Some? && options.value.fromBlock.value != 0 {
        start := options.value.fromBlock.value;
      }
      if options.value.toBlock.Some? && options.value.toBlock.value != 0 {
        end := options.value.toBlock.value;
      }
    }
    var data, status := LoadRange(fetch, start, end, fuel);
    match status {
      case Completed => r := Handled(Tagged(data, l.network));
      case Thrown(m) => r := Rethrown(m);
      case Exhausted => r := CutOff;
    }
  }

  /** When the provider is faithful and never reports the limit for fewer
      than three blocks, a load that hits the limit hands the handler, in
      one call, every log of the defaulted range tagged with the network. */
  lemma LimitPathDeliversWindow(l: Listen, options: Option<EventOptions>, head: int,
                                fetch: RangeFetch, chain: seq<EventData>, fuel: nat)
    requires InBlockOrder(chain) && Faithful(fetch, chain) && LimitOnlyOnWideRanges(fetch)
    requires RangeStart(options) <= RangeEnd(options, head)
    requires fuel >= 1 && RangeEnd(options, head) - RangeStart(options) <= fuel
    ensures var o := Split(fetch, RangeStart(options), RangeEnd(options, head), fuel);
      o.Done? ==> o.records == Window(chain, RangeStart(options), RangeEnd(options, head))
    ensures Split(fetch, RangeStart(options), RangeEnd(options, head), fuel) != OutOfFuel
  {
    var s, e := RangeStart(options), RangeEnd(options, head);
    SplitTerminates(fetch, s, e, fuel);
    if Split(fetch, s, e, fuel).Done? {
      SplitCollectsWindow(fetch, chain, s, e, fuel);
    }
  }

  // ---------------------------------------------------------------------
  // listen and method
  // ---------------------------------------------------------------------

  /** listen(event, handler): for a known event, a subscription whose every
      incoming record reaches the handler tagged with the network; for an
      unknown one, only a warning. */
  function Subscription(l: Listen, event: string, incoming: seq<EventData>): (r: Option<seq<EventData>>)
    ensures r.None? <==> !HasEvent(l, event)
    ensures r.Some? ==> |r.value| == |incoming|
    ensures r.Some? ==> forall i :: 0 <= i < |incoming| ==> r.value[i] == incoming[i].(network := Some(l.network))
  {
    if HasEvent(l, event) then Some(Tagged(incoming, l.network)) else None
  }

  /** The result of `methods[name](...args).call()`. */
  datatype CallResult = Returned(value: Json) | CallFailed(error: string)

  datatype MethodOutcome = HandlerGot(argument: Json) | MethodRethrown(error: string)

  /** method(name, handler, args): the handler gets `{[name]: result}`; a
      failure is rethrown as it came. */
  function Method(name: string, result: CallResult): MethodOutcome
  {
    match result
    case Returned(v) => HandlerGot(JObj(map[name := v]))
    case CallFailed(err) => MethodRethrown(err)
  }

  /** The handler runs exactly when the call returns, and reading
      `methodName` back from its argument gives the result; a failure
      reaches the caller with its own error. */
  lemma MethodOutcomes(name: string, result: CallResult)
    ensures Method(name, result).HandlerGot? <==> result.Returned?
    ensures result.Returned? ==>
      var arg := Method(name, result).argument;
      arg.JObj? && arg.fields.Keys == {name} && arg.fields[name] == result.value
    ensures result.CallFailed? ==> Method(name, result).error == result.error
  {
  }

  /** Nothing is lost on the way out: the outcome determines the call's
      result, value or error. */
  lemma MethodInjective(name: string, r1: CallResult, r2: CallResult)
    requires Method(name, r1) == Method(name, r2)
    ensures r1 == r2
  {
    if r1.Returned? && r2.Returned? {
      assert r1.value == Method(name, r1).argument.fields[name];
    }
  }
}
