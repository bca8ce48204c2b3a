/** makeQuery (src/utils/apiHelper.ts): turn the fields of an HTTP query
    string into the pieces of a store query: a filter, a sort order, a
    projection and a skip/limit window. The query object is its own
    properties in order; `JSON.parse` is a parameter that either yields a
    value or throws (`None`). */
module ApiHelper {
  import opened Common
  import opened Text

  /** The query object's own properties, in their enumeration order. */
  type Query = seq<(string, string)>

  /** A JavaScript object holds each key once. */
  ghost predicate DistinctKeys(q: Query)
  {
    forall i, j :: 0 <= i < j < |q| ==> q[i].0 != q[j].0
  }

  /** `query[key]` for an own property. */
  function Lookup(q: Query, key: string): Option<string>
  {
    if q == [] then None
    else if q[|q| - 1].0 == key then Some(q[|q| - 1].1)
    else Lookup(q[..|q| - 1], key)
  }

  /** A JavaScript number the skip and limit variables can hold. */
  datatype Number = Undefined | NaN | Value(n: int)

  datatype MongoQuery = MongoQuery(
    filter: map<string, Json>,
    sort: map<string, int>,
    skip: Number,
    limit: Number,
    select: map<string, int>)

  // ---------------------------------------------------------------------
  // The filter
  // ---------------------------------------------------------------------

  predicate Reserved(key: string)
  {
    key == "sort" || key == "range" || key == "select"
  }

  /** A property goes into the filter when it is not reserved and its value
      is truthy (a non-empty string). */
  predicate Accepted(p: (string, string))
  {
    !Reserved(p.0) && p.1 != ""
  }

  /** `JSON.parse(v)`, or the raw string when it throws. */
  function ParsedOr(parse: string -> Option<Json>, v: string): Json
  {
    match parse(v)
    case Some(j) => j
    case None => JStr(v)
  }

  function FilterOf(q: Query, parse: string -> Option<Json>): map<string, Json>
  {
    if q == [] then map[]
    else
      var p := q[|q| - 1];
      var f := FilterOf(q[..|q| - 1], parse);
      if Accepted(p) then f[p.0 := ParsedOr(parse, p.1)] else f
  }

  /** The filter's keys in insertion order. */
  function AcceptedKeys(q: Query): seq<string>
  {
    if q == [] then []
    else
      var p := q[|q| - 1];
      AcceptedKeys(q[..|q| - 1]) + (if Accepted(p) then [p.0] else [])
  }

  /** The filter holds exactly the accepted properties, each parsed or raw;
      the reserved keys and the empty values never reach it. */
  lemma {:induction false} FilterOfSpec(q: Query, parse: string -> Option<Json>)
    requires DistinctKeys(q)
    ensures forall k :: k in FilterOf(q, parse) <==> !Reserved(k) && Lookup(q, k).Some? && Lookup(q, k).value != ""
    ensures forall k :: k in FilterOf(q, parse) ==> FilterOf(q, parse)[k] == ParsedOr(parse, Lookup(q, k).value)
  {
    if q != [] {
      var init := q[..|q| - 1];
      assert DistinctKeys(init);
      FilterOfSpec(init, parse);
      var last := q[|q| - 1];
      forall k | k != last.0 ensures Lookup(q, k) == Lookup(init, k) {
      }
      LookupAbsent(init, last.0);
    }
  }

  /** A key held only by the last property is absent before it. */
  lemma {:induction false} LookupAbsent(q: Query, key: string)
    requires forall i :: 0 <= i < |q| ==> q[i].0 != key
    ensures Lookup(q, key).None?
  {
    if q != [] {
      LookupAbsent(q[..|q| - 1], key);
    }
  }

  /** The insertion order lists each filter key once. */
  lemma {:induction false} AcceptedKeysSpec(q: Query, parse: string -> Option<Json>)
    requires DistinctKeys(q)
    ensures forall k :: k in AcceptedKeys(q) <==> k in FilterOf(q, parse)
    ensures forall i, j :: 0 <= i < j < |AcceptedKeys(q)| ==> AcceptedKeys(q)[i] != AcceptedKeys(q)[j]
    ensures forall k :: k in AcceptedKeys(q) ==> exists i :: 0 <= i < |q| && q[i].0 == k
  {
    if q != [] {
      var init := q[..|q| - 1];
      assert DistinctKeys(init);
      AcceptedKeysSpec(init, parse);
      var last := q[|q| - 1];
      forall k | k in AcceptedKeys(init) ensures k != last.0 {
        var i :| 0 <= i < |init| && init[i].0 == k;
        assert q[i].0 == k;
      }
      forall k | k in AcceptedKeys(init) ensures exists i :: 0 <= i < |q| && q[i].0 == k {
        var i :| 0 <= i < |init| && init[i].0 == k;
        assert q[i].0 == k;
      }
      var a := AcceptedKeys(init);
      if Accepted(last) {
        assert last.0 !in a;
        forall i, j | 0 <= i < j < |a| + 1 ensures (a + [last.0])[i] != (a + [last.0])[j] {
          if j == |a| {
            assert (a + [last.0])[i] == a[i];
          }
        }
      }
    }
  }

  /** `filter.events = {$in: filter.events}` when it is truthy. */
  function WrapEvents(f: map<string, Json>): map<string, Json>
  {
    if "events" in f && Truthy(f["events"]) then f["events" := JObj(map["$in" := f["events"]])] else f
  }

  /** The three schema key lists of the rename step, concatenated. */
  const KeyCheckFields: seq<string> := [
    "address", "network", "latestBlock", "events",
    "address", "network", "blockNumber", "transactionHash", "event", "returnValues",
    "address", "network", "tokenId", "blockNumber", "data"]

  /** The string-named properties of Array.prototype (ECMAScript 2019). */
  const ArrayPrototypeNames: set<string> := {
    "concat", "copyWithin", "entries", "every", "fill", "filter", "find", "findIndex",
    "flat", "flatMap", "forEach", "includes", "indexOf", "join", "keys", "lastIndexOf",
    "map", "pop", "push", "reduce", "reduceRight", "reverse", "shift", "slice", "some",
    "sort", "splice", "toLocaleString", "toString", "unshift", "values", "constructor"}

  /** `key in [...keys]`: true for the array's indices, its length and the
      properties it inherits, not for the field names it holds. */
  predicate InArrayLiteral(key: string)
  {
    (exists i :: 0 <= i < |KeyCheckFields| && key == NatToString(i)) ||
    key == "length" || key in ArrayPrototypeNames || key in ObjectPrototypeNames
  }

  /** The schema field test the key lists are evidently there for. */
  predicate SchemaField(key: string)
  {
    key in KeyCheckFields
  }

  function Prefixed(queryName: string, key: string): string
  {
    queryName + "." + key
  }

  /** The rename loop over the keys as they were when it started: a key still
      present and not excluded moves to `queryName.key`. */
  function Renamed(f: map<string, Json>, keys: seq<string>, queryName: string, excluded: string -> bool): map<string, Json>
  {
    if keys == [] then f
    else
      var g := Renamed(f, keys[..|keys| - 1], queryName, excluded);
      var x := keys[|keys| - 1];
      if x in g && !excluded(x) then g[Prefixed(queryName, x) := g[x]] - {x} else g
  }

  lemma PrefixedHasDot(queryName: string, key: string)
    ensures '.' in Prefixed(queryName, key)
  {
    assert Prefixed(queryName, key)[|queryName|] == '.';
  }

  lemma PrefixedInjective(queryName: string, a: string, b: string)
    requires Prefixed(queryName, a) == Prefixed(queryName, b)
    ensures a == b
  {
    var n := |queryName| + 1;
    assert a == Prefixed(queryName, a)[n..];
    assert b == Prefixed(queryName, b)[n..];
  }

  /** With no dot in any key, renaming moves every listed key that is not
      excluded to its prefixed name with its value, keeps the excluded ones,
      and leaves the unlisted ones alone. */
  lemma {:induction false} RenamedSpec(f: map<string, Json>, keys: seq<string>, queryName: string, excluded: string -> bool)
    requires forall i, j :: 0 <= i < j < |keys| ==> keys[i] != keys[j]
    requires forall k :: k in keys ==> k in f
    requires forall k :: k in f ==> '.' !in k
    ensures forall k :: k in f && k !in keys ==>
              k in Renamed(f, keys, queryName, excluded) && Renamed(f, keys, queryName, excluded)[k] == f[k]
    ensures forall k :: k in keys && excluded(k) ==>
              k in Renamed(f, keys, queryName, excluded) && Renamed(f, keys, queryName, excluded)[k] == f[k]
    ensures forall k :: k in keys && !excluded(k) ==>
              k !in Renamed(f, keys, queryName, excluded) &&
              Prefixed(queryName, k) in Renamed(f, keys, queryName, excluded) &&
              Renamed(f, keys, queryName, excluded)[Prefixed(queryName, k)] == f[k]
  {
    if keys != [] {
      var init := keys[..|keys| - 1];
      var x := keys[|keys| - 1];
      assert forall k :: k in init ==> k in keys;
      RenamedSpec(f, init, queryName, excluded);
      assert x !in init;
      var g := Renamed(f, init, queryName, excluded);
      assert x in g && g[x] == f[x];
      if excluded(x) {
        assert Renamed(f, keys, queryName, excluded) == g;
      } else {
        var px := Prefixed(queryName, x);
        assert Renamed(f, keys, queryName, excluded) == g[px := g[x]] - {x};
        PrefixedHasDot(queryName, x);
        forall k | k in f ensures px != k {
        }
        forall k | k in init && !excluded(k) ensures Prefixed(queryName, k) != px {
          if Prefixed(queryName, k) == px {
            PrefixedInjective(queryName, k, x);
          }
        }
        forall k | k in init && !excluded(k) ensures Prefixed(queryName, k) != x {
          PrefixedHasDot(queryName, k);
        }
      }
    }
  }

  /** The filter the query yields before `params` are merged in. */
  function Translated(query: Query, queryName: Option<string>, parse: string -> Option<Json>,
                      excluded: string -> bool): map<string, Json>
  {
    var f := WrapEvents(FilterOf(query, parse));
    if queryName.Some? && queryName.value != "" && f != map[] then
      Renamed(f, AcceptedKeys(query), queryName.value, excluded)
    else f
  }

  /** The value a property contributes: parsed or raw, with a truthy
      `events` wrapped in `$in`. */
  function Contribution(key: string, v: Json): Json
  {
    if key == "events" && Truthy(v) then JObj(map["$in" := v]) else v
  }

  /** The filter, property by property: an accepted property's value lands
      under its own key when no query name is given (or the key is
      excluded), and under `queryName.key` with the key itself gone
      otherwise; a reserved or empty property lands nowhere. */
  lemma TranslatedSpec(query: Query, queryName: Option<string>, parse: string -> Option<Json>,
                       excluded: string -> bool, i: nat)
    requires DistinctKeys(query) && i < |query|
    requires forall j :: 0 <= j < |query| ==> '.' !in query[j].0
    ensures var t := Translated(query, queryName, parse, excluded);
      var k := query[i].0;
      var v := Contribution(k, ParsedOr(parse, query[i].1));
      (!Accepted(query[i]) ==> k !in t) &&
      (Accepted(query[i]) && (queryName.None? || queryName.value == "" || excluded(k)) ==> k in t && t[k] == v) &&
      (Accepted(query[i]) && queryName.Some? && queryName.value != "" && !excluded(k) ==>
         k !in t && Prefixed(queryName.value, k) in t && t[Prefixed(queryName.value, k)] == v)
  {
    FilterOfSpec(query, parse);
    AcceptedKeysSpec(query, parse);
    LookupAt(query, i);
    var f := WrapEvents(FilterOf(query, parse));
    var k := query[i].0;
    assert f.Keys == FilterOf(query, parse).Keys;
    assert forall x :: x in f ==> '.' !in x by {
      forall x | x in f ensures '.' !in x {
        var j :| 0 <= j < |query| && query[j].0 == x;
      }
    }
    if Accepted(query[i]) {
      assert k in AcceptedKeys(query);
    }
    if queryName.Some? && queryName.value != "" && f != map[] {
      RenamedSpec(f, AcceptedKeys(query), queryName.value, excluded);
      forall x | x in f ensures Prefixed(queryName.value, x) != k {
        PrefixedHasDot(queryName.value, x);
      }
      if !Accepted(query[i]) {
        RenamedNoNew(f, AcceptedKeys(query), queryName.value, excluded, k);
      }
    }
  }

  /** Renaming only ever adds prefixed keys. */
  lemma {:induction false} RenamedNoNew(f: map<string, Json>, keys: seq<string>, queryName: string,
                                        excluded: string -> bool, k: string)
    requires k !in f && '.' !in k
    ensures k !in Renamed(f, keys, queryName, excluded)
  {
    if keys != [] {
      RenamedNoNew(f, keys[..|keys| - 1], queryName, excluded, k);
      PrefixedHasDot(queryName, keys[|keys| - 1]);
    }
  }

  lemma {:induction false} LookupAt(q: Query, i: nat)
    requires DistinctKeys(q) && i < |q|
    ensures Lookup(q, q[i].0) == Some(q[i].1)
  {
    if i < |q| - 1 {
      assert DistinctKeys(q[..|q| - 1]);
      assert q[..|q| - 1][i] == q[i];
      LookupAt(q[..|q| - 1], i);
    }
  }

  /** The exclusion test as written renames the schema's own field names:
      `address` is neither an index of the array nor one of its properties. */
  lemma SchemaFieldsRenamed()
    ensures !InArrayLiteral("address") && SchemaField("address")
    ensures InArrayLiteral("0") && !SchemaField("0")
  {
    forall i | 0 <= i < |KeyCheckFields| ensures "address" != NatToString(i) {
      var s := NatToString(i);
      assert IsDigit(s[0]);
    }
    assert "0" == NatToString(0);
  }

  /** A query on the field `address` under a query name: as written, the
      filter looks for `queryName.address`; with the schema field test it
      keeps `address`. */
  lemma AddressFilterRenamed(v: string, queryName: string, parse: string -> Option<Json>)
    requires v != "" && queryName != ""
    ensures var q := [("address", v)];
      "address" !in Translated(q, Some(queryName), parse, InArrayLiteral) &&
      Prefixed(queryName, "address") in Translated(q, Some(queryName), parse, InArrayLiteral) &&
      Translated(q, Some(queryName), parse, InArrayLiteral)[Prefixed(queryName, "address")] == ParsedOr(parse, v)
    ensures var q := [("address", v)];
      "address" in Translated(q, Some(queryName), parse, SchemaField) &&
      Translated(q, Some(queryName), parse, SchemaField)["address"] == ParsedOr(parse, v)
  {
    var q := [("address", v)];
    SchemaFieldsRenamed();
    TranslatedSpec(q, Some(queryName), parse, InArrayLiteral, 0);
    TranslatedSpec(q, Some(queryName), parse, SchemaField, 0);
  }

  // ---------------------------------------------------------------------
  // Sort, select and range
  // ---------------------------------------------------------------------

  /** `item.slice(1)`. */
  function Tail(item: string): string
  {
    if item == "" then "" else item[1..]
  }

  /** -1 for a leading '-', +1 otherwise (also for the empty item). */
  function Direction(item: string): int
  {
    if item != "" && item[0] == '-' then -1 else 1
  }

  function SortOf(items: seq<string>): map<string, int>
  {
    if items == [] then map[]
    else SortOf(items[..|items| - 1])[Tail(items[|items| - 1]) := Direction(items[|items| - 1])]
  }

  /** Every sort item names the field after its first character, and
      nothing else is sorted on, always by +1 or -1. */
  lemma {:induction false} SortOfKeys(items: seq<string>)
    ensures forall i :: 0 <= i < |items| ==> Tail(items[i]) in SortOf(items)
    ensures forall k :: k in SortOf(items) ==> exists i :: 0 <= i < |items| && Tail(items[i]) == k
    ensures forall k :: k in SortOf(items) ==> SortOf(items)[k] == 1 || SortOf(items)[k] == -1
  {
    if items != [] {
      var init := items[..|items| - 1];
      SortOfKeys(init);
      forall k | k in SortOf(init) ensures exists i :: 0 <= i < |items| && Tail(items[i]) == k {
        var i :| 0 <= i < |init| && Tail(init[i]) == k;
        assert items[i] == init[i];
      }
      forall i | 0 <= i < |items| - 1 ensures Tail(items[i]) in SortOf(items) {
        assert items[i] == init[i];
      }
    }
  }

  /** The direction of a field is that of the last item naming it. */
  lemma {:induction false} SortOfLastWins(items: seq<string>, i: nat)
    requires i < |items|
    requires forall j :: i < j < |items| ==> Tail(items[j]) != Tail(items[i])
    ensures Tail(items[i]) in SortOf(items) && SortOf(items)[Tail(items[i])] == Direction(items[i])
  {
    if i < |items| - 1 {
      var init := items[..|items| - 1];
      assert items[i] == init[i];
      assert forall j :: i < j < |init| ==> init[j] == items[j];
      SortOfLastWins(init, i);
    }
  }

  /** A '-' item sorts descending on the rest of its name; any other item
      loses its first character, whatever it is. */
  lemma SortItems(field: string, c: char)
    ensures SortOf(["-" + field]) == map[field := -1]
    ensures c != '-' ==> SortOf([[c] + field]) == map[field := 1]
  {
    assert ["-" + field][..0] == [];
    assert [[c] + field][..0] == [];
    assert ("-" + field)[1..] == field;
    assert ([c] + field)[1..] == field;
  }

  function SelectOf(items: seq<string>): map<string, int>
  {
    if items == [] then map[] else SelectOf(items[..|items| - 1])[items[|items| - 1] := 1]
  }

  /** The projection includes exactly the listed fields. */
  lemma {:induction false} SelectOfSpec(items: seq<string>)
    ensures forall k :: k in SelectOf(items) <==> k in items
    ensures forall k :: k in SelectOf(items) ==> SelectOf(items)[k] == 1
  {
    if items != [] {
      SelectOfSpec(items[..|items| - 1]);
      assert items == items[..|items| - 1] + [items[|items| - 1]];
    }
  }

  function ToNumber(n: Option<int>): Number
  {
    if n.Some? then Value(n.value) else NaN
  }

  /** NaN propagates through subtraction. */
  function Minus(a: Number, b: Number): Number
  {
    if a.Value? && b.Value? then Value(a.n - b.n) else NaN
  }

  /** `r = range.split('-')`, `skip = parseInt(r[0])`,
      `limit = parseInt(r[1]) - parseInt(r[0])` (`r[1]` undefined gives NaN). */
  function RangeOf(range: string): (Number, Number)
  {
    var r := Split(range, '-');
    var first := ToNumber(ParseInt(r[0]));
    var second := if |r| > 1 then ToNumber(ParseInt(r[1])) else NaN;
    (first, Minus(second, first))
  }

  /** The range read from its two first dash-separated pieces. */
  lemma RangeOfPieces(range: string, first: string, second: string)
    requires var r := Split(range, '-'); |r| > 1 && r[0] == first && r[1] == second
    ensures RangeOf(range) == (ToNumber(ParseInt(first)), Minus(ToNumber(ParseInt(second)), ToNumber(ParseInt(first))))
  {
  }

  /** A range `a-b` whose parts hold no dash reads each part with parseInt. */
  lemma RangeOfParts(a: string, b: string)
    requires '-' !in a && '-' !in b
    ensures RangeOf(a + "-" + b) == (ToNumber(ParseInt(a)), Minus(ToNumber(ParseInt(b)), ToNumber(ParseInt(a))))
  {
    SplitPrefix(a, b, '-');
    SplitNoSeparator(b, '-');
    assert a + "-" + b == a + ['-'] + b;
    RangeOfPieces(a + "-" + b, a, b);
  }

  lemma NoDashInDigits(s: string)
    requires AllDigits(s)
    ensures '-' !in s
  {
  }

  /** A range `a-b` of decimal numbers skips `a` records and takes `b - a`. */
  lemma RangeWindow(a: nat, b: nat)
    ensures RangeOf(NatToString(a) + "-" + NatToString(b)) == (Value(a), Value(b - a))
  {
    NoDashInDigits(NatToString(a));
    NoDashInDigits(NatToString(b));
    RangeOfParts(NatToString(a), NatToString(b));
    ParseIntOfNat(a);
    ParseIntOfNat(b);
  }

  /** A range without a dash has no limit. */
  lemma RangeWithoutDash(range: string)
    requires '-' !in range
    ensures RangeOf(range).1 == NaN
  {
    SplitNoSeparator(range, '-');
  }

  // ---------------------------------------------------------------------
  // The loops of makeQuery
  // ---------------------------------------------------------------------

  /** The filter loop: every accepted property, parsed or raw, in order. */
  method BuildFilter(query: Query, parse: string -> Option<Json>) returns (filter: map<string, Json>, keys: seq<string>)
    ensures filter == FilterOf(query, parse)
    ensures keys == AcceptedKeys(query)
  {
    filter := map[];
    keys := [];
    var i := 0;
    while i < |query|
      invariant 0 <= i <= |query|
      invariant filter == FilterOf(query[..i], parse)
      invariant keys == AcceptedKeys(query[..i])
    {
      assert query[..i + 1][..i] == query[..i];
      var key := query[i].0;
      var value := query[i].1;
      if !Reserved(key) && value != "" {
        filter := filter[key := ParsedOr(parse, value)];
        keys := keys + [key];
      }
      i := i + 1;
    }
    assert query[..|query|] == query;
  }

  /** The rename loop over a snapshot of the keys; `delete` of a key that is
      gone, or a key excluded, leaves the filter as it is. */
  method RenameKeys(filter: map<string, Json>, keys: seq<string>, queryName: string, excluded: string -> bool)
    returns (f: map<string, Json>)
    ensures f == Renamed(filter, keys, queryName, excluded)
  {
    f := filter;
    var i := 0;
    while i < |keys|
      invariant 0 <= i <= |keys|
      invariant f == Renamed(filter, keys[..i], queryName, excluded)
    {
      assert keys[..i + 1][..i] == keys[..i];
      var key := keys[i];
      if key in f && !excluded(key) {
        f := f[Prefixed(queryName, key) := f[key]];
        f := f - {key};
      }
      i := i + 1;
    }
    assert keys[..|keys|] == keys;
  }

  method BuildSort(items: seq<string>) returns (sort: map<string, int>)
    ensures sort == SortOf(items)
  {
    sort := map[];
    var i := 0;
    while i < |items|
      invariant 0 <= i <= |items|
      invariant sort == SortOf(items[..i])
    {
      assert items[..i + 1][..i] == items[..i];
      sort := sort[Tail(items[i]) := Direction(items[i])];
      i := i + 1;
    }
    assert items[..|items|] == items;
  }

  method BuildSelect(items: seq<string>) returns (select: map<string, int>)
    ensures select == SelectOf(items)
  {
    select := map[];
    var i := 0;
    while i < |items|
      invariant 0 <= i <= |items|
      invariant select == SelectOf(items[..i])
    {
      assert items[..i + 1][..i] == items[..i];
      select := select[items[i] := 1];
      i := i + 1;
    }
    assert items[..|items|] == items;
  }

  /** `query.x` when truthy. */
  predicate Present(query: Query, key: string)
  {
    Lookup(query, key).Some? && Lookup(query, key).value != ""
  }

  /** makeQuery with a given key-exclusion test. */
  method MakeQueryWith(params: map<string, Json>, query: Query, queryName: Option<string>,
                       parse: string -> Option<Json>, excluded: string -> bool) returns (q: MongoQuery)
    ensures q.filter == params + Translated(query, queryName, parse, excluded)
    ensures Present(query, "sort") ==> q.sort == SortOf(Split(Lookup(query, "sort").value, ','))
    ensures !Present(query, "sort") ==> q.sort == map[]
    ensures Present(query, "select") ==> q.select == SelectOf(Split(Lookup(query, "select").value, ' '))
    ensures !Present(query, "select") ==> q.select == map[]
    ensures Present(query, "range") ==> (q.skip, q.limit) == RangeOf(Lookup(query, "range").value)
    ensures !Present(query, "range") ==> q.skip == Undefined && q.limit == Undefined
  {
    var filter, keys := BuildFilter(query, parse);
    filter := WrapEvents(filter);
    if queryName.Some? && queryName.value != "" && filter != map[] {
      filter := RenameKeys(filter, keys, queryName.value, excluded);
    }
    filter := params + filter;

    var sort := map[];
    if Present(query, "sort") {
      sort := BuildSort(Split(Lookup(query, "sort").value, ','));
    }

    var select := map[];
    if Present(query, "select") {
      select := BuildSelect(Split(Lookup(query, "select").value, ' '));
    }

    var skip := Undefined;
    var limit := Undefined;
    if Present(query, "range") {
      var r := Split(Lookup(query, "range").value, '-');
      skip := ToNumber(ParseInt(r[0]));
      limit := Minus(if |r| > 1 then ToNumber(ParseInt(r[1])) else NaN, skip);
    }

    q := MongoQuery(filter, sort, skip, limit, select);
  }

  /** makeQuery(params, query, queryName) as written. */
  method MakeQuery(params: map<string, Json>, query: Query, queryName: Option<string>,
                   parse: string -> Option<Json>) returns (q: MongoQuery)
    ensures q.filter == params + Translated(query, queryName, parse, InArrayLiteral)
    ensures forall k :: k in params && k !in Translated(query, queryName, parse, InArrayLiteral) ==> q.filter[k] == params[k]
    ensures Present(query, "sort") ==> q.sort == SortOf(Split(Lookup(query, "sort").value, ','))
    ensures !Present(query, "sort") ==> q.sort == map[]
    ensures Present(query, "select") ==> q.select == SelectOf(Split(Lookup(query, "select").value, ' '))
    ensures !Present(query, "select") ==> q.select == map[]
    ensures Present(query, "range") ==> (q.skip, q.limit) == RangeOf(Lookup(query, "range").value)
    ensures !Present(query, "range") ==> q.skip == Undefined && q.limit == Undefined
  {
    q := MakeQueryWith(params, query, queryName, parse, InArrayLiteral);
  }

  /** makeQuery with the rename skipping the schema's field names. */
  method MakeQueryIntended(params: map<string, Json>, query: Query, queryName: Option<string>,
                           parse: string -> Option<Json>) returns (q: MongoQuery)
    ensures q.filter == params + Translated(query, queryName, parse, SchemaField)
    ensures DistinctKeys(query) && (forall j :: 0 <= j < |query| ==> '.' !in query[j].0) ==>
      forall i :: 0 <= i < |query| && Accepted(query[i]) && SchemaField(query[i].0) ==>
        query[i].0 in q.filter && q.filter[query[i].0] == Contribution(query[i].0, ParsedOr(parse, query[i].1))
    ensures Present(query, "sort") ==> q.sort == SortOf(Split(Lookup(query, "sort").value, ','))
    ensures !Present(query, "sort") ==> q.sort == map[]
    ensures Present(query, "select") ==> q.select == SelectOf(Split(Lookup(query, "select").value, ' '))
    ensures !Present(query, "select") ==> q.select == map[]
    ensures Present(query, "range") ==> (q.skip, q.limit) == RangeOf(Lookup(query, "range").value)
    ensures !Present(query, "range") ==> q.skip == Undefined && q.limit == Undefined
  {
    q := MakeQueryWith(params, query, queryName, parse, SchemaField);
    if DistinctKeys(query) && (forall j :: 0 <= j < |query| ==> '.' !in query[j].0) {
      forall i | 0 <= i < |query| && Accepted(query[i]) && SchemaField(query[i].0)
        ensures query[i].0 in q.filter && q.filter[query[i].0] == Contribution(query[i].0, ParsedOr(parse, query[i].1))
      {
        TranslatedSpec(query, queryName, parse, SchemaField, i);
      }
    }
  }
}
