/** The revenue-source breakdown of the analytics page: received income
    totalled by service and by client, each shown as its five largest
    entries. */
module SourceBreakdown {
  import opened Wrappers
  import opened Sums
  import opened Sorting

  /** `.slice(0, 5)`. */
  const TopCount := 5

  /** The fields of an income record the breakdown reads; an absent or
      null text field is the empty string, and an amount that is not a
      number is `None`. */
  datatype SourceRow = SourceRow(
    status: string,
    amount: Option<real>,
    serviceName: string,
    category: string,
    clientName: string,
    client: string)

  /** `Number(item.amount) || 0`. */
  function AmountOf(r: SourceRow): real {
    r.amount.GetOr(0.0)
  }

  /** JavaScript's `a || b` on strings: the empty string is falsy. */
  function Or(a: string, b: string): string {
    if a != "" then a else b
  }

  /** `service_name || category || "Uncategorized"`. */
  function ServiceKey(r: SourceRow): (name: string)
    ensures name != ""
    ensures r.serviceName != "" ==> name == r.serviceName
    ensures r.serviceName == "" && r.category != "" ==> name == r.category
    ensures r.serviceName == "" && r.category == "" ==> name == "Uncategorized"
  {
    Or(Or(r.serviceName, r.category), "Uncategorized")
  }

  /** `client_name || client || "Unknown Client"`. */
  function ClientKey(r: SourceRow): (name: string)
    ensures name != ""
    ensures r.clientName != "" ==> name == r.clientName
    ensures r.clientName == "" && r.client != "" ==> name == r.client
    ensures r.clientName == "" && r.client == "" ==> name == "Unknown Client"
  {
    Or(Or(r.clientName, r.client), "Unknown Client")
  }

  predicate Counted(r: SourceRow) {
    r.status == "RECEIVED"
  }

  /** A record's amount when it is counted at all. */
  function CountedAmount(r: SourceRow): real {
    if Counted(r) then AmountOf(r) else 0.0
  }

  /** A record's amount when it is counted under `n`. */
  function AmountUnder(name: SourceRow -> string, n: string): SourceRow -> real {
    (r: SourceRow) => if Counted(r) && name(r) == n then AmountOf(r) else 0.0
  }

  /** The names the counted records carry. */
  function Names(data: seq<SourceRow>, name: SourceRow -> string): set<string> {
    if |data| == 0 then {}
    else
      var r := data[|data| - 1];
      Names(data[..|data| - 1], name) + (if Counted(r) then {name(r)} else {})
  }

  predicate DistinctNames(keys: seq<string>) {
    forall i, j :: 0 <= i < j < |keys| ==> keys[i] != keys[j]
  }

  /** The sum of the totals of `keys`. */
  function Total(keys: seq<string>, totals: map<string, real>): real
    requires forall k :: k in keys ==> k in totals
  {
    if |keys| == 0 then 0.0 else Total(keys[..|keys| - 1], totals) + totals[keys[|keys| - 1]]
  }

  /** Maps that agree on `keys` have the same total over them. */
  lemma {:induction false} TotalAgrees(keys: seq<string>, a: map<string, real>, b: map<string, real>)
    requires forall k :: k in keys ==> k in a && k in b && a[k] == b[k]
    ensures Total(keys, a) == Total(keys, b)
    decreases |keys|
  {
    if |keys| > 0 {
      TotalAgrees(keys[..|keys| - 1], a, b);
    }
  }

  /** Adding `x` to one listed key's total adds `x` to the grand total. */
  lemma {:induction false} TotalAddExisting(keys: seq<string>, totals: map<string, real>, n: string, x: real)
    requires DistinctNames(keys) && (forall k :: k in keys ==> k in totals) && n in keys
    ensures Total(keys, totals[n := totals[n] + x]) == Total(keys, totals) + x
    decreases |keys|
  {
    var init := keys[..|keys| - 1];
    var last := keys[|keys| - 1];
    var totals' := totals[n := totals[n] + x];
    if last == n {
      assert n !in init;
      TotalAgrees(init, totals', totals);
    } else {
      assert keys == init + [last];
      TotalAddExisting(init, totals, n, x);
    }
  }

  /** Listing a new key with total `x` adds `x` to the grand total. */
  lemma TotalAddNew(keys: seq<string>, totals: map<string, real>, n: string, x: real)
    requires (forall k :: k in keys ==> k in totals) && n !in keys
    ensures Total(keys + [n], totals[n := x]) == Total(keys, totals) + x
  {
    assert (keys + [n])[..|keys|] == keys;
    TotalAgrees(keys, totals[n := x], totals);
  }

  /** One key per name the counted records carry, each listed once. */
  ghost predicate NamesSeen(data: seq<SourceRow>, name: SourceRow -> string, keys: seq<string>, totals: map<string, real>) {
    && DistinctNames(keys)
    && (forall k :: k in keys <==> k in totals)
    && totals.Keys == Names(data, name)
  }

  /** Each name's total is the sum of the amounts counted under it; a name
      without a total has nothing counted under it. */
  ghost predicate NameSums(data: seq<SourceRow>, name: SourceRow -> string, totals: map<string, real>) {
    && (forall n :: n in totals ==> totals[n] == Sum(data, AmountUnder(name, n)))
    && (forall n :: n !in totals ==> Sum(data, AmountUnder(name, n)) == 0.0)
  }

  /** What a map holds after `data` has been folded in: one key per name,
      in the order first seen; each name's total is the sum of the amounts
      counted under it, and the totals add up to the counted amount. */
  ghost predicate NameTally(data: seq<SourceRow>, name: SourceRow -> string, keys: seq<string>, totals: map<string, real>) {
    && NamesSeen(data, name, keys, totals)
    && NameSums(data, name, totals)
    && Total(keys, totals) == Sum(data, CountedAmount)
  }

  /** `map[n] = (map[n] || 0) + amount`. */
  function Add(keys: seq<string>, totals: map<string, real>, n: string, x: real): (seq<string>, map<string, real>) {
    if n in totals then (keys, totals[n := totals[n] + x]) else (keys + [n], totals[n := 0.0 + x])
  }

  /** The callback's effect on one map: a received record's amount is
      added under its name; any other record is skipped. */
  function Fold(keys: seq<string>, totals: map<string, real>, name: SourceRow -> string, r: SourceRow): (seq<string>, map<string, real>) {
    if Counted(r) then Add(keys, totals, name(r), AmountOf(r)) else (keys, totals)
  }

  /** One more record adds its amount under its name, to the names seen
      and to the counted amount. */
  lemma RecordAppend(data: seq<SourceRow>, name: SourceRow -> string, r: SourceRow)
    ensures forall n :: Sum(data + [r], AmountUnder(name, n)) == Sum(data, AmountUnder(name, n)) + AmountUnder(name, n)(r)
    ensures Names(data + [r], name) == Names(data, name) + (if Counted(r) then {name(r)} else {})
    ensures Sum(data + [r], CountedAmount) == Sum(data, CountedAmount) + CountedAmount(r)
  {
    assert (data + [r])[..|data|] == data;
  }

  lemma NamesSeenStep(data: seq<SourceRow>, name: SourceRow -> string, keys: seq<string>, totals: map<string, real>, r: SourceRow)
    requires NamesSeen(data, name, keys, totals)
    requires Names(data + [r], name) == Names(data, name) + (if Counted(r) then {name(r)} else {})
    ensures NamesSeen(data + [r], name, Fold(keys, totals, name, r).0, Fold(keys, totals, name, r).1)
  {
  }

  lemma NameSumsStep(data: seq<SourceRow>, name: SourceRow -> string, keys: seq<string>, totals: map<string, real>, r: SourceRow)
    requires NameSums(data, name, totals)
    requires forall n :: Sum(data + [r], AmountUnder(name, n)) == Sum(data, AmountUnder(name, n)) + AmountUnder(name, n)(r)
    ensures NameSums(data + [r], name, Fold(keys, totals, name, r).1)
  {
  }

  lemma TotalStep(data: seq<SourceRow>, name: SourceRow -> string, keys: seq<string>, totals: map<string, real>, r: SourceRow)
    requires NamesSeen(data, name, keys, totals) && Total(keys, totals) == Sum(data, CountedAmount)
    requires Sum(data + [r], CountedAmount) == Sum(data, CountedAmount) + CountedAmount(r)
    ensures forall k :: k in Fold(keys, totals, name, r).0 ==> k in Fold(keys, totals, name, r).1
    ensures Total(Fold(keys, totals, name, r).0, Fold(keys, totals, name, r).1) == Sum(data + [r], CountedAmount)
  {
    if Counted(r) {
      if name(r) in totals {
        TotalAddExisting(keys, totals, name(r), AmountOf(r));
      } else {
        TotalAddNew(keys, totals, name(r), 0.0 + AmountOf(r));
      }
    }
  }

  lemma TallyStep(data: seq<SourceRow>, name: SourceRow -> string, keys: seq<string>, totals: map<string, real>, r: SourceRow)
    requires NameTally(data, name, keys, totals)
    ensures NameTally(data + [r], name, Fold(keys, totals, name, r).0, Fold(keys, totals, name, r).1)
  {
    RecordAppend(data, name, r);
    NamesSeenStep(data, name, keys, totals, r);
    NameSumsStep(data, name, keys, totals, r);
    TotalStep(data, name, keys, totals, r);
  }

  lemma BothStep(data: seq<SourceRow>, i: int, serviceKeys: seq<string>, serviceMap: map<string, real>, clientKeys: seq<string>, clientMap: map<string, real>)
    requires 0 <= i < |data|
    requires NameTally(data[..i], ServiceKey, serviceKeys, serviceMap)
    requires NameTally(data[..i], ClientKey, clientKeys, clientMap)
    ensures NameTally(data[..i + 1], ServiceKey, Fold(serviceKeys, serviceMap, ServiceKey, data[i]).0, Fold(serviceKeys, serviceMap, ServiceKey, data[i]).1)
    ensures NameTally(data[..i + 1], ClientKey, Fold(clientKeys, clientMap, ClientKey, data[i]).0, Fold(clientKeys, clientMap, ClientKey, data[i]).1)
  {
    TallyStep(data[..i], ServiceKey, serviceKeys, serviceMap, data[i]);
    TallyStep(data[..i], ClientKey, clientKeys, clientMap, data[i]);
    assert data[..i + 1] == data[..i] + [data[i]];
  }

  /** The `forEach` loop: each received record's amount is added under its
      service and under its client. */
  method CollectSources(data: seq<SourceRow>)
    returns (serviceKeys: seq<string>, serviceMap: map<string, real>, clientKeys: seq<string>, clientMap: map<string, real>)
    ensures NameTally(data, ServiceKey, serviceKeys, serviceMap)
    ensures NameTally(data, ClientKey, clientKeys, clientMap)
    ensures Total(serviceKeys, serviceMap) == Total(clientKeys, clientMap)
  {
    serviceKeys, serviceMap, clientKeys, clientMap := [], map[], [], map[];
    for i := 0 to |data|
      invariant NameTally(data[..i], ServiceKey, serviceKeys, serviceMap)
      invariant NameTally(data[..i], ClientKey, clientKeys, clientMap)
    {
      BothStep(data, i, serviceKeys, serviceMap, clientKeys, clientMap);
      serviceKeys, serviceMap := Fold(serviceKeys, serviceMap, ServiceKey, data[i]).0, Fold(serviceKeys, serviceMap, ServiceKey, data[i]).1;
      clientKeys, clientMap := Fold(clientKeys, clientMap, ClientKey, data[i]).0, Fold(clientKeys, clientMap, ClientKey, data[i]).1;
    }
    assert data[..|data|] == data;
  }

  /** A slice of the pie chart. */
  datatype Slice = Slice(name: string, value: real)

  /** `Object.entries(map).map(([name, value]) => ({ name, value }))`. */
  function Entries(keys: seq<string>, totals: map<string, real>): (entries: seq<Slice>)
    requires forall k :: k in keys ==> k in totals
    ensures |entries| == |keys|
  {
    seq(|keys|, i requires 0 <= i < |keys| => Slice(keys[i], totals[keys[i]]))
  }

  /** The order of `b.value - a.value`: largest first. */
  function Largest(s: Slice): real {
    -s.value
  }

  /** `.sort((a, b) => b.value - a.value).slice(0, n)`. */
  function Top(entries: seq<Slice>, n: nat): (chart: seq<Slice>)
    ensures |chart| <= n
  {
    Take(SortBy(entries, Largest), n)
  }

  /** `toChartData`: the entries sorted by value, largest first, cut to
      five. */
  function ToChartData(keys: seq<string>, totals: map<string, real>): (chart: seq<Slice>)
    requires forall k :: k in keys ==> k in totals
    ensures |chart| <= TopCount
  {
    Top(Entries(keys, totals), TopCount)
  }

  /** The chart of the largest `n` names: values descend, names are
      distinct, each slice is a name's total, and a name left out is only
      left out of a full chart, and is no larger than its last slice. */
  ghost predicate TopNames(chart: seq<Slice>, data: seq<SourceRow>, name: SourceRow -> string, n: nat) {
    && |chart| <= n
    && (forall i, j :: 0 <= i < j < |chart| ==> chart[i].value >= chart[j].value && chart[i].name != chart[j].name)
    && (forall s :: s in chart ==> s.name in Names(data, name) && s.value == Sum(data, AmountUnder(name, s.name)))
    && (forall m :: m in Names(data, name) ==>
          Slice(m, Sum(data, AmountUnder(name, m))) in chart ||
          (0 < |chart| == n && Sum(data, AmountUnder(name, m)) <= chart[n - 1].value))
  }

  /** The entries of a tally, each a name with its total, repeat no entry. */
  lemma TallyEntries(data: seq<SourceRow>, name: SourceRow -> string, keys: seq<string>, totals: map<string, real>)
    requires NameTally(data, name, keys, totals)
    ensures NoRepeats(Entries(keys, totals))
    ensures forall s :: s in Entries(keys, totals) ==> s.name in Names(data, name) && s == Slice(s.name, Sum(data, AmountUnder(name, s.name)))
    ensures forall m :: m in Names(data, name) ==> Slice(m, Sum(data, AmountUnder(name, m))) in Entries(keys, totals)
  {
    var entries := Entries(keys, totals);
    forall s | s in entries
      ensures s.name in Names(data, name) && s == Slice(s.name, Sum(data, AmountUnder(name, s.name)))
    {
      var i :| 0 <= i < |entries| && entries[i] == s;
      assert keys[i] in keys;
    }
    forall m | m in Names(data, name)
      ensures Slice(m, Sum(data, AmountUnder(name, m))) in entries
    {
      var i :| 0 <= i < |keys| && keys[i] == m;
      assert entries[i] == Slice(m, Sum(data, AmountUnder(name, m)));
    }
  }

  /** The slices kept are entries, none repeated. */
  lemma TopKeepsEntries(entries: seq<Slice>, n: nat)
    requires NoRepeats(entries)
    ensures NoRepeats(Top(entries, n))
    ensures forall s :: s in Top(entries, n) ==> s in entries
  {
    var sorted := SortBy(entries, Largest);
    var chart := Top(entries, n);
    PermutationNoRepeats(entries, sorted);
    assert chart == sorted[..|chart|];
    forall s | s in chart
      ensures s in entries
    {
      assert s in multiset(sorted);
    }
  }

  /** The values kept descend. */
  lemma TopDescends(entries: seq<Slice>, n: nat)
    ensures forall i, j :: 0 <= i < j < |Top(entries, n)| ==> Top(entries, n)[i].value >= Top(entries, n)[j].value
  {
    var sorted := SortBy(entries, Largest);
    var chart := Top(entries, n);
    assert chart == sorted[..|chart|];
    forall i, j | 0 <= i < j < |chart|
      ensures chart[i].value >= chart[j].value
    {
      assert Largest(sorted[i]) <= Largest(sorted[j]);
    }
  }

  /** An entry left out is only left out of a full chart, and is no
      larger than its last slice. */
  lemma TopIsLargest(entries: seq<Slice>, n: nat, s: Slice)
    requires n > 0 && s in entries
    ensures s in Top(entries, n) || (0 < |Top(entries, n)| == n && s.value <= Top(entries, n)[n - 1].value)
  {
    var sorted := SortBy(entries, Largest);
    var chart := Top(entries, n);
    assert chart == sorted[..|chart|];
    assert s in multiset(sorted);
    var i :| 0 <= i < |sorted| && sorted[i] == s;
    if i < |chart| {
      assert chart[i] == s;
    } else {
      assert |chart| == n;
      assert chart[n - 1] == sorted[n - 1];
      assert Largest(sorted[n - 1]) <= Largest(sorted[i]);
    }
  }

  /** The chart of a tally holds its five largest names. */
  lemma TopAreLargest(data: seq<SourceRow>, name: SourceRow -> string, keys: seq<string>, totals: map<string, real>)
    requires NameTally(data, name, keys, totals)
    ensures TopNames(ToChartData(keys, totals), data, name, TopCount)
  {
    var entries := Entries(keys, totals);
    var chart := ToChartData(keys, totals);
    assert chart == Top(entries, TopCount);
    TallyEntries(data, name, keys, totals);
    TopKeepsEntries(entries, TopCount);
    TopDescends(entries, TopCount);
    forall i, j | 0 <= i < j < |chart|
      ensures chart[i].name != chart[j].name
    {
      assert chart[i] in entries && chart[j] in entries;
    }
    forall m | m in Names(data, name)
      ensures Slice(m, Sum(data, AmountUnder(name, m))) in chart ||
              (0 < |chart| == TopCount && Sum(data, AmountUnder(name, m)) <= chart[TopCount - 1].value)
    {
      TopIsLargest(entries, TopCount, Slice(m, Sum(data, AmountUnder(name, m))));
    }
  }

  /** `SourceBreakdown`: the five largest services and the five largest
      clients by received amount; both maps total the same received
      amount. */
  method SourceBreakdown(data: seq<SourceRow>) returns (serviceData: seq<Slice>, clientData: seq<Slice>)
    ensures TopNames(serviceData, data, ServiceKey, TopCount)
    ensures TopNames(clientData, data, ClientKey, TopCount)
  {
    var serviceKeys, serviceMap, clientKeys, clientMap := CollectSources(data);
    serviceData := ToChartData(serviceKeys, serviceMap);
    clientData := ToChartData(clientKeys, clientMap);
    TopAreLargest(data, ServiceKey, serviceKeys, serviceMap);
    TopAreLargest(data, ClientKey, clientKeys, clientMap);
  }
}
