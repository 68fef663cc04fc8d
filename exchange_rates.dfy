/**
 * The exchange-rate table: every currency of one set of dollar quotes against
 * every other, replaced wholesale by a successful refresh and read by pair
 * lookups.  The HTTP request, the cache file and the clock are parameters:
 * a refresh receives the response it would have fetched, start-up receives
 * what reading the cache produced, and times are seconds as reals.
 */
module ExchangeRates {
  import opened Wrappers
  import opened Sorting

  // ---------------------------------------------------------------------------
  // Inputs

  /** A quote response: its success flag and, when present, the quotes ("USDEUR" to 0.92) in order. */
  datatype Response = Response(success: bool, quotes: Option<seq<(string, real)>>)

  /** The stored table: base currency, then target currency, to the rate. */
  type Table = map<string, map<string, real>>

  /** What reading the cache file produces. */
  datatype CacheFile =
    | Missing                                   // no cache file
    | Unreadable                                // unreadable, not JSON, or without "rates"
    | BadTimestamp(rates: Table)                // "rates" read, then "last_update" missing or malformed
    | Cached(rates: Table, lastUpdate: real)

  /** How old a cached table may be, in seconds, before start-up refreshes it. */
  const MaxCacheAge: real := 7200.0

  // ---------------------------------------------------------------------------
  // The dollar quotes

  /** The currency a quote key names: the key without its "USD" prefix. */
  function QuoteCurrency(key: string): string
  {
    if |key| >= 3 then key[3..] else ""
  }

  /** The dollar value of each currency: "USD" at 1.0, then each quote, a later one overwriting an earlier. */
  function UsdTable(quotes: seq<(string, real)>): map<string, real>
  {
    if quotes == [] then map["USD" := 1.0]
    else
      var last := quotes[|quotes| - 1];
      UsdTable(quotes[..|quotes| - 1])[QuoteCurrency(last.0) := last.1]
  }

  /** The currencies of `UsdTable` in the order they were first inserted. */
  function CurrencyOrder(quotes: seq<(string, real)>): seq<string>
  {
    if quotes == [] then ["USD"]
    else
      var earlier := CurrencyOrder(quotes[..|quotes| - 1]);
      var c := QuoteCurrency(quotes[|quotes| - 1].0);
      if c in earlier then earlier else earlier + [c]
  }

  /**
   * The currency universe: "USD" first, then every quoted currency once, in
   * the order first quoted; exactly the currencies that have a dollar value.
   */
  lemma {:induction false} CurrencyUniverse(quotes: seq<(string, real)>)
    ensures var order := CurrencyOrder(quotes);
      |order| >= 1 && order[0] == "USD" && Distinct(order)
    ensures forall c :: c in CurrencyOrder(quotes) <==> c in UsdTable(quotes)
    ensures forall c :: c in UsdTable(quotes) <==>
      c == "USD" || exists i :: 0 <= i < |quotes| && QuoteCurrency(quotes[i].0) == c
  {
    if quotes != [] {
      var p := quotes[..|quotes| - 1];
      CurrencyUniverse(p);
      assert forall i :: 0 <= i < |p| ==> p[i] == quotes[i];
    }
  }

  /** No later quote names the same currency as quote `i`. */
  predicate LastQuote(quotes: seq<(string, real)>, i: int)
    requires 0 <= i < |quotes|
  {
    forall j :: i < j < |quotes| ==> QuoteCurrency(quotes[j].0) != QuoteCurrency(quotes[i].0)
  }

  /** A currency's dollar value is its last quote. */
  lemma {:induction false} UsdValueIsLastQuote(quotes: seq<(string, real)>, i: int)
    requires 0 <= i < |quotes| && LastQuote(quotes, i)
    ensures QuoteCurrency(quotes[i].0) in UsdTable(quotes)
    ensures UsdTable(quotes)[QuoteCurrency(quotes[i].0)] == quotes[i].1
  {
    var p := quotes[..|quotes| - 1];
    if i < |p| {
      assert p[i] == quotes[i];
      assert LastQuote(p, i) by {
        forall j | i < j < |p| ensures QuoteCurrency(p[j].0) != QuoteCurrency(p[i].0) {
          assert p[j] == quotes[j];
        }
      }
      UsdValueIsLastQuote(p, i);
    }
  }

  /** "USD" is worth 1.0 dollar unless a quote names it. */
  lemma {:induction false} UsdIsOne(quotes: seq<(string, real)>)
    requires forall i :: 0 <= i < |quotes| ==> QuoteCurrency(quotes[i].0) != "USD"
    ensures "USD" in UsdTable(quotes) && UsdTable(quotes)["USD"] == 1.0
  {
    if quotes != [] {
      var p := quotes[..|quotes| - 1];
      assert forall i :: 0 <= i < |p| ==> p[i] == quotes[i];
      UsdIsOne(p);
    }
  }

  /** The dollar-quote loop: the dictionary as a map plus its insertion order. */
  method CollectUsdRates(quotes: seq<(string, real)>) returns (usd: map<string, real>, order: seq<string>)
    ensures usd == UsdTable(quotes) && order == CurrencyOrder(quotes)
  {
    usd := map["USD" := 1.0];
    order := ["USD"];
    var i := 0;
    while i < |quotes|
      invariant 0 <= i <= |quotes|
      invariant usd == UsdTable(quotes[..i]) && order == CurrencyOrder(quotes[..i])
    {
      assert quotes[..i + 1][..i] == quotes[..i];
      var currency := QuoteCurrency(quotes[i].0);
      if currency !in order {
        order := order + [currency];
      }
      usd := usd[currency := quotes[i].1];
      i := i + 1;
    }
    assert quotes[..i] == quotes;
  }

  // ---------------------------------------------------------------------------
  // Cross rates

  /** The rate from a currency worth `base` dollars-per-unit quote to one with quote `target`. */
  function CrossRate(target: real, base: real): real
    requires base != 0.0
  {
    target * (1.0 / base)
  }

  /** Every currency of the universe has a dollar value. */
  predicate Known(order: seq<string>, usd: map<string, real>)
  {
    forall c :: c in order ==> c in usd
  }

  /** Every currency of the universe has a non-zero dollar value. */
  predicate Covers(order: seq<string>, usd: map<string, real>)
  {
    forall c :: c in order ==> c in usd && usd[c] != 0.0
  }

  /** One base's rates: every other currency of the universe, none for the base itself. */
  function Row(base: string, order: seq<string>, usd: map<string, real>): map<string, real>
    requires Known(order, usd) && base in usd && usd[base] != 0.0
  {
    map t | t in order && t != base :: CrossRate(usd[t], usd[base])
  }

  /** The whole table: a row for every currency of the universe. */
  function CrossTable(order: seq<string>, usd: map<string, real>): Table
    requires Covers(order, usd)
  {
    map b | b in order :: Row(b, order, usd)
  }

  /** The table holds, for every base and every other target, the target's quote over the base's; no diagonal. */
  lemma CrossTableEntries(order: seq<string>, usd: map<string, real>, a: string, b: string)
    requires Covers(order, usd)
    ensures var t := CrossTable(order, usd);
      (a in t <==> a in order) &&
      (a in order ==> (b in t[a] <==> b in order && b != a)) &&
      (a in order && b in order && b != a ==> t[a][b] == usd[b] * (1.0 / usd[a]))
  {
  }

  /** The inner loop: one base's row. */
  method BuildRow(base: string, order: seq<string>, usd: map<string, real>) returns (row: map<string, real>)
    requires Known(order, usd) && base in usd && usd[base] != 0.0
    ensures row == Row(base, order, usd)
  {
    row := map[];
    var j := 0;
    while j < |order|
      invariant 0 <= j <= |order|
      invariant row == map t | t in order[..j] && t != base :: CrossRate(usd[t], usd[base])
    {
      var target := order[j];
      assert order[..j + 1] == order[..j] + [target];
      if target != base {
        var targetRate := usd[target];
        row := row[target := CrossRate(targetRate, usd[base])];
      }
      j := j + 1;
    }
    assert order[..j] == order;
  }

  /** `_update_all_rates` from the point the quotes are in hand. */
  method BuildTable(order: seq<string>, usd: map<string, real>) returns (table: Option<Table>)
    requires Known(order, usd)
    ensures table.Some? <==> Covers(order, usd)
    ensures table.Some? ==> table.value == CrossTable(order, usd)
  {
    var newRates: Table := map[];
    var i := 0;
    while i < |order|
      invariant 0 <= i <= |order|
      invariant forall k :: 0 <= k < i ==> usd[order[k]] != 0.0
      invariant forall b :: b in newRates <==> b in order[..i]
      invariant forall b :: b in newRates ==> b in order && usd[b] != 0.0 && newRates[b] == Row(b, order, usd)
    {
      var base := order[i];
      if usd[base] == 0.0 {
        return None;
      }
      assert order[..i + 1] == order[..i] + [base];
      var row := BuildRow(base, order, usd);
      newRates := newRates[base := row];
      i := i + 1;
    }
    assert order[..i] == order;
    assert Covers(order, usd) by {
      forall c | c in order ensures usd[c] != 0.0 {
        var k :| 0 <= k < |order| && order[k] == c;
      }
    }
    assert newRates == CrossTable(order, usd);
    table := Some(newRates);
  }

  // ---------------------------------------------------------------------------
  // The manager's state and what each step does to it

  /** The manager's fields as one value. */
  datatype State = State(rates: Table, lastUpdate: Option<real>, currencies: seq<string>)

  /** The state before anything is loaded. */
  const Empty: State := State(map[], None, [])

  /** `get_rate`: the stored entry, or nothing when either key is missing. */
  function Lookup(t: Table, from: string, to: string): (r: Option<real>)
    ensures r.Some? <==> from in t && to in t[from]
  {
    if from in t && to in t[from] then Some(t[from][to]) else None
  }

  /**
   * A refresh given the response (`None` when the request itself failed).
   * Without success or without quotes nothing changes; with a zero quote the
   * currency list is already replaced when the division fails; otherwise the
   * table, the time and the list are all replaced.
   */
  function Refreshed(s: State, response: Option<Response>, now: real): State
  {
    match response
    case None => s
    case Some(r) =>
      if !r.success || r.quotes.None? then s
      else
        var q := r.quotes.value;
        var order, usd := CurrencyOrder(q), UsdTable(q);
        if Covers(order, usd) then State(CrossTable(order, usd), Some(now), order)
        else s.(currencies := order)
  }

  /** `_load_cache`: the new state and whether loading succeeded. */
  function Loaded(s: State, cache: CacheFile): (State, bool)
  {
    match cache
    case Missing => (s, false)
    case Unreadable => (s, false)
    case BadTimestamp(r) => (s.(rates := r), false)
    case Cached(r, t) => (s.(rates := r, lastUpdate := Some(t)), true)
  }

  /** `_initialize_rates`: load the cache, then refresh unless it loaded and is at most two hours old. */
  function Started(s: State, cache: CacheFile, now: real, response: Option<Response>, updatedAt: real): State
  {
    var (loaded, ok) := Loaded(s, cache);
    if ok && now - cache.lastUpdate <= MaxCacheAge then loaded
    else Refreshed(loaded, response, updatedAt)
  }

  class ExchangeRatesManager {
    var rates: Table
    var lastUpdate: Option<real>
    var currencies: seq<string>

    function Current(): State
      reads this
    {
      State(rates, lastUpdate, currencies)
    }

    /** Start-up: empty state, then `_initialize_rates`. */
    constructor (cache: CacheFile, now: real, response: Option<Response>, updatedAt: real)
      ensures Current() == Started(Empty, cache, now, response, updatedAt)
    {
      rates := map[];
      lastUpdate := None;
      currencies := [];
      new;
      InitializeRates(cache, now, response, updatedAt);
    }

    method InitializeRates(cache: CacheFile, now: real, response: Option<Response>, updatedAt: real)
      modifies this
      ensures Current() == Started(old(Current()), cache, now, response, updatedAt)
    {
      var ok := LoadCache(cache);
      if ok {
        var last := lastUpdate.value;
        if now - last > MaxCacheAge {
          UpdateAllRates(response, updatedAt);
        }
      } else {
        UpdateAllRates(response, updatedAt);
      }
    }

    method LoadCache(cache: CacheFile) returns (ok: bool)
      modifies this
      ensures (Current(), ok) == Loaded(old(Current()), cache)
      ensures ok ==> cache.Cached? && lastUpdate == Some(cache.lastUpdate)
    {
      match cache
      case Missing => ok := false;
      case Unreadable => ok := false;
      case BadTimestamp(r) =>
        rates := r;
        ok := false;
      case Cached(r, t) =>
        rates := r;
        lastUpdate := Some(t);
        ok := true;
    }

    method GetRate(from: string, to: string) returns (rate: Option<real>)
      ensures rate == Lookup(rates, from, to)
    {
      if from in rates && to in rates[from] {
        rate := Some(rates[from][to]);
      } else {
        rate := None;
      }
    }

    /** `_update_all_rates` given the response it fetched. */
    method UpdateAllRates(response: Option<Response>, now: real)
      modifies this
      ensures Current() == Refreshed(old(Current()), response, now)
    {
      if response.None? { return; }
      var r := response.value;
      if !r.success || r.quotes.None? { return; }
      var usd, order := CollectUsdRates(r.quotes.value);
      currencies := order;
      CurrencyUniverse(r.quotes.value);
      var table := BuildTable(order, usd);
      if table.Some? {
        rates := table.value;
        lastUpdate := Some(now);
      }
    }

    /** The currency list; a sequence is a value, so the caller's copy is independent of the field. */
    method GetAvailableCurrencies() returns (list: seq<string>)
      ensures list == currencies
    {
      list := currencies;
    }
  }

  // ---------------------------------------------------------------------------
  // Properties

  /** A failed request, an unsuccessful response or one without quotes changes nothing. */
  lemma RefreshWithoutQuotes(s: State, response: Option<Response>, now: real)
    requires response.None? || !response.value.success || response.value.quotes.None?
    ensures Refreshed(s, response, now) == s
  {
  }

  /** A zero quote leaves the table and its time alone but has already replaced the currency list. */
  lemma ZeroQuoteReplacesOnlyCurrencies(s: State, quotes: seq<(string, real)>, now: real, c: string)
    requires c in CurrencyOrder(quotes) && c in UsdTable(quotes) && UsdTable(quotes)[c] == 0.0
    ensures Refreshed(s, Some(Response(true, Some(quotes))), now)
         == State(s.rates, s.lastUpdate, CurrencyOrder(quotes))
  {
  }

  /**
   * After a refresh with non-zero quotes the time is `now`, the currency list
   * is the universe, and a lookup succeeds exactly for two different
   * currencies of it, giving the target's quote over the base's.
   */
  lemma RefreshedLookups(s: State, quotes: seq<(string, real)>, now: real, a: string, b: string)
    requires Covers(CurrencyOrder(quotes), UsdTable(quotes))
    ensures var t, order, usd := Refreshed(s, Some(Response(true, Some(quotes))), now), CurrencyOrder(quotes), UsdTable(quotes);
      t.lastUpdate == Some(now) && t.currencies == order &&
      (Lookup(t.rates, a, b).Some? <==> a in order && b in order && a != b) &&
      (Lookup(t.rates, a, b).Some? ==> Lookup(t.rates, a, b).value == usd[b] * (1.0 / usd[a]))
  {
    var order, usd := CurrencyOrder(quotes), UsdTable(quotes);
    assert Refreshed(s, Some(Response(true, Some(quotes))), now) == State(CrossTable(order, usd), Some(now), order);
    CrossTableEntries(order, usd, a, b);
  }

  /** A currency never has a rate to itself. */
  lemma NoDiagonal(s: State, quotes: seq<(string, real)>, now: real, a: string)
    requires Covers(CurrencyOrder(quotes), UsdTable(quotes))
    ensures Lookup(Refreshed(s, Some(Response(true, Some(quotes))), now).rates, a, a) == None
  {
    RefreshedLookups(s, quotes, now, a, a);
  }

  /** A cache at most two hours old is used as it is, and the currency list stays empty. */
  lemma FreshCacheIsKept(cache: CacheFile, now: real, response: Option<Response>, updatedAt: real)
    requires cache.Cached? && now - cache.lastUpdate <= MaxCacheAge
    ensures Started(Empty, cache, now, response, updatedAt) == State(cache.rates, Some(cache.lastUpdate), [])
  {
  }

  /**
   * Without a loadable cache, or with one older than two hours, start-up
   * refreshes; a cache whose timestamp is unreadable still leaves its rates
   * in place for a refresh that fails.
   */
  lemma OtherwiseRefreshes(cache: CacheFile, now: real, response: Option<Response>, updatedAt: real)
    requires !(cache.Cached? && now - cache.lastUpdate <= MaxCacheAge)
    ensures Started(Empty, cache, now, response, updatedAt) == Refreshed(Loaded(Empty, cache).0, response, updatedAt)
    ensures cache.BadTimestamp? && response.None? ==>
      Started(Empty, cache, now, response, updatedAt) == State(cache.rates, None, [])
  {
  }
}
