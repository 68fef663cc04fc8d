/**
 * The rates map the message handler hands to the formatter: for every
 * mention and every target currency other than the mention's own, the rate
 * the exchange-rates manager knows, under the key "FROM_TO", when that rate
 * is present and non-zero.
 */
module RatesRequest {
  import opened Wrappers
  import CurrencyParser
  import CurrencyFormatter
  import ExchangeRates

  type Mention = CurrencyParser.Mention

  /** Python's truth value of `get_rate`'s answer: a rate that is present and not zero. */
  predicate Usable(rate: Option<real>)
  {
    rate.Some? && rate.value != 0.0
  }

  /** The inner loop: the rates of one mentioned currency into each target, added to `rates`. */
  function Gathered(rates: map<string, real>, currency: string, targets: seq<string>, table: ExchangeRates.Table): map<string, real>
  {
    if targets == [] then rates
    else
      var earlier := Gathered(rates, currency, targets[..|targets| - 1], table);
      var target := targets[|targets| - 1];
      var rate := ExchangeRates.Lookup(table, currency, target);
      if target != currency && Usable(rate) then earlier[CurrencyFormatter.Pair(currency, target) := rate.value]
      else earlier
  }

  /** The outer loop: the rates gathered for each mention in turn. */
  function Collected(mentions: seq<Mention>, targets: seq<string>, table: ExchangeRates.Table): map<string, real>
  {
    if mentions == [] then map[]
    else Gathered(Collected(mentions[..|mentions| - 1], targets, table), mentions[|mentions| - 1].code, targets, table)
  }

  /** The handler's loops, asking the manager for each rate. */
  method RatesFor(mentions: seq<Mention>, manager: ExchangeRates.ExchangeRatesManager) returns (rates: map<string, real>)
    ensures rates == Collected(mentions, CurrencyFormatter.TargetCurrencies, manager.rates)
  {
    var targets := CurrencyFormatter.TargetCurrencies;
    rates := map[];
    var i := 0;
    while i < |mentions|
      invariant 0 <= i <= |mentions|
      invariant rates == Collected(mentions[..i], targets, manager.rates)
    {
      var curr := mentions[i].code;
      ghost var before := rates;
      var j := 0;
      while j < |targets|
        invariant 0 <= j <= |targets|
        invariant rates == Gathered(before, curr, targets[..j], manager.rates)
      {
        var target := targets[j];
        assert targets[..j + 1][..j] == targets[..j];
        if target != curr {
          var rate := manager.GetRate(curr, target);
          if rate.Some? && rate.value != 0.0 {
            rates := rates[curr + "_" + target := rate.value];
          }
        }
        j := j + 1;
      }
      assert targets[..j] == targets;
      assert mentions[..i + 1][..i] == mentions[..i];
      i := i + 1;
    }
    assert mentions[..i] == mentions;
  }

  // ---------------------------------------------------------------------------
  // What the map holds

  /** `k` is the key of converting a mentioned currency into a listed target, with that usable rate `v`. */
  ghost predicate Justified(mentions: seq<Mention>, targets: seq<string>, table: ExchangeRates.Table, k: string, v: real)
  {
    exists m, target :: m in mentions && target in targets &&
      k == CurrencyFormatter.Pair(m.code, target) && target != m.code &&
      ExchangeRates.Lookup(table, m.code, target) == Some(v) && v != 0.0
  }

  ghost predicate Sound(mentions: seq<Mention>, targets: seq<string>, table: ExchangeRates.Table, rates: map<string, real>)
  {
    forall k :: k in rates ==> Justified(mentions, targets, table, k, rates[k])
  }

  lemma {:induction false} GatheredSound(mentions: seq<Mention>, targets: seq<string>, table: ExchangeRates.Table,
                                          rates: map<string, real>, m: Mention, some: seq<string>)
    requires m in mentions && forall i :: 0 <= i < |some| ==> some[i] in targets
    requires Sound(mentions, targets, table, rates)
    ensures Sound(mentions, targets, table, Gathered(rates, m.code, some, table))
  {
    if some != [] {
      var p := some[..|some| - 1];
      GatheredSound(mentions, targets, table, rates, m, p);
      var target := some[|some| - 1];
      var rate := ExchangeRates.Lookup(table, m.code, target);
      if target != m.code && Usable(rate) {
        assert Justified(mentions, targets, table, CurrencyFormatter.Pair(m.code, target), rate.value);
      }
    }
  }

  lemma {:induction false} CollectedSoundIn(mentions: seq<Mention>, targets: seq<string>, table: ExchangeRates.Table, n: nat)
    requires n <= |mentions|
    ensures Sound(mentions, targets, table, Collected(mentions[..n], targets, table))
  {
    if n > 0 {
      CollectedSoundIn(mentions, targets, table, n - 1);
      assert mentions[..n][..n - 1] == mentions[..n - 1];
      GatheredSound(mentions, targets, table, Collected(mentions[..n - 1], targets, table), mentions[n - 1], targets);
    }
  }

  /** Every entry is the usable rate of a mentioned currency into a different listed target. */
  lemma CollectedSound(mentions: seq<Mention>, targets: seq<string>, table: ExchangeRates.Table)
    ensures Sound(mentions, targets, table, Collected(mentions, targets, table))
  {
    CollectedSoundIn(mentions, targets, table, |mentions|);
    assert mentions[..|mentions|] == mentions;
  }

  /** Keys once written stay. */
  lemma {:induction false} GatheredGrows(rates: map<string, real>, currency: string, targets: seq<string>, table: ExchangeRates.Table)
    ensures rates.Keys <= Gathered(rates, currency, targets, table).Keys
  {
    if targets != [] {
      GatheredGrows(rates, currency, targets[..|targets| - 1], table);
    }
  }

  lemma {:induction false} GatheredHas(rates: map<string, real>, currency: string, targets: seq<string>,
                                        table: ExchangeRates.Table, j: nat)
    requires j < |targets| && targets[j] != currency && Usable(ExchangeRates.Lookup(table, currency, targets[j]))
    ensures CurrencyFormatter.Pair(currency, targets[j]) in Gathered(rates, currency, targets, table)
  {
    var p := targets[..|targets| - 1];
    if j == |targets| - 1 {
    } else {
      assert targets[j] == p[j];
      GatheredHas(rates, currency, p, table, j);
      var earlier := Gathered(rates, currency, p, table);
      assert Gathered(rates, currency, targets, table).Keys >= earlier.Keys;
    }
  }

  lemma {:induction false} CollectedHas(mentions: seq<Mention>, targets: seq<string>, table: ExchangeRates.Table, i: nat, j: nat)
    requires i < |mentions| && j < |targets|
    requires targets[j] != mentions[i].code && Usable(ExchangeRates.Lookup(table, mentions[i].code, targets[j]))
    ensures CurrencyFormatter.Pair(mentions[i].code, targets[j]) in Collected(mentions, targets, table)
  {
    var p := mentions[..|mentions| - 1];
    var last := mentions[|mentions| - 1];
    if i == |mentions| - 1 {
      GatheredHas(Collected(p, targets, table), last.code, targets, table, j);
    } else {
      assert mentions[i] == p[i];
      CollectedHas(p, targets, table, i, j);
      GatheredGrows(Collected(p, targets, table), last.code, targets, table);
    }
  }

  /** A shorter first code puts the separator where the longer one still has a letter. */
  lemma SeparatorAt(a: string, b: string, c: string, d: string)
    requires |a| < |c| && '_' !in c
    ensures CurrencyFormatter.Pair(a, b) != CurrencyFormatter.Pair(c, d)
  {
    assert CurrencyFormatter.Pair(a, b)[|a|] == '_';
    assert CurrencyFormatter.Pair(c, d)[|a|] == c[|a|];
  }

  /** The key "A_B" splits back into A and B when neither holds an underscore. */
  lemma PairInjective(a: string, b: string, c: string, d: string)
    requires '_' !in a && '_' !in b && '_' !in c && '_' !in d
    requires CurrencyFormatter.Pair(a, b) == CurrencyFormatter.Pair(c, d)
    ensures a == c && b == d
  {
    var p, q := CurrencyFormatter.Pair(a, b), CurrencyFormatter.Pair(c, d);
    if |a| < |c| {
      SeparatorAt(a, b, c, d);
      assert false;
    } else if |c| < |a| {
      SeparatorAt(c, d, a, b);
      assert false;
    }
    assert a == p[..|a|] && c == q[..|c|];
    assert b == p[|a| + 1..] && d == q[|c| + 1..];
  }

  /** No currency code holds an underscore, so "FROM_TO" keys cannot collide. */
  ghost predicate PlainCodes(mentions: seq<Mention>, targets: seq<string>)
  {
    (forall m :: m in mentions ==> '_' !in m.code) && (forall t :: t in targets ==> '_' !in t)
  }

  /**
   * The formatter finds a rate for a mention and a target exactly when the
   * target is another currency whose rate is present and non-zero, and it
   * finds that rate.
   */
  lemma RateForEveryPair(mentions: seq<Mention>, targets: seq<string>, table: ExchangeRates.Table, i: nat, j: nat)
    requires i < |mentions| && j < |targets| && PlainCodes(mentions, targets)
    ensures var rates := Collected(mentions, targets, table);
      var key := CurrencyFormatter.Pair(mentions[i].code, targets[j]);
      var rate := ExchangeRates.Lookup(table, mentions[i].code, targets[j]);
      (key in rates <==> targets[j] != mentions[i].code && Usable(rate)) &&
      (key in rates ==> rates[key] == rate.value)
  {
    var rates := Collected(mentions, targets, table);
    var c, t := mentions[i].code, targets[j];
    var key := CurrencyFormatter.Pair(c, t);
    if t != c && Usable(ExchangeRates.Lookup(table, c, t)) {
      CollectedHas(mentions, targets, table, i, j);
    }
    if key in rates {
      CollectedSound(mentions, targets, table);
      assert Justified(mentions, targets, table, key, rates[key]);
      var m, target :| m in mentions && target in targets &&
        key == CurrencyFormatter.Pair(m.code, target) && target != m.code &&
        ExchangeRates.Lookup(table, m.code, target) == Some(rates[key]) && rates[key] != 0.0;
      PairInjective(c, t, m.code, target);
    }
  }

  /** The handler's targets carry no underscore. */
  lemma TargetsArePlain()
    ensures forall t :: t in CurrencyFormatter.TargetCurrencies ==> '_' !in t
  {
  }
}
