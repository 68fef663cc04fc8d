/**
 * The mention extractor: turning a captured numeral and a currency tag into an
 * amount in a base currency, and choosing one match per stretch of text.
 * The regular-expression engine is not modelled: `FindCurrencies` receives,
 * for every pattern of the table, the matches that engine reported.
 */
module CurrencyParser {
  import opened Wrappers
  import opened Text
  import Sorting

  // ---------------------------------------------------------------------------
  // Tables

  /**
   * A pattern's currency tag.  Ordinary tags are a currency code; the special
   * tags of the table are a base code with a factor: "USDK", "EURK" and
   * "RUBK" are `Thousands` of their base, "USDCENT" and "EURCENT" are `Cents`.
   */
  datatype Tag =
    | Plain(code: string)
    | Thousands(base: string)
    | Cents(base: string)

  /** The tag as the pattern table spells it. */
  function TagName(t: Tag): string
  {
    match t
    case Plain(code) => code
    case Thousands(base) => base + "K"
    case Cents(base) => base + "CENT"
  }

  /** The currency name of every pattern, in registration order. */
  const PatternNames: seq<string> := [
    "ILS", "ILS",
    "GBP", "GBP", "GBP",
    "RUB", "RUB", "RUBK", "RUBK",
    "USD", "USD", "USD", "USDCENT", "USDK", "USDK",
    "EUR", "EUR", "EUR", "EURCENT", "EURK", "EURK",
    "JPY", "JPY", "JPY",
    "PLN", "PLN",
    "TRY", "TRY", "TRY", "TRY", "TRY",
    "CZK", "CZK",
    "UAH", "UAH",
    "BYN", "BYN",
    "AMD", "CNY", "GEL", "RSD", "THB",
    "KZT", "CAD", "MXN", "RON"
  ]

  /** `currency_mapping`: the base code of each special tag name. */
  const CurrencyMapping: map<string, string> :=
    map["USDK" := "USD", "EURK" := "EUR", "RUBK" := "RUB", "USDCENT" := "USD", "EURCENT" := "EUR"]

  /** `currency_multipliers`: the factor of each special tag name. */
  const CurrencyMultipliers: map<string, real> :=
    map["USDK" := 1000.0, "EURK" := 1000.0, "RUBK" := 1000.0, "USDCENT" := 0.01, "EURCENT" := 0.01]

  /** The tag a pattern's name stands for, looked up by name as `_convert_amount` does. */
  function TagOfName(name: string): Tag
  {
    if name in CurrencyMultipliers && name in CurrencyMapping then
      if CurrencyMultipliers[name] == 1000.0 then Thousands(CurrencyMapping[name])
      else Cents(CurrencyMapping[name])
    else Plain(name)
  }

  /**
   * The by-name dispatch of `_convert_amount`: a name is special exactly when
   * it is a key of the multiplier table (and then of the base table too), a
   * special name's tag carries the tables' base and factor, an ordinary name
   * is its own base with factor one, and every name spells its tag back.
   */
  lemma TagOfNameMatchesTables(name: string)
    ensures !TagOfName(name).Plain? <==> name in CurrencyMultipliers
    ensures name in CurrencyMultipliers ==> name in CurrencyMapping
    ensures name in CurrencyMultipliers ==>
      BaseCode(TagOfName(name)) == CurrencyMapping[name] &&
      Multiplier(TagOfName(name)) == CurrencyMultipliers[name]
    ensures name !in CurrencyMultipliers ==>
      BaseCode(TagOfName(name)) == name && Multiplier(TagOfName(name)) == 1.0
    ensures TagName(TagOfName(name)) == name
  {
    if name in CurrencyMultipliers {
      assert name in {"USDK", "EURK", "RUBK", "USDCENT", "EURCENT"};
    }
  }

  /** The base currency a tag converts into (the currency mapping). */
  function BaseCode(tag: Tag): string
  {
    match tag
    case Plain(code) => code
    case Thousands(base) => base
    case Cents(base) => base
  }

  /** The factor a special tag applies to the captured amount (the currency multipliers). */
  function Multiplier(tag: Tag): real
  {
    match tag
    case Plain(_) => 1.0
    case Thousands(_) => 1000.0
    case Cents(_) => 0.01
  }

  /** The shorthand thousands suffix, Cyrillic "ka". */
  const ThousandSuffix: char := 'к'

  // ---------------------------------------------------------------------------
  // Amount normalisation

  datatype Amount = Amount(value: real, code: string)

  /**
   * The thousands-versus-decimal heuristic on a numeral whose spaces are gone:
   * a repeated separator means every separator groups thousands; of one '.'
   * and one ',' the rightmost is the decimal point; a lone ',' is a decimal
   * point when at most two characters follow it; a lone '.' stays a point.
   */
  function NormalizeSeparators(s: string): string
  {
    if Count(s, '.') > 1 || Count(s, ',') > 1 then RemoveChar(RemoveChar(s, ','), '.')
    else if ',' in s && '.' in s then
      if LastIndexOf(s, ',') > LastIndexOf(s, '.') then ReplaceChar(RemoveChar(s, '.'), ',', '.')
      else RemoveChar(s, ',')
    else if ',' in s then
      var comma := IndexOf(s, ',');
      assert s[..|s|] == s;
      if |s[comma + 1..]| <= 2 then ReplaceChar(s, ',', '.') else RemoveChar(s, ',')
    else s
  }

  /** Spaces dropped, separators resolved, then `float()`. */
  function ParseNumeral(s: string): Option<real>
  {
    ParseFloat(NormalizeSeparators(RemoveChar(s, ' ')))
  }

  /** The numeral's value times the tag's factor. */
  function Times(x: real, factor: real): (r: real)
    ensures x >= 0.0 && factor >= 0.0 ==> r >= 0.0
  {
    x * factor
  }

  function Scaled(v: Option<real>, factor: real, code: string): Result<Amount>
  {
    match v
    case None => Err(ParseFailure)
    case Some(x) => Ok(Amount(Times(x, factor), code))
  }

  /**
   * `_convert_amount`: the amount a captured numeral denotes under a tag, and
   * the base currency.  Special tags scale by their factor and never read the
   * shorthand suffix; ordinary tags read a trailing "к" as times one thousand.
   */
  function ConvertAmount(amountStr: string, tag: Tag): (r: Result<Amount>)
    ensures r.Ok? ==> r.value.code == BaseCode(tag) && r.value.value >= 0.0
  {
    if !tag.Plain? then
      if amountStr == [] && tag.Thousands? then Ok(Amount(1000.0, BaseCode(tag)))
      else Scaled(ParseNumeral(amountStr), Multiplier(tag), BaseCode(tag))
    else if EndsWith(LowerString(amountStr), ThousandSuffix) then
      Scaled(ParseNumeral(RStrip(LowerString(amountStr), ThousandSuffix)), 1000.0, tag.code)
    else
      Scaled(ParseNumeral(amountStr), 1.0, tag.code)
  }

  // ---------------------------------------------------------------------------
  // Properties of the normaliser

  /** A bare kilo word is one thousand of the base currency, not a thousand thousands. */
  lemma BareKiloWordIsOneThousand(tag: Tag)
    requires tag.Thousands?
    ensures ConvertAmount("", tag) == Ok(Amount(1000.0, BaseCode(tag)))
  {
  }

  /** The cent tags have no bare form: an empty numeral fails to parse. */
  lemma BareCentWordFails(tag: Tag)
    requires tag.Cents?
    ensures ConvertAmount("", tag) == Err(ParseFailure)
  {
    assert RemoveChar("", ' ') == "";
    assert NormalizeSeparators("") == "";
  }

  /**
   * A special tag with a numeral is the numeral, read as it stands (no
   * shorthand suffix), scaled by the tag's factor in the base currency.
   */
  lemma SpecialTagScalesBase(s: string, tag: Tag)
    requires !tag.Plain? && s != []
    ensures ConvertAmount(s, tag) == Scaled(ParseNumeral(s), Multiplier(tag), BaseCode(tag))
  {
  }

  /**
   * For every special name, a whole or decimal numeral is its value times the
   * name's `currency_multipliers` factor, in the name's `currency_mapping` base.
   */
  lemma SpecialNameScalesNumeral(name: string, a: string, b: string)
    requires name in CurrencyMultipliers
    requires AllDigits(a) && AllDigits(b) && a != []
    ensures ConvertAmount(a, TagOfName(name)) ==
      Ok(Amount(Times(DigitsValue(a) as real, CurrencyMultipliers[name]), CurrencyMapping[name]))
    ensures ConvertAmount(a + "." + b, TagOfName(name)) ==
      Ok(Amount(Times(DecimalValue(a, b), CurrencyMultipliers[name]), CurrencyMapping[name]))
  {
    var tag, factor, base := TagOfName(name), CurrencyMultipliers[name], CurrencyMapping[name];
    assert !tag.Plain? && Multiplier(tag) == factor && BaseCode(tag) == base by {
      TagOfNameMatchesTables(name);
    }
    assert ParseNumeral(a) == Some(DigitsValue(a) as real) by {
      WholeNumeral(a);
    }
    SpecialTagScalesBase(a, tag);
    assert ParseNumeral(a + "." + b) == Some(DecimalValue(a, b)) by {
      LonePointIsDecimal(a, b);
    }
    SpecialTagScalesBase(a + "." + b, tag);
  }

  /** A digit string reads as its value. */
  lemma WholeNumeral(a: string)
    requires AllDigits(a) && a != []
    ensures ParseNumeral(a) == Some(DigitsValue(a) as real)
  {
    DigitsHaveNoSeparators(a);
    Spaceless(a);
    NormalizeLonePoint(a);
    ParseFloatInteger(a);
  }

  /**
   * Special tags skip the shorthand branch, so any numeral ending in "к" (either
   * case) under a kilo or cent tag reaches `float()` with the letter and fails.
   */
  lemma KiloTagRejectsShorthand(s: string, tag: Tag, k: char)
    requires !tag.Plain?
    requires k == 'к' || k == 'К'
    ensures ConvertAmount(s + [k], tag) == Err(ParseFailure)
  {
    var t := s + [k];
    assert k in t by { assert t[|s|] == k; }
    RemoveCharMembers(t, ' ');
    NormalizeKeeps(RemoveChar(t, ' '), k);
    ParseFloatRejects(NormalizeSeparators(RemoveChar(t, ' ')), k);
    SpecialTagScalesBase(t, tag);
  }

  /** The separator heuristic only drops or rewrites '.' and ','; every other character stays. */
  lemma NormalizeKeeps(t: string, k: char)
    requires k in t && k != '.' && k != ','
    ensures k in NormalizeSeparators(t)
  {
    if Count(t, '.') > 1 || Count(t, ',') > 1 {
      RemoveKeeps(t, ',', k);
      RemoveKeeps(RemoveChar(t, ','), '.', k);
    } else if ',' in t && '.' in t {
      if LastIndexOf(t, ',') > LastIndexOf(t, '.') {
        RemoveKeeps(t, '.', k);
        ReplaceKeeps(RemoveChar(t, '.'), ',', '.', k);
      } else {
        RemoveKeeps(t, ',', k);
      }
    } else if ',' in t {
      RemoveKeeps(t, ',', k);
      ReplaceKeeps(t, ',', '.', k);
    }
  }

  lemma RemoveKeeps(t: string, c: char, k: char)
    requires k in t && k != c
    ensures k in RemoveChar(t, c)
  {
    RemoveCharMembers(t, c);
  }

  lemma ReplaceKeeps(t: string, c: char, d: char, k: char)
    requires k in t && k != c
    ensures k in ReplaceChar(t, c, d)
  {
    var j :| 0 <= j < |t| && t[j] == k;
    assert ReplaceChar(t, c, d)[j] == k;
  }

  predicate IsNumeralChar(c: char) { IsDigit(c) || c == '.' || c == ',' || c == ' ' }

  lemma LowerKeepsNumeral(s: string)
    requires forall i :: 0 <= i < |s| ==> IsNumeralChar(s[i])
    ensures LowerString(s) == s
  {
    LowerStringAt(s);
  }

  /**
   * For an ordinary tag a trailing "к" (either case) means the rest of the
   * numeral times one thousand.
   */
  lemma ShorthandMeansThousands(s: string, tag: Tag, k: char)
    requires tag.Plain?
    requires k == 'к' || k == 'К'
    requires forall i :: 0 <= i < |s| ==> IsNumeralChar(s[i])
    ensures ConvertAmount(s + [k], tag) == Scaled(ParseNumeral(s), 1000.0, tag.code)
  {
    var t := s + [k];
    assert EndsWith(LowerString(t), ThousandSuffix) by {
      LowerWithSuffix(s, k);
    }
    assert RStrip(LowerString(t), ThousandSuffix) == s by {
      LowerWithSuffix(s, k);
      StripSuffix(s);
    }
    ConvertPlain(t, tag);
  }

  /** Without the suffix an ordinary tag takes the numeral as it stands. */
  lemma PlainNumeralAsIs(s: string, tag: Tag)
    requires tag.Plain?
    requires forall i :: 0 <= i < |s| ==> IsNumeralChar(s[i])
    ensures ConvertAmount(s, tag) == Scaled(ParseNumeral(s), 1.0, tag.code)
  {
    assert !EndsWith(LowerString(s), ThousandSuffix) by {
      LowerKeepsNumeral(s);
      NoSuffix(s);
    }
    ConvertPlain(s, tag);
  }

  /** `_convert_amount` on an ordinary tag, with the shorthand test made explicit. */
  lemma ConvertPlain(t: string, tag: Tag)
    requires tag.Plain?
    ensures ConvertAmount(t, tag) ==
      if EndsWith(LowerString(t), ThousandSuffix)
      then Scaled(ParseNumeral(RStrip(LowerString(t), ThousandSuffix)), 1000.0, tag.code)
      else Scaled(ParseNumeral(t), 1.0, tag.code)
  {
  }

  lemma LowerWithSuffix(s: string, k: char)
    requires k == 'к' || k == 'К'
    requires forall i :: 0 <= i < |s| ==> IsNumeralChar(s[i])
    ensures LowerString(s + [k]) == s + [ThousandSuffix]
  {
    LowerStringAppend(s, [k]);
    LowerKeepsNumeral(s);
    LowerSuffixLetter(k);
  }

  lemma LowerSuffixLetter(k: char)
    requires k == 'к' || k == 'К'
    ensures LowerString([k]) == [ThousandSuffix]
  {
    assert Lower(k) == ThousandSuffix;
    assert LowerString([k]) == [Lower(k)] + LowerString([]);
  }

  lemma NoSuffix(s: string)
    requires forall i :: 0 <= i < |s| ==> IsNumeralChar(s[i])
    ensures !EndsWith(s, ThousandSuffix)
  {
    if s != [] { assert IsNumeralChar(s[|s| - 1]); }
  }

  lemma StripSuffix(s: string)
    requires forall i :: 0 <= i < |s| ==> IsNumeralChar(s[i])
    ensures RStrip(s + [ThousandSuffix], ThousandSuffix) == s
  {
    assert (s + [ThousandSuffix])[..|s|] == s;
    NoSuffix(s);
  }

  // Every numeral the table's numeral grammar captures parses.

  predicate HasDigit(s: string) { exists i :: 0 <= i < |s| && IsDigit(s[i]) }

  /** Digits with at most one decimal point and at least one digit. */
  predicate PlainDecimal(t: string)
  {
    (forall i :: 0 <= i < |t| ==> IsDigit(t[i]) || t[i] == '.') && Count(t, '.') <= 1 && HasDigit(t)
  }

  lemma PlainDecimalParses(t: string)
    requires PlainDecimal(t)
    ensures ParseFloat(t).Some?
  {
    if '.' !in t {
      assert AllDigits(t) by {
        forall j | 0 <= j < |t| ensures IsDigit(t[j]) { assert t[j] in t; }
      }
      ParseFloatInteger(t);
    } else {
      var i := IndexOf(t, '.');
      var a, b := t[..i], t[i + 1..];
      assert t == a + "." + b;
      assert '.' !in b by {
        CountAppend(a + ".", b, '.');
        CountAppend(a, ".", '.');
      }
      assert AllDigits(a) by {
        forall j | 0 <= j < |a| ensures IsDigit(a[j]) { assert a[j] == t[j] && a[j] in a; }
      }
      assert AllDigits(b) by {
        forall j | 0 <= j < |b| ensures IsDigit(b[j]) { assert b[j] == t[i + 1 + j] && b[j] in b; }
      }
      assert a != [] || b != [] by {
        var d :| 0 <= d < |t| && IsDigit(t[d]);
        assert d != i;
      }
      ParseFloatDecimal(a, b);
    }
  }

  lemma CountRemoveOther(s: string, c: char, d: char)
    requires c != d
    ensures Count(RemoveChar(s, c), d) == Count(s, d)
  {
    if s != [] {
      assert s == [s[0]] + s[1..];
      RemoveCharAppend([s[0]], s[1..], c);
      CountAppend(RemoveChar([s[0]], c), RemoveChar(s[1..], c), d);
      CountRemoveOther(s[1..], c, d);
    }
  }

  lemma CountReplaceFresh(s: string, c: char, d: char)
    requires d !in s && c != d
    ensures Count(ReplaceChar(s, c, d), d) == Count(s, c)
  {
    if s != [] {
      assert d !in s[1..] by { assert forall x :: x in s[1..] ==> x in s; }
      CountReplaceFresh(s[1..], c, d);
      assert ReplaceChar(s, c, d)[1..] == ReplaceChar(s[1..], c, d);
    }
  }

  lemma RemoveKeepsDigit(s: string, c: char)
    requires HasDigit(s) && !IsDigit(c)
    ensures HasDigit(RemoveChar(s, c))
  {
    var i :| 0 <= i < |s| && IsDigit(s[i]);
    assert s[i] in s;
    var r := RemoveChar(s, c);
    RemoveCharMembers(s, c);
    assert s[i] in r;
    var j :| 0 <= j < |r| && r[j] == s[i];
  }

  /** Digits, points and commas only. */
  predicate Separated(t: string)
  {
    forall i :: 0 <= i < |t| ==> IsDigit(t[i]) || t[i] == '.' || t[i] == ','
  }

  lemma RemoveKeepsShape(s: string, c: char)
    requires Separated(s)
    ensures Separated(RemoveChar(s, c))
  {
    var r := RemoveChar(s, c);
    RemoveCharMembers(s, c);
    forall i | 0 <= i < |r| ensures IsDigit(r[i]) || r[i] == '.' || r[i] == ',' {
      assert r[i] in r;
      var j :| 0 <= j < |s| && s[j] == r[i];
    }
  }

  lemma PlainAfterRemovingBoth(t: string)
    requires Separated(t) && HasDigit(t)
    ensures PlainDecimal(RemoveChar(RemoveChar(t, ','), '.'))
  {
    var u := RemoveChar(t, ',');
    var r := RemoveChar(u, '.');
    RemoveKeepsDigit(t, ',');
    RemoveKeepsDigit(u, '.');
    RemoveKeepsShape(t, ',');
    RemoveKeepsShape(u, '.');
    RemoveCharMembers(t, ',');
    RemoveCharMembers(u, '.');
    forall i | 0 <= i < |r| ensures IsDigit(r[i]) {
      assert r[i] in r;
      assert r[i] in u;
    }
  }

  lemma PlainAfterCommaToPoint(t: string)
    requires Separated(t) && HasDigit(t) && Count(t, ',') == 1
    ensures PlainDecimal(ReplaceChar(RemoveChar(t, '.'), ',', '.'))
  {
    var u := RemoveChar(t, '.');
    var r := ReplaceChar(u, ',', '.');
    RemoveKeepsDigit(t, '.');
    RemoveKeepsShape(t, '.');
    CountReplaceFresh(u, ',', '.');
    CountRemoveOther(t, '.', ',');
    var d :| 0 <= d < |u| && IsDigit(u[d]);
    assert IsDigit(r[d]);
    forall i | 0 <= i < |r| ensures IsDigit(r[i]) || r[i] == '.' {
      assert IsDigit(u[i]) || u[i] == '.' || u[i] == ',';
    }
  }

  lemma PlainAfterDroppingCommas(t: string)
    requires Separated(t) && HasDigit(t) && Count(t, '.') <= 1
    ensures PlainDecimal(RemoveChar(t, ','))
  {
    var r := RemoveChar(t, ',');
    RemoveKeepsDigit(t, ',');
    RemoveKeepsShape(t, ',');
    CountRemoveOther(t, ',', '.');
    forall i | 0 <= i < |r| ensures IsDigit(r[i]) || r[i] == '.' {
      assert r[i] in r;
    }
  }

  /** Whatever branch of the heuristic applies, the result is a plain decimal. */
  lemma NormalizedIsPlain(t: string)
    requires Separated(t) && HasDigit(t)
    ensures PlainDecimal(NormalizeSeparators(t))
  {
    if Count(t, '.') > 1 || Count(t, ',') > 1 {
      PlainAfterRemovingBoth(t);
    } else if ',' in t && '.' in t {
      if LastIndexOf(t, ',') > LastIndexOf(t, '.') {
        PlainAfterCommaToPoint(t);
      } else {
        PlainAfterDroppingCommas(t);
      }
    } else if ',' in t {
      var comma := IndexOf(t, ',');
      assert t[..|t|] == t;
      if |t[comma + 1..]| <= 2 {
        RemoveCharAbsent(t, '.');
        PlainAfterCommaToPoint(t);
      } else {
        PlainAfterDroppingCommas(t);
      }
    } else {
      assert PlainDecimal(t);
    }
  }

  /**
   * A superset of what the numeral group of the pattern table captures:
   * digits, '.', ',' and spaces with at least one digit, optionally followed
   * by the shorthand suffix in either case.
   */
  predicate IsNumeral(s: string)
  {
    var body := if s != [] && (s[|s| - 1] == 'к' || s[|s| - 1] == 'К') then s[..|s| - 1] else s;
    (forall i :: 0 <= i < |body| ==> IsNumeralChar(body[i])) && HasDigit(body)
  }

  lemma NumeralBodyParses(body: string)
    requires forall i :: 0 <= i < |body| ==> IsNumeralChar(body[i])
    requires HasDigit(body)
    ensures ParseNumeral(body).Some?
  {
    var t := RemoveChar(body, ' ');
    RemoveCharMembers(body, ' ');
    forall i | 0 <= i < |t| ensures IsDigit(t[i]) || t[i] == '.' || t[i] == ',' {
      assert t[i] in t;
      var j :| 0 <= j < |body| && body[j] == t[i];
    }
    RemoveKeepsDigit(body, ' ');
    NormalizedIsPlain(t);
    PlainDecimalParses(NormalizeSeparators(t));
  }

  /**
   * No numeral the patterns can capture makes an ordinary tag raise: the
   * separator heuristic always leaves something `float()` accepts.
   */
  lemma OrdinaryTagAlwaysParses(s: string, tag: Tag)
    requires IsNumeral(s) && tag.Plain?
    ensures ConvertAmount(s, tag).Ok?
  {
    if s != [] && (s[|s| - 1] == 'к' || s[|s| - 1] == 'К') {
      var body := s[..|s| - 1];
      assert s == body + [s[|s| - 1]];
      NumeralBodyParses(body);
      ShorthandMeansThousands(body, tag, s[|s| - 1]);
    } else {
      NumeralBodyParses(s);
      PlainNumeralAsIs(s, tag);
    }
  }

  // Worked cases of the separator heuristic, stated for all digit strings.

  lemma DigitsHaveNoSeparators(a: string)
    requires AllDigits(a)
    ensures Count(a, ' ') == 0 && Count(a, '.') == 0 && Count(a, ',') == 0
  {
    assert ' ' !in a && '.' !in a && ',' !in a;
  }

  lemma Count3(a: string, x: char, b: string, c: char)
    ensures Count(a + [x] + b, c) == Count(a, c) + (if x == c then 1 else 0) + Count(b, c)
  {
    CountAppend(a + [x], b, c);
    CountAppend(a, [x], c);
  }

  lemma Spaceless(s: string)
    requires Count(s, ' ') == 0
    ensures RemoveChar(s, ' ') == s
  {
    RemoveCharAbsent(s, ' ');
  }

  lemma NormalizeRepeated(t: string)
    requires Count(t, '.') > 1 || Count(t, ',') > 1
    ensures NormalizeSeparators(t) == RemoveChar(RemoveChar(t, ','), '.')
  {
  }

  lemma NormalizeMixed(t: string, point: nat, comma: nat)
    requires Count(t, '.') == 1 && Count(t, ',') == 1
    requires '.' in t && ',' in t
    requires LastIndexOf(t, '.') == point && LastIndexOf(t, ',') == comma
    ensures NormalizeSeparators(t) ==
      if comma > point then ReplaceChar(RemoveChar(t, '.'), ',', '.') else RemoveChar(t, ',')
  {
  }

  lemma NormalizeLoneComma(t: string, comma: nat)
    requires Count(t, '.') == 0 && Count(t, ',') == 1
    requires IndexOf(t, ',') == comma
    ensures comma < |t|
    ensures NormalizeSeparators(t) ==
      if |t| - comma - 1 <= 2 then ReplaceChar(t, ',', '.') else RemoveChar(t, ',')
  {
  }

  lemma NormalizeLonePoint(t: string)
    requires Count(t, '.') <= 1 && Count(t, ',') == 0
    ensures NormalizeSeparators(t) == t
  {
  }

  /** "10,5": a lone comma with at most two digits after it is a decimal point. */
  lemma DecimalComma(a: string, b: string)
    requires AllDigits(a) && AllDigits(b) && a != [] && |b| <= 2
    ensures ParseNumeral(a + "," + b) == Some(DecimalValue(a, b))
  {
    var s := a + [','] + b;
    DigitsHaveNoSeparators(a);
    DigitsHaveNoSeparators(b);
    Count3(a, ',', b, ' ');
    Count3(a, ',', b, '.');
    Count3(a, ',', b, ',');
    Spaceless(s);
    assert s[..|a|] == a;
    IndexOfIs(s, ',', |a|);
    NormalizeLoneComma(s, |a|);
    ReplaceCharOne(a, b, ',', '.');
    ParseFloatDecimal(a, b);
  }

  /** "1,234": a lone comma with three or more digits after it groups thousands. */
  lemma ThousandsComma(a: string, b: string)
    requires AllDigits(a) && AllDigits(b) && |b| >= 3
    ensures AllDigits(a + b)
    ensures ParseNumeral(a + "," + b) == Some(DigitsValue(a + b) as real)
  {
    var s := a + [','] + b;
    DigitsHaveNoSeparators(a);
    DigitsHaveNoSeparators(b);
    Count3(a, ',', b, ' ');
    Count3(a, ',', b, '.');
    Count3(a, ',', b, ',');
    Spaceless(s);
    assert s[..|a|] == a;
    IndexOfIs(s, ',', |a|);
    NormalizeLoneComma(s, |a|);
    RemoveCharOne(a, b, ',');
    DigitsValueAppend(a, b);
    ParseFloatInteger(a + b);
  }

  /** "1000.50": a lone point is always decimal, whatever follows it. */
  lemma LonePointIsDecimal(a: string, b: string)
    requires AllDigits(a) && AllDigits(b) && a != []
    ensures ParseNumeral(a + "." + b) == Some(DecimalValue(a, b))
  {
    var s := a + ['.'] + b;
    DigitsHaveNoSeparators(a);
    DigitsHaveNoSeparators(b);
    Count3(a, '.', b, ' ');
    Count3(a, '.', b, '.');
    Count3(a, '.', b, ',');
    Spaceless(s);
    NormalizeLonePoint(s);
    ParseFloatDecimal(a, b);
  }

  /** Where the two separators of "a x b y c" sit, and how many of each there are. */
  lemma TwoSeparators(a: string, x: char, b: string, y: char, c: string)
    requires AllDigits(a) && AllDigits(b) && AllDigits(c)
    requires x == '.' || x == ','
    requires y == '.' || y == ','
    ensures Count(a + [x] + b + [y] + c, ' ') == 0
    ensures Count(a + [x] + b + [y] + c, '.') == (if x == '.' then 1 else 0) + (if y == '.' then 1 else 0)
    ensures Count(a + [x] + b + [y] + c, ',') == (if x == ',' then 1 else 0) + (if y == ',' then 1 else 0)
  {
    DigitsHaveNoSeparators(a);
    DigitsHaveNoSeparators(b);
    DigitsHaveNoSeparators(c);
    var u := a + [x] + b;
    assert u + [y] + c == a + [x] + b + [y] + c;
    Count3(u, y, c, ' ');
    Count3(u, y, c, '.');
    Count3(u, y, c, ',');
    Count3(a, x, b, ' ');
    Count3(a, x, b, '.');
    Count3(a, x, b, ',');
  }

  lemma Regroup5<T>(a: seq<T>, x: T, b: seq<T>, y: T, c: seq<T>)
    ensures a + [x] + b + [y] + c == a + [x] + (b + [y] + c)
    ensures a + (b + [y] + c) == (a + b) + [y] + c
    ensures (a + [x] + b + [y] + c)[|a|] == x
    ensures (a + [x] + b + [y] + c)[|a| + |b| + 1] == y
    ensures (a + [x] + b + [y] + c)[|a| + 1..] == b + [y] + c
    ensures (a + [x] + b + [y] + c)[|a| + |b| + 2..] == c
  {
    var s := a + [x] + b + [y] + c;
    assert s == a + ([x] + (b + ([y] + c)));
  }

  /** "1,000.50" and "1.000,50": of one point and one comma the rightmost is decimal. */
  lemma MixedSeparators(a: string, b: string, c: string, x: char, y: char)
    requires AllDigits(a) && AllDigits(b) && AllDigits(c) && a != []
    requires (x, y) == ('.', ',') || (x, y) == (',', '.')
    ensures AllDigits(a + b)
    ensures ParseNumeral(a + [x] + b + [y] + c) == Some(DecimalValue(a + b, c))
  {
    DigitsValueAppend(a, b);
    var u := a + [x] + b;
    var s := u + [y] + c;
    assert RemoveChar(s, ' ') == s && Count(s, '.') == 1 && Count(s, ',') == 1 by {
      TwoSeparators(a, x, b, y, c);
      Spaceless(s);
    }
    assert LastIndexOf(s, y) == |u| && LastIndexOf(s, x) == |a| by {
      DigitsHaveNoSeparators(b);
      DigitsHaveNoSeparators(c);
      Regroup5(a, x, b, y, c);
      LastIndexOfIs(s, y, |u|);
      Count3(b, y, c, x);
      LastIndexOfIs(s, x, |a|);
    }
    assert NormalizeSeparators(s) == (a + b) + ['.'] + c by {
      NormalizeMixed(s, if x == '.' then |a| else |u|, if x == ',' then |a| else |u|);
      DigitsHaveNoSeparators(a);
      DigitsHaveNoSeparators(b);
      DigitsHaveNoSeparators(c);
      Regroup5(a, x, b, y, c);
      Count3(b, y, c, x);
      if x == '.' {
        RemoveCharOne(a, b + [y] + c, '.');
        ReplaceCharOne(a + b, c, ',', '.');
      } else {
        RemoveCharOne(a, b + [y] + c, ',');
      }
    }
    ParseFloatDecimal(a + b, c);
  }

  lemma RemoveBoth(a: string, b: string, c: string, x: char)
    requires AllDigits(a) && AllDigits(b) && AllDigits(c)
    requires x == '.' || x == ','
    ensures RemoveChar(a + [x] + b + [x] + c, x) == a + b + c
  {
    var u := a + [x] + b;
    assert x !in a && x !in b && x !in c by { DigitsHaveNoSeparators(a); DigitsHaveNoSeparators(b); DigitsHaveNoSeparators(c); }
    assert RemoveChar(u, x) == a + b by { RemoveCharOne(a, b, x); }
    assert RemoveChar(u + [x], x) == a + b by {
      RemoveCharAppend(u, [x], x);
      assert RemoveChar([x], x) == [];
    }
    assert RemoveChar(c, x) == c by { RemoveCharAbsent(c, x); }
    RemoveCharAppend(u + [x], c, x);
  }

  /** "1.234.567" and "1,234,567": a repeated separator means all of them group thousands. */
  lemma RepeatedSeparatorGroups(a: string, b: string, c: string, x: char)
    requires AllDigits(a) && AllDigits(b) && AllDigits(c) && a != []
    requires x == '.' || x == ','
    ensures AllDigits(a + b + c)
    ensures ParseNumeral(a + [x] + b + [x] + c) == Some(DigitsValue(a + b + c) as real)
  {
    DigitsValueAppend(a, b);
    DigitsValueAppend(a + b, c);
    var s := a + [x] + b + [x] + c;
    TwoSeparators(a, x, b, x, c);
    Spaceless(s);
    NormalizeRepeated(s);
    var other := if x == '.' then ',' else '.';
    RemoveCharAbsent(s, other);
    RemoveBoth(a, b, c, x);
    DigitsHaveNoSeparators(a + b + c);
    RemoveCharAbsent(a + b + c, other);
    ParseFloatInteger(a + b + c);
  }

  // ---------------------------------------------------------------------------
  // Overlap resolution

  /** One match the engine reported: its span, the captured numeral, the matched text. */
  datatype RawMatch = RawMatch(start: nat, end: nat, amount: string, text: string)

  /** A converted match that still carries its span. */
  datatype Located = Located(start: nat, end: nat, amount: real, code: string, text: string)

  /** What `find_currencies` returns per mention: amount, base code, matched text. */
  datatype Mention = Mention(amount: real, code: string, text: string)

  datatype Tagged = Tagged(tag: Tag, raw: RawMatch)

  function TagAll(tag: Tag, ms: seq<RawMatch>): (r: seq<Tagged>)
    ensures |r| == |ms|
  {
    if ms == [] then [] else [Tagged(tag, ms[0])] + TagAll(tag, ms[1..])
  }

  /**
   * The matches of patterns `p` onwards of a table with pattern names `names`,
   * pattern by pattern, each tagged with the tag its pattern's name stands for.
   */
  function FlattenFrom(names: seq<string>, found: seq<seq<RawMatch>>, p: nat): seq<Tagged>
    requires p <= |found| <= |names|
    decreases |found| - p
  {
    if p == |found| then [] else TagAll(TagOfName(names[p]), found[p]) + FlattenFrom(names, found, p + 1)
  }

  /** All matches in the order the table and the engine report them. */
  function Flatten(found: seq<seq<RawMatch>>): seq<Tagged>
    requires |found| <= |PatternNames|
  {
    FlattenFrom(PatternNames, found, 0)
  }

  function Locate(x: Tagged, a: Amount): Located
  {
    Located(x.raw.start, x.raw.end, a.value, a.code, x.raw.text)
  }

  /** Conversion of every match in order; the first failure aborts the whole call. */
  function ConvertAll(xs: seq<Tagged>, conv: Tagged -> Result<Amount>): (r: Result<seq<Located>>)
    ensures r.Ok? ==> |r.value| == |xs|
  {
    if xs == [] then Ok([])
    else
      var x := xs[|xs| - 1];
      match ConvertAll(xs[..|xs| - 1], conv)
      case Err(e) => Err(e)
      case Ok(prev) =>
        match conv(x)
        case Err(e) => Err(e)
        case Ok(a) => Ok(prev + [Locate(x, a)])
  }

  /** The first match whose numeral fails to convert, if any. */
  function FirstFailure(xs: seq<Tagged>, conv: Tagged -> Result<Amount>): Option<Tagged>
  {
    if xs == [] then None
    else if conv(xs[0]).Err? then Some(xs[0])
    else FirstFailure(xs[1..], conv)
  }

  /** The text of the last of `xs`, or `initial` when there is none. */
  function LastText(xs: seq<Tagged>, initial: string): string
  {
    if xs == [] then initial else xs[|xs| - 1].raw.text
  }

  /** `_convert_amount` applied to a match under its pattern's tag. */
  function Conversion(): Tagged -> Result<Amount>
  {
    (x: Tagged) => ConvertAmount(x.raw.amount, x.tag)
  }

  function StartKey(): Located -> int
  {
    (m: Located) => m.start as int
  }

  /** Matches after the last kept one: kept when they start at or after its end. */
  function KeepAfter(last: Located, rest: seq<Located>): seq<Located>
    decreases |rest|
  {
    if rest == [] then []
    else if rest[0].start >= last.end then [rest[0]] + KeepAfter(rest[0], rest[1..])
    else KeepAfter(last, rest[1..])
  }

  /** The greedy walk: keep the first match, then every one that starts after the last kept one ends. */
  function DropOverlaps(ms: seq<Located>): seq<Located>
  {
    if ms == [] then [] else [ms[0]] + KeepAfter(ms[0], ms[1..])
  }

  function Project(ms: seq<Located>): (r: seq<Mention>)
    ensures |r| == |ms|
    ensures forall i :: 0 <= i < |ms| ==> r[i] == Mention(ms[i].amount, ms[i].code, ms[i].text)
  {
    seq(|ms|, i requires 0 <= i < |ms| => Mention(ms[i].amount, ms[i].code, ms[i].text))
  }

  /** What `find_currencies` computes from the engine's matches. */
  function Resolve(found: seq<seq<RawMatch>>): Result<seq<Mention>>
    requires |found| <= |PatternNames|
  {
    match ConvertAll(Flatten(found), Conversion())
    case Err(e) => Err(e)
    case Ok(ms) => Ok(Project(DropOverlaps(Sorting.SortBy(ms, StartKey()))))
  }

  predicate WellSpanned(ms: seq<Located>) { forall m :: m in ms ==> m.start <= m.end }

  /** Each match ends at or before the next one begins. */
  predicate Disjoint(ms: seq<Located>)
  {
    forall i, j :: 0 <= i < j < |ms| ==> ms[i].end <= ms[j].start
  }

  lemma ConsDisjoint(x: Located, t: seq<Located>)
    requires Disjoint(t)
    requires forall m :: m in t ==> m.start >= x.end
    ensures Disjoint([x] + t)
  {
    var r := [x] + t;
    forall i, j | 0 <= i < j < |r| ensures r[i].end <= r[j].start {
      if i == 0 { assert r[j] in t; } else { assert r[i] == t[i - 1] && r[j] == t[j - 1]; }
    }
  }

  lemma {:induction false} KeepAfterDisjoint(last: Located, rest: seq<Located>)
    requires WellSpanned(rest)
    ensures forall m :: m in KeepAfter(last, rest) ==> m.start >= last.end
    ensures Disjoint(KeepAfter(last, rest))
    decreases |rest|
  {
    if rest != [] {
      if rest[0].start >= last.end {
        KeepAfterDisjoint(rest[0], rest[1..]);
        var r' := KeepAfter(rest[0], rest[1..]);
        assert rest[0] in rest;
        ConsDisjoint(rest[0], r');
        forall m | m in [rest[0]] + r' ensures m.start >= last.end {
          if m != rest[0] { assert m in r'; }
        }
      } else {
        KeepAfterDisjoint(last, rest[1..]);
      }
    }
  }

  /**
   * The kept matches never overlap: each ends at or before the next begins.
   * This holds for any order of the input, given only that every span has
   * start <= end.
   */
  lemma DropOverlapsDisjoint(ms: seq<Located>)
    requires WellSpanned(ms)
    ensures Disjoint(DropOverlaps(ms))
    ensures WellSpanned(DropOverlaps(ms))
  {
    if ms != [] {
      var t := KeepAfter(ms[0], ms[1..]);
      KeepAfterDisjoint(ms[0], ms[1..]);
      ConsDisjoint(ms[0], t);
      KeepAfterSubset(ms[0], ms[1..]);
      assert ms[0] in ms;
      forall m | m in [ms[0]] + t ensures m.start <= m.end {
        if m != ms[0] { assert m in t; }
      }
    }
  }

  /** So the kept matches come out in ascending order of start. */
  lemma DropOverlapsAscending(ms: seq<Located>)
    requires WellSpanned(ms)
    ensures Sorting.SortedBy(DropOverlaps(ms), StartKey())
  {
    var r := DropOverlaps(ms);
    DropOverlapsDisjoint(ms);
    forall i, j | 0 <= i < j < |r| ensures StartKey()(r[i]) <= StartKey()(r[j]) {
      assert r[i] in r;
    }
  }

  lemma KeepAfterSubset(last: Located, rest: seq<Located>)
    ensures forall m :: m in KeepAfter(last, rest) ==> m in rest
    decreases |rest|
  {
    if rest != [] {
      KeepAfterSubset(rest[0], rest[1..]);
      KeepAfterSubset(last, rest[1..]);
    }
  }

  /** `x` starts inside one of `kept`. */
  predicate StartsInside(x: Located, kept: seq<Located>)
  {
    exists k :: k in kept && k.start <= x.start < k.end
  }

  lemma SortedTail(ms: seq<Located>)
    requires ms != [] && Sorting.SortedBy(ms, StartKey())
    ensures Sorting.SortedBy(ms[1..], StartKey())
    ensures forall m :: m in ms[1..] ==> ms[0].start <= m.start
  {
    forall m | m in ms[1..] ensures ms[0].start <= m.start {
      var i :| 0 <= i < |ms[1..]| && ms[1..][i] == m;
      assert StartKey()(ms[0]) <= StartKey()(ms[i + 1]);
    }
  }

  lemma {:induction false} KeepAfterCovers(last: Located, rest: seq<Located>)
    requires Sorting.SortedBy(rest, StartKey())
    requires forall m :: m in rest ==> last.start <= m.start
    ensures forall x :: x in rest ==>
      x in KeepAfter(last, rest) || last.start <= x.start < last.end || StartsInside(x, KeepAfter(last, rest))
    decreases |rest|
  {
    if rest != [] {
      var tail := rest[1..];
      SortedTail(rest);
      if rest[0].start >= last.end {
        KeepAfterCovers(rest[0], tail);
        ConsCovers(rest[0], KeepAfter(rest[0], tail), tail);
        assert rest == [rest[0]] + tail;
      } else {
        KeepAfterCovers(last, tail);
      }
    }
  }

  /** Keeping `h` in front of `t` covers `h` and whatever starts inside `h`. */
  lemma ConsCovers(h: Located, t: seq<Located>, rest: seq<Located>)
    requires forall x :: x in rest ==> x in t || h.start <= x.start < h.end || StartsInside(x, t)
    ensures forall x :: x in [h] + rest ==> x in [h] + t || StartsInside(x, [h] + t)
  {
    var r := [h] + t;
    forall x | x in [h] + rest ensures x in r || StartsInside(x, r) {
      if x != h {
        assert x in rest;
        if x in t {
          assert x in r;
        } else if h.start <= x.start < h.end {
          assert h in r;
        } else {
          var k :| k in t && k.start <= x.start < k.end;
          assert k in r;
        }
      }
    }
  }

  /**
   * The greedy walk over a start-sorted list discards only what it must:
   * every input match is kept or starts inside a kept match.
   */
  lemma DropOverlapsCovers(ms: seq<Located>)
    requires Sorting.SortedBy(ms, StartKey())
    ensures forall x :: x in ms ==> x in DropOverlaps(ms) || StartsInside(x, DropOverlaps(ms))
  {
    if ms != [] {
      SortedTail(ms);
      KeepAfterCovers(ms[0], ms[1..]);
      ConsCovers(ms[0], KeepAfter(ms[0], ms[1..]), ms[1..]);
      assert ms == [ms[0]] + ms[1..];
    }
  }

  /**
   * `ms[i]` has the smallest start of `ms`, and no match before it starts
   * there too.
   */
  predicate EarliestLeast(ms: seq<Located>, i: nat)
  {
    i < |ms| &&
    (forall j :: 0 <= j < |ms| ==> ms[i].start <= ms[j].start) &&
    (forall j :: 0 <= j < i ==> ms[j].start > ms[i].start)
  }

  /**
   * Ties go to the earlier pattern: the first mention is the match with the
   * smallest start, and among those the one registered (and reported) first.
   */
  lemma EarliestMatchWins(ms: seq<Located>)
    requires ms != []
    ensures exists i: nat :: EarliestLeast(ms, i) && DropOverlaps(Sorting.SortBy(ms, StartKey()))[0] == ms[i]
  {
    var key := StartKey();
    Sorting.SortByHeadMinimal(ms, key);
    Sorting.SortByHeadEarliest(ms, key);
    var i :| 0 <= i < |ms| && Sorting.SortBy(ms, key)[0] == ms[i] &&
      forall j :: 0 <= j < i ==> key(ms[j]) != key(ms[i]);
    assert EarliestLeast(ms, i) by {
      forall j | 0 <= j < |ms| ensures ms[i].start <= ms[j].start {
        assert key(ms[i]) <= key(ms[j]);
      }
      forall j | 0 <= j < i ensures ms[j].start > ms[i].start {
        assert key(ms[i]) <= key(ms[j]) && key(ms[j]) != key(ms[i]);
      }
    }
    assert DropOverlaps(Sorting.SortBy(ms, key))[0] == ms[i];
  }

  // ---------------------------------------------------------------------------
  // The parser object

  class CurrencyParser {
    /** The text of the match being converted, kept for error reports. */
    var currentMatch: string

    constructor()
      ensures currentMatch == ""
    {
      currentMatch := "";
    }

    /**
     * `find_currencies`: convert every match pattern by pattern, sort them by
     * start (stably), walk them keeping the ones that do not overlap the last
     * kept match, and return amount, base code and text of each.
     */
    method FindCurrencies(found: seq<seq<RawMatch>>) returns (r: Result<seq<Mention>>)
      requires |found| == |PatternNames|
      modifies this
      ensures r == Resolve(found)
      ensures r.Err? ==> (FirstFailure(Flatten(found), Conversion()).Some? &&
                          currentMatch == FirstFailure(Flatten(found), Conversion()).value.raw.text)
      ensures r.Ok? ==> currentMatch == LastText(Flatten(found), old(currentMatch))
    {
      var converted := ConvertPatterns(PatternNames, found);
      if converted.Err? {
        return Err(converted.error);
      }
      var sorted := Sorting.SortBy(converted.value, StartKey());
      var kept := KeepNonOverlapping(sorted);
      r := Ok(Project(kept));
    }

    /** The collecting loop over a table with pattern names `names`: every pattern in table order, every match in engine order. */
    method ConvertPatterns(names: seq<string>, found: seq<seq<RawMatch>>) returns (r: Result<seq<Located>>)
      requires |found| == |names|
      modifies this
      ensures r == ConvertAll(FlattenFrom(names, found, 0), Conversion())
      ensures r.Err? ==> (FirstFailure(FlattenFrom(names, found, 0), Conversion()).Some? &&
                          currentMatch == FirstFailure(FlattenFrom(names, found, 0), Conversion()).value.raw.text)
      ensures r.Ok? ==> currentMatch == LastText(FlattenFrom(names, found, 0), old(currentMatch))
    {
      var matches: seq<Located> := [];
      ghost var done: seq<Tagged> := [];
      var p := 0;
      while p < |names|
        invariant 0 <= p <= |names|
        invariant done + FlattenFrom(names, found, p) == FlattenFrom(names, found, 0)
        invariant ConvertAll(done, Conversion()) == Ok(matches)
        invariant FirstFailure(done, Conversion()) == None
        invariant currentMatch == LastText(done, old(currentMatch))
      {
        var tag := TagOfName(names[p]);
        ghost var later := FlattenFrom(names, found, p + 1);
        ghost var next := done + TagAll(tag, found[p]);
        assert next + later == FlattenFrom(names, found, 0) by {
          assert FlattenFrom(names, found, p) == TagAll(tag, found[p]) + later;
        }
        var step := ConvertPattern(tag, found[p], done, matches, old(currentMatch), Conversion());
        if step.Err? {
          PrefixDecides(next, later, Conversion());
          return Err(step.error);
        }
        matches := step.value;
        done := next;
        p := p + 1;
      }
      assert done == FlattenFrom(names, found, 0) by {
        assert FlattenFrom(names, found, p) == [];
      }
      r := Ok(matches);
    }

    /**
     * The inner loop for one pattern, continuing from the matches converted so
     * far; `convert` is the conversion of one match (`_convert_amount`).
     */
    method ConvertPattern(tag: Tag, ms: seq<RawMatch>, ghost before: seq<Tagged>, matches: seq<Located>,
                          ghost initial: string, convert: Tagged -> Result<Amount>)
      returns (r: Result<seq<Located>>)
      requires ConvertAll(before, convert) == Ok(matches) && FirstFailure(before, convert) == None
      requires currentMatch == LastText(before, initial)
      modifies this
      ensures r == ConvertAll(before + TagAll(tag, ms), convert)
      ensures r.Err? ==> (FirstFailure(before + TagAll(tag, ms), convert).Some? &&
                          currentMatch == FirstFailure(before + TagAll(tag, ms), convert).value.raw.text)
      ensures r.Ok? ==> FirstFailure(before + TagAll(tag, ms), convert) == None
      ensures r.Ok? ==> currentMatch == LastText(before + TagAll(tag, ms), initial)
    {
      ghost var whole := before + TagAll(tag, ms);
      var acc := matches;
      ghost var done := before;
      var j := 0;
      assert ms[0..] == ms;
      while j < |ms|
        invariant 0 <= j <= |ms|
        invariant done + TagAll(tag, ms[j..]) == whole
        invariant ConvertAll(done, convert) == Ok(acc)
        invariant FirstFailure(done, convert) == None
        invariant currentMatch == LastText(done, initial)
      {
        ghost var x := Tagged(tag, ms[j]);
        ghost var rest := TagAll(tag, ms[j + 1..]);
        assert done + [x] + rest == whole by {
          TagAllStep(tag, ms, j);
        }
        var step := ConvertMatch(tag, ms[j], done, acc, convert);
        if step.Err? {
          PrefixDecides(done + [x], rest, convert);
          return step;
        }
        acc := step.value;
        done := done + [x];
        j := j + 1;
      }
      assert done == whole by {
        assert ms[j..] == [];
      }
      r := Ok(acc);
    }

    /** One iteration of the inner loop: record the match's text, convert it, append it. */
    method ConvertMatch(tag: Tag, m: RawMatch, ghost done: seq<Tagged>, acc: seq<Located>,
                        convert: Tagged -> Result<Amount>)
      returns (r: Result<seq<Located>>)
      requires ConvertAll(done, convert) == Ok(acc) && FirstFailure(done, convert) == None
      modifies this
      ensures currentMatch == m.text
      ensures r == ConvertAll(done + [Tagged(tag, m)], convert)
      ensures FirstFailure(done + [Tagged(tag, m)], convert) ==
        if r.Err? then Some(Tagged(tag, m)) else None
    {
      currentMatch := m.text;
      var x := Tagged(tag, m);
      ConvertStep(done, x, acc, convert);
      var conv := convert(x);
      if conv.Err? {
        return Err(conv.error);
      }
      r := Ok(acc + [Locate(x, conv.value)]);
    }
  }

  /**
   * The walk over the start-sorted matches: keep the first, then each one
   * that starts at or after the end of the last one kept.
   */
  method KeepNonOverlapping(sorted: seq<Located>) returns (filtered: seq<Located>)
    ensures filtered == DropOverlaps(sorted)
  {
    filtered := [];
    if |sorted| > 0 {
      var current := sorted[0];
      filtered := [current];
      var i := 1;
      while i < |sorted|
        invariant 1 <= i <= |sorted|
        invariant filtered != [] && current == filtered[|filtered| - 1]
        invariant filtered + KeepAfter(current, sorted[i..]) == DropOverlaps(sorted)
      {
        ghost var rest := sorted[i + 1..];
        assert sorted[i..] == [sorted[i]] + rest;
        if sorted[i].start >= current.end {
          assert KeepAfter(current, sorted[i..]) == [sorted[i]] + KeepAfter(sorted[i], rest);
          assert filtered + ([sorted[i]] + KeepAfter(sorted[i], rest)) == (filtered + [sorted[i]]) + KeepAfter(sorted[i], rest);
          filtered := filtered + [sorted[i]];
          current := sorted[i];
        } else {
          assert KeepAfter(current, sorted[i..]) == KeepAfter(current, rest);
        }
        i := i + 1;
      }
      assert sorted[i..] == [];
    }
  }

  lemma TagAllStep(tag: Tag, ms: seq<RawMatch>, j: nat)
    requires j < |ms|
    ensures TagAll(tag, ms[j..]) == [Tagged(tag, ms[j])] + TagAll(tag, ms[j + 1..])
  {
    assert ms[j..][1..] == ms[j + 1..];
  }

  /** Once a prefix fails, the whole walk fails with the same error at the same match. */
  lemma PrefixDecides(pre: seq<Tagged>, post: seq<Tagged>, conv: Tagged -> Result<Amount>)
    requires ConvertAll(pre, conv).Err? && FirstFailure(pre, conv).Some?
    ensures ConvertAll(pre + post, conv) == ConvertAll(pre, conv)
    ensures FirstFailure(pre + post, conv) == FirstFailure(pre, conv)
  {
    ConvertAllPrefixFails(pre, pre + post, conv);
    FirstFailurePrefix(pre, post, conv);
  }

  lemma {:induction false} FirstFailurePrefix(pre: seq<Tagged>, post: seq<Tagged>, conv: Tagged -> Result<Amount>)
    requires FirstFailure(pre, conv).Some?
    ensures FirstFailure(pre + post, conv) == FirstFailure(pre, conv)
  {
    assert (pre + post)[0] == pre[0];
    if conv(pre[0]).Ok? {
      assert (pre + post)[1..] == pre[1..] + post;
      FirstFailurePrefix(pre[1..], post, conv);
    }
  }

  /** One more match converted: the running result grows by it or the call fails. */
  lemma ConvertStep(done: seq<Tagged>, x: Tagged, matches: seq<Located>, conv: Tagged -> Result<Amount>)
    requires ConvertAll(done, conv) == Ok(matches) && FirstFailure(done, conv) == None
    ensures ConvertAll(done + [x], conv) ==
      match conv(x)
      case Err(e) => Err(e)
      case Ok(a) => Ok(matches + [Locate(x, a)])
    ensures FirstFailure(done + [x], conv) ==
      if conv(x).Err? then Some(x) else None
  {
    assert (done + [x])[..|done + [x]| - 1] == done;
    FirstFailureAppend(done, [x], conv);
  }

  lemma FirstFailureAppend(xs: seq<Tagged>, ys: seq<Tagged>, conv: Tagged -> Result<Amount>)
    requires FirstFailure(xs, conv) == None
    ensures FirstFailure(xs + ys, conv) == FirstFailure(ys, conv)
  {
    if xs != [] {
      assert (xs + ys)[1..] == xs[1..] + ys;
      FirstFailureAppend(xs[1..], ys, conv);
    } else {
      assert xs + ys == ys;
    }
  }

  lemma {:induction false} ConvertAllPrefixFails(pre: seq<Tagged>, xs: seq<Tagged>, conv: Tagged -> Result<Amount>)
    requires pre <= xs
    requires ConvertAll(pre, conv).Err?
    ensures ConvertAll(xs, conv) == ConvertAll(pre, conv)
    decreases |xs|
  {
    if |xs| > |pre| {
      assert pre <= xs[..|xs| - 1];
      ConvertAllPrefixFails(pre, xs[..|xs| - 1], conv);
    } else {
      assert pre == xs;
    }
  }

  /** No match at all: no mention and no error. */
  lemma NoMatchesNoMentions(found: seq<seq<RawMatch>>)
    requires |found| <= |PatternNames|
    requires forall p :: 0 <= p < |found| ==> found[p] == []
    ensures Resolve(found) == Ok([])
  {
    NoMatchesFrom(PatternNames, found, 0);
    assert Sorting.SortBy([], StartKey()) == [];
  }

  lemma {:induction false} NoMatchesFrom(names: seq<string>, found: seq<seq<RawMatch>>, p: nat)
    requires p <= |found| <= |names|
    requires forall q :: p <= q < |found| ==> found[q] == []
    ensures FlattenFrom(names, found, p) == []
    decreases |found| - p
  {
    if p < |found| {
      NoMatchesFrom(names, found, p + 1);
      assert TagAll(TagOfName(names[p]), found[p]) == [];
    }
  }
}
