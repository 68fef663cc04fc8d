/**
 * The reply builder: rendering an amount with its currency's flag and symbol,
 * and composing the reply for one mention (with the chat-mode short replies,
 * the pound-to-kilogram aside and the list of conversions) or for several.
 * Rates arrive as a map keyed "CUR_TGT"; amounts and rates are reals.
 */
module CurrencyFormatter {
  import opened Wrappers
  import opened Text
  import CurrencyParser

  type Mention = CurrencyParser.Mention

  // ---------------------------------------------------------------------------
  // Tables

  /** A currency's flag emoji and symbol. */
  datatype Format = Format(flag: string, symbol: string)

  const CurrencyFormats: map<string, Format> := map[
    "ILS" := Format("🇮🇱", "₪"),
    "GBP" := Format("🇬🇧", "£"),
    "RUB" := Format("🇷🇺", "₽"),
    "USD" := Format("🇺🇸", "$"),
    "EUR" := Format("🇪🇺", "€"),
    "JPY" := Format("🇯🇵", "¥"),
    "AMD" := Format("🇦🇲", "֏"),
    "CNY" := Format("🇨🇳", "¥"),
    "GEL" := Format("🇬🇪", "₾"),
    "JOD" := Format("🇯🇴", "د.ا"),
    "THB" := Format("🇹🇭", "฿"),
    "KZT" := Format("🇰🇿", "₸")
  ]

  /** The currencies that have a format, in the table's order. */
  const TargetCurrencies: seq<string> :=
    ["ILS", "GBP", "RUB", "USD", "EUR", "JPY", "AMD", "CNY", "GEL", "JOD", "THB", "KZT"]

  /** The currencies a reply converts into, in the order they are listed. */
  const DisplayCurrencies: seq<string> := ["USD", "EUR", "GBP", "RUB", "ILS", "JPY", "AMD"]

  /** The currencies whose symbol is written before the number. */
  const SymbolFirst: set<string> := {"USD", "EUR", "GBP"}

  /** The key of the rates map for converting `from` into `to`. */
  function Pair(from: string, to: string): string
  {
    from + "_" + to
  }

  /** The target list is exactly the format table's keys, each once; the displayed ones all have a format. */
  lemma TablesAgree()
    ensures forall c :: c in TargetCurrencies <==> c in CurrencyFormats
    ensures forall i, j :: 0 <= i < j < |TargetCurrencies| ==> TargetCurrencies[i] != TargetCurrencies[j]
    ensures forall c :: c in DisplayCurrencies ==> c in CurrencyFormats
  {
  }

  // ---------------------------------------------------------------------------
  // Rounding and number text

  function Abs(x: real): real
  {
    if x < 0.0 then -x else x
  }

  /** `Decimal.quantize` to a whole number with ROUND_HALF_UP: nearest, ties away from zero. */
  function RoundHalfUp(x: real): (n: int)
    ensures x >= 0.0 ==> n >= 0 && n as real - 0.5 <= x < n as real + 0.5
    ensures x < 0.0 ==> n <= 0 && n as real - 0.5 < x <= n as real + 0.5
  {
    if x >= 0.0 then (x + 0.5).Floor else -((0.5 - x).Floor)
  }

  /** Decimal's default context rounding, ROUND_HALF_EVEN: nearest, ties to the even neighbour. */
  function RoundHalfEven(x: real): (n: int)
    ensures n as real - 0.5 <= x <= n as real + 0.5
    ensures x == n as real - 0.5 || x == n as real + 0.5 ==> n % 2 == 0
    ensures x >= 0.0 ==> n >= 0
  {
    var f := x.Floor;
    var d := x - f as real;
    if d < 0.5 then f
    else if d > 0.5 then f + 1
    else if f % 2 == 0 then f
    else f + 1
  }

  /** A count of tenths printed with exactly one decimal place; `negative` adds the sign. */
  function TenthsText(negative: bool, tenths: nat): string
  {
    (if negative then "-" else "") + NatToString(tenths / 10) + "." + [DigitChar(tenths % 10)]
  }

  /** Read back, the text of a count of tenths is that count divided by ten. */
  lemma TenthsTextValue(tenths: nat)
    ensures ParseFloat(TenthsText(false, tenths)) == Some(tenths as real / 10.0)
  {
    var a, b := NatToString(tenths / 10), [DigitChar(tenths % 10)];
    assert TenthsText(false, tenths) == a + "." + b;
    ParseFloatDecimal(a, b);
    assert b[..0] == [];
    assert DigitsValue(b) == tenths % 10;
    assert Pow10(1) == 10;
  }

  /** `f"{n:,}"` on the digits of `n`: a separator before every group of three, counted from the right. */
  function Grouped(s: string, sep: char): string
    decreases |s|
  {
    if |s| <= 3 then s else Grouped(s[..|s| - 3], sep) + [sep] + s[|s| - 3..]
  }

  /** Grouping adds one separator per full group of three beyond the first digit. */
  lemma {:induction false} GroupedLength(s: string, sep: char)
    ensures |s| >= 1 ==> |Grouped(s, sep)| == |s| + (|s| - 1) / 3
    decreases |s|
  {
    if |s| > 3 {
      GroupedLength(s[..|s| - 3], sep);
    }
  }

  /** A separator sits exactly at every fourth position counted from the end. */
  lemma {:induction false} GroupedShape(s: string, sep: char)
    requires AllDigits(s) && !IsDigit(sep)
    ensures forall i :: 0 <= i < |Grouped(s, sep)| ==>
      (Grouped(s, sep)[i] == sep <==> (|Grouped(s, sep)| - i) % 4 == 0)
    decreases |s|
  {
    if |s| > 3 {
      var p := s[..|s| - 3];
      assert AllDigits(p) by { assert forall i :: 0 <= i < |p| ==> p[i] == s[i]; }
      GroupedShape(p, sep);
      var g', t := Grouped(p, sep), s[|s| - 3..];
      var g := g' + [sep] + t;
      assert Grouped(s, sep) == g;
      assert |g| == |g'| + 4;
      forall i | 0 <= i < |g| ensures g[i] == sep <==> (|g| - i) % 4 == 0 {
        if i < |g'| {
          assert g[i] == g'[i];
          assert (|g| - i) % 4 == (|g'| - i) % 4;
        } else if i > |g'| {
          assert g[i] == t[i - |g'| - 1] == s[|s| - 3 + i - |g'| - 1];
          assert IsDigit(g[i]);
          assert 0 < |g| - i < 4;
        } else {
          assert g[i] == sep && |g| - i == 4;
        }
      }
    } else {
      assert forall i :: 0 <= i < |s| ==> s[i] != sep;
    }
  }

  /** Removing the separators from the grouped digits gives the digits back. */
  lemma {:induction false} GroupedRemove(s: string, sep: char)
    requires sep !in s
    ensures RemoveChar(Grouped(s, sep), sep) == s
    decreases |s|
  {
    if |s| > 3 {
      var p, t := s[..|s| - 3], s[|s| - 3..];
      assert s == p + t;
      assert sep !in p && sep !in t;
      var gp := Grouped(p, sep);
      assert Grouped(s, sep) == (gp + [sep]) + t;
      GroupedRemove(p, sep);
      RemoveCharAbsent(t, sep);
      RemoveCharAppend(gp + [sep], t, sep);
      RemoveCharAppend(gp, [sep], sep);
      assert RemoveChar([sep], sep) == [];
      assert RemoveChar(gp + [sep], sep) == p;
    } else {
      RemoveCharAbsent(s, sep);
    }
  }

  /** Replacing the commas of the comma-grouped digits gives the space-grouped digits. */
  lemma {:induction false} GroupedReplace(s: string)
    requires ',' !in s
    ensures ReplaceChar(Grouped(s, ','), ',', ' ') == Grouped(s, ' ')
    decreases |s|
  {
    if |s| > 3 {
      var p, t := s[..|s| - 3], s[|s| - 3..];
      assert s == p + t;
      assert ',' !in p && ',' !in t;
      GroupedReplace(p);
      ReplaceCharAppend(Grouped(p, ',') + [','], t, ',', ' ');
      ReplaceCharAppend(Grouped(p, ','), [','], ',', ' ');
      ReplaceCharAbsent(t, ',', ' ');
    } else {
      ReplaceCharAbsent(s, ',', ' ');
    }
  }

  /**
   * The number of a converted amount: above 20 the nearest whole number, with
   * space-separated groups of three once it exceeds 10000; otherwise the
   * amount to exactly one decimal place.  Both round half up.
   */
  function AmountText(amount: real): string
  {
    if amount > 20.0 then
      var n := RoundHalfUp(amount);
      if n > 10000 then ReplaceChar(Grouped(NatToString(n), ','), ',', ' ') else NatToString(n)
    else
      TenthsText(amount < 0.0, RoundHalfUp(Abs(amount) * 10.0))
  }

  /** Above 20 the text, once its group spaces are removed, is the digits of the rounded whole number. */
  lemma WholeAmountDigits(amount: real)
    requires amount > 20.0
    ensures var n := RoundHalfUp(amount);
      RemoveChar(AmountText(amount), ' ') == NatToString(n) && DigitsValue(NatToString(n)) == n
  {
    var n := RoundHalfUp(amount);
    var d := NatToString(n);
    DigitsHaveNoSpace(d);
    if n > 10000 {
      GroupedReplace(d);
      GroupedRemove(d, ' ');
    } else {
      RemoveCharAbsent(d, ' ');
    }
  }

  /**
   * Above 20 a space sits at every fourth place counted from the end when the
   * rounded number exceeds 10000, and nowhere otherwise.
   */
  lemma WholeAmountSpaces(amount: real)
    requires amount > 20.0
    ensures var t := AmountText(amount);
      forall i :: 0 <= i < |t| ==> (t[i] == ' ' <==> RoundHalfUp(amount) > 10000 && (|t| - i) % 4 == 0)
  {
    var n := RoundHalfUp(amount);
    var d := NatToString(n);
    DigitsHaveNoSpace(d);
    if n > 10000 {
      GroupedReplace(d);
      GroupedShape(d, ' ');
    }
  }

  lemma DigitsHaveNoSpace(d: string)
    requires AllDigits(d)
    ensures ' ' !in d && ',' !in d
    ensures forall i :: 0 <= i < |d| ==> d[i] != ' '
  {
    forall i | 0 <= i < |d| ensures d[i] != ' ' && d[i] != ',' { assert IsDigit(d[i]); }
  }

  /** Up to 20 the text reads back as the amount rounded half up to tenths. */
  lemma SmallAmountText(amount: real)
    requires 0.0 <= amount <= 20.0
    ensures ParseFloat(AmountText(amount)) == Some(RoundHalfUp(amount * 10.0) as real / 10.0)
  {
    var tenths := RoundHalfUp(amount * 10.0);
    assert Abs(amount) == amount && tenths >= 0;
    assert AmountText(amount) == TenthsText(false, tenths);
    TenthsTextValue(tenths);
  }

  /** The size of a coefficient that no longer fits Decimal's default 28-digit context: 10^28. */
  const DecimalLimit: int := 10_000_000_000_000_000_000_000_000_000

  /**
   * The rounding of `_format_amount` needs more digits than the context
   * holds: the whole number above 20, the count of tenths otherwise.
   */
  predicate QuantizeOverflows(amount: real)
  {
    var n := if amount > 20.0 then RoundHalfUp(amount) else RoundHalfUp(amount * 10.0);
    n >= DecimalLimit || -n >= DecimalLimit
  }

  /**
   * `_format_amount`: flag, then the symbol before the number for USD, EUR and
   * GBP and after it otherwise.  A currency without a format fails first; a
   * rounding that overflows the decimal context fails next.
   */
  function FormatAmount(amount: real, currency: string): (r: Result<string>)
    ensures r.Err? <==> currency !in CurrencyFormats || QuantizeOverflows(amount)
    ensures currency !in CurrencyFormats ==> r == Err(UnknownCurrency)
    ensures currency in CurrencyFormats && QuantizeOverflows(amount) ==> r == Err(Overflow)
    ensures r.Ok? && currency in SymbolFirst ==>
      r.value == CurrencyFormats[currency].flag + " " + CurrencyFormats[currency].symbol + AmountText(amount)
    ensures r.Ok? && currency !in SymbolFirst ==>
      r.value == CurrencyFormats[currency].flag + " " + AmountText(amount) + " " + CurrencyFormats[currency].symbol
  {
    if currency !in CurrencyFormats then Err(UnknownCurrency)
    else if QuantizeOverflows(amount) then Err(Overflow)
    else
      var f := CurrencyFormats[currency];
      if currency in SymbolFirst then Ok(f.flag + " " + f.symbol + AmountText(amount))
      else Ok(f.flag + " " + AmountText(amount) + " " + f.symbol)
  }

  /** A whole amount of 10^28 no longer fits the context, one less still does. */
  lemma OverflowBoundary()
    ensures FormatAmount(DecimalLimit as real, "RUB") == Err(Overflow)
    ensures FormatAmount((DecimalLimit - 1) as real, "RUB").Ok?
  {
    assert RoundHalfUp(DecimalLimit as real) == DecimalLimit;
    assert RoundHalfUp((DecimalLimit - 1) as real) == DecimalLimit - 1;
  }

  // ---------------------------------------------------------------------------
  // One mention

  /** The fixed reply to a zero amount in a chat (its wording is not modelled). */
  const ZeroReply: string := "(zero-amount reply)"
  const ClubReply: string := "In Da Club!"
  const ImplausibleReply: string := "Откуда у тебя такие деньги, сынок?"
  const NoRatesSuffix: string := " (нет доступных курсов конвертации)"
  const ImplausibleLimit: real := 1000000.0
  const KgPerPound: real := 0.45359237

  /** An amount converted at `rate`. */
  function Converted(amount: real, rate: real): real
  {
    amount * rate
  }

  /** The amount in dollars used to spot an implausible chat amount; a zero or missing rate leaves it as is. */
  function UsdEstimate(amount: real, currency: string, rates: map<string, real>): real
  {
    var key := Pair(currency, "USD");
    if currency != "USD" && key in rates && rates[key] != 0.0 then Converted(amount, rates[key]) else amount
  }

  /** The chat-mode short replies, in the order they are tried. */
  function Sentinel(m: Mention, rates: map<string, real>): Option<string>
  {
    if m.amount == 0.0 then Some(ZeroReply)
    else if m.amount == 0.5 && m.code == "USD" then Some(ClubReply)
    else if UsdEstimate(m.amount, m.code, rates) > ImplausibleLimit then Some(ImplausibleReply)
    else None
  }

  /** A pound mention written with the pound word or the pound sign. */
  predicate PoundMention(m: Mention)
  {
    m.code == "GBP" && (Contains(LowerString(m.text), "фунт") || '£' in m.text)
  }

  /** The weight of `amount` pounds in kilograms, to one decimal place. */
  function KgText(amount: real): string
  {
    var kg := amount * KgPerPound;
    TenthsText(kg < 0.0, RoundHalfEven(Abs(kg) * 10.0))
  }

  lemma KgTextValue(amount: real)
    requires amount >= 0.0
    ensures ParseFloat(KgText(amount)) == Some(RoundHalfEven(amount * KgPerPound * 10.0) as real / 10.0)
  {
    var kg := amount * KgPerPound;
    var tenths := RoundHalfEven(kg * 10.0);
    assert kg >= 0.0 && Abs(kg) == kg && tenths >= 0;
    assert KgText(amount) == TenthsText(false, tenths);
    TenthsTextValue(tenths);
  }

  /** The reply's opening: the mention, in a chat with its flag, and the kilogram aside for pounds. */
  function Header(m: Mention, chat: bool): string
    requires chat ==> m.code in CurrencyFormats
  {
    if PoundMention(m) then
      if chat then m.text + " (" + CurrencyFormats[m.code].flag + ") это " + KgText(m.amount) + " кг, а также"
      else m.text + " (" + KgText(m.amount) + " кг)"
    else if chat then m.text + " (" + CurrencyFormats[m.code].flag + ") это"
    else m.text
  }

  /** `FormatAmount` as a value, the way the reply uses it. */
  function Formatting(): (real, string) -> Result<string>
  {
    (x: real, c: string) => FormatAmount(x, c)
  }

  /** Formatting fails exactly for a currency without a format or an amount too large for the context. */
  lemma FormattingFails()
    ensures forall x: real, c: string :: Formatting()(x, c).Err? <==> c !in CurrencyFormats || QuantizeOverflows(x)
  {
  }

  /** The conversion into `target`, if the mention has one. */
  function Entry(amount: real, currency: string, rates: map<string, real>, target: string,
                 format: (real, string) -> Result<string>): Option<string>
  {
    var key := Pair(currency, target);
    if target == currency || key !in rates then None
    else match format(Converted(amount, rates[key]), target)
      case Ok(s) => Some(s)
      case Err(_) => None
  }

  lemma EntryCases(amount: real, currency: string, rates: map<string, real>, target: string,
                   format: (real, string) -> Result<string>)
    ensures target == currency || Pair(currency, target) !in rates ==>
      Entry(amount, currency, rates, target, format) == None
    ensures target != currency && Pair(currency, target) in rates ==>
      Entry(amount, currency, rates, target, format)
      == match format(Converted(amount, rates[Pair(currency, target)]), target)
         case Ok(s) => Some(s)
         case Err(_) => None
  {
  }

  /** The conversions produced while walking `targets` in order. */
  function Conversions(amount: real, currency: string, rates: map<string, real>, targets: seq<string>,
                       format: (real, string) -> Result<string>): seq<string>
    decreases |targets|
  {
    if targets == [] then []
    else
      var earlier := Conversions(amount, currency, rates, targets[..|targets| - 1], format);
      match Entry(amount, currency, rates, targets[|targets| - 1], format)
      case None => earlier
      case Some(s) => earlier + [s]
  }

  /**
   * `target` gets a conversion: it is not the mention's own currency, it has a
   * rate and a format, and the converted amount fits the decimal context.
   */
  predicate Listed(amount: real, currency: string, rates: map<string, real>, target: string)
  {
    target != currency && Pair(currency, target) in rates && target in CurrencyFormats &&
    !QuantizeOverflows(Converted(amount, rates[Pair(currency, target)]))
  }

  /** The targets a conversion is listed for, in order. */
  function Eligible(amount: real, currency: string, rates: map<string, real>, targets: seq<string>): (r: seq<string>)
    ensures forall i :: 0 <= i < |r| ==> r[i] in targets && Listed(amount, currency, rates, r[i])
  {
    if targets == [] then []
    else
      var t := targets[0];
      (if Listed(amount, currency, rates, t) then [t] else [])
      + Eligible(amount, currency, rates, targets[1..])
  }

  lemma {:induction false} EligibleAppend(amount: real, currency: string, rates: map<string, real>,
                                          targets: seq<string>, t: string)
    ensures Eligible(amount, currency, rates, targets + [t])
         == Eligible(amount, currency, rates, targets) + (if Listed(amount, currency, rates, t) then [t] else [])
  {
    var last := if Listed(amount, currency, rates, t) then [t] else [];
    if targets != [] {
      var h := targets[0];
      var first := if Listed(amount, currency, rates, h) then [h] else [];
      EligibleAppend(amount, currency, rates, targets[1..], t);
      assert (targets + [t])[0] == h && (targets + [t])[1..] == targets[1..] + [t];
      calc {
        Eligible(amount, currency, rates, targets + [t]);
        first + Eligible(amount, currency, rates, targets[1..] + [t]);
        first + (Eligible(amount, currency, rates, targets[1..]) + last);
        (first + Eligible(amount, currency, rates, targets[1..])) + last;
      }
    } else {
      assert [t][1..] == [];
      assert Eligible(amount, currency, rates, [t]) == last + Eligible(amount, currency, rates, []);
    }
  }

  /**
   * The conversions are the eligible targets, in the order walked, each
   * formatted from the amount times its rate.
   */
  lemma {:induction false} ConversionsOfEligible(amount: real, currency: string, rates: map<string, real>,
                                                 targets: seq<string>, format: (real, string) -> Result<string>)
    requires forall x: real, c: string :: format(x, c).Err? <==> c !in CurrencyFormats || QuantizeOverflows(x)
    ensures var c, e := Conversions(amount, currency, rates, targets, format), Eligible(amount, currency, rates, targets);
      |c| == |e| &&
      forall i :: 0 <= i < |e| ==> c[i] == format(Converted(amount, rates[Pair(currency, e[i])]), e[i]).value
    decreases |targets|
  {
    if targets != [] {
      var p, t := targets[..|targets| - 1], targets[|targets| - 1];
      assert targets == p + [t];
      ConversionsOfEligible(amount, currency, rates, p, format);
      EligibleAppend(amount, currency, rates, p, t);
      var cp, ep := Conversions(amount, currency, rates, p, format), Eligible(amount, currency, rates, p);
      var c, e := Conversions(amount, currency, rates, targets, format), Eligible(amount, currency, rates, targets);
      if Listed(amount, currency, rates, t) {
        var x := Converted(amount, rates[Pair(currency, t)]);
        assert format(x, t).Ok?;
        EntryCases(amount, currency, rates, t, format);
        assert c == cp + [format(x, t).value];
        assert e == ep + [t];
        forall i | 0 <= i < |e| ensures c[i] == format(Converted(amount, rates[Pair(currency, e[i])]), e[i]).value {
          if i < |ep| { assert c[i] == cp[i] && e[i] == ep[i]; } else { assert e[i] == t && c[i] == format(x, t).value; }
        }
      } else {
        EntryCases(amount, currency, rates, t, format);
        assert c == cp && e == ep;
      }
    }
  }

  /** The message's tail: the conversions in the mode's layout, or the no-rates suffix. */
  function Finish(header: string, conversions: seq<string>, chat: bool): string
  {
    if conversions == [] then header + NoRatesSuffix
    else if chat then header + " " + Join(conversions, ", ")
    else header + " (" + Join(conversions, ", ") + ")"
  }

  /** The reply to one mention in mode "chat" or "inline"; another mode or an unformattable chat currency fails. */
  function Reply(m: Mention, rates: map<string, real>, mode: string): Result<string>
  {
    if mode == "chat" && Sentinel(m, rates).Some? then Ok(Sentinel(m, rates).value)
    else if mode == "chat" && m.code !in CurrencyFormats then Err(UnknownCurrency)
    else if mode != "chat" && mode != "inline" then Err(UnknownMode)
    else
      var chat := mode == "chat";
      Ok(Finish(Header(m, chat), Conversions(m.amount, m.code, rates, DisplayCurrencies, Formatting()), chat))
  }

  /** `format_conversion`: built up step by step like the source's message. */
  method FormatConversion(m: Mention, rates: map<string, real>, mode: string) returns (r: Result<string>)
    ensures r == Reply(m, rates, mode)
  {
    if mode == "chat" {
      if m.amount == 0.0 { return Ok(ZeroReply); }
      if m.amount == 0.5 && m.code == "USD" { return Ok(ClubReply); }
      var usdAmount := m.amount;
      if m.code != "USD" {
        var key := Pair(m.code, "USD");
        if key in rates && rates[key] != 0.0 {
          usdAmount := Converted(m.amount, rates[key]);
        }
      }
      if usdAmount > ImplausibleLimit { return Ok(ImplausibleReply); }
    }
    var message: string;
    if mode == "chat" {
      if m.code !in CurrencyFormats { return Err(UnknownCurrency); }
      message := m.text + " (" + CurrencyFormats[m.code].flag + ") это";
    } else if mode == "inline" {
      message := m.text;
    } else {
      return Err(UnknownMode);
    }
    if PoundMention(m) {
      if mode == "chat" {
        message := m.text + " (" + CurrencyFormats[m.code].flag + ") это " + KgText(m.amount) + " кг, а также";
      } else {
        message := m.text + " (" + KgText(m.amount) + " кг)";
      }
    }
    var conversions := CollectConversions(m.amount, m.code, rates, DisplayCurrencies, Formatting());
    if conversions != [] {
      if mode == "chat" {
        message := message + " " + Join(conversions, ", ");
      } else {
        message := message + " (" + Join(conversions, ", ") + ")";
      }
    } else {
      message := message + NoRatesSuffix;
    }
    r := Ok(message);
  }

  /** The loop over the target currencies. */
  method CollectConversions(amount: real, currency: string, rates: map<string, real>, targets: seq<string>,
                            format: (real, string) -> Result<string>)
    returns (conversions: seq<string>)
    ensures conversions == Conversions(amount, currency, rates, targets, format)
  {
    conversions := [];
    var i := 0;
    while i < |targets|
      invariant 0 <= i <= |targets|
      invariant conversions == Conversions(amount, currency, rates, targets[..i], format)
    {
      var target := targets[i];
      ConversionsStep(amount, currency, rates, targets, i, format);
      EntryCases(amount, currency, rates, target, format);
      if target != currency {
        var key := Pair(currency, target);
        if key in rates {
          var formatted := format(Converted(amount, rates[key]), target);
          if formatted.Ok? {
            conversions := conversions + [formatted.value];
          }
        }
      }
      i := i + 1;
    }
    assert targets[..i] == targets;
  }

  lemma ConversionsStep(amount: real, currency: string, rates: map<string, real>, targets: seq<string>, i: nat,
                        format: (real, string) -> Result<string>)
    requires i < |targets|
    ensures Conversions(amount, currency, rates, targets[..i + 1], format)
         == Conversions(amount, currency, rates, targets[..i], format)
            + match Entry(amount, currency, rates, targets[i], format) case None => [] case Some(s) => [s]
  {
    assert targets[..i + 1][..i] == targets[..i];
  }

  // ---------------------------------------------------------------------------
  // Properties of one reply

  /** In a chat a zero amount and half a dollar get their fixed replies, whatever the rates. */
  lemma ChatSentinels(m: Mention, rates: map<string, real>)
    ensures m.amount == 0.0 ==> Reply(m, rates, "chat") == Ok(ZeroReply)
    ensures m.amount == 0.5 && m.code == "USD" ==> Reply(m, rates, "chat") == Ok(ClubReply)
    ensures m.amount != 0.0 && !(m.amount == 0.5 && m.code == "USD") &&
              UsdEstimate(m.amount, m.code, rates) > ImplausibleLimit
            ==> Reply(m, rates, "chat") == Ok(ImplausibleReply)
  {
  }

  /** A chat mention that neither the zero nor the half-dollar reply catches. */
  predicate NoFixedReply(m: Mention)
  {
    m.amount != 0.0 && !(m.amount == 0.5 && m.code == "USD")
  }

  /**
   * In a chat the implausibility test reads the amount in dollars: through a
   * present, non-zero rate to USD, and as it stands for USD itself or when the
   * rate is missing or zero (`if rate:` is false for 0.0).  Above 1,000,000
   * the reply is the implausible-amount line; at or below it, a formattable
   * mention gets the full message, which starts with the mention's text.
   */
  lemma ImplausibleInDollars(m: Mention, rates: map<string, real>)
    ensures NoFixedReply(m) && m.code != "USD" && Pair(m.code, "USD") in rates &&
            rates[Pair(m.code, "USD")] != 0.0 && Converted(m.amount, rates[Pair(m.code, "USD")]) > ImplausibleLimit
            ==> Reply(m, rates, "chat") == Ok(ImplausibleReply)
    ensures NoFixedReply(m) && m.code != "USD" && Pair(m.code, "USD") in rates &&
            rates[Pair(m.code, "USD")] == 0.0 && m.amount > ImplausibleLimit
            ==> Reply(m, rates, "chat") == Ok(ImplausibleReply)
    ensures NoFixedReply(m) && (m.code == "USD" || Pair(m.code, "USD") !in rates) && m.amount > ImplausibleLimit
            ==> Reply(m, rates, "chat") == Ok(ImplausibleReply)
    ensures NoFixedReply(m) && m.code in CurrencyFormats && m.code != "USD" && Pair(m.code, "USD") in rates &&
            rates[Pair(m.code, "USD")] != 0.0 && Converted(m.amount, rates[Pair(m.code, "USD")]) <= ImplausibleLimit
            ==> Reply(m, rates, "chat").Ok? && m.text <= Reply(m, rates, "chat").value
    ensures NoFixedReply(m) && m.code in CurrencyFormats &&
            (m.code == "USD" || Pair(m.code, "USD") !in rates || rates[Pair(m.code, "USD")] == 0.0) &&
            m.amount <= ImplausibleLimit
            ==> Reply(m, rates, "chat").Ok? && m.text <= Reply(m, rates, "chat").value
  {
    if NoFixedReply(m) && m.code in CurrencyFormats && UsdEstimate(m.amount, m.code, rates) <= ImplausibleLimit {
      assert Sentinel(m, rates) == None;
      var h := Header(m, true);
      assert m.text <= h;
      PrefixOfFinish(h, Conversions(m.amount, m.code, rates, DisplayCurrencies, Formatting()), true);
    }
  }

  /** Inline replies never take a short cut and never fail: they start with the mention's text. */
  lemma InlineStartsWithMention(m: Mention, rates: map<string, real>)
    ensures Reply(m, rates, "inline").Ok?
    ensures m.text <= Reply(m, rates, "inline").value
  {
    var h := Header(m, false);
    assert m.text <= h;
    var c := Conversions(m.amount, m.code, rates, DisplayCurrencies, Formatting());
    PrefixOfFinish(h, c, false);
  }

  lemma PrefixOfFinish(header: string, conversions: seq<string>, chat: bool)
    ensures header <= Finish(header, conversions, chat)
  {
    if conversions == [] {
      assert Finish(header, conversions, chat) == header + NoRatesSuffix;
    } else if chat {
      assert Finish(header, conversions, chat) == header + (" " + Join(conversions, ", "));
    } else {
      assert Finish(header, conversions, chat) == header + (" (" + Join(conversions, ", ") + ")");
    }
  }

  /** Any mode other than "chat" and "inline" fails. */
  lemma UnknownModeFails(m: Mention, rates: map<string, real>, mode: string)
    requires mode != "chat" && mode != "inline"
    ensures Reply(m, rates, mode) == Err(UnknownMode)
  {
  }

  /** In a chat, a mention in a currency without a format that no short reply catches fails. */
  lemma ChatUnformattableFails(m: Mention, rates: map<string, real>)
    requires Sentinel(m, rates).None? && m.code !in CurrencyFormats
    ensures Reply(m, rates, "chat") == Err(UnknownCurrency)
  {
  }

  /** With no eligible target the reply ends with the no-rates suffix. */
  lemma NoRatesReply(m: Mention, rates: map<string, real>, mode: string)
    requires Reply(m, rates, mode).Ok? && (mode == "inline" || Sentinel(m, rates).None?)
    requires Eligible(m.amount, m.code, rates, DisplayCurrencies) == []
    ensures var v := Reply(m, rates, mode).value;
      |v| >= |NoRatesSuffix| && v[|v| - |NoRatesSuffix|..] == NoRatesSuffix
  {
    FormattingFails();
    ConversionsOfEligible(m.amount, m.code, rates, DisplayCurrencies, Formatting());
    var h := Header(m, mode == "chat");
    var v := h + NoRatesSuffix;
    assert v[|v| - |NoRatesSuffix|..] == NoRatesSuffix;
  }

  /** A pound mention in a chat or inline states its weight in kilograms right after the header text. */
  lemma PoundsGetKilograms(m: Mention, rates: map<string, real>)
    requires PoundMention(m)
    ensures m.text + " (" + KgText(m.amount) + " кг)" <= Reply(m, rates, "inline").value
    ensures Sentinel(m, rates).None? ==>
      m.text + " (" + CurrencyFormats["GBP"].flag + ") это " + KgText(m.amount) + " кг, а также"
        <= Reply(m, rates, "chat").value
  {
    PrefixOfFinish(Header(m, false), Conversions(m.amount, m.code, rates, DisplayCurrencies, Formatting()), false);
    PrefixOfFinish(Header(m, true), Conversions(m.amount, m.code, rates, DisplayCurrencies, Formatting()), true);
  }

  /** The pound sign alone is enough to get the kilogram aside. */
  lemma PoundSignIsPoundMention(m: Mention)
    requires m.code == "GBP" && '£' in m.text
    ensures PoundMention(m)
  {
  }

  /** A reply is never empty. */
  lemma ReplyNotEmpty(m: Mention, rates: map<string, real>, mode: string)
    requires Reply(m, rates, mode).Ok?
    ensures Reply(m, rates, mode).value != ""
  {
    if !(mode == "chat" && Sentinel(m, rates).Some?) {
      var h := Header(m, mode == "chat");
      var c := Conversions(m.amount, m.code, rates, DisplayCurrencies, Formatting());
      PrefixOfFinish(h, c, mode == "chat");
      var f := Finish(h, c, mode == "chat");
      if c == [] {
        assert |f| == |h| + |NoRatesSuffix|;
      } else if mode == "chat" {
        assert |f| == |h| + 1 + |Join(c, ", ")|;
      } else {
        assert |f| == |h| + 2 + |Join(c, ", ")| + 1;
      }
    }
  }

  // ---------------------------------------------------------------------------
  // Several mentions

  /** The non-empty replies to `ms` in order, or the first failure. */
  function Replies(ms: seq<Mention>, rates: map<string, real>, mode: string): Result<seq<string>>
    decreases |ms|
  {
    if ms == [] then Ok([])
    else
      match Replies(ms[..|ms| - 1], rates, mode)
      case Err(e) => Err(e)
      case Ok(earlier) =>
        match Reply(ms[|ms| - 1], rates, mode)
        case Err(e) => Err(e)
        case Ok(s) => Ok(if s != "" then earlier + [s] else earlier)
  }

  /** `format_multiple_conversions`: nothing for no mentions, else the replies one per line. */
  function MultipleReply(ms: seq<Mention>, rates: map<string, real>, mode: string): Result<Option<string>>
  {
    if ms == [] then Ok(None)
    else
      match Replies(ms, rates, mode)
      case Err(e) => Err(e)
      case Ok(rs) => Ok(Some(Join(rs, "\n")))
  }

  /**
   * Every mention gets its own reply, in input order, with nothing merged
   * or dropped; the whole fails exactly when one mention's reply fails.
   */
  lemma {:induction false} OneReplyPerMention(ms: seq<Mention>, rates: map<string, real>, mode: string)
    ensures Replies(ms, rates, mode).Ok? <==> forall i :: 0 <= i < |ms| ==> Reply(ms[i], rates, mode).Ok?
    ensures Replies(ms, rates, mode).Ok? ==>
      var rs := Replies(ms, rates, mode).value;
      |rs| == |ms| && forall i :: 0 <= i < |ms| ==> rs[i] == Reply(ms[i], rates, mode).value
    decreases |ms|
  {
    if ms != [] {
      var p, x := ms[..|ms| - 1], ms[|ms| - 1];
      OneReplyPerMention(p, rates, mode);
      assert forall i :: 0 <= i < |p| ==> p[i] == ms[i];
      if Reply(x, rates, mode).Ok? {
        ReplyNotEmpty(x, rates, mode);
      }
    }
  }

  /** `format_multiple_conversions`, with its loop. */
  method FormatMultipleConversions(ms: seq<Mention>, rates: map<string, real>, mode: string)
    returns (r: Result<Option<string>>)
    ensures r == MultipleReply(ms, rates, mode)
  {
    if ms == [] { return Ok(None); }
    var conversions: seq<string> := [];
    var i := 0;
    while i < |ms|
      invariant 0 <= i <= |ms|
      invariant Replies(ms[..i], rates, mode) == Ok(conversions)
    {
      assert ms[..i + 1][..i] == ms[..i];
      var conversion := FormatConversion(ms[i], rates, mode);
      if conversion.Err? {
        ErrorPersists(ms, i + 1, rates, mode);
        return Err(conversion.error);
      }
      if conversion.value != "" {
        conversions := conversions + [conversion.value];
      }
      i := i + 1;
    }
    assert ms[..i] == ms;
    r := Ok(Some(Join(conversions, "\n")));
  }

  /** Once a prefix of the mentions fails, the whole list fails the same way. */
  lemma {:induction false} ErrorPersists(ms: seq<Mention>, k: nat, rates: map<string, real>, mode: string)
    requires k <= |ms| && Replies(ms[..k], rates, mode).Err?
    ensures Replies(ms, rates, mode) == Replies(ms[..k], rates, mode)
    decreases |ms| - k
  {
    if k < |ms| {
      assert ms[..k + 1][..k] == ms[..k];
      ErrorPersists(ms, k + 1, rates, mode);
    } else {
      assert ms[..k] == ms;
    }
  }
}
