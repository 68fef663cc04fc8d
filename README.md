# currva_converter_bot — a Dafny model of its conversion core

The bot reads chat messages, finds the amounts of money they mention, and replies with each amount converted into a fixed list of currencies. This project models, in Dafny, the parts of the bot that decide what a reply says, and proves properties of them:

- **Amount parser** (`CurrencyParser`).
  - The pattern table is data: each pattern carries its currency name as the bot spells it (`USD`, `USDK`, `USDCENT`), and the name is read into a plain, kilo or cent tag through the `currency_mapping` and `currency_multipliers` tables.
  - The regular-expression engine's matches are an input.
  - `_convert_amount` covers the special tags, the trailing "к" shorthand and the thousands-versus-decimal separator heuristic.
  - `find_currencies` converts every match, stable-sorts the matches by start, and greedily drops overlapping matches. It also updates `current_match`.
- **Reply formatter** (`CurrencyFormatter`).
  - `_format_amount`: half-up rounding, groups of three digits, symbol placement.
  - `format_conversion`: the chat-mode short replies, the dollar estimate, the kilogram aside for pounds, the target walk and the two layouts.
  - `format_multiple_conversions`.
- **The rates map the handler builds** (`RatesRequest`). For every mention and every other target currency, the map holds the manager's rate under the key "FROM_TO", when that rate is present and non-zero.
- **Exchange-rate manager** (`ExchangeRates`).
  - The dollar-quote table, and the cross-rate table built from it.
  - The refresh that replaces that table wholesale, or leaves it alone.
  - The start-up freshness decision, `get_rate` and `get_available_currencies`.
- **Russian number words** (`NumberWords`). `word_to_number`, with its `NUMBER_WORDS` table.
- **Usage statistics** (`Statistics`). `log_request`'s counters and records, and `get_statistics`'s ranking and slicing.
- **User and chat settings** (`UserSettings`).
  - Currency lists under "user:<id>:currencies" and "chat:<id>:currencies".
  - A chat's mute deadline, which expires when read.

Support modules:

- `Wrappers`: Option, Result, and the errors the source raises.
- `Text`: digits, integer and float text, counting, removing and replacing characters, lower case, whitespace split and join.
- `Sorting`: a stable sort by an integer key. It stands for Python's `list.sort(key=...)`, and for `sorted(..., reverse=True)` through a negated key.

How the source is rendered:

- Stateful parts are classes whose methods update fields:
  - `CurrencyParser.CurrencyParser`;
  - `ExchangeRates.ExchangeRatesManager`;
  - `Statistics.StatisticsManager`;
  - `UserSettings.UserSettingsManager`.
- Every loop of the source is a method with a `while` loop. It is proved equal to a specification function, and the properties are lemmas about that function.
- Amounts, rates and timestamps are `real`. The clock, the HTTP response and the contents of the data files are parameters.

## Model

| member | source | states |
|---|---|---|
| `CurrencyParser.TagOfNameMatchesTables` | currency_parser.py:84-104 | for every pattern name, the tag read from it is special exactly when the name is a key of `currency_multipliers`; a special name converts into its `currency_mapping` base with its multiplier, any other name into itself with factor one; the tag spells the name back |
| `CurrencyParser.ConvertAmount` | currency_parser.py:78-137 | a converted amount is in the tag's base currency and is never negative |
| `CurrencyParser.BareKiloWordIsOneThousand` | currency_parser.py:102-107 | a kilo tag with an empty numeral is exactly 1000 of the base currency, not 1000 × 1000 |
| `CurrencyParser.BareCentWordFails` | currency_parser.py:102-107 | a cent tag with an empty numeral reaches `float("")` and fails |
| `CurrencyParser.SpecialNameScalesNumeral` | currency_parser.py:102-104 | for every name in `currency_multipliers`, a whole numeral `a` and a decimal numeral `a.b` convert to their value times `currency_multipliers[name]`, in the base `currency_mapping[name]` |
| `CurrencyParser.KiloTagRejectsShorthand` | currency_parser.py:102-111 | special tags skip the "к" branch, so every numeral ending in "к" or "К" under a kilo or cent tag reaches `float()` with the letter and fails |
| `CurrencyParser.ShorthandMeansThousands` | currency_parser.py:109-111 | for an ordinary tag, a trailing "к" or "К" means the rest of the numeral times one thousand |
| `CurrencyParser.PlainNumeralAsIs` | currency_parser.py:109-137 | without the suffix, an ordinary tag takes the numeral with multiplier one |
| `CurrencyParser.NormalizedIsPlain` | currency_parser.py:113-135 | every branch of the separator heuristic leaves digits with at most one decimal point |
| `CurrencyParser.OrdinaryTagAlwaysParses` | currency_parser.py:109-137 | no numeral of the pattern grammar makes an ordinary tag fail |
| `CurrencyParser.NumeralBodyParses` | currency_parser.py:113-135 | digits, points, commas and spaces with at least one digit always reach an accepted `float()` input |
| `CurrencyParser.DecimalComma` | currency_parser.py:128-131 | "10,5" reads as 10.5 |
| `CurrencyParser.ThousandsComma` | currency_parser.py:128-133 | "1,234" reads as 1234 |
| `CurrencyParser.LonePointIsDecimal` | currency_parser.py:122-135 | "1000.50" reads as 1000.5, whatever the number of digits after the point |
| `CurrencyParser.MixedSeparators` | currency_parser.py:123-127 | "1,000.50" and "1.000,50" both read as 1000.5 |
| `CurrencyParser.RepeatedSeparatorGroups` | currency_parser.py:118-121 | "1.234.567" and "1,234,567" both read as 1234567 |
| `CurrencyParser.DropOverlapsDisjoint` | currency_parser.py:157-164 | the kept matches never overlap, in whatever order they arrive |
| `CurrencyParser.DropOverlapsAscending` | currency_parser.py:153-167 | the kept matches come out in ascending order of start |
| `CurrencyParser.DropOverlapsCovers` | currency_parser.py:157-164 | a dropped match always starts inside a kept match |
| `CurrencyParser.EarliestMatchWins` | currency_parser.py:153-159 | the first kept match has the smallest start, and among ties it is the earliest-registered pattern's match |
| `CurrencyParser.NoMatchesNoMentions` | currency_parser.py:143-169 | no match at all gives an empty list |
| `CurrencyParser.PrefixDecides` | currency_parser.py:147-151 | once one match fails to convert, the whole call fails with that error at that match |
| `CurrencyParser.ConvertAllPrefixFails` | currency_parser.py:147-151 | a failing prefix of the matches decides the result of the whole collection |
| `CurrencyParser.CurrencyParser.constructor` | currency_parser.py:10-12 | a fresh parser's current match is empty |
| `CurrencyParser.CurrencyParser.FindCurrencies` | currency_parser.py:139-169 | the result is the collection, sort and filter specification; `current_match` is left at the failing match's text, or at the last match's text |
| `CurrencyParser.CurrencyParser.ConvertPatterns` | currency_parser.py:146-151 | the collecting loop converts every match, pattern by pattern in table order, and stops at the first failure |
| `CurrencyParser.CurrencyParser.ConvertPattern` | currency_parser.py:148-151 | the inner loop over one pattern's matches extends the conversion run |
| `CurrencyParser.CurrencyParser.ConvertMatch` | currency_parser.py:149-151 | one match: its text is recorded, then it is converted and appended, or the run fails there |
| `CurrencyParser.KeepNonOverlapping` | currency_parser.py:157-164 | the filter loop computes the greedy non-overlap walk |
| `Sorting.SortBySorted` | currency_parser.py:154 | the stable sort's output is ordered by the key |
| `Sorting.SortByStable` | currency_parser.py:154 | the stable sort keeps the elements, and keeps equal-key elements in their input order |
| `Sorting.SortByHeadMinimal` | currency_parser.py:154 | the first element after sorting has the least key |
| `Sorting.SortByHeadEarliest` | currency_parser.py:154 | among the least-key elements, the first one in the input comes first |
| `CurrencyFormatter.TablesAgree` | currency_formatter.py:16-33 | the target list is exactly the format table's keys, each once, and every displayed currency has a format |
| `CurrencyFormatter.RoundHalfUp` | currency_formatter.py:41 | rounds to the nearest integer, with ties away from zero |
| `CurrencyFormatter.RoundHalfEven` | currency_formatter.py:85-89 | rounds to the nearest integer, with ties to the even neighbour (the `:.1f` of a Decimal) |
| `CurrencyFormatter.TenthsTextValue` | currency_formatter.py:48 | a one-decimal text reads back as its count of tenths over ten |
| `CurrencyFormatter.GroupedLength` | currency_formatter.py:44 | grouping adds one separator per full group of three |
| `CurrencyFormatter.GroupedShape` | currency_formatter.py:44 | a separator sits at exactly every fourth place from the end |
| `CurrencyFormatter.GroupedRemove` | currency_formatter.py:44 | removing the separators gives the digits back |
| `CurrencyFormatter.GroupedReplace` | currency_formatter.py:44 | replacing the commas of `{:,}` gives the space-grouped digits |
| `CurrencyFormatter.WholeAmountDigits` | currency_formatter.py:40-46 | above 20, the text without spaces is the rounded whole number |
| `CurrencyFormatter.WholeAmountSpaces` | currency_formatter.py:40-46 | above 20, spaces sit at every fourth place from the end exactly when the rounded number exceeds 10000 |
| `CurrencyFormatter.SmallAmountText` | currency_formatter.py:47-48 | up to 20, the text reads back as the amount rounded half up to tenths |
| `CurrencyFormatter.FormatAmount` | currency_formatter.py:35-54 | fails exactly for a currency without a format (first) or a rounding that needs more than Decimal's 28 digits; USD, EUR and GBP put the symbol before the number, all others after it |
| `CurrencyFormatter.FormattingFails` | currency_formatter.py:37-48 | formatting fails exactly when the currency has no format or the rounded amount overflows the 28-digit context |
| `CurrencyFormatter.OverflowBoundary` | currency_formatter.py:41 | a whole amount of 10^28 overflows the quantize and fails, one less formats |
| `CurrencyFormatter.KgTextValue` | currency_formatter.py:85-89 | the kilogram text reads back as pounds × 0.45359237 rounded half-even to tenths |
| `CurrencyFormatter.Eligible` | currency_formatter.py:96-109 | each listed target is a displayed currency other than the mention's, with a rate, a format and a converted amount that fits the decimal context |
| `CurrencyFormatter.EligibleAppend` | currency_formatter.py:96-109 | walking one more target adds it to the list exactly when it is eligible, that is when formatting it would not raise |
| `CurrencyFormatter.ConversionsOfEligible` | currency_formatter.py:94-109 | the conversions are the eligible targets in display order, each formatted from amount × rate; a target whose formatting raises is skipped |
| `CurrencyFormatter.ChatSentinels` | currency_formatter.py:60-72 | in a chat, a zero amount, 0.5 USD and a dollar estimate above 1,000,000 get their fixed replies, in that order |
| `CurrencyFormatter.ImplausibleInDollars` | currency_formatter.py:60-71 | in a chat, a mention past the zero and half-dollar replies gets the implausible-amount reply when its dollar value exceeds 1,000,000, taken through a present non-zero rate to USD, or as the raw amount for USD, a missing rate or a zero rate; at or below the limit a formattable mention gets the full message, starting with its text |
| `CurrencyFormatter.InlineStartsWithMention` | currency_formatter.py:60-79 | inline replies take no short cut, never fail, and start with the mention's text |
| `CurrencyFormatter.PrefixOfFinish` | currency_formatter.py:111-117 | the tail is appended to the header, never replacing it |
| `CurrencyFormatter.UnknownModeFails` | currency_formatter.py:80-81 | a mode other than chat or inline fails |
| `CurrencyFormatter.ChatUnformattableFails` | currency_formatter.py:75-76 | in a chat, a currency without a format that no short reply catches fails |
| `CurrencyFormatter.NoRatesReply` | currency_formatter.py:116-117 | with no eligible target the reply ends with the no-rates suffix |
| `CurrencyFormatter.PoundsGetKilograms` | currency_formatter.py:83-89 | a pound mention carries its weight in kilograms, in each mode's wording |
| `CurrencyFormatter.PoundSignIsPoundMention` | currency_formatter.py:84 | the pound sign alone triggers the kilogram aside |
| `CurrencyFormatter.ReplyNotEmpty` | currency_formatter.py:56-119 | a successful reply is never empty |
| `CurrencyFormatter.FormatConversion` | currency_formatter.py:56-119 | the step-by-step message equals the reply specification |
| `CurrencyFormatter.CollectConversions` | currency_formatter.py:94-109 | the target loop computes the conversions specification |
| `CurrencyFormatter.OneReplyPerMention` | currency_formatter.py:121-132 | one reply per mention, in input order, with nothing merged, dropped or capped; the whole fails exactly when one reply fails |
| `CurrencyFormatter.FormatMultipleConversions` | currency_formatter.py:121-132 | the loop gives nothing for no mentions, and otherwise the replies joined by newlines |
| `CurrencyFormatter.ErrorPersists` | currency_formatter.py:126-130 | the first failing mention decides the failure of the whole call |
| `RatesRequest.RatesFor` | currva_converter_bot.py:145-151 | the handler's nested loops compute the rates-map specification, asking the manager for each rate |
| `RatesRequest.CollectedSound` | currva_converter_bot.py:145-151 | every entry is the non-zero rate of a mentioned currency into a different target |
| `RatesRequest.CollectedHas` | currva_converter_bot.py:146-151 | every usable pair of a mention and a different target has its entry |
| `RatesRequest.PairInjective` | currva_converter_bot.py:151 | "FROM_TO" keys split back into their codes when no code holds an underscore |
| `RatesRequest.RateForEveryPair` | currva_converter_bot.py:145-151 | a pair's key is present exactly when the target differs and the rate is present and non-zero, and it then maps to that rate |
| `RatesRequest.TargetsArePlain` | currency_formatter.py:31 | no target code holds an underscore |
| `ExchangeRates.CurrencyUniverse` | exchange_rates_manager.py:102-108 | the universe is "USD" first, then each quoted currency once in first-quoted order, exactly the keys of the dollar table |
| `ExchangeRates.UsdValueIsLastQuote` | exchange_rates_manager.py:103-105 | a currency's dollar value is its last quote |
| `ExchangeRates.UsdIsOne` | exchange_rates_manager.py:102 | "USD" is worth 1.0 unless a quote names it |
| `ExchangeRates.CollectUsdRates` | exchange_rates_manager.py:102-108 | the quote loop computes the dollar table and its insertion order |
| `ExchangeRates.CrossTableEntries` | exchange_rates_manager.py:111-120 | every base has a row; a row holds every other currency, at the target's quote times one over the base's quote, and no diagonal entry |
| `ExchangeRates.BuildRow` | exchange_rates_manager.py:112-120 | the inner loop computes one base's row |
| `ExchangeRates.BuildTable` | exchange_rates_manager.py:110-120 | the loops produce the table exactly when no dollar quote is zero |
| `ExchangeRates.Lookup` | exchange_rates_manager.py:75-82 | `get_rate` finds a rate exactly when both keys are present |
| `ExchangeRates.RefreshWithoutQuotes` | exchange_rates_manager.py:97-99 | a failed request, or an unsuccessful response, changes nothing |
| `ExchangeRates.ZeroQuoteReplacesOnlyCurrencies` | exchange_rates_manager.py:108-112 | a zero quote fails the division after the currency list was replaced; the table and its time stay |
| `ExchangeRates.RefreshedLookups` | exchange_rates_manager.py:108-125 | after a refresh, the time is now, the list is the universe, and a lookup succeeds exactly for two different currencies of it |
| `ExchangeRates.NoDiagonal` | exchange_rates_manager.py:116 | a currency never has a rate to itself |
| `ExchangeRates.FreshCacheIsKept` | exchange_rates_manager.py:25-31 | a cache at most two hours old is used as it is, and the currency list stays empty |
| `ExchangeRates.OtherwiseRefreshes` | exchange_rates_manager.py:25-50 | with no loadable cache, or one older than two hours, start-up refreshes; rates from a cache with a bad timestamp survive a failed refresh |
| `ExchangeRates.ExchangeRatesManager.constructor` | exchange_rates_manager.py:20-34 | the manager starts empty, then runs `_initialize_rates` |
| `ExchangeRates.ExchangeRatesManager.InitializeRates` | exchange_rates_manager.py:25-34 | load the cache, then refresh unless the cache is fresh |
| `ExchangeRates.ExchangeRatesManager.LoadCache` | exchange_rates_manager.py:36-50 | loading succeeds only for a full cache, and then sets the stored time |
| `ExchangeRates.ExchangeRatesManager.GetRate` | exchange_rates_manager.py:75-82 | returns the stored entry, or nothing |
| `ExchangeRates.ExchangeRatesManager.UpdateAllRates` | exchange_rates_manager.py:84-129 | the fields become the refresh specification |
| `ExchangeRates.ExchangeRatesManager.GetAvailableCurrencies` | exchange_rates_manager.py:131-134 | returns the currency list as an independent value |
| `NumberWords.ReadNumber` | bot_old.py:68-100 | fails with "no number" exactly when no word is a number word, fails with "zero" when the sum is 0, and otherwise returns total + current of the scan |
| `NumberWords.WordToNumberOf` | bot_old.py:68-69 | lower-cases and splits the text, then reads it |
| `NumberWords.Relevant` | bot_old.py:83-95 | keeps only number and thousand words, never more words than given |
| `NumberWords.OtherWordsIgnored` | bot_old.py:83-95 | words that are neither number nor thousand words change neither the sum nor whether a number was found |
| `NumberWords.HasNumberSnoc` | bot_old.py:75-78 | a number word occurs exactly when it occurs in the prefix or is the last word |
| `NumberWords.PlainWordsAdd` | bot_old.py:89-90 | without "сто" and thousand words, the reader adds the word values |
| `NumberWords.ScanNonnegative` | bot_old.py:83-97 | with a table of non-negative values, neither accumulator goes negative |
| `NumberWords.ReadingPositive` | bot_old.py:97-100 | a successful reading is positive |
| `NumberWords.ThousandAloneFails` | bot_old.py:74-81 | "тысяча" alone fails: thousand words are not number words |
| `NumberWords.ZeroFails` | bot_old.py:97-99 | "ноль" reads as zero and fails |
| `NumberWords.HundredMultipliesGroup` | bot_old.py:85-88 | "сто" multiplies the group read so far: "двадцать пять сто" is 2500 |
| `NumberWords.ThousandsThenHundreds` | bot_old.py:91-97 | a thousand word closes the group: "две тысячи пятьсот" is 2500 |
| `Statistics.KeyedAdd` | statistics_manager.py:140-148 | adding a key keeps the insertion order a listing of the map's keys |
| `Statistics.LoggedValid` | statistics_manager.py:122-184 | logging keeps every record listed exactly once |
| `Statistics.TotalsCounted` | statistics_manager.py:127-132 | exactly one of the two totals goes up by one |
| `Statistics.NewUserRecord` | statistics_manager.py:140-156 | a first-seen user starts with zero counters, then exactly the matching one goes up; its first-seen and last-active times are now |
| `Statistics.KnownUserRecord` | statistics_manager.py:150-156 | a known user's matching counter goes up by one, the other stays, and the last-active time is now |
| `Statistics.NamesReplacedWhenGiven` | statistics_manager.py:158-161 | stored names are replaced only by non-empty new ones |
| `Statistics.NoIdNoUserRecord` | statistics_manager.py:135 | a sender without an id leaves the user records alone |
| `Statistics.OthersUntouched` | statistics_manager.py:134-181 | records of other users and other chats are unchanged |
| `Statistics.ChatCounted` | statistics_manager.py:166-179 | only a present, non-zero chat id other than the sender's own counts, and it counts once |
| `Statistics.NewChatTitle` | statistics_manager.py:170-175 | a new chat takes the given title, or "Unknown" |
| `Statistics.UserRows` | statistics_manager.py:200-211 | one row per user record, in insertion order |
| `Statistics.ChatRows` | statistics_manager.py:229-235 | one row per chat record, in insertion order |
| `Statistics.TopUsersRanked` | statistics_manager.py:214-217 | top users are ordered by total requests, highest first, cut to the limit only when it is positive, and no user left out has more requests than one listed |
| `Statistics.TopUsersUnlimited` | statistics_manager.py:216-217 | with no positive limit, every user is listed |
| `Statistics.TopUserIsBusiest` | statistics_manager.py:214-217 | the first user listed has the most requests |
| `Statistics.TopChatsRanked` | statistics_manager.py:236 | top chats are ordered by requests, highest first, always sliced by the limit, and no chat left out has more requests than one listed |
| `Statistics.MinusOneDropsLastChat` | statistics_manager.py:236 | with the limit -1 used by the metrics reporter at line 300, exactly one chat is dropped, one with the fewest requests |
| `Statistics.UniqueCountsAreRecords` | statistics_manager.py:242-243 | the unique-user and unique-chat counts are the numbers of records |
| `Statistics.StatisticsManager.constructor` | statistics_manager.py:27-51 | the manager holds the stored statistics |
| `Statistics.StatisticsManager.LogRequest` | statistics_manager.py:122-184 | the store becomes the logging specification, and stays well formed |
| `Statistics.StatisticsManager.LogUser` | statistics_manager.py:134-163 | the user part of a request |
| `Statistics.StatisticsManager.LogChat` | statistics_manager.py:166-181 | the chat part of a request |
| `Statistics.StatisticsManager.GetStatistics` | statistics_manager.py:189-246 | the report equals the statistics specification |
| `Statistics.StatisticsManager.CollectUserRows` | statistics_manager.py:200-211 | the loop builds one row per user record |
| `Statistics.StatisticsManager.CollectChatRows` | statistics_manager.py:229-235 | the loop builds one row per chat record |
| `UserSettings.CurrenciesKeyInjective` | user_settings_manager.py:32-33 | different owners never share a currency key, and user and chat keys never coincide |
| `UserSettings.DisabledKeyInjective` | user_settings_manager.py:48 | different chats never share a deadline key |
| `UserSettings.KeysDiffer` | user_settings_manager.py:33 | a currency key is never a deadline key |
| `UserSettings.WithCurrencies` | user_settings_manager.py:39-43 | writing a list keeps currency keys holding lists and deadline keys holding deadlines |
| `UserSettings.WithDisabled` | user_settings_manager.py:60-64 | writing a deadline keeps every key holding its kind of value |
| `UserSettings.AfterCheck` | user_settings_manager.py:46-58 | the check keeps every key holding its kind of value |
| `UserSettings.SetThenGet` | user_settings_manager.py:30-43 | reading back what was set gives the list, or nothing when the list was empty |
| `UserSettings.SettingIsolated` | user_settings_manager.py:32-33 | setting one owner's list leaves every other user's and chat's list as it was |
| `UserSettings.NothingStored` | user_settings_manager.py:34-37 | with nothing stored, there is no list |
| `UserSettings.MutedUntilDeadline` | user_settings_manager.py:53-54 | right after muting, a chat is muted at time t exactly when t is before now + duration |
| `UserSettings.NoDeadlineNotMuted` | user_settings_manager.py:49-50 | a chat with no deadline is not muted |
| `UserSettings.ExpiredStaysOff` | user_settings_manager.py:56-58 | a check that answers "not muted" leaves no deadline, so later checks answer the same |
| `UserSettings.CheckTouchesOnlyItsKey` | user_settings_manager.py:46-58 | a check changes nothing while muted, and otherwise removes only that chat's deadline |
| `UserSettings.MuteLeavesCurrencies` | user_settings_manager.py:60-64 | muting or checking a chat leaves every currency list as it was |
| `UserSettings.MuteIsolated` | user_settings_manager.py:60-64 | muting one chat does not mute another, and setting currencies mutes nothing |
| `UserSettings.UserSettingsManager.constructor` | user_settings_manager.py:23-28 | the manager holds the stored settings |
| `UserSettings.UserSettingsManager.GetCurrencies` | user_settings_manager.py:30-37 | returns the stored list, or nothing when it is absent or empty |
| `UserSettings.UserSettingsManager.SetCurrencies` | user_settings_manager.py:39-43 | the store gets the list under the owner's key |
| `UserSettings.UserSettingsManager.IsChatDisabled` | user_settings_manager.py:46-58 | answers whether the stored deadline lies after now, and removes an expired one |
| `UserSettings.UserSettingsManager.SetChatDisabled` | user_settings_manager.py:60-64 | the store gets now + duration under the chat's deadline key |

## Left out

- The regular-expression engine (`re.finditer`, `IGNORECASE`, `\b`). Its matches are an input: per pattern, in table order, each with its start, end, captured numeral and matched text. `IsNumeral` is a superset of the numeral grammar, not the grammar itself.
- Binary floating point. Amounts, rates and Decimal values are `real`, and `float()` is modelled as exact decimal parsing, so nothing is claimed about float rounding. Infinite and NaN floats do not exist in the model, and Decimal products are exact rather than rounded to 28 significant digits; only the quantize overflow of `_format_amount` is modelled.
- Text.ParseFloat: accepts ASCII digits only (so do `Text.IsDigit` and `Text.DigitValue`). The source's `\d` patterns and `float()` also accept other Unicode decimal digits, such as Arabic-Indic or fullwidth ones; a numeral written with them gives a parse failure in the model where the source reads its value.
- HTTP, JSON and files:
  - a refresh receives the response it would have fetched;
  - start-up receives what reading the cache produced;
  - the statistics and settings stores start from given contents.
- Writing the cache file is left out (the code writes it in place, not through an atomic rename). So are pickledb's writes to disk, and the defaults the statistics constructor puts into an empty file.
- Threads, locks, the periodic refresh thread, the InfluxDB reporting thread and logging are left out: they are concurrency and I/O.
- Clocks are parameters. `log_request` calls `datetime.now()` three times; the model uses one `now` for all three.
- The relative "N ago" strings of `get_statistics` are left out, because they depend on the wall clock.
- Statistics.UserRows: the `.get(..., 0)` and default-date fallbacks for records missing fields are not modelled. Every stored record has all its fields.
- Statistics keys are the integer ids themselves, not `str(id)`. Distinct ids give distinct strings, so the model is the same.
- The flag and symbol texts of the currency table, and the zero-amount chat reply, are opaque constants. The zero-amount reply is a placeholder string.
- `Text.Lower` lower-cases ASCII and Cyrillic only, not all of Unicode. The texts the bot sees are numerals and Russian or English words.
- The `process_currencies` alias, the Telegram handlers, inline-result framing and the rest of currva_converter_bot.py are transport glue. Only the rates map the handler builds (currva_converter_bot.py:145-151) is modelled.
- The rest of bot_old.py is not part of this model. That covers the old extractor, cache, float formatting and handlers.
- CurrencyParser.ShorthandMeansThousands and CurrencyParser.PlainNumeralAsIs state the source's "к" branch over the parsed numeral (`Scaled`), not as one equation "s + к = 1000 × s". The two are equivalent for numerals that parse.

Behaviour of the code worth knowing, which the model keeps:

- A numeral that `float()` rejects raises out of `find_currencies`. It is not read as amount 0; the model returns an error.
- The pound sign alone ("£5") triggers the kilogram aside, as the word "фунт" does.
- The implausible-amount threshold is strictly above 1,000,000.
- The kilogram text rounds half-even, which is Decimal's default for `:.1f`. `_format_amount` rounds half-up.
- `format_multiple_conversions` neither deduplicates nor caps the mentions.
- In chat mode, a currency without a format raises KeyError (an error here). It is not skipped.
- Loading the cache never sets the currency list, so it stays empty until a refresh.
- A cache whose timestamp is unreadable still leaves its rates in place.
- A zero quote replaces only the currency list before the refresh fails.
- `get_statistics(-1)`, as the metrics reporter calls it, lists every user but drops the last chat. `top_chats` is sliced `[:stat_limit]` unconditionally.
