/**
 * Per-user and per-chat settings kept in a key-value store: the list of
 * currencies a user or a chat wants to see, under "user:<id>:currencies" or
 * "chat:<id>:currencies", and a chat's mute deadline under
 * "chat:<id>:disabled_until".  The clock is a parameter.
 */
module UserSettings {
  import opened Wrappers
  import opened Text

  /** What the store holds: a currency list or a mute deadline in seconds. */
  datatype Value = CurrencyList(codes: seq<string>) | DisabledUntil(deadline: real)

  type Store = map<string, Value>

  function Prefix(isChat: bool): string
  {
    if isChat then "chat" else "user"
  }

  /** The key of a user's or a chat's currency list. */
  function CurrenciesKey(id: int, isChat: bool): string
  {
    Prefix(isChat) + ":" + IntToString(id) + ":currencies"
  }

  /** The key of a chat's mute deadline. */
  function DisabledKey(chatId: int): string
  {
    "chat:" + IntToString(chatId) + ":disabled_until"
  }

  /** Currency keys hold lists and deadline keys hold deadlines. */
  ghost predicate WellTyped(db: Store)
  {
    (forall id, isChat :: CurrenciesKey(id, isChat) in db ==> db[CurrenciesKey(id, isChat)].CurrencyList?) &&
    (forall id :: DisabledKey(id) in db ==> db[DisabledKey(id)].DisabledUntil?)
  }

  // ---------------------------------------------------------------------------
  // Keys

  /** `a + b == c + d` with `|a| == |c|` splits into the two equalities. */
  lemma SplitEqual(a: string, b: string, c: string, d: string)
    requires a + b == c + d && |a| == |c|
    ensures a == c && b == d
  {
    assert a == (a + b)[..|a|] && c == (c + d)[..|c|];
    assert b == (a + b)[|a|..] && d == (c + d)[|c|..];
  }

  /** Different owners never share a currency key. */
  lemma CurrenciesKeyInjective(a: int, isChatA: bool, b: int, isChatB: bool)
    requires CurrenciesKey(a, isChatA) == CurrenciesKey(b, isChatB)
    ensures a == b && isChatA == isChatB
  {
    var pa, pb := Prefix(isChatA) + ":", Prefix(isChatB) + ":";
    var sa, sb := IntToString(a), IntToString(b);
    SplitEqual(pa + sa, ":currencies", pb + sb, ":currencies");
    SplitEqual(pa, sa, pb, sb);
    IntToStringInjective(a, b);
    assert pa[..4] == Prefix(isChatA) && pb[..4] == Prefix(isChatB);
  }

  /** Different chats never share a deadline key. */
  lemma DisabledKeyInjective(a: int, b: int)
    requires DisabledKey(a) == DisabledKey(b)
    ensures a == b
  {
    var sa, sb := IntToString(a), IntToString(b);
    SplitEqual("chat:" + sa, ":disabled_until", "chat:" + sb, ":disabled_until");
    SplitEqual("chat:", sa, "chat:", sb);
    IntToStringInjective(a, b);
  }

  /** A currency key is never a deadline key: they end in different letters. */
  lemma KeysDiffer(id: int, isChat: bool, chatId: int)
    ensures CurrenciesKey(id, isChat) != DisabledKey(chatId)
  {
    var c, d := CurrenciesKey(id, isChat), DisabledKey(chatId);
    assert c[|c| - 1] == 's';
    assert d[|d| - 1] == 'l';
  }

  // ---------------------------------------------------------------------------
  // The operations on the store

  /** `get_currencies`: the stored list, or nothing when it is absent or empty. */
  function Currencies(db: Store, id: int, isChat: bool): Option<seq<string>>
    requires WellTyped(db)
  {
    var key := CurrenciesKey(id, isChat);
    if key in db && db[key].codes != [] then Some(db[key].codes) else None
  }

  /** `set_currencies`: the store after writing the list. */
  function WithCurrencies(db: Store, id: int, codes: seq<string>, isChat: bool): (r: Store)
    requires WellTyped(db)
    ensures WellTyped(r)
  {
    CurrenciesWriteKeepsTypes(db, id, codes, isChat);
    db[CurrenciesKey(id, isChat) := CurrencyList(codes)]
  }

  /** `is_chat_disabled`'s answer: a deadline is stored and lies after `now`. */
  predicate IsDisabled(db: Store, chatId: int, now: real)
    requires WellTyped(db)
  {
    var key := DisabledKey(chatId);
    key in db && db[key].deadline > now
  }

  /** The store after `is_chat_disabled`: an expired deadline is removed. */
  function AfterCheck(db: Store, chatId: int, now: real): (r: Store)
    requires WellTyped(db)
    ensures WellTyped(r)
  {
    var key := DisabledKey(chatId);
    if key in db && !IsDisabled(db, chatId, now) then db - {key} else db
  }

  /** The mute deadline: `duration` seconds after `now`. */
  function Deadline(now: real, duration: int): real
  {
    now + duration as real
  }

  /** `set_chat_disabled`: the deadline `now + duration` under the chat's key. */
  function WithDisabled(db: Store, chatId: int, duration: int, now: real): (r: Store)
    requires WellTyped(db)
    ensures WellTyped(r)
  {
    DeadlineWriteKeepsTypes(db, chatId, DisabledUntil(Deadline(now, duration)));
    db[DisabledKey(chatId) := DisabledUntil(Deadline(now, duration))]
  }

  /** Writing a list under a currency key keeps every key holding its kind of value. */
  lemma CurrenciesWriteKeepsTypes(db: Store, id: int, codes: seq<string>, isChat: bool)
    requires WellTyped(db)
    ensures WellTyped(db[CurrenciesKey(id, isChat) := CurrencyList(codes)])
  {
    var r := db[CurrenciesKey(id, isChat) := CurrencyList(codes)];
    forall other | DisabledKey(other) in r ensures r[DisabledKey(other)].DisabledUntil? {
      KeysDiffer(id, isChat, other);
    }
  }

  /** Writing a deadline under a deadline key keeps every key holding its kind of value. */
  lemma DeadlineWriteKeepsTypes(db: Store, chatId: int, v: Value)
    requires WellTyped(db) && v.DisabledUntil?
    ensures WellTyped(db[DisabledKey(chatId) := v])
  {
    var r := db[DisabledKey(chatId) := v];
    forall other, c | CurrenciesKey(other, c) in r ensures r[CurrenciesKey(other, c)].CurrencyList? {
      KeysDiffer(other, c, chatId);
    }
  }

  // ---------------------------------------------------------------------------
  // The manager

  class UserSettingsManager {
    var db: Store

    ghost predicate Valid()
      reads this
    {
      WellTyped(db)
    }

    /** Opening the settings file, given its contents. */
    constructor(stored: Store)
      requires WellTyped(stored)
      ensures db == stored && Valid()
    {
      db := stored;
    }

    method GetCurrencies(entityId: int, isChat: bool) returns (r: Option<seq<string>>)
      requires Valid()
      ensures r == Currencies(db, entityId, isChat)
    {
      var key := CurrenciesKey(entityId, isChat);
      if key in db {
        var currencies := db[key].codes;
        if currencies != [] {
          return Some(currencies);
        }
        return None;
      }
      return None;
    }

    method SetCurrencies(entityId: int, currencies: seq<string>, isChat: bool)
      requires Valid()
      modifies this
      ensures db == WithCurrencies(old(db), entityId, currencies, isChat) && Valid()
    {
      var key := CurrenciesKey(entityId, isChat);
      db := db[key := CurrencyList(currencies)];
    }

    method IsChatDisabled(chatId: int, now: real) returns (disabled: bool)
      requires Valid()
      modifies this
      ensures disabled == IsDisabled(old(db), chatId, now)
      ensures db == AfterCheck(old(db), chatId, now) && Valid()
    {
      var key := DisabledKey(chatId);
      if key !in db {
        return false;
      }
      var disabledUntil := db[key].deadline;
      if disabledUntil > now {
        return true;
      }
      db := db - {key};
      return false;
    }

    method SetChatDisabled(chatId: int, durationSeconds: int, now: real)
      requires Valid()
      modifies this
      ensures db == WithDisabled(old(db), chatId, durationSeconds, now) && Valid()
    {
      var key := DisabledKey(chatId);
      var disabledUntil := Deadline(now, durationSeconds);
      db := db[key := DisabledUntil(disabledUntil)];
    }
  }

  // ---------------------------------------------------------------------------
  // Properties

  /** Reading back what was set gives the list, unless the list was empty. */
  lemma SetThenGet(db: Store, id: int, codes: seq<string>, isChat: bool)
    requires WellTyped(db)
    ensures Currencies(WithCurrencies(db, id, codes, isChat), id, isChat) ==
      if codes == [] then None else Some(codes)
  {
  }

  /** Setting one owner's list leaves every other owner's list as it was, users and chats alike. */
  lemma SettingIsolated(db: Store, id: int, codes: seq<string>, isChat: bool, other: int, otherIsChat: bool)
    requires WellTyped(db)
    requires other != id || otherIsChat != isChat
    ensures Currencies(WithCurrencies(db, id, codes, isChat), other, otherIsChat) == Currencies(db, other, otherIsChat)
  {
    if CurrenciesKey(id, isChat) == CurrenciesKey(other, otherIsChat) {
      CurrenciesKeyInjective(id, isChat, other, otherIsChat);
    }
  }

  /** Nothing stored gives no list. */
  lemma NothingStored(id: int, isChat: bool)
    ensures Currencies(map[], id, isChat) == None
  {
  }

  /** Right after muting, the chat is muted at time `t` exactly when `t` is before the deadline. */
  lemma MutedUntilDeadline(db: Store, chatId: int, duration: int, now: real, t: real)
    requires WellTyped(db)
    ensures IsDisabled(WithDisabled(db, chatId, duration, now), chatId, t) <==> t < now + duration as real
  {
  }

  /** A chat with no deadline is not muted. */
  lemma NoDeadlineNotMuted(db: Store, chatId: int, now: real)
    requires WellTyped(db) && DisabledKey(chatId) !in db
    ensures !IsDisabled(db, chatId, now)
  {
  }

  /** A check that answers "not muted" leaves no deadline behind, so every later check answers the same. */
  lemma ExpiredStaysOff(db: Store, chatId: int, now: real, later: real)
    requires WellTyped(db) && !IsDisabled(db, chatId, now)
    ensures DisabledKey(chatId) !in AfterCheck(db, chatId, now)
    ensures !IsDisabled(AfterCheck(db, chatId, now), chatId, later)
  {
  }

  /** A check changes nothing while the chat is muted, and otherwise only drops that chat's deadline. */
  lemma CheckTouchesOnlyItsKey(db: Store, chatId: int, now: real)
    requires WellTyped(db)
    ensures IsDisabled(db, chatId, now) ==> AfterCheck(db, chatId, now) == db
    ensures forall k :: k != DisabledKey(chatId) ==>
      (k in AfterCheck(db, chatId, now) <==> k in db) &&
      (k in db ==> AfterCheck(db, chatId, now)[k] == db[k])
  {
  }

  /** Muting a chat, or checking it, leaves every currency list as it was. */
  lemma MuteLeavesCurrencies(db: Store, chatId: int, duration: int, now: real, id: int, isChat: bool)
    requires WellTyped(db)
    ensures Currencies(WithDisabled(db, chatId, duration, now), id, isChat) == Currencies(db, id, isChat)
    ensures Currencies(AfterCheck(db, chatId, now), id, isChat) == Currencies(db, id, isChat)
  {
    KeysDiffer(id, isChat, chatId);
  }

  /** Muting one chat does not mute another; setting currencies mutes nothing. */
  lemma MuteIsolated(db: Store, chatId: int, duration: int, now: real, other: int, t: real,
                     id: int, codes: seq<string>, isChat: bool)
    requires WellTyped(db) && other != chatId
    ensures IsDisabled(WithDisabled(db, chatId, duration, now), other, t) == IsDisabled(db, other, t)
    ensures IsDisabled(WithCurrencies(db, id, codes, isChat), other, t) == IsDisabled(db, other, t)
  {
    if DisabledKey(chatId) == DisabledKey(other) {
      DisabledKeyInjective(chatId, other);
    }
    KeysDiffer(id, isChat, other);
  }
}
