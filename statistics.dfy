/**
 * Usage counters: totals of ordinary and inline requests, a record per user
 * and per group chat, and the report that ranks users and chats by their
 * request counts.  User and chat records are kept in the order they were
 * first seen, as the store's dictionaries keep them; the clock is a
 * parameter.
 */
module Statistics {
  import opened Wrappers
  import opened Sorting

  /** The sender of a request: an id (zero when missing) and the names Telegram gave. */
  datatype User = User(id: int, username: Option<string>, firstName: Option<string>)

  datatype UserRecord = UserRecord(
    username: Option<string>, firstName: Option<string>,
    requests: nat, inlineRequests: nat,
    firstSeen: real, lastActive: real)

  datatype ChatRecord = ChatRecord(title: string, requests: nat, firstSeen: real)

  /** The statistics store: the totals, the user and chat records with their first-seen order, the last write. */
  datatype Stats = Stats(
    totalRequests: nat, totalInlineRequests: nat,
    users: map<int, UserRecord>, userOrder: seq<int>,
    chats: map<int, ChatRecord>, chatOrder: seq<int>,
    lastUpdate: real)

  /** Python's truth value of an optional string: present and not empty. */
  predicate Truthy(s: Option<string>)
  {
    s.Some? && s.value != ""
  }

  /** `order` lists the keys of `m`, each once. */
  ghost predicate Keyed<V>(m: map<int, V>, order: seq<int>)
  {
    Distinct(order) && (forall i :: 0 <= i < |order| ==> order[i] in m) && (forall k :: k in m ==> k in order)
  }

  ghost predicate Valid(s: Stats)
  {
    Keyed(s.users, s.userOrder) && Keyed(s.chats, s.chatOrder)
  }

  // ---------------------------------------------------------------------------
  // log_request

  /** A chat is counted when its id is present, non-zero, and not the sender's own (private) chat. */
  predicate CountsChat(user: User, chatId: Option<int>)
  {
    chatId.Some? && chatId.value != 0 && chatId.value != user.id
  }

  /** The sender's record after the request: created with zero counters if new, then counted and renamed. */
  function UserAfter(s: Stats, user: User, isInline: bool, now: real): UserRecord
  {
    var base := if user.id in s.users then s.users[user.id]
                else UserRecord(user.username, user.firstName, 0, 0, now, now);
    var counted := if isInline then base.(inlineRequests := base.inlineRequests + 1)
                   else base.(requests := base.requests + 1);
    var active := counted.(lastActive := now);
    var named := if Truthy(user.username) then active.(username := user.username) else active;
    if Truthy(user.firstName) then named.(firstName := user.firstName) else named
  }

  /** The chat's record after the request: created as "Unknown" if new and untitled, then counted and retitled. */
  function ChatAfter(s: Stats, chatId: int, chatTitle: Option<string>, now: real): ChatRecord
  {
    var base := if chatId in s.chats then s.chats[chatId]
                else ChatRecord(if Truthy(chatTitle) then chatTitle.value else "Unknown", 0, now);
    var counted := base.(requests := base.requests + 1);
    if Truthy(chatTitle) then counted.(title := chatTitle.value) else counted
  }

  /** The totals after one request: exactly the matching counter goes up. */
  function Counted(s: Stats, isInline: bool): Stats
  {
    if isInline then s.(totalInlineRequests := s.totalInlineRequests + 1)
    else s.(totalRequests := s.totalRequests + 1)
  }

  /** The store with the sender's record written back, listed last if it is new. */
  function UserLogged(s: Stats, user: User, isInline: bool, now: real): Stats
  {
    s.(users := s.users[user.id := UserAfter(s, user, isInline, now)],
       userOrder := if user.id in s.users then s.userOrder else s.userOrder + [user.id])
  }

  /** The store with the chat's record written back, listed last if it is new. */
  function ChatLogged(s: Stats, chatId: int, chatTitle: Option<string>, now: real): Stats
  {
    s.(chats := s.chats[chatId := ChatAfter(s, chatId, chatTitle, now)],
       chatOrder := if chatId in s.chats then s.chatOrder else s.chatOrder + [chatId])
  }

  /** `log_request`: the store after one request. */
  function Logged(s: Stats, user: User, chatId: Option<int>, chatTitle: Option<string>, isInline: bool, now: real): Stats
  {
    var counted := Counted(s, isInline);
    var withUser := if user.id == 0 then counted else UserLogged(counted, user, isInline, now);
    var withChat := if CountsChat(user, chatId) then ChatLogged(withUser, chatId.value, chatTitle, now) else withUser;
    withChat.(lastUpdate := now)
  }

  /** Adding a key in front of nothing it already holds keeps `order` a listing of the map's keys. */
  lemma KeyedAdd<V>(m: map<int, V>, order: seq<int>, k: int, v: V)
    requires Keyed(m, order)
    ensures Keyed(m[k := v], if k in m then order else order + [k])
  {
    if k !in m {
      var o := order + [k];
      forall i, j | 0 <= i < j < |o| ensures o[i] != o[j] {
        if j == |order| {
          assert o[i] == order[i] && order[i] in m;
        }
      }
    }
  }

  /** Logging keeps every record listed exactly once in its order. */
  lemma LoggedValid(s: Stats, user: User, chatId: Option<int>, chatTitle: Option<string>, isInline: bool, now: real)
    requires Valid(s)
    ensures Valid(Logged(s, user, chatId, chatTitle, isInline, now))
  {
    var counted := Counted(s, isInline);
    var withUser := if user.id == 0 then counted else UserLogged(counted, user, isInline, now);
    if user.id != 0 {
      KeyedAdd(counted.users, counted.userOrder, user.id, UserAfter(counted, user, isInline, now));
    }
    assert Valid(withUser);
    if CountsChat(user, chatId) {
      KeyedAdd(withUser.chats, withUser.chatOrder, chatId.value, ChatAfter(withUser, chatId.value, chatTitle, now));
    }
  }

  /** A request raises exactly one of the two totals by one. */
  lemma TotalsCounted(s: Stats, user: User, chatId: Option<int>, chatTitle: Option<string>, isInline: bool, now: real)
    ensures var t := Logged(s, user, chatId, chatTitle, isInline, now);
      t.totalRequests == s.totalRequests + (if isInline then 0 else 1) &&
      t.totalInlineRequests == s.totalInlineRequests + (if isInline then 1 else 0)
  {
  }

  /** A first-seen user gets zero counters, then exactly the matching one is raised; it is listed last. */
  lemma NewUserRecord(s: Stats, user: User, chatId: Option<int>, chatTitle: Option<string>, isInline: bool, now: real)
    requires user.id != 0 && user.id !in s.users
    ensures var t := Logged(s, user, chatId, chatTitle, isInline, now);
      user.id in t.users && t.userOrder == s.userOrder + [user.id] &&
      t.users[user.id].requests == (if isInline then 0 else 1) &&
      t.users[user.id].inlineRequests == (if isInline then 1 else 0) &&
      t.users[user.id].firstSeen == now && t.users[user.id].lastActive == now
  {
  }

  /** A known user's matching counter goes up by one, the other stays, and its place in the order is kept. */
  lemma KnownUserRecord(s: Stats, user: User, chatId: Option<int>, chatTitle: Option<string>, isInline: bool, now: real)
    requires user.id != 0 && user.id in s.users
    ensures var t := Logged(s, user, chatId, chatTitle, isInline, now);
      var before := s.users[user.id];
      user.id in t.users && t.userOrder == s.userOrder &&
      t.users[user.id].requests == before.requests + (if isInline then 0 else 1) &&
      t.users[user.id].inlineRequests == before.inlineRequests + (if isInline then 1 else 0) &&
      t.users[user.id].firstSeen == before.firstSeen && t.users[user.id].lastActive == now
  {
  }

  /** A known user's stored names are replaced only by non-empty new ones. */
  lemma NamesReplacedWhenGiven(s: Stats, user: User, chatId: Option<int>, chatTitle: Option<string>, isInline: bool, now: real)
    requires user.id != 0 && user.id in s.users
    ensures var t := Logged(s, user, chatId, chatTitle, isInline, now);
      var before := s.users[user.id];
      user.id in t.users &&
      t.users[user.id].username == (if Truthy(user.username) then user.username else before.username) &&
      t.users[user.id].firstName == (if Truthy(user.firstName) then user.firstName else before.firstName)
  {
  }

  /** A sender without an id leaves the user records alone. */
  lemma NoIdNoUserRecord(s: Stats, user: User, chatId: Option<int>, chatTitle: Option<string>, isInline: bool, now: real)
    requires user.id == 0
    ensures var t := Logged(s, user, chatId, chatTitle, isInline, now);
      t.users == s.users && t.userOrder == s.userOrder
  {
  }

  /** Records of other users and other chats are untouched. */
  lemma OthersUntouched(s: Stats, user: User, chatId: Option<int>, chatTitle: Option<string>, isInline: bool, now: real)
    ensures var t := Logged(s, user, chatId, chatTitle, isInline, now);
      (forall k :: k in s.users && k != user.id ==> k in t.users && t.users[k] == s.users[k]) &&
      (forall k :: k in s.chats && (chatId.None? || k != chatId.value) ==> k in t.chats && t.chats[k] == s.chats[k])
  {
  }

  /** A private chat, or a missing chat id, is not counted; a group chat's counter goes up by one. */
  lemma ChatCounted(s: Stats, user: User, chatId: Option<int>, chatTitle: Option<string>, isInline: bool, now: real)
    ensures var t := Logged(s, user, chatId, chatTitle, isInline, now);
      if CountsChat(user, chatId) then
        chatId.value in t.chats &&
        t.chats[chatId.value].requests == (if chatId.value in s.chats then s.chats[chatId.value].requests + 1 else 1)
      else t.chats == s.chats && t.chatOrder == s.chatOrder
  {
  }

  /** A new chat is titled with the given title, or "Unknown" when there is none. */
  lemma NewChatTitle(s: Stats, user: User, chatId: Option<int>, chatTitle: Option<string>, isInline: bool, now: real)
    requires CountsChat(user, chatId) && chatId.value !in s.chats
    ensures var t := Logged(s, user, chatId, chatTitle, isInline, now);
      chatId.value in t.chats && t.chatOrder == s.chatOrder + [chatId.value] &&
      t.chats[chatId.value].title == (if Truthy(chatTitle) then chatTitle.value else "Unknown")
  {
  }

  // ---------------------------------------------------------------------------
  // get_statistics

  datatype UserRow = UserRow(
    displayName: string, username: Option<string>,
    requests: nat, inlineRequests: nat, totalRequests: nat,
    lastActive: real, firstSeen: real)

  datatype ChatRow = ChatRow(title: string, requests: nat)

  /** The report returned by `get_statistics`. */
  datatype Report = Report(
    totalRequests: nat, totalInlineRequests: nat,
    uniqueUsers: nat, uniqueChats: nat,
    topUsers: seq<UserRow>, topChats: seq<ChatRow>)

  function UserRowOf(r: UserRecord): UserRow
  {
    UserRow(if Truthy(r.firstName) then r.firstName.value else "Unknown User", r.username,
            r.requests, r.inlineRequests, r.requests + r.inlineRequests, r.lastActive, r.firstSeen)
  }

  function ChatRowOf(r: ChatRecord): ChatRow
  {
    ChatRow(r.title, r.requests)
  }

  /** The user rows, in the order the records were first seen. */
  function UserRows(users: map<int, UserRecord>, order: seq<int>): (rows: seq<UserRow>)
    requires forall i :: 0 <= i < |order| ==> order[i] in users
    ensures |rows| == |order|
    ensures forall i :: 0 <= i < |order| ==> rows[i] == UserRowOf(users[order[i]])
  {
    if order == [] then []
    else UserRows(users, order[..|order| - 1]) + [UserRowOf(users[order[|order| - 1]])]
  }

  /** The chat rows, in the order the chats were first seen. */
  function ChatRows(chats: map<int, ChatRecord>, order: seq<int>): (rows: seq<ChatRow>)
    requires forall i :: 0 <= i < |order| ==> order[i] in chats
    ensures |rows| == |order|
    ensures forall i :: 0 <= i < |order| ==> rows[i] == ChatRowOf(chats[order[i]])
  {
    if order == [] then []
    else ChatRows(chats, order[..|order| - 1]) + [ChatRowOf(chats[order[|order| - 1]])]
  }

  /** The sort keys: negated, so that the ascending stable sort is Python's descending one. */
  function ByTotal(u: UserRow): int
  {
    -(u.totalRequests as int)
  }

  function ByRequests(c: ChatRow): int
  {
    -(c.requests as int)
  }

  /** Where Python's slice `[:limit]` ends on a list of `n` elements; a negative limit counts from the end. */
  function SliceEnd(limit: int, n: nat): (e: nat)
    ensures e <= n
    ensures limit >= 0 ==> e == if limit < n then limit else n
    ensures limit < 0 ==> e == if n + limit > 0 then n + limit else 0
  {
    if limit >= 0 then (if limit < n then limit else n)
    else if n + limit > 0 then n + limit else 0
  }

  /** The users by total requests, cut to `limit` only when it is positive. */
  function TopUsers(rows: seq<UserRow>, limit: int): seq<UserRow>
  {
    var sorted := SortBy(rows, ByTotal);
    if limit > 0 then sorted[..SliceEnd(limit, |sorted|)] else sorted
  }

  /** The chats by requests, always sliced `[:limit]`. */
  function TopChats(rows: seq<ChatRow>, limit: int): seq<ChatRow>
  {
    var sorted := SortBy(rows, ByRequests);
    sorted[..SliceEnd(limit, |sorted|)]
  }

  /** `get_statistics(limit)` on a store. */
  function StatisticsOf(s: Stats, limit: int): Report
    requires Valid(s)
  {
    Report(s.totalRequests, s.totalInlineRequests, |s.users|, |s.chats|,
           TopUsers(UserRows(s.users, s.userOrder), limit),
           TopChats(ChatRows(s.chats, s.chatOrder), limit))
  }

  // ---------------------------------------------------------------------------
  // The manager

  class StatisticsManager {
    var totalRequests: nat
    var totalInlineRequests: nat
    var users: map<int, UserRecord>
    var userOrder: seq<int>
    var chats: map<int, ChatRecord>
    var chatOrder: seq<int>
    var lastUpdate: real

    function Current(): Stats
      reads this
    {
      Stats(totalRequests, totalInlineRequests, users, userOrder, chats, chatOrder, lastUpdate)
    }

    /** Opening the statistics file, given its contents. */
    constructor(stored: Stats)
      requires Valid(stored)
      ensures Current() == stored
    {
      totalRequests, totalInlineRequests := stored.totalRequests, stored.totalInlineRequests;
      users, userOrder := stored.users, stored.userOrder;
      chats, chatOrder := stored.chats, stored.chatOrder;
      lastUpdate := stored.lastUpdate;
    }

    method LogRequest(user: User, chatId: Option<int>, chatTitle: Option<string>, isInline: bool, now: real)
      requires Valid(Current())
      modifies this
      ensures Current() == Logged(old(Current()), user, chatId, chatTitle, isInline, now)
      ensures Valid(Current())
    {
      ghost var s := Current();
      LoggedValid(s, user, chatId, chatTitle, isInline, now);
      if isInline {
        totalInlineRequests := totalInlineRequests + 1;
      } else {
        totalRequests := totalRequests + 1;
      }
      ghost var counted := Current();
      assert counted == Counted(s, isInline);
      if user.id != 0 {
        LogUser(user, isInline, now);
      }
      ghost var withUser := Current();
      assert withUser == if user.id == 0 then counted else UserLogged(counted, user, isInline, now);
      if chatId.Some? && chatId.value != 0 && chatId.value != user.id {
        LogChat(chatId.value, chatTitle, now);
      }
      assert Current() == if CountsChat(user, chatId) then ChatLogged(withUser, chatId.value, chatTitle, now) else withUser;
      lastUpdate := now;
    }

    /** The user part of `log_request`. */
    method LogUser(user: User, isInline: bool, now: real)
      modifies this
      ensures Current() == UserLogged(old(Current()), user, isInline, now)
    {
      var record: UserRecord;
      if user.id !in users {
        record := UserRecord(user.username, user.firstName, 0, 0, now, now);
        userOrder := userOrder + [user.id];
      } else {
        record := users[user.id];
      }
      if isInline {
        record := record.(inlineRequests := record.inlineRequests + 1);
      } else {
        record := record.(requests := record.requests + 1);
      }
      record := record.(lastActive := now);
      if Truthy(user.username) {
        record := record.(username := user.username);
      }
      if Truthy(user.firstName) {
        record := record.(firstName := user.firstName);
      }
      users := users[user.id := record];
    }

    /** The chat part of `log_request`. */
    method LogChat(id: int, chatTitle: Option<string>, now: real)
      modifies this
      ensures Current() == ChatLogged(old(Current()), id, chatTitle, now)
    {
      var record: ChatRecord;
      if id !in chats {
        record := ChatRecord(if Truthy(chatTitle) then chatTitle.value else "Unknown", 0, now);
        chatOrder := chatOrder + [id];
      } else {
        record := chats[id];
      }
      record := record.(requests := record.requests + 1);
      if Truthy(chatTitle) {
        record := record.(title := chatTitle.value);
      }
      chats := chats[id := record];
    }

    method GetStatistics(statLimit: int) returns (report: Report)
      requires Valid(Current())
      ensures report == StatisticsOf(Current(), statLimit)
    {
      var userRows := CollectUserRows();
      var topUsers := SortBy(userRows, ByTotal);
      if statLimit > 0 {
        topUsers := topUsers[..SliceEnd(statLimit, |topUsers|)];
      }
      var chatRows := CollectChatRows();
      var topChats := SortBy(chatRows, ByRequests);
      topChats := topChats[..SliceEnd(statLimit, |topChats|)];
      report := Report(totalRequests, totalInlineRequests, |users|, |chats|, topUsers, topChats);
    }

    /** The `top_users` list before sorting, one row per record. */
    method CollectUserRows() returns (rows: seq<UserRow>)
      requires Valid(Current())
      ensures rows == UserRows(users, userOrder)
    {
      rows := [];
      var i := 0;
      while i < |userOrder|
        invariant 0 <= i <= |userOrder|
        invariant rows == UserRows(users, userOrder[..i])
      {
        assert userOrder[..i + 1][..i] == userOrder[..i];
        rows := rows + [UserRowOf(users[userOrder[i]])];
        i := i + 1;
      }
      assert userOrder[..i] == userOrder;
    }

    /** The `top_chats` list before sorting, one row per record. */
    method CollectChatRows() returns (rows: seq<ChatRow>)
      requires Valid(Current())
      ensures rows == ChatRows(chats, chatOrder)
    {
      rows := [];
      var j := 0;
      while j < |chatOrder|
        invariant 0 <= j <= |chatOrder|
        invariant rows == ChatRows(chats, chatOrder[..j])
      {
        assert chatOrder[..j + 1][..j] == chatOrder[..j];
        rows := rows + [ChatRowOf(chats[chatOrder[j]])];
        j := j + 1;
      }
      assert chatOrder[..j] == chatOrder;
    }
  }

  // ---------------------------------------------------------------------------
  // Properties of the report

  /**
   * A prefix of a sorted list is sorted, holds elements of the list, and no
   * element left out has a smaller key than one kept.
   */
  lemma PrefixOfSorted<T>(s: seq<T>, key: T -> int, n: nat)
    requires SortedBy(s, key) && n <= |s|
    ensures SortedBy(s[..n], key)
    ensures multiset(s[..n]) <= multiset(s)
    ensures forall x, i :: x in multiset(s) - multiset(s[..n]) && 0 <= i < n ==> key(s[i]) <= key(x)
  {
    assert s == s[..n] + s[n..];
    calc {
      multiset(s);
      multiset(s[..n]) + multiset(s[n..]);
    }
    forall x, i | x in multiset(s) - multiset(s[..n]) && 0 <= i < n ensures key(s[i]) <= key(x) {
      assert x in multiset(s[n..]);
      var j :| n <= j < |s| && s[j] == x by {
        assert x in s[n..];
        var k :| 0 <= k < |s[n..]| && s[n..][k] == x;
        assert s[n + k] == x;
      }
    }
  }

  /**
   * `top_users` is ranked by total requests, highest first, holds only users
   * that have records, is cut to `limit` only when the limit is positive, and
   * no user left out has more requests than one listed.
   */
  lemma TopUsersRanked(rows: seq<UserRow>, limit: int)
    ensures var top := TopUsers(rows, limit);
      SortedBy(top, ByTotal) &&
      multiset(top) <= multiset(rows) &&
      |top| == (if 0 < limit < |rows| then limit else |rows|) &&
      forall x, i :: x in multiset(rows) - multiset(top) && 0 <= i < |top| ==> top[i].totalRequests >= x.totalRequests
  {
    var sorted := SortBy(rows, ByTotal);
    SortBySorted(rows, ByTotal);
    var n := if limit > 0 then SliceEnd(limit, |sorted|) else |sorted|;
    assert sorted[..|sorted|] == sorted;
    PrefixOfSorted(sorted, ByTotal, n);
    var top := TopUsers(rows, limit);
    assert top == sorted[..n];
    forall x, i | x in multiset(rows) - multiset(top) && 0 <= i < |top|
      ensures top[i].totalRequests >= x.totalRequests
    {
      assert ByTotal(sorted[i]) <= ByTotal(x);
    }
  }

  /** With no positive limit every user is listed. */
  lemma TopUsersUnlimited(rows: seq<UserRow>, limit: int)
    requires limit <= 0
    ensures multiset(TopUsers(rows, limit)) == multiset(rows)
  {
  }

  /** The first user listed has the most requests of all. */
  lemma TopUserIsBusiest(rows: seq<UserRow>, limit: int)
    requires rows != []
    ensures var top := TopUsers(rows, limit);
      top != [] && forall i :: 0 <= i < |rows| ==> top[0].totalRequests >= rows[i].totalRequests
  {
    var sorted := SortBy(rows, ByTotal);
    SortByHeadMinimal(rows, ByTotal);
    assert TopUsers(rows, limit)[0] == sorted[0];
    forall i | 0 <= i < |rows| ensures sorted[0].totalRequests >= rows[i].totalRequests {
      assert ByTotal(sorted[0]) <= ByTotal(rows[i]);
    }
  }

  /**
   * `top_chats` is ranked by requests, highest first, always sliced
   * `[:limit]`, and no chat left out has more requests than one listed.
   */
  lemma TopChatsRanked(rows: seq<ChatRow>, limit: int)
    ensures var top := TopChats(rows, limit);
      SortedBy(top, ByRequests) &&
      multiset(top) <= multiset(rows) &&
      |top| == SliceEnd(limit, |rows|) &&
      forall x, i :: x in multiset(rows) - multiset(top) && 0 <= i < |top| ==> top[i].requests >= x.requests
  {
    var sorted := SortBy(rows, ByRequests);
    SortBySorted(rows, ByRequests);
    var n := SliceEnd(limit, |sorted|);
    PrefixOfSorted(sorted, ByRequests, n);
    var top := TopChats(rows, limit);
    forall x, i | x in multiset(rows) - multiset(top) && 0 <= i < |top|
      ensures top[i].requests >= x.requests
    {
      assert ByRequests(sorted[i]) <= ByRequests(x);
    }
  }

  /**
   * With the limit -1 that the metrics reporter passes, `top_chats` drops
   * exactly one chat, one with the fewest requests.
   */
  lemma MinusOneDropsLastChat(rows: seq<ChatRow>)
    requires rows != []
    ensures var top := TopChats(rows, -1);
      |top| == |rows| - 1 &&
      exists dropped :: dropped in rows && multiset(top) + multiset{dropped} == multiset(rows) &&
        forall i :: 0 <= i < |top| ==> top[i].requests >= dropped.requests
  {
    var sorted := SortBy(rows, ByRequests);
    SortBySorted(rows, ByRequests);
    var n := |sorted|;
    var top := sorted[..n - 1];
    var dropped := sorted[n - 1];
    assert sorted == top + [dropped];
    assert multiset(sorted) == multiset(top) + multiset{dropped};
    assert dropped in multiset(rows);
    forall i | 0 <= i < |top| ensures top[i].requests >= dropped.requests {
      assert ByRequests(sorted[i]) <= ByRequests(sorted[n - 1]);
    }
  }

  /** Distinct elements: as many as the list is long. */
  lemma {:induction false} DistinctCount(order: seq<int>)
    requires Distinct(order)
    ensures |set k | k in order| == |order|
  {
    if order != [] {
      var p := order[..|order| - 1];
      var last := order[|order| - 1];
      assert Distinct(p);
      DistinctCount(p);
      assert (set k | k in order) == (set k | k in p) + {last};
      assert last !in (set k | k in p);
    }
  }

  /** A map listed by `order` has as many entries as the order is long. */
  lemma KeyedCount<V>(m: map<int, V>, order: seq<int>)
    requires Keyed(m, order)
    ensures |m| == |order|
  {
    DistinctCount(order);
    var listed := set k | k in order;
    forall k ensures k in m.Keys <==> k in listed {
      if k in listed {
        var i :| 0 <= i < |order| && order[i] == k;
      }
    }
    assert m.Keys == listed;
  }

  /** `unique_users` and `unique_chats` are the numbers of rows the unlimited report lists. */
  lemma UniqueCountsAreRecords(s: Stats, limit: int)
    requires Valid(s) && limit <= 0
    ensures var r := StatisticsOf(s, limit);
      r.uniqueUsers == |r.topUsers| && r.uniqueChats == |s.chatOrder|
  {
    KeyedCount(s.users, s.userOrder);
    KeyedCount(s.chats, s.chatOrder);
  }
}
