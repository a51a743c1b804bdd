/**
 * The three SQLite tables of `BotLogic` as values, and what each `UPDATE`,
 * `INSERT` and `SELECT` of it does to them.
 *
 * chats:   chat_id -> welcome_enabled
 * users:   (user_id, chat_id) -> username, first_name, warns, is_muted, mute_until, is_banned
 * reports: rows in id order, id from an AUTOINCREMENT counter
 */
module Tables {
  import opened Wrappers

  /** The primary key of the users table: (user_id, chat_id). */
  type UserKey = (int, int)

  /** One row of the users table; `muteUntil` is the stored `mute_until` as a point in time. */
  datatype UserRow = UserRow(
    username: Option<string>,
    firstName: string,
    warns: nat,
    isMuted: bool,
    muteUntil: Option<int>,
    isBanned: bool)

  type Users = map<UserKey, UserRow>

  /** chats: chat_id -> welcome_enabled. */
  type Chats = map<int, bool>

  datatype Status = Pending | Resolved

  /** One row of the reports table. */
  datatype Report = Report(
    id: nat,
    chatId: int,
    reporterId: int,
    reportedId: int,
    reason: string,
    status: Status,
    createdAt: int)

  // ---------------------------------------------------------------- chats

  /** `INSERT OR IGNORE INTO chats (chat_id)`: a new chat starts with the welcome enabled. */
  function InsertChat(chats: Chats, chat: int): (r: Chats)
    ensures r.Keys == chats.Keys + {chat}
    ensures chat in chats ==> r[chat] == chats[chat]
    ensures chat !in chats ==> r[chat]
    ensures forall c :: c in chats ==> r[c] == chats[c]
  {
    if chat in chats then chats else chats[chat := true]
  }

  /** `UPDATE chats SET welcome_enabled = NOT welcome_enabled`: the table and whether a row changed. */
  function ToggleChat(chats: Chats, chat: int): (r: (Chats, bool))
    ensures r.0.Keys == chats.Keys
    ensures r.1 <==> chat in chats
    ensures chat in chats ==> r.0[chat] == !chats[chat]
    ensures forall c :: c in chats && c != chat ==> r.0[c] == chats[c]
  {
    if chat in chats then (chats[chat := !chats[chat]], true) else (chats, false)
  }

  /** Adding a chat twice is adding it once, and never changes a chat already there. */
  lemma InsertChatIdempotent(chats: Chats, chat: int)
    ensures InsertChat(InsertChat(chats, chat), chat) == InsertChat(chats, chat)
    ensures chat in chats ==> InsertChat(chats, chat) == chats
  {
  }

  /** Toggling twice restores the table. */
  lemma {:induction false} ToggleTwice(chats: Chats, chat: int)
    ensures ToggleChat(ToggleChat(chats, chat).0, chat).0 == chats
  {
    if chat in chats {
      var once := ToggleChat(chats, chat).0;
      assert once[chat := !once[chat]] == chats;
    }
  }

  // ---------------------------------------------------------------- users

  /** `UPDATE users SET ... WHERE user_id = ? AND chat_id = ?`: only an existing row changes. */
  function UpdateRow(users: Users, key: UserKey, f: UserRow -> UserRow): (r: Users)
    ensures r.Keys == users.Keys
    ensures key in users ==> r[key] == f(users[key])
    ensures forall k :: k in users && k != key ==> r[k] == users[k]
  {
    if key in users then users[key := f(users[key])] else users
  }

  function Warned(row: UserRow): UserRow { row.(warns := row.warns + 1) }
  function WarnsCleared(row: UserRow): UserRow { row.(warns := 0) }
  function Banned(row: UserRow): UserRow { row.(isBanned := true) }
  function Unbanned(row: UserRow): UserRow { row.(isBanned := false) }
  function Unmuted(row: UserRow): UserRow { row.(isMuted := false, muteUntil := None) }

  function MutedUntil(until: int): UserRow -> UserRow {
    (row: UserRow) => row.(isMuted := true, muteUntil := Some(until))
  }

  /** `mute_user`'s update: muted until `until`, on an existing row only. */
  function SetMuted(users: Users, key: UserKey, until: int): (r: Users)
    ensures r.Keys == users.Keys
    ensures key in users ==> r[key] == users[key].(isMuted := true, muteUntil := Some(until))
    ensures forall k :: k in users && k != key ==> r[k] == users[k]
  {
    UpdateRow(users, key, MutedUntil(until))
  }

  /**
   * `INSERT OR REPLACE INTO users` with warns, is_muted and is_banned copied
   * from the old row (0 for a new one); `mute_until` is not among the columns
   * and so becomes NULL.
   */
  function UpsertUser(users: Users, key: UserKey, username: Option<string>, firstName: string): (r: Users)
    ensures r.Keys == users.Keys + {key}
    ensures r[key].username == username && r[key].firstName == firstName
    ensures r[key].muteUntil == None
    ensures key in users ==>
              && r[key].warns == users[key].warns
              && r[key].isMuted == users[key].isMuted
              && r[key].isBanned == users[key].isBanned
    ensures key !in users ==> r[key].warns == 0 && !r[key].isMuted && !r[key].isBanned
    ensures forall k :: k in users && k != key ==> r[k] == users[k]
  {
    var old_ := if key in users then Some(users[key]) else None;
    users[key := UserRow(
      username,
      firstName,
      if old_.Some? then old_.value.warns else 0,
      old_.Some? && old_.value.isMuted,
      None,
      old_.Some? && old_.value.isBanned)]
  }

  /** `mute_until` is NULL whenever `is_muted` is 0: no operation leaves a stale expiry behind. */
  predicate MuteConsistent(users: Users) {
    forall k :: k in users && !users[k].isMuted ==> users[k].muteUntil == None
  }

  /** What `is_muted` answers at time `now`. */
  predicate MutedAt(users: Users, key: UserKey, now: int) {
    key in users && users[key].isMuted
    && (users[key].muteUntil == None || users[key].muteUntil.value > now)
  }

  /** What `is_muted` leaves behind: an expired mute is cleared by `unmute_user`. */
  function AfterMuteCheck(users: Users, key: UserKey, now: int): (r: Users)
    ensures r.Keys == users.Keys
    ensures forall k :: k in users && k != key ==> r[k] == users[k]
    ensures MutedAt(r, key, now) == MutedAt(users, key, now)
    ensures key !in users || !users[key].isMuted || MutedAt(users, key, now) ==> r == users
    ensures key in users && users[key].isMuted && !MutedAt(users, key, now) ==>
              r[key] == users[key].(isMuted := false, muteUntil := None)
  {
    if key in users && users[key].isMuted && users[key].muteUntil.Some? && users[key].muteUntil.value <= now
    then UpdateRow(users, key, Unmuted)
    else users
  }

  /** Every mutation of the users table keeps `MuteConsistent`. */
  lemma MutationsKeepMuteConsistent(users: Users, key: UserKey, until: int, now: int,
                                    username: Option<string>, firstName: string)
    requires MuteConsistent(users)
    ensures MuteConsistent(UpdateRow(users, key, Warned))
    ensures MuteConsistent(UpdateRow(users, key, WarnsCleared))
    ensures MuteConsistent(UpdateRow(users, key, Banned))
    ensures MuteConsistent(UpdateRow(users, key, Unbanned))
    ensures MuteConsistent(UpdateRow(users, key, Unmuted))
    ensures MuteConsistent(SetMuted(users, key, until))
    ensures MuteConsistent(UpsertUser(users, key, username, firstName))
    ensures MuteConsistent(AfterMuteCheck(users, key, now))
  {
    OneRowKeepsMuteConsistent(users, UpdateRow(users, key, Warned), key);
    OneRowKeepsMuteConsistent(users, UpdateRow(users, key, WarnsCleared), key);
    OneRowKeepsMuteConsistent(users, UpdateRow(users, key, Banned), key);
    OneRowKeepsMuteConsistent(users, UpdateRow(users, key, Unbanned), key);
    OneRowKeepsMuteConsistent(users, UpdateRow(users, key, Unmuted), key);
    OneRowKeepsMuteConsistent(users, SetMuted(users, key, until), key);
    OneRowKeepsMuteConsistent(users, UpsertUser(users, key, username, firstName), key);
    OneRowKeepsMuteConsistent(users, AfterMuteCheck(users, key, now), key);
  }

  /** A table that differs from a consistent one at most in one consistent row is consistent. */
  lemma OneRowKeepsMuteConsistent(users: Users, r: Users, key: UserKey)
    requires MuteConsistent(users)
    requires r.Keys <= users.Keys + {key}
    requires forall k :: k in users && k != key ==> k in r && r[k] == users[k]
    requires key in r && !r[key].isMuted ==> r[key].muteUntil == None
    ensures MuteConsistent(r)
  {
  }

  /** Muting until `until` is in effect exactly before `until`, and only for a row that exists. */
  lemma MuteThenCheck(users: Users, key: UserKey, until: int, t: int)
    ensures MutedAt(SetMuted(users, key, until), key, t) <==> key in users && t < until
  {
  }

  /** After `unmute_user` the check answers no at every time. */
  lemma UnmuteThenCheck(users: Users, key: UserKey, t: int)
    ensures !MutedAt(UpdateRow(users, key, Unmuted), key, t)
  {
  }

  /**
   * `add_user` drops `mute_until`, so a timed mute of an existing member
   * becomes indefinite: the check then answers yes at every time.
   */
  lemma UpsertMakesMuteIndefinite(users: Users, key: UserKey, username: Option<string>, firstName: string, t: int)
    ensures MutedAt(UpsertUser(users, key, username, firstName), key, t) <==> key in users && users[key].isMuted
  {
  }

  /**
   * Lazy expiry: once the check answers no for an existing row, the row holds
   * no mute at all, and a second check at the same time changes nothing.
   */
  lemma MuteCheckClearsExpired(users: Users, key: UserKey, now: int)
    requires MuteConsistent(users)
    requires key in users && !MutedAt(users, key, now)
    ensures var r := AfterMuteCheck(users, key, now); !r[key].isMuted && r[key].muteUntil == None
    ensures AfterMuteCheck(users, key, now)[key] == users[key].(isMuted := false, muteUntil := None)
    ensures AfterMuteCheck(AfterMuteCheck(users, key, now), key, now) == AfterMuteCheck(users, key, now)
  {
  }

  /** A mute that is over stays over while nothing writes the row. */
  lemma MuteOverStaysOver(users: Users, key: UserKey, now: int, later: int)
    requires now <= later && !MutedAt(users, key, now)
    ensures !MutedAt(users, key, later)
  {
  }

  /** `add_warn` applied `n` times in a row. */
  function WarnedTimes(users: Users, key: UserKey, n: nat): Users
  {
    if n == 0 then users else UpdateRow(WarnedTimes(users, key, n - 1), key, Warned)
  }

  /**
   * Warning an existing member n times adds exactly n to the count and
   * touches nothing else; an absent member stays absent.
   */
  lemma {:induction false} WarnedTimesCount(users: Users, key: UserKey, n: nat)
    ensures WarnedTimes(users, key, n).Keys == users.Keys
    ensures key in users ==> WarnedTimes(users, key, n)[key] == users[key].(warns := users[key].warns + n)
    ensures forall k :: k in users && k != key ==> WarnedTimes(users, key, n)[k] == users[k]
  {
    if n > 0 {
      WarnedTimesCount(users, key, n - 1);
    }
  }

  // ---------------------------------------------------------------- reports

  /** Rows in table order: ids strictly increase and `created_at` never decreases. */
  predicate InTableOrder(reports: seq<Report>) {
    forall i, j :: 0 <= i < j < |reports| ==>
      reports[i].id < reports[j].id && reports[i].createdAt <= reports[j].createdAt
  }

  /** The reports table: in table order, every id handed out by the AUTOINCREMENT counter. */
  predicate ReportsValid(reports: seq<Report>, lastId: nat) {
    InTableOrder(reports) && forall i :: 0 <= i < |reports| ==> 0 < reports[i].id <= lastId
  }

  /** `INSERT INTO reports`: the next id of the counter, status 'pending', created now. */
  function NewReport(lastId: nat, chat: int, reporter: int, reported: int, reason: string, now: int): (r: Report)
    ensures r.id == lastId + 1 && r.status == Pending && r.createdAt == now
    ensures r.chatId == chat && r.reporterId == reporter && r.reportedId == reported && r.reason == reason
  {
    Report(lastId + 1, chat, reporter, reported, reason, Pending, now)
  }

  /**
   * A new report gets an id larger than every earlier one and keeps the table
   * valid, provided the clock has not gone back.
   */
  lemma AppendReportKeepsValid(reports: seq<Report>, lastId: nat, chat: int, reporter: int,
                               reported: int, reason: string, now: int)
    requires ReportsValid(reports, lastId)
    requires forall i :: 0 <= i < |reports| ==> reports[i].createdAt <= now
    ensures var r := NewReport(lastId, chat, reporter, reported, reason, now);
            && ReportsValid(reports + [r], lastId + 1)
            && forall i :: 0 <= i < |reports| ==> reports[i].id < r.id
  {
  }

  /**
   * The chat filter of `get_pending_reports`: a `chat_id` that is `None` or 0
   * (falsy in Python) selects every chat.
   */
  predicate ChatSelected(filter: Option<int>, r: Report) {
    filter == None || filter.value == 0 || r.chatId == filter.value
  }

  /** `SELECT * FROM reports WHERE status = 'pending' [AND chat_id = ?]`, in table order. */
  function PendingReports(reports: seq<Report>, filter: Option<int>): (rs: seq<Report>)
    ensures |rs| <= |reports|
    ensures forall r :: r in rs <==> r in reports && r.status == Pending && ChatSelected(filter, r)
  {
    if reports == [] then []
    else
      var head := if reports[0].status == Pending && ChatSelected(filter, reports[0]) then [reports[0]] else [];
      head + PendingReports(reports[1..], filter)
  }

  /**
   * The pending reports come out ordered by `created_at`, rows with equal
   * `created_at` by id.
   */
  lemma {:induction false} PendingReportsOrdered(reports: seq<Report>, filter: Option<int>)
    requires InTableOrder(reports)
    ensures InTableOrder(PendingReports(reports, filter))
  {
    if reports != [] {
      var tail := reports[1..];
      PendingReportsOrdered(tail, filter);
      var rest := PendingReports(tail, filter);
      if reports[0].status == Pending && ChatSelected(filter, reports[0]) {
        PendingAfterHead(reports, filter);
        OrderedCons(reports[0], rest);
      } else {
        var none: seq<Report> := [];
        assert none + rest == rest;
      }
    }
  }

  /** In an ordered table, the first row comes before every pending report listed from the rest. */
  lemma PendingAfterHead(reports: seq<Report>, filter: Option<int>)
    requires reports != [] && InTableOrder(reports)
    ensures var rest := PendingReports(reports[1..], filter);
      forall j :: 0 <= j < |rest| ==> reports[0].id < rest[j].id && reports[0].createdAt <= rest[j].createdAt
  {
    var tail := reports[1..];
    var rest := PendingReports(tail, filter);
    forall j | 0 <= j < |rest|
      ensures reports[0].id < rest[j].id && reports[0].createdAt <= rest[j].createdAt
    {
      assert rest[j] in tail;
      var k :| 0 <= k < |tail| && tail[k] == rest[j];
      assert reports[k + 1] == rest[j];
    }
  }

  /** A row ahead of every row of an ordered table keeps it ordered. */
  lemma OrderedCons(x: Report, rest: seq<Report>)
    requires InTableOrder(rest)
    requires forall j :: 0 <= j < |rest| ==> x.id < rest[j].id && x.createdAt <= rest[j].createdAt
    ensures InTableOrder([x] + rest)
  {
    var all := [x] + rest;
    forall i, j | 0 <= i < j < |all|
      ensures all[i].id < all[j].id && all[i].createdAt <= all[j].createdAt
    {
      assert all[j] == rest[j - 1];
      if i > 0 {
        assert all[i] == rest[i - 1];
      }
    }
  }
}
