/**
 * `BotLogic`: the store behind the bot. Each method is one SQL statement (or
 * a statement and the `SELECT` after it) on the three tables, which are the
 * fields of the class; `now` stands for the clock the statement reads.
 */
module Logic {
  import opened Wrappers
  import opened Tables

  /** What the Python call does instead of returning. */
  datatype Fault =
    /** `cursor.execute` called with a tuple where the SQL text belongs. */
    | ExecuteWithoutSql

  /** A call that returns a value or raises. */
  datatype Outcome<T> = Returned(value: T) | Raised(fault: Fault)

  class BotLogic {
    var chats: Chats
    var users: Users
    var reports: seq<Report>
    /** The AUTOINCREMENT counter of the reports table. */
    var lastReportId: nat

    ghost predicate Valid()
      reads this
    {
      MuteConsistent(users) && ReportsValid(reports, lastReportId)
    }

    /** A fresh database: `create_tables` on an empty file. */
    constructor ()
      ensures Valid()
      ensures chats == map[] && users == map[] && reports == [] && lastReportId == 0
    {
      chats, users, reports, lastReportId := map[], map[], [], 0;
    }

    /** `add_chat`: `INSERT OR IGNORE`, so an existing setting is kept. */
    method AddChat(chat: int) returns (ok: bool)
      requires Valid()
      modifies this
      ensures Valid() && ok
      ensures chats == InsertChat(old(chats), chat)
      ensures users == old(users) && reports == old(reports) && lastReportId == old(lastReportId)
    {
      chats := InsertChat(chats, chat);
      ok := true;
    }

    /** `get_chat`: the row of the chat, if there is one. */
    function GetChat(chat: int): (r: Option<bool>)
      reads this
      ensures r.Some? <==> chat in chats
      ensures r.Some? ==> r.value == chats[chat]
    {
      if chat in chats then Some(chats[chat]) else None
    }

    /** `toggle_welcome`: flips the flag of an existing chat; reports whether a row changed. */
    method ToggleWelcome(chat: int) returns (changed: bool)
      requires Valid()
      modifies this
      ensures Valid()
      ensures (chats, changed) == ToggleChat(old(chats), chat)
      ensures users == old(users) && reports == old(reports) && lastReportId == old(lastReportId)
    {
      var r := ToggleChat(chats, chat);
      chats, changed := r.0, r.1;
    }

    /** `add_user`: new names; warns, is_muted and is_banned kept; mute_until NULL. */
    method AddUser(user: int, chat: int, username: Option<string>, firstName: string)
      requires Valid()
      modifies this
      ensures Valid()
      ensures users == UpsertUser(old(users), (user, chat), username, firstName)
      ensures chats == old(chats) && reports == old(reports) && lastReportId == old(lastReportId)
    {
      MutationsKeepMuteConsistent(users, (user, chat), 0, 0, username, firstName);
      users := UpsertUser(users, (user, chat), username, firstName);
    }

    /** `get_user`: the row of (user, chat), if there is one. */
    function GetUser(user: int, chat: int): (r: Option<UserRow>)
      reads this
      ensures r.Some? <==> (user, chat) in users
      ensures r.Some? ==> r.value == users[(user, chat)]
    {
      if (user, chat) in users then Some(users[(user, chat)]) else None
    }

    /** `add_warn`: one more warn on an existing row; the count after it, or 0 without a row. */
    method AddWarn(user: int, chat: int) returns (count: int)
      requires Valid()
      modifies this
      ensures Valid()
      ensures users == UpdateRow(old(users), (user, chat), Warned)
      ensures count == if (user, chat) in old(users) then old(users)[(user, chat)].warns + 1 else 0
      ensures chats == old(chats) && reports == old(reports) && lastReportId == old(lastReportId)
    {
      MutationsKeepMuteConsistent(users, (user, chat), 0, 0, None, "");
      users := UpdateRow(users, (user, chat), Warned);
      if (user, chat) in users {
        count := users[(user, chat)].warns;
      } else {
        count := 0;
      }
    }

    /** `reset_warns`: warns of an existing row back to 0. */
    method ResetWarns(user: int, chat: int) returns (ok: bool)
      requires Valid()
      modifies this
      ensures Valid() && ok
      ensures users == UpdateRow(old(users), (user, chat), WarnsCleared)
      ensures chats == old(chats) && reports == old(reports) && lastReportId == old(lastReportId)
    {
      MutationsKeepMuteConsistent(users, (user, chat), 0, 0, None, "");
      users := UpdateRow(users, (user, chat), WarnsCleared);
      ok := true;
    }

    /** `mute_user`: muted until `now + duration` on an existing row. */
    method MuteUser(user: int, chat: int, duration: int, now: int) returns (ok: bool)
      requires Valid()
      modifies this
      ensures Valid() && ok
      ensures users == SetMuted(old(users), (user, chat), now + duration)
      ensures chats == old(chats) && reports == old(reports) && lastReportId == old(lastReportId)
    {
      MutationsKeepMuteConsistent(users, (user, chat), now + duration, 0, None, "");
      users := SetMuted(users, (user, chat), now + duration);
      ok := true;
    }

    /** `unmute_user`: is_muted 0 and mute_until NULL on an existing row. */
    method UnmuteUser(user: int, chat: int) returns (ok: bool)
      requires Valid()
      modifies this
      ensures Valid() && ok
      ensures users == UpdateRow(old(users), (user, chat), Unmuted)
      ensures chats == old(chats) && reports == old(reports) && lastReportId == old(lastReportId)
    {
      MutationsKeepMuteConsistent(users, (user, chat), 0, 0, None, "");
      users := UpdateRow(users, (user, chat), Unmuted);
      ok := true;
    }

    /**
     * `is_muted`: muted when the row says so and the expiry is absent or still
     * ahead; an expired mute is cleared through `unmute_user` on the way.
     */
    method IsMuted(user: int, chat: int, now: int) returns (muted: bool)
      requires Valid()
      modifies this
      ensures Valid()
      ensures muted == MutedAt(old(users), (user, chat), now)
      ensures users == AfterMuteCheck(old(users), (user, chat), now)
      ensures chats == old(chats) && reports == old(reports) && lastReportId == old(lastReportId)
    {
      var row := GetUser(user, chat);
      if row.Some? && row.value.isMuted {
        if row.value.muteUntil.Some? {
          if row.value.muteUntil.value > now {
            return true;
          } else {
            var _ := UnmuteUser(user, chat);
            return false;
          }
        }
        return true;
      }
      return false;
    }

    /** `ban_user`: is_banned 1 on an existing row. */
    method BanUser(user: int, chat: int) returns (ok: bool)
      requires Valid()
      modifies this
      ensures Valid() && ok
      ensures users == UpdateRow(old(users), (user, chat), Banned)
      ensures chats == old(chats) && reports == old(reports) && lastReportId == old(lastReportId)
    {
      MutationsKeepMuteConsistent(users, (user, chat), 0, 0, None, "");
      users := UpdateRow(users, (user, chat), Banned);
      ok := true;
    }

    /** `unban_user`: is_banned 0 on an existing row. */
    method UnbanUser(user: int, chat: int) returns (ok: bool)
      requires Valid()
      modifies this
      ensures Valid() && ok
      ensures users == UpdateRow(old(users), (user, chat), Unbanned)
      ensures chats == old(chats) && reports == old(reports) && lastReportId == old(lastReportId)
    {
      MutationsKeepMuteConsistent(users, (user, chat), 0, 0, None, "");
      users := UpdateRow(users, (user, chat), Unbanned);
      ok := true;
    }

    /** `add_report`: a pending report with the next id, created now; returns `lastrowid`. */
    method AddReport(chat: int, reporter: int, reported: int, reason: string, now: int) returns (id: nat)
      requires Valid()
      requires forall i :: 0 <= i < |reports| ==> reports[i].createdAt <= now
      modifies this
      ensures Valid()
      ensures id == old(lastReportId) + 1 && lastReportId == id
      ensures reports == old(reports) + [NewReport(old(lastReportId), chat, reporter, reported, reason, now)]
      ensures forall i :: 0 <= i < |old(reports)| ==> old(reports)[i].id < id
      ensures chats == old(chats) && users == old(users)
    {
      AppendReportKeepsValid(reports, lastReportId, chat, reporter, reported, reason, now);
      reports := reports + [NewReport(lastReportId, chat, reporter, reported, reason, now)];
      lastReportId := lastReportId + 1;
      id := lastReportId;
    }

    /**
     * `get_pending_reports`: the pending reports of the chat (of every chat
     * when `chat` is `None` or 0), ordered by `created_at`.
     */
    function GetPendingReports(chat: Option<int>): (rs: seq<Report>)
      reads this
      requires Valid()
      ensures forall r :: r in rs <==> r in reports && r.status == Pending && ChatSelected(chat, r)
      ensures InTableOrder(rs)
    {
      PendingReportsOrdered(reports, chat);
      PendingReports(reports, chat)
    }

    /**
     * `mark_report_resolved`: `cursor.execute((report_id,))` passes no SQL
     * text, so the call raises before anything is written.
     */
    method MarkReportResolved(reportId: int) returns (r: Outcome<bool>)
      ensures r == Raised(ExecuteWithoutSql)
    {
      r := Raised(ExecuteWithoutSql);
    }
  }
}
