# Moderation bot core in Dafny

This project models the core of a Telegram moderation bot:

- `scr/logic.py`: the duration codec and the `BotLogic` moderation store, three SQLite tables (chats, users, reports).
- `scr/bot.py`: the command handlers that read a message, update the store and call Telegram.

The model has six modules:

- `Wrappers`: `Option`.
- `Text`: the Python string built-ins the core relies on (`lower`, `strip`, `split`, `join`, `isdigit`, `int`, `str`), on ASCII.
- `Duration`: `parse_time` and `format_time`, with the prefix-matching unit patterns, the four "permanent" keywords, and the day/hour/minute bands.
- `Tables`: what each SQL statement does to the tables. Users are a map from (user id, chat id) to a row; chats are a map from chat id to `welcome_enabled`; reports are a sequence in insertion order. This module also holds the lemmas about those updates.
- `Logic`: the class `BotLogic`. Its fields are the three tables and the report autoincrement counter, and it has one method per table operation. Each method states its whole new state and keeps the class invariant:
  - `mute_until` is NULL whenever `is_muted` is 0;
  - report ids increase with insertion order, and `created_at` never decreases along it.
- `Bot`: one method per handler. A handler updates the store as the Python handler does. It returns a `Decision` listing the Telegram calls it would make (replies by kind, restrict, ban, unban, admin notifications, message deletion) instead of making them. The wall clock is an integer parameter `now`. `ADMIN_IDS`, `MAX_WARNS` and the bot's own id are a `Config` value.

Where the code departs from what it evidently intends, the model follows the code:

- `add_warn` never creates a row, and `/warn` does not add the member first. Warning an unknown member reports count 0 and changes nothing.
- Escalation is not once-only: every warn whose count is at or above `MAX_WARNS` bans again and issues another platform ban.
- `toggle_welcome` on a chat without a row does nothing, and `/welcome` then reports the welcome as off.
- `mark_report_resolved` calls `execute` with a parameter tuple and no SQL text, so it raises. No report ever leaves `pending`. An administrator's `/resolve_<n>` ends in that exception, and no reply is sent.
- `/ban <id>` without a duration bans for one day: the id is taken as the duration token, does not parse, and falls back to 86400 seconds.

## Model

| member | source | states |
|---|---|---|
| Duration.ParseTimeIgnoresCaseAndPadding | scr/logic.py:49-53 | the result does not change when the token is padded with whitespace on either side or lower-cased |
| Duration.ParseTimeIgnoresCase | scr/logic.py:50 | lower-casing the token first does not change the result |
| Duration.ParseTime | scr/logic.py:49-67 | `parse_time`: the keyword check after `lower().strip()`, then the unit patterns in order; its properties are the lemmas below |
| Duration.MatchUnit | scr/logic.py:55-65 | one `re.match` of `(\d+)\s*<letter>`: digits, optional whitespace, the unit letter, anything after it; stated by MatchUnitToken |
| Duration.MatchFirst | scr/logic.py:62-66 | the loop over the patterns returns the first match; stated by MatchFirstToken and MatchFirstNone |
| Duration.KeywordParses | scr/logic.py:52-53 | each of the four permanent keywords parses to exactly 315360000 |
| Duration.ParsePermanentKeywords | scr/logic.py:52-53 | "permanent", "навсегда", "perm" and "forever" each give 315360000, which formats as "навсегда" |
| Duration.MatchFirstToken | scr/logic.py:55-65 | a digit run, optional whitespace, then a unit letter m/h/d/w matches that unit first, giving value × multiplier |
| Duration.ParseUnitToken | scr/logic.py:49-65 | `parse_time` of digits, optional whitespace and a unit letter, followed by anything, is the digits' value times 60, 3600, 86400 or 604800 (prefix match) |
| Duration.ParseBareNumber | scr/logic.py:55-67 | a bare number has no unit and gives None |
| Duration.MatchFirstNone | scr/logic.py:62-67 | when no pattern matches, the loop falls through to None |
| Duration.MatchUnitBare | scr/logic.py:56-59 | digits with nothing after them match no unit pattern |
| Duration.MatchFirstNoUnit | scr/logic.py:55-67 | digits, whitespace and a letter other than m, h, d or w match none of the patterns |
| Duration.ParseNonUnitToken | scr/logic.py:49-67 | a token such as "5s", "10sec" or "3y" (digits, whitespace, a letter that is no unit, anything after it) gives None |
| Duration.ParseNonDigitStart | scr/logic.py:55-67 | a normalised token that is not a keyword and does not start with a digit gives None |
| Duration.ThirtyMinutes | scr/logic.py:56 | "30minutes" gives 1800: the pattern is matched as a prefix |
| Duration.TwoHoursAnyCase | scr/logic.py:50 | "2H" and "2h" both give 7200 |
| Duration.ParseWrittenToken | scr/logic.py:55-65 | the decimal rendering of n followed by a unit letter parses back to n × multiplier |
| Duration.FormatTime | scr/logic.py:69-71 | the result is "навсегда" exactly when the input is at least 31536000 |
| Duration.FormatPeriods | scr/logic.py:73-84 | the loop over day, hour and minute, then the seconds fallback; stated by FormatPeriodsLargest, FormatPeriodsStartsWithNumber and FormatTimeBands |
| Duration.FormatPeriodsStartsWithNumber | scr/logic.py:79-84 | every result below the one-year band starts with a number |
| Duration.FormatPeriodsLargest | scr/logic.py:79-82 | the first period the input reaches is rendered as "⌊s/unit⌋ name" |
| Duration.FormatTimeBands | scr/logic.py:69-84 | below a year: days from 86400, hours from 3600, minutes from 60, and "s секунд" below 60 |
| Duration.FormatParsedToken | scr/logic.py:49-84 | a token written as n plus a unit letter parses to n × unit, which formats back as "n name" when no larger period fits |
| Duration.FormatWeeks | scr/logic.py:73-82 | n weeks (1 to 52) are shown as 7n days |
| Duration.FormatParsedWeeks | scr/logic.py:49-84 | "nw" parses to n × 604800 and is shown as 7n days |
| Duration.NinetyMinutesParse | scr/logic.py:56 | "90m" gives 5400 |
| Duration.TwoHoursParse | scr/logic.py:57 | "2h" gives 7200 |
| Duration.NinetyMinutesFormat | scr/logic.py:79-82 | 5400 seconds are shown as "1 час" |
| Duration.TwoHoursFormat | scr/logic.py:79-82 | 7200 seconds are shown as "2 час" |
| Duration.FormatParsedExamples | scr/logic.py:49-84 | `format_time(parse_time("90m")) == "1 час"` and `format_time(parse_time("2h")) == "2 час"` |
| Duration.DigitStartIsNoKeyword | scr/logic.py:52 | no keyword starts with a digit |
| Duration.NormalizedToken | scr/logic.py:50 | a token with no upper-case letter and no surrounding whitespace is unchanged by `lower().strip()` |
| Duration.MatchUnitToken | scr/logic.py:56-59 | a unit pattern matches digits, whitespace and a letter exactly when the letter is the unit's |
| Text.Lower | scr/logic.py:50 | `lower()` keeps the length and lower-cases each ASCII letter |
| Text.LowerChar | scr/logic.py:50 | a lower-cased character is never upper-case, only upper-case letters change, and a capital becomes the small letter at the same place in the alphabet |
| Text.LowerAppend | scr/logic.py:50 | `lower()` distributes over concatenation |
| Text.TrimLeft | scr/logic.py:50 | drops exactly the leading whitespace |
| Text.TrimRight | scr/logic.py:50 | drops exactly the trailing whitespace |
| Text.Strip | scr/logic.py:50 | the result neither starts nor ends with whitespace |
| Text.StripPadded | scr/logic.py:50 | `strip()` removes any whitespace padding on both sides |
| Text.StripUnpadded | scr/logic.py:50 | `strip()` leaves an unpadded string unchanged |
| Text.TrimLeftSpacePrefix | scr/logic.py:50 | leading whitespace does not change the left trim |
| Text.TrimRightSpaceSuffix | scr/logic.py:50 | trailing whitespace does not change the right trim |
| Text.TrimLeftAppend | scr/logic.py:50 | left-trimming a concatenation trims the first part, or the second if the first is all whitespace |
| Text.SpanAppend | scr/logic.py:50 | the leading run of a concatenation stops inside the first part, or covers it and continues into the second |
| Text.Span | scr/logic.py:56-59 | `\d+` and `\s*` take the longest prefix of matching characters |
| Text.SpanDigits | scr/logic.py:56-59 | `\d+` takes exactly the leading digit run |
| Text.SpanExact | scr/bot.py:18 | a run followed by a character outside the class is taken exactly |
| Text.IsDigits | scr/bot.py:23 | `isdigit()`: non-empty and only decimal digits |
| Text.StartsWith | scr/bot.py:21 | `startswith` for one character: non-empty and that first character |
| Text.DigitsValue | scr/bot.py:24 | `int()` of a digit string, most significant digit first; inverse of NatToString by DigitsValueOfNatToString |
| Text.Words | scr/bot.py:18 | `split()` yields only non-empty words without whitespace (which words: WordsOfSpace, WordsCons, WordsOfJoin) |
| Text.WordsOfSpace | scr/bot.py:18 | `split()` of whitespace only is empty |
| Text.WordsSkipSpace | scr/bot.py:18 | leading whitespace does not change `split()` |
| Text.WordsFirst | scr/bot.py:18 | a word followed by nothing or by whitespace is the first element, followed by the split of the rest |
| Text.WordsCons | scr/bot.py:18 | `split()` of whitespace, a word, then nothing or whitespace-led text is that word followed by the split of the rest |
| Text.WordsOfWord | scr/bot.py:18 | one word splits into itself |
| Text.Join | scr/bot.py:282 | `' '.join`: the parts with the separator between neighbours; split back by WordsOfJoin |
| Text.JoinCons | scr/bot.py:282 | proof step for WordsOfJoinCons: the join of two or more parts regrouped as the first part, then the separator and the join of the rest |
| Text.WordsOfJoinOne | scr/bot.py:18 | the join of one word splits back into that word |
| Text.WordsOfJoinStep | scr/bot.py:18 | a word, a space and text splitting into some words splits into that word followed by them |
| Text.WordsOfJoinCons | scr/bot.py:18 | if the join of the rest splits back, so does the join of two or more words |
| Text.WordsOfJoin | scr/bot.py:18 | `' '.join(ws).split() == ws` for every list of words |
| Text.Take | scr/bot.py:315 | `reason[:30]` is the prefix of length min(30, len) |
| Text.NatToString | scr/logic.py:82 | `str(n)` of a natural number is all digits with no leading zero: it starts with '0' exactly for 0 |
| Text.DigitsValueOfNatToString | scr/bot.py:24 | `int(str(n)) == n` |
| Text.IntToString | scr/logic.py:84 | `str(s)` is a minus sign exactly for a negative number, then digits without a leading zero whose value is the magnitude |
| Tables.InsertChat | scr/logic.py:86-96 | `INSERT OR IGNORE` adds an absent chat with welcome on and never overwrites an existing flag or any other chat |
| Tables.InsertChatIdempotent | scr/logic.py:86-96 | adding a chat twice is adding it once; adding a present chat changes nothing |
| Tables.ToggleChat | scr/logic.py:103-110 | flips the flag of a present chat and reports true; an absent chat is not created and false is reported |
| Tables.ToggleTwice | scr/logic.py:103-110 | toggling twice restores the table |
| Tables.UpdateRow | scr/logic.py:131-221 | an `UPDATE ... WHERE user_id AND chat_id` changes only an existing row and never adds one |
| Tables.SetMuted | scr/logic.py:168-176 | `mute_user` sets is_muted and the expiry on an existing row only and leaves every other row alone |
| Tables.UpsertUser | scr/logic.py:112-121 | `add_user` sets the names, keeps warns, is_muted and is_banned (0 for a new row), sets `mute_until` to NULL, and touches no other row |
| Tables.UpsertMakesMuteIndefinite | scr/logic.py:112-121 | after `add_user` a muted member stays muted at every time: a timed mute becomes indefinite |
| Tables.MutationsKeepMuteConsistent | scr/logic.py:112-221 | every users-table mutation keeps `mute_until` NULL whenever `is_muted` is 0 |
| Tables.OneRowKeepsMuteConsistent | scr/logic.py:112-221 | a table that differs from a consistent one only in one consistent row is consistent |
| Tables.MutedAt | scr/logic.py:187-203 | what `is_muted` answers: a row exists, is_muted is set, and the expiry is NULL or strictly after `now`; stated by MuteThenCheck, UnmuteThenCheck and UpsertMakesMuteIndefinite |
| Tables.AfterMuteCheck | scr/logic.py:187-203 | the lazy expiry of `is_muted` changes no other row and never changes the answer; a row not muted, or muted still in effect, leaves the table as it was; an expired mute changes only is_muted to 0 and the expiry to NULL |
| Tables.MuteThenCheck | scr/logic.py:168-203 | a mute until T is in effect exactly at times before T (strict), and only for an existing row |
| Tables.UnmuteThenCheck | scr/logic.py:178-203 | after `unmute_user` no time reads as muted |
| Tables.MuteCheckClearsExpired | scr/logic.py:194-201 | a row not muted at `now` is left with is_muted 0 and NULL expiry and every other column as it was; repeating the check changes nothing |
| Tables.MuteOverStaysOver | scr/logic.py:194-201 | a mute over at one time is over at every later time |
| Tables.WarnedTimesCount | scr/logic.py:131-143 | n warns on an existing row add exactly n to its count and change nothing else |
| Tables.NewReport | scr/logic.py:223-230 | a new report stores the given chat, reporter, reported member and reason, with the next id, status pending and the current time |
| Tables.AppendReportKeepsValid | scr/logic.py:223-230 | appending a report keeps ids increasing and `created_at` non-decreasing |
| Tables.PendingReports | scr/logic.py:232-241 | returns exactly the pending reports of the chat, or of every chat when the chat id is absent or 0 |
| Tables.PendingReportsOrdered | scr/logic.py:232-241 | the pending listing keeps table order, which is `created_at` order with ties by id |
| Tables.PendingAfterHead | scr/logic.py:232-241 | in an ordered table the first row precedes, by id and by `created_at`, every pending report listed from the rest |
| Tables.OrderedCons | scr/logic.py:223-241 | a row ahead of every row of an ordered table keeps it ordered |
| Logic.BotLogic.constructor | scr/logic.py:7-47 | the tables start empty, as on a fresh database file |
| Logic.BotLogic.AddChat | scr/logic.py:86-96 | the chats table becomes `InsertChat` of the old one; nothing else changes; returns true |
| Logic.BotLogic.GetChat | scr/logic.py:98-101 | the chat's flag if it has a row, None otherwise |
| Logic.BotLogic.ToggleWelcome | scr/logic.py:103-110 | the chats table and the result are `ToggleChat` of the old table; nothing else changes |
| Logic.BotLogic.AddUser | scr/logic.py:112-121 | the users table becomes `UpsertUser` of the old one; nothing else changes |
| Logic.BotLogic.GetUser | scr/logic.py:123-129 | the member's row if present, None otherwise |
| Logic.BotLogic.AddWarn | scr/logic.py:131-143 | increments an existing row only and returns the new count, or 0 without a row |
| Logic.BotLogic.ResetWarns | scr/logic.py:159-166 | sets warns of an existing row to 0; returns true |
| Logic.BotLogic.MuteUser | scr/logic.py:168-176 | sets is_muted and an expiry of now + duration on an existing row; returns true |
| Logic.BotLogic.UnmuteUser | scr/logic.py:178-185 | clears is_muted and the expiry of an existing row; returns true |
| Logic.BotLogic.IsMuted | scr/logic.py:187-203 | answers whether the row is muted with no expiry or one strictly after `now`, and clears an expired mute |
| Logic.BotLogic.BanUser | scr/logic.py:205-212 | sets is_banned on an existing row; returns true |
| Logic.BotLogic.UnbanUser | scr/logic.py:214-221 | clears is_banned on an existing row; returns true |
| Logic.BotLogic.AddReport | scr/logic.py:223-230 | appends a pending report whose id is larger than every earlier id and returns that id |
| Logic.BotLogic.GetPendingReports | scr/logic.py:232-241 | exactly the pending reports of the selected chat, in creation order |
| Logic.BotLogic.MarkReportResolved | scr/logic.py:243-249 | raises, since `execute` receives no SQL text, and changes no report |
| Bot.IsAdmin | scr/bot.py:10-11 | true exactly when the id is one of the administrator ids |
| Bot.ScanTokensFirstMatch | scr/bot.py:18-26 | the scan yields the first `@name` or all-digit argument, and (None, None) exactly when there is none |
| Bot.ScanTokens | scr/bot.py:18-26 | the loop over the arguments: the first `@name` or all-digit token decides; stated by ScanTokensFirstMatch |
| Bot.Args | scr/bot.py:18-19 | `message.text.split()[1:]`: the words after the command |
| Bot.NameOf | scr/bot.py:16 | `user.username or user.first_name` |
| Bot.TargetOf | scr/bot.py:13-26 | the replied-to author's id and name, else the scan of the arguments; stated by ExtractUserInfo |
| Bot.DurationTokenTakenAsTarget | scr/bot.py:18-24 | in "/mute 30 123" the target is 30 |
| Bot.ExtractUserInfo | scr/bot.py:13-26 | the reply's author (id, username or first name), else the first designating argument, else nothing |
| Bot.Designate | scr/bot.py:68-74 | an id is usable exactly when it is truthy; only a name when the name is truthy and the id is not |
| Bot.MuteSeconds | scr/bot.py:146-149 | the parsed duration, or 3600 when it is None or 0; always positive |
| Bot.BanSeconds | scr/bot.py:225-227 | the parsed duration of the argument (or 'permanent' without one), or 86400 when it is None or 0 |
| Bot.BanToken | scr/bot.py:226 | the duration token of `/ban`: 'permanent' without an argument, else the first argument |
| Bot.BanDefaults | scr/bot.py:225-227 | a bare `/ban` bans for good; `/ban <digits>` bans for one day |
| Bot.MuteBareNumber | scr/bot.py:146-149 | `/mute <digits>` mutes for one hour |
| Bot.MuteNonUnitToken | scr/bot.py:146-149 | `/mute` with digits and a letter that is no unit mutes for the default hour |
| Bot.FiveSecondsMutesForAnHour | scr/bot.py:146-149 | `/mute 5s` mutes for 3600 seconds, not five |
| Bot.RestrictionEnd | scr/bot.py:167-170 | no end date exactly from 315360000 seconds on, otherwise now + seconds |
| Bot.DisplayAndEnforcementThresholds | scr/bot.py:167-170 | every restriction without an end date is shown as "навсегда", and so is a timed one of a year |
| Bot.MuteExpiry | scr/logic.py:169 | the stored expiry always lies after `now` |
| Bot.PermanentMuteRunsOut | scr/logic.py:169 | a permanent mute stores now + 315360000, so it is in effect until then and over from then on |
| Bot.ReportReason | scr/bot.py:282 | the arguments joined by spaces, or "Причина не указана" when there are none |
| Bot.ReportReasonSplitsBack | scr/bot.py:282 | a given reason splits back into exactly the words after `/report` |
| Bot.PreviewLine | scr/bot.py:312-316 | the report's id and target, with the reason cut to 30 characters and "..." appended |
| Bot.ReportLines | scr/bot.py:311-316 | one line per report among the first five, in order |
| Bot.NotifyAdmins | scr/bot.py:291-295 | one notification per administrator, in order, carrying the report id, target and reason |
| Bot.WarnCountAfter | scr/logic.py:131-143 | the count `add_warn` returns: at least 1 for an existing row, 0 otherwise |
| Bot.EscalationRepeats | scr/bot.py:79-82 | once a warn reaches the limit, every later warn reaches it too, so every later warn bans again |
| Bot.UnknownMemberNotEscalated | scr/bot.py:76-82 | warning a member without a row changes nothing and, with a positive limit, never bans |
| Bot.AfterWarn | scr/bot.py:76-82 | the users table after a warn: the count incremented on an existing row, then the ban flag when it reaches the limit; stated by EscalationRepeats, UnknownMemberNotEscalated and WarnMember |
| Bot.WarnActions | scr/bot.py:77-82 | the warn reply with the count and the limit, then the platform ban and the ban reply when the count reaches the limit; stated by WarnMember |
| Bot.NoIdReply | scr/bot.py:68-74 | the reply when no usable id was given: "specify a member" when nothing designates one, "give the id" when only a name does |
| Bot.MissingIdReply | scr/bot.py:152-163 | `/mute` without a usable id: "need the id of <name>" for a name or an `@name` second argument, otherwise "specify a member" |
| Bot.GreetedRows | scr/bot.py:351-360 | every new member but the bot gets a row; no other row appears; existing warns, mute and ban flags are kept |
| Bot.GreetingName | scr/bot.py:363 | `@username` when the member has one, else the first name |
| Bot.Greeted | scr/bot.py:351-360 | the users table after `add_user` of every new member but the bot, in order; stated by GreetedRows |
| Bot.Greetings | scr/bot.py:351-365 | one greeting per new member but the bot, in order; stated by WelcomeNewMember |
| Bot.WarnMember | scr/bot.py:76-82 | warn, then ban when the count reaches the limit, with the matching replies and platform ban |
| Bot.WarnCommand | scr/bot.py:61-82 | non-admin: refusal and no change; no usable id: a reply and no change; otherwise the warn with escalation |
| Bot.WarnsCommand | scr/bot.py:84-104 | the member's count, or "not found", with the same guards; no state change |
| Bot.MyWarnsCommand | scr/bot.py:106-115 | the sender's own count; a sender without a row gets one and is told they have no warns |
| Bot.ResetWarnsCommand | scr/bot.py:117-133 | with the guards, sets the member's warns to 0 |
| Bot.MuteParsed | scr/bot.py:137-186 | admin guard, usage check on fewer than two words, id checks, then the mute in the store, the restriction until the computed end, and the duration reply |
| Bot.MuteCommand | scr/bot.py:135-186 | `mute_command` on a message: as `MuteParsed` on its words and target |
| Bot.UnmuteCommand | scr/bot.py:188-217 | with the guards, clears the mute and lifts the restriction |
| Bot.BanCommand | scr/bot.py:219-252 | with the guards, sets the ban flag and bans on the platform until the computed end |
| Bot.UnbanCommand | scr/bot.py:254-271 | with the guards (both asking for an id), clears the ban flag and unbans |
| Bot.ReportCommand | scr/bot.py:273-297 | without a reply: a prompt and no change; otherwise a new pending report, one notification per administrator and the report id |
| Bot.ReportsCommand | scr/bot.py:299-318 | admin only; "no reports" when none are pending, else the first five pending reports of the chat as preview lines |
| Bot.ResolveCommand | scr/bot.py:320-327 | silent for non-administrators; for an administrator the handler raises with no reply |
| Bot.WelcomeCommand | scr/bot.py:329-341 | admin only; toggles without adding the chat and reports "on" exactly when the chat existed with the welcome off |
| Bot.WelcomeNewMember | scr/bot.py:343-365 | adds the chat first; when the welcome is on, adds and greets every new member but the bot, in order |
| Bot.CheckMute | scr/bot.py:367-378 | ignores the bot's own messages; deletes and answers a message from a member muted at `now`, clearing an expired mute |

## Left out

- Telegram calls (`reply_to`, `restrict_chat_member`, `ban_chat_member`, `unban_chat_member`, `send_message`, `delete_message`, `get_me`, `infinity_polling`) are actions in the returned `Decision`, never performed. Reply wording, emoji, the chat title and the reported member's first name in admin notifications, the permission flags of a restriction and the `WELCOME_MESSAGE` template are reduced to reply kinds and their data.
- The `config` module is not part of this model: `ADMIN_IDS`, `MAX_WARNS` and the bot's id are a `Config` parameter.
- SQLite plumbing (`connect`, `create_tables`, commits, `close`, sharing the connection across threads) is left out, and so is any concurrency: the model is sequential, with the tables as maps and a sequence.
- Logic.BotLogic.constructor: starts from empty tables, as on a fresh `bot.db`. `CREATE TABLE IF NOT EXISTS` keeps the rows of an earlier run; every method accepts any valid state, so no other result depends on this.
- Bot.WarnCommand, Bot.WarnsCommand, Bot.ResetWarnsCommand, Bot.MuteParsed, Bot.MuteCommand, Bot.UnmuteCommand, Bot.BanCommand, Bot.UnbanCommand: do not model the `OverflowError` that sqlite3 raises when a typed all-digit id of 2^63 or more is bound to a query. The handler then stops inside the store call, before any write, Telegram call or reply. For such an id the model goes on as for any id absent from the tables. For example, an administrator's "/warn 9223372036854775808" is answered with a warn count of 0. The same holds for the `Logic.BotLogic` methods given such an id, whose integers are unbounded.
- The wall clock is an integer `now` in seconds. ISO-format timestamps and their parsing are left out. `mute_command` reads the clock twice, in `mute_user` and again in the handler for the restriction end; the model uses one reading.
- Logic.BotLogic.MuteUser, Bot.MuteParsed, Bot.MuteCommand: do not model the `OverflowError` of `datetime.now() + timedelta(...)` in `mute_user` for a duration beyond the calendar's range. "/mute 99999999w 123" raises there before any write, restriction or reply; the model stores now + 60479999395200, restricts with no end and replies "навсегда". `ban_command` builds a date only below ten years and cannot overflow.
- Logic.BotLogic.AddReport, Bot.ReportCommand: require the clock not to run backwards between reports, so that `ORDER BY created_at` is table order. SQLite's order among equal timestamps is unspecified; the model breaks ties by id.
- `remove_warn` is unused by the handlers, and it calls `GREATEST`, which SQLite does not provide, so it would fail; it is left out.
- Unicode: `lower()`, `strip()`, `split()`, `isdigit()` and `\d`/`\s` are modelled on ASCII. Non-ASCII digits and whitespace, and Cyrillic upper case, are not modelled.
- The help text of `/start` and `/help` is left out.
- The `/resolve_<n>` regular-expression dispatch and `int(...)` of the id are left out: the id is a parameter of `ResolveCommand`.
- Handler dispatch by telebot (which handler sees which message) is left out: each handler is modelled on the message it is given.
- `is_muted`, `is_banned` and `welcome_enabled` are booleans: the code writes only 0 and 1 to them.
