/**
 * The decision logic of the bot's message handlers. Each handler reads the
 * message, updates the `BotLogic` store as the Python handler does, and
 * returns the Telegram calls it would make, in order, instead of making them.
 */
module Bot {
  import opened Wrappers
  import opened Text
  import opened Duration
  import opened Tables
  import opened Logic

  /** A Telegram user as the handlers see it. */
  datatype Account = Account(id: int, username: Option<string>, firstName: string)

  /** An incoming message; `replyTo` is the author of the message it answers. */
  datatype Message = Message(
    chatId: int,
    messageId: int,
    sender: Account,
    text: string,
    replyTo: Option<Account>,
    newMembers: seq<Account>)

  /** `config.ADMIN_IDS`, `config.MAX_WARNS`, and the bot's own id (`bot.get_me().id`). */
  datatype Config = Config(adminIds: seq<int>, maxWarns: int, botId: int)

  /** One entry of the `/reports` listing. */
  datatype ReportLine = ReportLine(id: nat, reportedId: int, preview: string)

  /** The text of a reply, by kind; wording and emoji are left to the caller. */
  datatype Reply =
    | NeedAdmin
    | SpecifyUser
    | SpecifyUserId
    | NeedIdOf(name: string)
    | MuteUsage
    | WarnIssued(count: int, limit: int)
    | BannedForWarns(limit: int)
    | WarnCount(count: int, limit: int)
    | UserNotFound
    | OwnWarnCount(count: int, limit: int)
    | NoOwnWarns
    | WarnsReset
    | MutedFor(duration: string)
    | MuteLifted
    | BannedFor(duration: string)
    | BanLifted
    | ReplyNeeded
    | ReportSent(id: nat)
    | NoReports
    | ReportList(lines: seq<ReportLine>)
    | WelcomeOn
    | WelcomeOff
    | Greeting(name: string)
    | MutedNotice

  /** One Telegram call; an `until` of `None` means no `until_date`, that is, for good. */
  datatype Action =
    | Say(reply: Reply)
    | Restrict(user: int, until: Option<int>)
    | Unrestrict(user: int)
    | BanMember(user: int, until: Option<int>)
    | UnbanMember(user: int)
    | NotifyAdmin(admin: int, reportId: nat, reportedId: int, reason: string)
    | DeleteMessage(messageId: int)

  /** The calls a handler makes; `Aborted` when it raises after making `actions`. */
  datatype Decision =
    | Completed(actions: seq<Action>)
    | Aborted(actions: seq<Action>, fault: Fault)

  const DefaultMuteSeconds: nat := 3600
  const DefaultBanSeconds: nat := 86400
  const ReportPageSize: nat := 5
  const ReasonPreviewLength: nat := 30
  const NoReasonGiven: string := "Причина не указана"

  // ------------------------------------------------------------ admin guard

  /** `is_admin`: the sender is one of `ADMIN_IDS`. */
  function IsAdmin(cfg: Config, user: int): (r: bool)
    ensures r <==> exists i :: 0 <= i < |cfg.adminIds| && cfg.adminIds[i] == user
  {
    user in cfg.adminIds
  }

  // ------------------------------------------------------------ target extraction

  /** What `extract_user_info` returns: a user id, a name, both or neither. */
  datatype Target = Target(id: Option<int>, name: Option<string>)

  /** Python truthiness of `user_id`: present and not 0. */
  predicate IdGiven(id: Option<int>) {
    id.Some? && id.value != 0
  }

  /** Python truthiness of `username`: present and not empty. */
  predicate NameGiven(name: Option<string>) {
    name.Some? && name.value != ""
  }

  /** An argument token that `extract_user_info` stops at: `@name` or all digits. */
  predicate Designates(token: string) {
    StartsWith(token, '@') || IsDigits(token)
  }

  /** The target a designating token gives. */
  function TokenTarget(token: string): Target
    requires Designates(token)
  {
    if StartsWith(token, '@') then Target(None, Some(token[1..]))
    else Target(Some(DigitsValue(token)), None)
  }

  /** The left-to-right scan of the argument tokens. */
  function ScanTokens(parts: seq<string>): Target
  {
    if parts == [] then Target(None, None)
    else if Designates(parts[0]) then TokenTarget(parts[0])
    else ScanTokens(parts[1..])
  }

  /** `message.text.split()[1:]`, the tokens after the command. */
  function Args(text: string): seq<string>
  {
    var parts := Words(text);
    if |parts| > 1 then parts[1..] else []
  }

  /** `user.username or user.first_name`. */
  function NameOf(a: Account): string
  {
    if NameGiven(a.username) then a.username.value else a.firstName
  }

  /** What `extract_user_info` returns for a message. */
  function TargetOf(msg: Message): Target
  {
    match msg.replyTo
    case Some(a) => Target(Some(a.id), Some(NameOf(a)))
    case None => ScanTokens(Args(msg.text))
  }

  /**
   * The scan returns the target of the first designating token, and
   * (None, None) exactly when no token designates anyone.
   */
  lemma {:induction false} ScanTokensFirstMatch(parts: seq<string>)
    ensures ScanTokens(parts) == Target(None, None) <==> forall i :: 0 <= i < |parts| ==> !Designates(parts[i])
    ensures forall i :: 0 <= i < |parts| && Designates(parts[i]) && (forall j :: 0 <= j < i ==> !Designates(parts[j]))
              ==> ScanTokens(parts) == TokenTarget(parts[i])
  {
    if parts != [] {
      ScanTokensFirstMatch(parts[1..]);
      if !Designates(parts[0]) {
        forall i | 0 < i < |parts| && Designates(parts[i]) && (forall j :: 0 <= j < i ==> !Designates(parts[j]))
          ensures ScanTokens(parts) == TokenTarget(parts[i])
        {
          assert parts[1..][i - 1] == parts[i];
          assert forall j :: 0 <= j < i - 1 ==> parts[1..][j] == parts[j + 1];
        }
        assert (forall i :: 0 <= i < |parts| ==> !Designates(parts[i]))
           <==> (forall i :: 0 <= i < |parts[1..]| ==> !Designates(parts[1..][i]));
      } else {
        assert TokenTarget(parts[0]) != Target(None, None);
      }
    }
  }

  /** In "/mute 30 123" the duration token itself is the first all-digit token: the target is 30. */
  lemma DurationTokenTakenAsTarget()
    ensures ScanTokens(["30", "123"]) == Target(Some(30), None)
  {
    assert Designates("30");
    assert DigitsValue("30") == 30;
  }

  /** `extract_user_info`: the reply's author, else the first `@name` or all-digit argument. */
  method ExtractUserInfo(msg: Message) returns (t: Target)
    ensures t == TargetOf(msg)
  {
    if msg.replyTo.Some? {
      var user := msg.replyTo.value;
      return Target(Some(user.id), Some(NameOf(user)));
    }
    var parts := Words(msg.text);
    if |parts| > 1 {
      var i := 1;
      while i < |parts|
        invariant 1 <= i <= |parts|
        invariant ScanTokens(parts[i..]) == ScanTokens(parts[1..])
      {
        assert parts[i..][1..] == parts[i + 1..];
        if StartsWith(parts[i], '@') {
          return Target(None, Some(parts[i][1..]));
        } else if IsDigits(parts[i]) {
          return Target(Some(DigitsValue(parts[i])), None);
        }
        i := i + 1;
      }
    }
    return Target(None, None);
  }

  /** How the handlers read a target: a usable id, only a name, or nobody. */
  datatype Designation = Nobody | NameOnly(name: string) | UserId(id: int)

  /**
   * The two checks after `extract_user_info`: no truthy id and no truthy name
   * is nobody; a truthy name without a truthy id is a name only.
   */
  function Designate(t: Target): (r: Designation)
    ensures r.UserId? <==> IdGiven(t.id)
    ensures r.UserId? ==> r.id == t.id.value && r.id != 0
    ensures r.NameOnly? <==> !IdGiven(t.id) && NameGiven(t.name)
    ensures r.NameOnly? ==> r.name == t.name.value
  {
    if !IdGiven(t.id) && !NameGiven(t.name) then Nobody
    else if NameGiven(t.name) && !IdGiven(t.id) then NameOnly(t.name.value)
    else UserId(t.id.value)
  }

  // ------------------------------------------------------------ durations

  /** `parse_time(parts[1])`, with `None` and 0 (both falsy) replaced by one hour. */
  function MuteSeconds(token: string): (r: nat)
    ensures r > 0
    ensures ParseTime(token).Some? && ParseTime(token).value > 0 ==> r == ParseTime(token).value
    ensures ParseTime(token).None? || ParseTime(token).value == 0 ==> r == DefaultMuteSeconds
  {
    var p := ParseTime(token);
    if p.None? || p.value == 0 then DefaultMuteSeconds else p.value
  }

  /** The duration token of `/ban`: `'permanent'` when the command has no argument. */
  function BanToken(parts: seq<string>): string
  {
    if |parts| < 2 then "permanent" else parts[1]
  }

  /** `parse_time(time_str) or 86400`. */
  function BanSeconds(parts: seq<string>): (r: nat)
    ensures r > 0
    ensures var p := ParseTime(BanToken(parts));
            && (p.Some? && p.value > 0 ==> r == p.value)
            && (p.None? || p.value == 0 ==> r == DefaultBanSeconds)
  {
    var p := ParseTime(BanToken(parts));
    if p.None? || p.value == 0 then DefaultBanSeconds else p.value
  }

  /** A bare `/ban` bans for good; `/ban 12345` bans for one day, since "12345" has no unit. */
  lemma BanDefaults(parts: seq<string>)
    ensures |parts| < 2 ==> BanSeconds(parts) == Forever
    ensures |parts| >= 2 && IsDigits(parts[1]) ==> BanSeconds(parts) == DefaultBanSeconds
  {
    ParsePermanentKeywords();
    if |parts| >= 2 && IsDigits(parts[1]) {
      ParseBareNumber(parts[1]);
    }
  }

  /** `/mute 123`: the number is no duration, so the mute lasts an hour. */
  lemma MuteBareNumber(token: string)
    requires IsDigits(token)
    ensures MuteSeconds(token) == DefaultMuteSeconds
  {
    ParseBareNumber(token);
  }

  /** `/mute 5s ...`: a letter that is not a unit gives no duration, so the mute lasts an hour. */
  lemma MuteNonUnitToken(ds: string, ws: string, c: char, rest: string)
    requires IsDigits(ds) && AllSpace(ws) && !IsDigit(c) && !IsSpace(c) && !IsUpper(c)
    requires c != 'm' && c != 'h' && c != 'd' && c != 'w'
    requires forall i :: 0 <= i < |rest| ==> !IsUpper(rest[i])
    requires rest == [] || !IsSpace(rest[|rest| - 1])
    ensures MuteSeconds(ds + ws + [c] + rest) == DefaultMuteSeconds
  {
    ParseNonUnitToken(ds, ws, c, rest);
  }

  /** "5s" is read as no duration at all: the mute lasts an hour, not five seconds. */
  lemma FiveSecondsMutesForAnHour()
    ensures MuteSeconds("5s") == DefaultMuteSeconds
  {
    var empty: string := [];
    assert "5" + empty + ['s'] + empty == "5s";
    MuteNonUnitToken("5", empty, 's', empty);
  }

  /** The `until_date` of a restriction: none (for good) from ten years on. */
  function RestrictionEnd(seconds: int, now: int): (r: Option<int>)
    ensures r == None <==> seconds >= Forever
    ensures r.Some? ==> r.value == now + seconds
  {
    if seconds >= Forever then None else Some(now + seconds)
  }

  /**
   * The display threshold is one year, the enforcement threshold ten: every
   * restriction applied for good is shown as "навсегда", but so is a timed
   * one of a year or more.
   */
  lemma DisplayAndEnforcementThresholds(seconds: int, now: int)
    ensures RestrictionEnd(seconds, now) == None ==> FormatTime(seconds) == ForeverLabel
    ensures FormatTime(ForeverLabelFrom) == ForeverLabel && RestrictionEnd(ForeverLabelFrom, now).Some?
  {
  }

  // ------------------------------------------------------------ reports

  /** `' '.join(message.text.split()[1:]) or "Причина не указана"`. */
  function ReportReason(text: string): (r: string)
    ensures Args(text) == [] ==> r == NoReasonGiven
    ensures Args(text) != [] ==> r == Join(" ", Args(text))
  {
    var joined := Join(" ", Args(text));
    if joined == "" then NoReasonGiven else joined
  }

  /** A reason built from arguments splits back into exactly those arguments. */
  lemma ReportReasonSplitsBack(text: string)
    requires Args(text) != []
    ensures Words(ReportReason(text)) == Args(text)
  {
    WordsOfJoin(Args(text));
  }

  /** The listing entry of a report: its reason cut to 30 characters, then "...". */
  function PreviewLine(r: Report): (l: ReportLine)
    ensures l.id == r.id && l.reportedId == r.reportedId
    ensures |l.preview| == (if |r.reason| < ReasonPreviewLength then |r.reason| else ReasonPreviewLength) + 3
    ensures l.preview[..|l.preview| - 3] == r.reason[..|l.preview| - 3]
    ensures l.preview[|l.preview| - 3..] == "..."
  {
    ReportLine(r.id, r.reportedId, Take(r.reason, ReasonPreviewLength) + "...")
  }

  /** The loop over `reports[:5]` that builds the listing. */
  method ReportLines(reports: seq<Report>) returns (lines: seq<ReportLine>)
    ensures |lines| == if |reports| < ReportPageSize then |reports| else ReportPageSize
    ensures forall i :: 0 <= i < |lines| ==> lines[i] == PreviewLine(reports[i])
  {
    var page := if |reports| < ReportPageSize then reports else reports[..ReportPageSize];
    lines := [];
    var i := 0;
    while i < |page|
      invariant 0 <= i <= |page|
      invariant |lines| == i
      invariant forall j :: 0 <= j < i ==> lines[j] == PreviewLine(reports[j])
    {
      lines := lines + [PreviewLine(page[i])];
      i := i + 1;
    }
  }

  /** The loop over `ADMIN_IDS` that tells every administrator about a new report. */
  method NotifyAdmins(admins: seq<int>, reportId: nat, reportedId: int, reason: string)
    returns (acts: seq<Action>)
    ensures |acts| == |admins|
    ensures forall i :: 0 <= i < |admins| ==> acts[i] == NotifyAdmin(admins[i], reportId, reportedId, reason)
  {
    acts := [];
    for i := 0 to |admins|
      invariant |acts| == i
      invariant forall j :: 0 <= j < i ==> acts[j] == NotifyAdmin(admins[j], reportId, reportedId, reason)
    {
      acts := acts + [NotifyAdmin(admins[i], reportId, reportedId, reason)];
    }
  }

  // ------------------------------------------------------------ warns

  /** What `add_warn` returns: the count after the increment, 0 without a row. */
  function WarnCountAfter(users: Users, key: UserKey): (count: int)
    ensures count == if key in users then UpdateRow(users, key, Warned)[key].warns else 0
    ensures key in users ==> count >= 1
  {
    if key in users then users[key].warns + 1 else 0
  }

  /** The store after `warn_command`: the warn, then `ban_user` once the count reaches the limit. */
  function AfterWarn(users: Users, key: UserKey, limit: int): Users
  {
    var warned := UpdateRow(users, key, Warned);
    if WarnCountAfter(users, key) >= limit then UpdateRow(warned, key, Banned) else warned
  }

  /**
   * Escalation is not once-only: a warn that reaches the limit bans, and so
   * does every later warn, since the ban keeps the count. A member without a
   * row gets count 0 and, with a positive limit, no ban.
   */
  lemma {:induction false} EscalationRepeats(users: Users, key: UserKey, limit: int, n: nat)
    requires key in users && WarnCountAfter(users, key) >= limit
    ensures var later := WarnedTimes(AfterWarn(users, key, limit), key, n);
            WarnCountAfter(later, key) >= limit && WarnCountAfter(later, key) == WarnCountAfter(users, key) + n + 1
  {
    WarnedTimesCount(AfterWarn(users, key, limit), key, n);
  }

  lemma UnknownMemberNotEscalated(users: Users, key: UserKey, limit: int)
    requires key !in users && limit >= 1
    ensures WarnCountAfter(users, key) == 0 < limit
    ensures AfterWarn(users, key, limit) == users
  {
  }

  // ------------------------------------------------------------ greetings

  /** `f"@{member.username}" if member.username else member.first_name`. */
  function GreetingName(m: Account): string
  {
    if NameGiven(m.username) then "@" + m.username.value else m.firstName
  }

  /** The users table after `add_user` for every new member but the bot, in order. */
  function Greeted(users: Users, chat: int, members: seq<Account>, botId: int): Users
  {
    if members == [] then users
    else
      var before := Greeted(users, chat, members[..|members| - 1], botId);
      var m := members[|members| - 1];
      if m.id == botId then before else UpsertUser(before, (m.id, chat), m.username, m.firstName)
  }

  /** The greetings sent for every new member but the bot, in order. */
  function Greetings(members: seq<Account>, botId: int): seq<Action>
  {
    if members == [] then []
    else
      var before := Greetings(members[..|members| - 1], botId);
      var m := members[|members| - 1];
      if m.id == botId then before else before + [Say(Greeting(GreetingName(m)))]
  }

  /**
   * Greeting gives every new member but the bot a row in the chat, adds no
   * other row, and keeps the warns, mute and ban flags of rows already there.
   */
  lemma {:induction false} GreetedRows(users: Users, chat: int, members: seq<Account>, botId: int)
    ensures var r := Greeted(users, chat, members, botId);
      && (forall i :: 0 <= i < |members| && members[i].id != botId ==> (members[i].id, chat) in r)
      && (forall k :: k in r ==> k in users || exists i :: 0 <= i < |members| && members[i].id != botId && k == (members[i].id, chat))
      && (forall k :: k in users ==>
            (k in r && r[k].warns == users[k].warns
             && r[k].isMuted == users[k].isMuted && r[k].isBanned == users[k].isBanned))
  {
    if members != [] {
      var init := members[..|members| - 1];
      GreetedRows(users, chat, init, botId);
      forall k | k in Greeted(users, chat, members, botId)
        ensures k in users || exists i :: 0 <= i < |members| && members[i].id != botId && k == (members[i].id, chat)
      {
        if k !in users && k in Greeted(users, chat, init, botId) {
          var i :| 0 <= i < |init| && init[i].id != botId && k == (init[i].id, chat);
          assert members[i] == init[i];
        }
      }
      forall i | 0 <= i < |members| - 1 ensures members[i] == init[i] { }
    }
  }

  // ------------------------------------------------------------ handler helpers

  /** The reply of `warn`, `warns`, `reset_warns` and `unmute` when no id can be had. */
  function NoIdReply(des: Designation): Reply
  {
    if des.Nobody? then SpecifyUser else SpecifyUserId
  }

  /** The reply of `mute` and `ban` when no id can be had; `parts` is the whole split text. */
  function MissingIdReply(parts: seq<string>, des: Designation): Reply
  {
    if des.NameOnly? then NeedIdOf(des.name)
    else if |parts| > 2 && StartsWith(parts[2], '@') then NeedIdOf(parts[2][1..])
    else SpecifyUser
  }

  // ------------------------------------------------------------ handlers

  /** The actions of a warn that reached `count` against `limit`. */
  function WarnActions(user: int, count: int, limit: int): seq<Action>
  {
    [Say(WarnIssued(count, limit))]
      + if count >= limit then [BanMember(user, None), Say(BannedForWarns(limit))] else []
  }

  /** The store side of `warn_command` once the target id is known. */
  method WarnMember(logic: BotLogic, user: int, chat: int, limit: int) returns (acts: seq<Action>)
    requires logic.Valid()
    modifies logic
    ensures logic.Valid()
    ensures logic.users == AfterWarn(old(logic.users), (user, chat), limit)
    ensures acts == WarnActions(user, WarnCountAfter(old(logic.users), (user, chat)), limit)
    ensures logic.chats == old(logic.chats) && logic.reports == old(logic.reports)
    ensures logic.lastReportId == old(logic.lastReportId)
  {
    var warns := logic.AddWarn(user, chat);
    if warns >= limit {
      var _ := logic.BanUser(user, chat);
    }
    acts := WarnActions(user, warns, limit);
  }

  /** `warn_command`. */
  method WarnCommand(logic: BotLogic, cfg: Config, msg: Message) returns (d: Decision)
    requires logic.Valid()
    modifies logic
    ensures logic.Valid()
    ensures !IsAdmin(cfg, msg.sender.id) ==> d == Completed([Say(NeedAdmin)]) && unchanged(logic)
    ensures IsAdmin(cfg, msg.sender.id) && !Designate(TargetOf(msg)).UserId? ==>
              d == Completed([Say(NoIdReply(Designate(TargetOf(msg))))]) && unchanged(logic)
    ensures IsAdmin(cfg, msg.sender.id) && Designate(TargetOf(msg)).UserId? ==>
              var user := Designate(TargetOf(msg)).id;
              var key := (user, msg.chatId);
              && logic.users == AfterWarn(old(logic.users), key, cfg.maxWarns)
              && d == Completed(WarnActions(user, WarnCountAfter(old(logic.users), key), cfg.maxWarns))
              && logic.chats == old(logic.chats) && logic.reports == old(logic.reports)
              && logic.lastReportId == old(logic.lastReportId)
  {
    if !IsAdmin(cfg, msg.sender.id) {
      return Completed([Say(NeedAdmin)]);
    }
    var target := ExtractUserInfo(msg);
    var des := Designate(target);
    if !des.UserId? {
      return Completed([Say(NoIdReply(des))]);
    }
    var acts := WarnMember(logic, des.id, msg.chatId, cfg.maxWarns);
    return Completed(acts);
  }

  /** `warns_command`: reads the count, changes nothing. */
  method WarnsCommand(logic: BotLogic, cfg: Config, msg: Message) returns (d: Decision)
    ensures !IsAdmin(cfg, msg.sender.id) ==> d == Completed([Say(NeedAdmin)])
    ensures IsAdmin(cfg, msg.sender.id) && !Designate(TargetOf(msg)).UserId? ==>
              d == Completed([Say(NoIdReply(Designate(TargetOf(msg))))])
    ensures IsAdmin(cfg, msg.sender.id) && Designate(TargetOf(msg)).UserId? ==>
              var key := (Designate(TargetOf(msg)).id, msg.chatId);
              d == Completed([Say(if key in logic.users then WarnCount(logic.users[key].warns, cfg.maxWarns) else UserNotFound)])
  {
    if !IsAdmin(cfg, msg.sender.id) {
      return Completed([Say(NeedAdmin)]);
    }
    var target := ExtractUserInfo(msg);
    var des := Designate(target);
    if !des.UserId? {
      return Completed([Say(NoIdReply(des))]);
    }
    var row := logic.GetUser(des.id, msg.chatId);
    if row.Some? {
      return Completed([Say(WarnCount(row.value.warns, cfg.maxWarns))]);
    }
    return Completed([Say(UserNotFound)]);
  }

  /** `my_warns_command`: the sender's own count; a sender without a row gets one. */
  method MyWarnsCommand(logic: BotLogic, cfg: Config, msg: Message) returns (d: Decision)
    requires logic.Valid()
    modifies logic
    ensures logic.Valid()
    ensures var key := (msg.sender.id, msg.chatId);
            key in old(logic.users) ==>
              d == Completed([Say(OwnWarnCount(old(logic.users)[key].warns, cfg.maxWarns))]) && unchanged(logic)
    ensures var key := (msg.sender.id, msg.chatId);
            key !in old(logic.users) ==>
              && d == Completed([Say(NoOwnWarns)])
              && logic.users == UpsertUser(old(logic.users), key, msg.sender.username, msg.sender.firstName)
              && logic.chats == old(logic.chats) && logic.reports == old(logic.reports)
              && logic.lastReportId == old(logic.lastReportId)
  {
    var row := logic.GetUser(msg.sender.id, msg.chatId);
    if row.Some? {
      return Completed([Say(OwnWarnCount(row.value.warns, cfg.maxWarns))]);
    }
    logic.AddUser(msg.sender.id, msg.chatId, msg.sender.username, msg.sender.firstName);
    return Completed([Say(NoOwnWarns)]);
  }

  /** `reset_warns_command`. */
  method ResetWarnsCommand(logic: BotLogic, cfg: Config, msg: Message) returns (d: Decision)
    requires logic.Valid()
    modifies logic
    ensures logic.Valid()
    ensures !IsAdmin(cfg, msg.sender.id) ==> d == Completed([Say(NeedAdmin)]) && unchanged(logic)
    ensures IsAdmin(cfg, msg.sender.id) && !Designate(TargetOf(msg)).UserId? ==>
              d == Completed([Say(NoIdReply(Designate(TargetOf(msg))))]) && unchanged(logic)
    ensures IsAdmin(cfg, msg.sender.id) && Designate(TargetOf(msg)).UserId? ==>
              var key := (Designate(TargetOf(msg)).id, msg.chatId);
              && logic.users == UpdateRow(old(logic.users), key, WarnsCleared)
              && d == Completed([Say(WarnsReset)])
              && logic.chats == old(logic.chats) && logic.reports == old(logic.reports)
              && logic.lastReportId == old(logic.lastReportId)
  {
    if !IsAdmin(cfg, msg.sender.id) {
      return Completed([Say(NeedAdmin)]);
    }
    var target := ExtractUserInfo(msg);
    var des := Designate(target);
    if !des.UserId? {
      return Completed([Say(NoIdReply(des))]);
    }
    var _ := logic.ResetWarns(des.id, msg.chatId);
    return Completed([Say(WarnsReset)]);
  }

  /** When a `/mute` whose words are `parts` ends, `now` being the time it is handled. */
  function MuteExpiry(parts: seq<string>, now: int): (until: int)
    requires |parts| >= 2
    ensures until > now
  {
    now + MuteSeconds(parts[1])
  }

  /**
   * A `/mute permanent` stores an expiry ten years on rather than NULL, so
   * the stored mute does run out then.
   */
  lemma PermanentMuteRunsOut(users: Users, key: UserKey, token: string, now: int)
    requires key in users && token in PermanentKeywords
    ensures var until := MuteExpiry(["/mute", token], now);
            && until == now + Forever
            && MutedAt(SetMuted(users, key, until), key, now + Forever - 1)
            && !MutedAt(SetMuted(users, key, until), key, now + Forever)
  {
    KeywordParses(token);
    MuteThenCheck(users, key, now + Forever, now + Forever - 1);
    MuteThenCheck(users, key, now + Forever, now + Forever);
  }

  /** `mute_command` on the words of the message and the target read off it. */
  method MuteParsed(logic: BotLogic, admin: bool, parts: seq<string>, des: Designation, chat: int, now: int)
    returns (d: Decision)
    requires logic.Valid()
    modifies logic
    ensures logic.Valid()
    ensures !admin ==> d == Completed([Say(NeedAdmin)]) && unchanged(logic)
    ensures admin && |parts| < 2 ==> d == Completed([Say(MuteUsage)]) && unchanged(logic)
    ensures admin && |parts| >= 2 && !des.UserId? ==> d == Completed([Say(MissingIdReply(parts, des))]) && unchanged(logic)
    ensures admin && |parts| >= 2 && des.UserId? ==>
              var seconds := MuteSeconds(parts[1]);
              && logic.users == SetMuted(old(logic.users), (des.id, chat), MuteExpiry(parts, now))
              && d == Completed([Restrict(des.id, RestrictionEnd(seconds, now)), Say(MutedFor(FormatTime(seconds)))])
              && logic.chats == old(logic.chats) && logic.reports == old(logic.reports)
              && logic.lastReportId == old(logic.lastReportId)
  {
    if !admin {
      return Completed([Say(NeedAdmin)]);
    }
    if |parts| < 2 {
      return Completed([Say(MuteUsage)]);
    }
    var seconds := MuteSeconds(parts[1]);
    if !des.UserId? {
      return Completed([Say(MissingIdReply(parts, des))]);
    }
    var _ := logic.MuteUser(des.id, chat, seconds, now);
    return Completed([Restrict(des.id, RestrictionEnd(seconds, now)), Say(MutedFor(FormatTime(seconds)))]);
  }

  /** `mute_command`: a duration token is required; the target may be any later token or the reply. */
  method MuteCommand(logic: BotLogic, cfg: Config, msg: Message, now: int) returns (d: Decision)
    requires logic.Valid()
    modifies logic
    ensures logic.Valid()
    ensures !IsAdmin(cfg, msg.sender.id) ==> d == Completed([Say(NeedAdmin)]) && unchanged(logic)
    ensures IsAdmin(cfg, msg.sender.id) && |Words(msg.text)| < 2 ==>
              d == Completed([Say(MuteUsage)]) && unchanged(logic)
    ensures IsAdmin(cfg, msg.sender.id) && |Words(msg.text)| >= 2 && !Designate(TargetOf(msg)).UserId? ==>
              d == Completed([Say(MissingIdReply(Words(msg.text), Designate(TargetOf(msg))))]) && unchanged(logic)
    ensures IsAdmin(cfg, msg.sender.id) && |Words(msg.text)| >= 2 && Designate(TargetOf(msg)).UserId? ==>
              var user := Designate(TargetOf(msg)).id;
              var seconds := MuteSeconds(Words(msg.text)[1]);
              && logic.users == SetMuted(old(logic.users), (user, msg.chatId), MuteExpiry(Words(msg.text), now))
              && d == Completed([Restrict(user, RestrictionEnd(seconds, now)), Say(MutedFor(FormatTime(seconds)))])
              && logic.chats == old(logic.chats) && logic.reports == old(logic.reports)
              && logic.lastReportId == old(logic.lastReportId)
  {
    var target := ExtractUserInfo(msg);
    d := MuteParsed(logic, IsAdmin(cfg, msg.sender.id), Words(msg.text), Designate(target), msg.chatId, now);
  }

  /** `unmute_command`: clears the stored mute and lifts the restriction, muted or not. */
  method UnmuteCommand(logic: BotLogic, cfg: Config, msg: Message) returns (d: Decision)
    requires logic.Valid()
    modifies logic
    ensures logic.Valid()
    ensures !IsAdmin(cfg, msg.sender.id) ==> d == Completed([Say(NeedAdmin)]) && unchanged(logic)
    ensures IsAdmin(cfg, msg.sender.id) && !Designate(TargetOf(msg)).UserId? ==>
              d == Completed([Say(NoIdReply(Designate(TargetOf(msg))))]) && unchanged(logic)
    ensures IsAdmin(cfg, msg.sender.id) && Designate(TargetOf(msg)).UserId? ==>
              var user := Designate(TargetOf(msg)).id;
              && logic.users == UpdateRow(old(logic.users), (user, msg.chatId), Unmuted)
              && d == Completed([Unrestrict(user), Say(MuteLifted)])
              && logic.chats == old(logic.chats) && logic.reports == old(logic.reports)
              && logic.lastReportId == old(logic.lastReportId)
  {
    if !IsAdmin(cfg, msg.sender.id) {
      return Completed([Say(NeedAdmin)]);
    }
    var target := ExtractUserInfo(msg);
    var des := Designate(target);
    if !des.UserId? {
      return Completed([Say(NoIdReply(des))]);
    }
    var _ := logic.UnmuteUser(des.id, msg.chatId);
    return Completed([Unrestrict(des.id), Say(MuteLifted)]);
  }

  /** `ban_command`: the duration defaults to 'permanent'; a token that does not parse gives a day. */
  method BanCommand(logic: BotLogic, cfg: Config, msg: Message, now: int) returns (d: Decision)
    requires logic.Valid()
    modifies logic
    ensures logic.Valid()
    ensures !IsAdmin(cfg, msg.sender.id) ==> d == Completed([Say(NeedAdmin)]) && unchanged(logic)
    ensures IsAdmin(cfg, msg.sender.id) && !Designate(TargetOf(msg)).UserId? ==>
              d == Completed([Say(MissingIdReply(Words(msg.text), Designate(TargetOf(msg))))]) && unchanged(logic)
    ensures IsAdmin(cfg, msg.sender.id) && Designate(TargetOf(msg)).UserId? ==>
              var user := Designate(TargetOf(msg)).id;
              var seconds := BanSeconds(Words(msg.text));
              && logic.users == UpdateRow(old(logic.users), (user, msg.chatId), Banned)
              && d == Completed([BanMember(user, RestrictionEnd(seconds, now)), Say(BannedFor(FormatTime(seconds)))])
              && logic.chats == old(logic.chats) && logic.reports == old(logic.reports)
              && logic.lastReportId == old(logic.lastReportId)
  {
    if !IsAdmin(cfg, msg.sender.id) {
      return Completed([Say(NeedAdmin)]);
    }
    var parts := Words(msg.text);
    var seconds := BanSeconds(parts);
    var target := ExtractUserInfo(msg);
    var des := Designate(target);
    if !des.UserId? {
      return Completed([Say(MissingIdReply(parts, des))]);
    }
    var _ := logic.BanUser(des.id, msg.chatId);
    var until := RestrictionEnd(seconds, now);
    return Completed([BanMember(des.id, until), Say(BannedFor(FormatTime(seconds)))]);
  }

  /** `unban_command`: both missing-target replies ask for an id. */
  method UnbanCommand(logic: BotLogic, cfg: Config, msg: Message) returns (d: Decision)
    requires logic.Valid()
    modifies logic
    ensures logic.Valid()
    ensures !IsAdmin(cfg, msg.sender.id) ==> d == Completed([Say(NeedAdmin)]) && unchanged(logic)
    ensures IsAdmin(cfg, msg.sender.id) && !Designate(TargetOf(msg)).UserId? ==>
              d == Completed([Say(SpecifyUserId)]) && unchanged(logic)
    ensures IsAdmin(cfg, msg.sender.id) && Designate(TargetOf(msg)).UserId? ==>
              var user := Designate(TargetOf(msg)).id;
              && logic.users == UpdateRow(old(logic.users), (user, msg.chatId), Unbanned)
              && d == Completed([UnbanMember(user), Say(BanLifted)])
              && logic.chats == old(logic.chats) && logic.reports == old(logic.reports)
              && logic.lastReportId == old(logic.lastReportId)
  {
    if !IsAdmin(cfg, msg.sender.id) {
      return Completed([Say(NeedAdmin)]);
    }
    var target := ExtractUserInfo(msg);
    var des := Designate(target);
    if !des.UserId? {
      return Completed([Say(SpecifyUserId)]);
    }
    var _ := logic.UnbanUser(des.id, msg.chatId);
    return Completed([UnbanMember(des.id), Say(BanLifted)]);
  }

  /** `report_command`: open to everyone, only as a reply; every administrator is told. */
  method ReportCommand(logic: BotLogic, cfg: Config, msg: Message, now: int) returns (d: Decision)
    requires logic.Valid()
    requires forall i :: 0 <= i < |logic.reports| ==> logic.reports[i].createdAt <= now
    modifies logic
    ensures logic.Valid()
    ensures msg.replyTo.None? ==> d == Completed([Say(ReplyNeeded)]) && unchanged(logic)
    ensures msg.replyTo.Some? ==>
              var id := old(logic.lastReportId) + 1;
              var reported := msg.replyTo.value.id;
              var reason := ReportReason(msg.text);
              && logic.reports == old(logic.reports)
                   + [NewReport(old(logic.lastReportId), msg.chatId, msg.sender.id, reported, reason, now)]
              && logic.lastReportId == id
              && |d.actions| == |cfg.adminIds| + 1 && d.Completed?
              && (forall i :: 0 <= i < |cfg.adminIds| ==> d.actions[i] == NotifyAdmin(cfg.adminIds[i], id, reported, reason))
              && d.actions[|cfg.adminIds|] == Say(ReportSent(id))
              && logic.chats == old(logic.chats) && logic.users == old(logic.users)
  {
    if msg.replyTo.None? {
      return Completed([Say(ReplyNeeded)]);
    }
    var reported := msg.replyTo.value;
    var reason := ReportReason(msg.text);
    var id := logic.AddReport(msg.chatId, msg.sender.id, reported.id, reason, now);
    var notices := NotifyAdmins(cfg.adminIds, id, reported.id, reason);
    return Completed(notices + [Say(ReportSent(id))]);
  }

  /** `reports_command`: up to five pending reports of this chat, oldest first. */
  method ReportsCommand(logic: BotLogic, cfg: Config, msg: Message) returns (d: Decision)
    requires logic.Valid()
    ensures !IsAdmin(cfg, msg.sender.id) ==> d == Completed([Say(NeedAdmin)])
    ensures IsAdmin(cfg, msg.sender.id) ==>
              var pending := PendingReports(logic.reports, Some(msg.chatId));
              && (pending == [] ==> d == Completed([Say(NoReports)]))
              && (pending != [] ==>
                    && d.Completed? && |d.actions| == 1 && d.actions[0].Say? && d.actions[0].reply.ReportList?
                    && var lines := d.actions[0].reply.lines;
                    && |lines| == (if |pending| < ReportPageSize then |pending| else ReportPageSize)
                    && forall i :: 0 <= i < |lines| ==> lines[i] == PreviewLine(pending[i]))
  {
    if !IsAdmin(cfg, msg.sender.id) {
      return Completed([Say(NeedAdmin)]);
    }
    var reports := logic.GetPendingReports(Some(msg.chatId));
    if reports == [] {
      return Completed([Say(NoReports)]);
    }
    var lines := ReportLines(reports);
    return Completed([Say(ReportList(lines))]);
  }

  /** `resolve_command`: silent for non-administrators; otherwise `mark_report_resolved` raises. */
  method ResolveCommand(logic: BotLogic, cfg: Config, msg: Message, reportId: int) returns (d: Decision)
    ensures !IsAdmin(cfg, msg.sender.id) ==> d == Completed([])
    ensures IsAdmin(cfg, msg.sender.id) ==> d == Aborted([], ExecuteWithoutSql)
  {
    if !IsAdmin(cfg, msg.sender.id) {
      return Completed([]);
    }
    var outcome := logic.MarkReportResolved(reportId);
    return Aborted([], outcome.fault);
  }

  /**
   * `welcome_command`: toggles without `add_chat`, so a chat without a row
   * stays without one and is reported as disabled.
   */
  method WelcomeCommand(logic: BotLogic, cfg: Config, msg: Message) returns (d: Decision)
    requires logic.Valid()
    modifies logic
    ensures logic.Valid()
    ensures !IsAdmin(cfg, msg.sender.id) ==> d == Completed([Say(NeedAdmin)]) && unchanged(logic)
    ensures IsAdmin(cfg, msg.sender.id) ==>
              && logic.chats == ToggleChat(old(logic.chats), msg.chatId).0
              && d == Completed([Say(if msg.chatId in old(logic.chats) && !old(logic.chats)[msg.chatId]
                                     then WelcomeOn else WelcomeOff)])
              && logic.users == old(logic.users) && logic.reports == old(logic.reports)
              && logic.lastReportId == old(logic.lastReportId)
  {
    if !IsAdmin(cfg, msg.sender.id) {
      return Completed([Say(NeedAdmin)]);
    }
    var _ := logic.ToggleWelcome(msg.chatId);
    var chat := logic.GetChat(msg.chatId);
    if chat.Some? && chat.value {
      return Completed([Say(WelcomeOn)]);
    }
    return Completed([Say(WelcomeOff)]);
  }

  /** `welcome_new_member`: `add_chat`, then, if the welcome is on, a row and a greeting per member. */
  method WelcomeNewMember(logic: BotLogic, cfg: Config, msg: Message) returns (d: Decision)
    requires logic.Valid()
    modifies logic
    ensures logic.Valid()
    ensures logic.chats == InsertChat(old(logic.chats), msg.chatId)
    ensures var enabled := logic.chats[msg.chatId];
            && logic.users == (if enabled then Greeted(old(logic.users), msg.chatId, msg.newMembers, cfg.botId)
                               else old(logic.users))
            && d == Completed(if enabled then Greetings(msg.newMembers, cfg.botId) else [])
    ensures logic.reports == old(logic.reports) && logic.lastReportId == old(logic.lastReportId)
  {
    var _ := logic.AddChat(msg.chatId);
    var chat := logic.GetChat(msg.chatId);
    if chat.None? || !chat.value {
      return Completed([]);
    }
    var members := msg.newMembers;
    var acts := [];
    var i := 0;
    while i < |members|
      invariant 0 <= i <= |members|
      invariant logic.Valid()
      invariant logic.users == Greeted(old(logic.users), msg.chatId, members[..i], cfg.botId)
      invariant acts == Greetings(members[..i], cfg.botId)
      invariant logic.chats == InsertChat(old(logic.chats), msg.chatId)
      invariant logic.reports == old(logic.reports) && logic.lastReportId == old(logic.lastReportId)
    {
      var m := members[i];
      assert members[..i + 1][..i] == members[..i];
      if m.id != cfg.botId {
        logic.AddUser(m.id, msg.chatId, m.username, m.firstName);
        acts := acts + [Say(Greeting(GreetingName(m)))];
      }
      i := i + 1;
    }
    assert members[..|members|] == members;
    return Completed(acts);
  }

  /** `check_mute`: a message from a muted member is deleted and answered with a notice. */
  method CheckMute(logic: BotLogic, cfg: Config, msg: Message, now: int) returns (d: Decision)
    requires logic.Valid()
    modifies logic
    ensures logic.Valid()
    ensures msg.sender.id == cfg.botId ==> d == Completed([]) && unchanged(logic)
    ensures msg.sender.id != cfg.botId ==>
              var key := (msg.sender.id, msg.chatId);
              && logic.users == AfterMuteCheck(old(logic.users), key, now)
              && d == Completed(if MutedAt(old(logic.users), key, now)
                                then [DeleteMessage(msg.messageId), Say(MutedNotice)] else [])
              && logic.chats == old(logic.chats) && logic.reports == old(logic.reports)
              && logic.lastReportId == old(logic.lastReportId)
  {
    if msg.sender.id == cfg.botId {
      return Completed([]);
    }
    var muted := logic.IsMuted(msg.sender.id, msg.chatId, now);
    if muted {
      return Completed([DeleteMessage(msg.messageId), Say(MutedNotice)]);
    }
    return Completed([]);
  }
}
