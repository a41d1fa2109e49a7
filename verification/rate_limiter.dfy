/** `RateLimiter`: a daily request budget of 500 with an admin warning at 400,
    per-day totals, and a log of every user's questions. The calendar date
    and the wall-clock time are parameters: `today` is what `str(date.today())`
    returns at the call, and `now` is the pair of time stamps the source
    writes for `datetime.now()`. */
module RateLimit {
  import opened Seqs
  import opened Sorting
  import opened Tables

  /** `DAILY_REQUEST_LIMIT`. */
  const DailyLimit := 500

  /** `int(DAILY_REQUEST_LIMIT * WARNING_THRESHOLD)` with the threshold 0.8. */
  const WarnAt := DailyLimit * 8 / 10

  /** Questions longer than this are cut and marked with an ellipsis. */
  const QuestionCap := 200

  /** How many of a user's latest questions the admin report shows. */
  const RecentCount := 5

  /** The name shown for a user with neither a first nor a last name. */
  const NoName := "Без имени"

  /** One row of `daily_stats`. */
  datatype DayStats = DayStats(requests: int, warningSent: bool)

  /** One logged request. The question is absent when the caller gave none. */
  datatype RequestLog = RequestLog(date: string, time: string, question: Option<string>)

  /** One entry of `users`. */
  datatype UserRecord = UserRecord(
    firstName: string, lastName: string, username: string,
    firstSeen: string, lastSeen: string, requests: seq<RequestLog>)

  /** The profile fields a request may carry. */
  datatype UserInfo = UserInfo(firstName: string, lastName: string, username: string)

  /** `datetime.now()` as the source writes it: ISO form and `%H:%M:%S`. */
  datatype Clock = Clock(iso: string, time: string)

  datatype State = State(
    today: string, requestsToday: int, warningSent: bool,
    dailyStats: Table<string, DayStats>, users: Table<int, UserRecord>)

  /** `_reset_if_new_day()`: on a new date the day's counter and warning flag
      start over; the history is kept. */
  function Rollover(s: State, today: string): (r: State)
    ensures r.today == today
    ensures r.dailyStats == s.dailyStats && r.users == s.users
    ensures today == s.today ==> r == s
    ensures today != s.today ==> r.requestsToday == 0 && !r.warningSent
  {
    if today != s.today then s.(today := today, requestsToday := 0, warningSent := false) else s
  }

  /** The in-memory part of `_save_stats()`: today's row gets the current
      counter and flag. */
  function SaveStats(s: State): (r: State)
    ensures r.dailyStats == Put(s.dailyStats, s.today, DayStats(s.requestsToday, s.warningSent))
    ensures Lookup(r.dailyStats, s.today) == Some(DayStats(s.requestsToday, s.warningSent))
    ensures forall d :: d != s.today ==> Lookup(r.dailyStats, d) == Lookup(s.dailyStats, d)
    ensures r.today == s.today && r.requestsToday == s.requestsToday && r.warningSent == s.warningSent
    ensures r.users == s.users
  {
    var row := DayStats(s.requestsToday, s.warningSent);
    PutLookup(s.dailyStats, s.today, row);
    forall d | d != s.today ensures Lookup(Put(s.dailyStats, s.today, row), d) == Lookup(s.dailyStats, d) {
      PutLookupOther(s.dailyStats, s.today, row, d);
    }
    s.(dailyStats := Put(s.dailyStats, s.today, row))
  }

  datatype Checked = Checked(allowed: bool, state: State)

  /** `can_make_request()`. */
  function CanMakeRequest(s: State, today: string): (r: Checked)
    ensures r.state == Rollover(s, today)
    ensures r.allowed <==> r.state.requestsToday < DailyLimit
    ensures today != s.today ==> r.allowed
  {
    var s1 := Rollover(s, today);
    Checked(s1.requestsToday < DailyLimit, s1)
  }

  /** The question as logged: kept when at most 200 characters, otherwise
      its first 200 characters followed by "...". */
  function LoggedQuestion(q: Option<string>): (r: Option<string>)
    ensures r.Some? <==> q.Some?
    ensures q.Some? && |q.value| <= QuestionCap ==> r == q
    ensures q.Some? && |q.value| > QuestionCap ==>
      |r.value| == QuestionCap + 3 && r.value[..QuestionCap] == q.value[..QuestionCap] &&
      r.value[QuestionCap..] == "..."
  {
    if q.Some? && |q.value| > QuestionCap then Some(q.value[..QuestionCap] + "...") else q
  }

  /** The user's record after one more request. */
  function Touch(prev: Option<UserRecord>, info: Option<UserInfo>, now: Clock,
                 entry: RequestLog): (r: UserRecord)
    ensures r.requests == (if prev.Some? then prev.value.requests else []) + [entry]
    ensures r.lastSeen == now.iso
    ensures r.firstSeen == if prev.Some? then prev.value.firstSeen else now.iso
    ensures info.Some? ==>
      r.firstName == info.value.firstName && r.lastName == info.value.lastName &&
      r.username == info.value.username
    ensures info.None? && prev.Some? ==>
      r.firstName == prev.value.firstName && r.lastName == prev.value.lastName &&
      r.username == prev.value.username
  {
    var u := if prev.Some? then prev.value else UserRecord("", "", "", now.iso, "", []);
    var u1 := if info.Some? then u.(firstName := info.value.firstName, lastName := info.value.lastName,
                                    username := info.value.username)
              else u;
    u1.(lastSeen := now.iso, requests := u1.requests + [entry])
  }

  /** `record_request(user_id, user_info, question)`. An empty `user_info`
      dictionary counts as absent, as in the source. */
  function RecordRequest(s: State, today: string, now: Clock, userId: Option<int>,
                         info: Option<UserInfo>, question: Option<string>): (r: State)
    ensures r.today == today
    ensures r.requestsToday == Rollover(s, today).requestsToday + 1
    ensures r.warningSent == Rollover(s, today).warningSent
    ensures r.dailyStats == Put(s.dailyStats, today, DayStats(r.requestsToday, r.warningSent))
    ensures Lookup(r.dailyStats, today) == Some(DayStats(r.requestsToday, r.warningSent))
    ensures forall d :: d != today ==> Lookup(r.dailyStats, d) == Lookup(s.dailyStats, d)
    ensures userId.None? ==> r.users == s.users
    ensures userId.Some? ==> Lookup(r.users, userId.value).Some?
    ensures userId.Some? ==>
      var before := Lookup(s.users, userId.value);
      Lookup(r.users, userId.value).value.requests
        == (if before.Some? then before.value.requests else [])
           + [RequestLog(today, now.time, LoggedQuestion(question))]
    ensures userId.Some? ==> forall u :: u != userId.value ==> Lookup(r.users, u) == Lookup(s.users, u)
    ensures userId.Some? ==>
      r.users == Put(s.users, userId.value,
                     Touch(Lookup(s.users, userId.value), info, now,
                           RequestLog(today, now.time, LoggedQuestion(question))))
  {
    var s1 := Rollover(s, today);
    var s2 := s1.(requestsToday := s1.requestsToday + 1);
    var s3 :=
      if userId.Some? then
        var uid := userId.value;
        var entry := RequestLog(today, now.time, LoggedQuestion(question));
        var rec := Touch(Lookup(s2.users, uid), info, now, entry);
        PutLookup(s2.users, uid, rec);
        forall u | u != uid ensures Lookup(Put(s2.users, uid, rec), u) == Lookup(s2.users, u) {
          PutLookupOther(s2.users, uid, rec, u);
        }
        s2.(users := Put(s2.users, uid, rec))
      else s2;
    SaveStats(s3)
  }

  /** `should_warn_admin()`: only before the warning is marked as sent, and
      only at 400 requests or more. No date check. */
  function ShouldWarnAdmin(s: State): (r: bool)
    ensures r <==> !s.warningSent && s.requestsToday >= WarnAt
  {
    if s.warningSent then false else s.requestsToday >= WarnAt
  }

  /** `mark_warning_sent()`: sets the flag and saves it under the stored date,
      which may be stale since there is no date check. */
  function MarkWarningSent(s: State): (r: State)
    ensures r.warningSent && r.today == s.today && r.requestsToday == s.requestsToday
    ensures Lookup(r.dailyStats, s.today) == Some(DayStats(s.requestsToday, true))
    ensures !ShouldWarnAdmin(r)
    ensures r.users == s.users
    ensures r.dailyStats == Put(s.dailyStats, s.today, DayStats(s.requestsToday, true))
    ensures forall d :: d != s.today ==> Lookup(r.dailyStats, d) == Lookup(s.dailyStats, d)
  {
    SaveStats(s.(warningSent := true))
  }

  datatype UsageInfo = UsageInfo(date: string, requestsToday: int, limit: int, remaining: int)

  /** `get_usage_info()` without the rounded percentage. */
  function GetUsageInfo(s: State, today: string): (r: UsageInfo)
    ensures r.date == today && r.limit == DailyLimit
    ensures r.requestsToday == Rollover(s, today).requestsToday
    ensures r.remaining == DailyLimit - Rollover(s, today).requestsToday
    ensures today != s.today ==> r.requestsToday == 0 && r.remaining == DailyLimit
    ensures r.requestsToday + r.remaining == DailyLimit
    ensures r.remaining > 0 <==> CanMakeRequest(s, today).allowed
  {
    var s1 := Rollover(s, today);
    UsageInfo(today, s1.requestsToday, DailyLimit, DailyLimit - s1.requestsToday)
  }

  // ---------------------------------------------------------------------------
  // The admin report.

  /** One user's line in `get_admin_stats()['users']`. */
  datatype UserSummary = UserSummary(
    userId: int, name: string, username: string, totalRequests: nat,
    requestsToday: nat, lastSeen: string, recentQuestions: seq<Option<string>>)

  function TotalOf(u: UserSummary): int { u.totalRequests }

  function QuestionOf(e: RequestLog): Option<string> { e.question }

  /** The number of logged requests dated `day`. */
  function CountOnDate(reqs: seq<RequestLog>, day: string): (n: nat)
    ensures n <= |reqs|
  {
    if |reqs| == 0 then 0 else (if reqs[0].date == day then 1 else 0) + CountOnDate(reqs[1..], day)
  }

  /** `' '.join(non-empty first and last name) or 'Без имени'`. */
  function DisplayName(first: string, last: string): (r: string)
    ensures first == "" && last == "" ==> r == NoName
    ensures first != "" && last != "" ==> r == first + " " + last
    ensures first != "" && last == "" ==> r == first
    ensures first == "" && last != "" ==> r == last
  {
    var parts := (if first != "" then [first] else []) + (if last != "" then [last] else []);
    if |parts| == 0 then NoName
    else if |parts| == 1 then parts[0]
    else parts[0] + " " + parts[1]
  }

  /** `[r.get('question', '') for r in requests[-5:]]`. */
  function RecentQuestions(reqs: seq<RequestLog>): (r: seq<Option<string>>)
    ensures |r| == if |reqs| < RecentCount then |reqs| else RecentCount
    ensures forall i :: 0 <= i < |r| ==> r[i] == reqs[|reqs| - |r| + i].question
  {
    if |reqs| <= RecentCount then MapSeq(reqs, QuestionOf)
    else
      var r := RecentQuestions(reqs[1..]);
      assert forall i :: 0 <= i < |r| ==> r[i] == reqs[|reqs| - |r| + i].question;
      r
  }

  function Summarize(uid: int, u: UserRecord, today: string): (r: UserSummary)
    ensures r.userId == uid && r.totalRequests == |u.requests|
    ensures r.requestsToday <= r.totalRequests
    ensures r.recentQuestions == RecentQuestions(u.requests)
    ensures r.name == DisplayName(u.firstName, u.lastName) && r.username == u.username
    ensures r.lastSeen == u.lastSeen && r.requestsToday == CountOnDate(u.requests, today)
  {
    UserSummary(uid, DisplayName(u.firstName, u.lastName), u.username, |u.requests|,
                CountOnDate(u.requests, today), u.lastSeen, RecentQuestions(u.requests))
  }

  /** One summary per user, in table order. */
  function Summaries(users: Table<int, UserRecord>, today: string): (r: seq<UserSummary>)
    ensures |r| == |users|
    ensures forall i :: 0 <= i < |users| ==> r[i] == Summarize(users[i].0, users[i].1, today)
  {
    if |users| == 0 then [] else [Summarize(users[0].0, users[0].1, today)] + Summaries(users[1..], today)
  }

  function DayRequests(d: DayStats): int { d.requests }

  datatype AdminStats = AdminStats(
    date: string, requestsToday: int, limit: int, totalRequests: int,
    daysTracked: nat, totalUsers: nat, users: seq<UserSummary>)

  /** `get_admin_stats()` without the average per day: the all-time total
      over the day rows, and the users by number of requests, most first,
      ties in table order. */
  function GetAdminStats(s: State, today: string): (r: AdminStats)
    ensures var s1 := Rollover(s, today);
      r.date == today && r.requestsToday == s1.requestsToday && r.limit == DailyLimit &&
      r.daysTracked == |s.dailyStats| && r.totalUsers == |s.users|
    ensures r.totalRequests == SumValues(s.dailyStats, DayRequests)
    ensures SortedDesc(r.users, TotalOf)
    ensures multiset(r.users) == multiset(Summaries(s.users, today))
  {
    var s1 := Rollover(s, today);
    AdminStats(today, s1.requestsToday, DailyLimit, SumValues(s1.dailyStats, DayRequests),
               |s1.dailyStats|, |s1.users|, SortDesc(Summaries(s1.users, today), TotalOf))
  }

  /** For each request count, the users with that count are listed in table order. */
  lemma AdminUsersStable(s: State, today: string, n: int)
    ensures WithKey(GetAdminStats(s, today).users, TotalOf, n) == WithKey(Summaries(s.users, today), TotalOf, n)
  {
    SortDescStable(Summaries(s.users, today), TotalOf, n);
  }

  /** After `record_request(user_id, user_info, question)` the admin report
      lists the user with the name and username just given, the request's
      time as last seen, one more request than before, and the logged
      question as the latest one. */
  lemma RecordShowsInReport(s: State, today: string, now: Clock, uid: int,
                            info: Option<UserInfo>, question: Option<string>)
    ensures var r := RecordRequest(s, today, now, Some(uid), info, question);
      var before := Lookup(s.users, uid);
      exists u :: u in GetAdminStats(r, today).users && u.userId == uid
        && u.lastSeen == now.iso
        && u.totalRequests == (if before.Some? then |before.value.requests| else 0) + 1
        && |u.recentQuestions| > 0
        && u.recentQuestions[|u.recentQuestions| - 1] == LoggedQuestion(question)
        && (info.Some? ==>
              u.name == DisplayName(info.value.firstName, info.value.lastName) &&
              u.username == info.value.username)
  {
    var r := RecordRequest(s, today, now, Some(uid), info, question);
    var rec := Touch(Lookup(s.users, uid), info, now, RequestLog(today, now.time, LoggedQuestion(question)));
    PutLookup(s.users, uid, rec);
    var u := Summarize(uid, rec, today);
    SummaryListed(r, today, uid, rec);
    assert u in GetAdminStats(r, today).users;
    LatestQuestion(rec.requests);
  }

  /** Every user of the table appears in the admin report. */
  lemma SummaryListed(s: State, today: string, uid: int, rec: UserRecord)
    requires Lookup(s.users, uid) == Some(rec)
    ensures Summarize(uid, rec, today) in GetAdminStats(s, today).users
  {
    var i :| 0 <= i < |s.users| && s.users[i] == (uid, rec);
    assert Summaries(s.users, today)[i] == Summarize(uid, rec, today);
    assert Summarize(uid, rec, today) in multiset(Summaries(s.users, today));
  }

  lemma LatestQuestion(reqs: seq<RequestLog>)
    requires |reqs| > 0
    ensures |RecentQuestions(reqs)| > 0
    ensures RecentQuestions(reqs)[|RecentQuestions(reqs)| - 1] == reqs[|reqs| - 1].question
  {
  }

  /** Today's row, if there is one, agrees with the day's counter (after any
      change of date); with no row the counter is zero. */
  predicate Synced(s: State, today: string) {
    var c := Rollover(s, today).requestsToday;
    var row := Lookup(s.dailyStats, today);
    if row.Some? then row.value.requests == c else c == 0
  }

  /** A recorded request adds exactly one to the all-time total and keeps the
      table in step with the counter. */
  lemma RecordAddsOneToTotal(s: State, today: string, now: Clock, userId: Option<int>,
                             info: Option<UserInfo>, question: Option<string>)
    requires Synced(s, today)
    ensures GetAdminStats(RecordRequest(s, today, now, userId, info, question), today).totalRequests
         == GetAdminStats(s, today).totalRequests + 1
    ensures Synced(RecordRequest(s, today, now, userId, info, question), today)
  {
    var r := RecordRequest(s, today, now, userId, info, question);
    SumPut(s.dailyStats, today, DayStats(r.requestsToday, r.warningSent), DayRequests);
  }

  // ---------------------------------------------------------------------------
  // Sequences of operations on one day.

  datatype Op =
    | Check(day: string)
    | Record(day: string, now: Clock, userId: Option<int>, info: Option<UserInfo>, question: Option<string>)
    | Mark
    | Usage(day: string)
    | Report(day: string)

  function Step(s: State, op: Op): State {
    match op
    case Check(d) => CanMakeRequest(s, d).state
    case Record(d, now, u, info, q) => RecordRequest(s, d, now, u, info, q)
    case Mark => MarkWarningSent(s)
    case Usage(d) => Rollover(s, d)
    case Report(d) => Rollover(s, d)
  }

  function Run(s: State, ops: seq<Op>): State
    decreases |ops|
  {
    if |ops| == 0 then s else Run(Step(s, ops[0]), ops[1..])
  }

  /** Every dated operation is on day `d`. */
  predicate OnDay(ops: seq<Op>, d: string) {
    forall i :: 0 <= i < |ops| ==> !ops[i].Mark? ==> ops[i].day == d
  }

  /** No operation marks the warning as sent. */
  predicate NoMark(ops: seq<Op>) {
    forall i :: 0 <= i < |ops| ==> !ops[i].Mark?
  }

  function Records(ops: seq<Op>): nat {
    if |ops| == 0 then 0 else (if ops[0].Record? then 1 else 0) + Records(ops[1..])
  }

  /** On one day, once the warning is marked as sent the admin is not asked
      to be warned again, only `mark_warning_sent` changes the flag, and
      every recorded request adds exactly one to the day's counter. */
  lemma {:induction false} SameDay(s: State, ops: seq<Op>)
    requires OnDay(ops, s.today)
    ensures Run(s, ops).today == s.today
    ensures Run(s, ops).requestsToday == s.requestsToday + Records(ops)
    ensures s.warningSent ==> !ShouldWarnAdmin(Run(s, ops))
    ensures NoMark(ops) ==> Run(s, ops).warningSent == s.warningSent
    decreases |ops|
  {
    if |ops| != 0 {
      assert OnDay(ops[1..], s.today) && (NoMark(ops) ==> NoMark(ops[1..])) by {
        forall i | 0 <= i < |ops[1..]| ensures ops[1..][i] == ops[i + 1] {
        }
      }
      assert !ops[0].Mark? ==> ops[0].day == s.today;
      SameDay(Step(s, ops[0]), ops[1..]);
    }
  }

  /** `get_usage_info()` on day `today`, after operations on that day, reports
      the counter the day started with plus one per recorded request, and 500
      minus that as remaining; on a new date the day starts from zero. */
  lemma UsageCountsRecords(s: State, today: string, ops: seq<Op>)
    requires OnDay(ops, today)
    ensures var u := GetUsageInfo(Run(Rollover(s, today), ops), today);
      u.requestsToday == Rollover(s, today).requestsToday + Records(ops) &&
      u.remaining == DailyLimit - Rollover(s, today).requestsToday - Records(ops) &&
      (today != s.today ==> u.requestsToday == Records(ops))
  {
    SameDay(Rollover(s, today), ops);
  }

  /** A new date clears the warning and the counter, so the admin is not
      asked to be warned at the start of the day. */
  lemma NewDayRearmsWarning(s: State, today: string)
    requires today != s.today
    ensures !Rollover(s, today).warningSent && Rollover(s, today).requestsToday == 0
    ensures !ShouldWarnAdmin(Rollover(s, today))
  {
  }

  /** After the date changes, and until the warning is marked as sent, the
      admin is asked to be warned exactly when the new day has recorded 400
      requests or more, whatever happened the day before. */
  lemma NewDayWarnsAt400(s: State, today: string, ops: seq<Op>)
    requires today != s.today && OnDay(ops, today) && NoMark(ops)
    ensures ShouldWarnAdmin(Run(Rollover(s, today), ops)) <==> Records(ops) >= WarnAt
  {
    SameDay(Rollover(s, today), ops);
  }
}
