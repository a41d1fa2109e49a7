/** `VoyageLimiter`: a running count of embedding tokens with a hard stop at
    45 million and a one-time warning at 40 million (80% of the 50 million
    free tokens). The limiter's notifications are returned as values: each
    operation yields the notices it would hand to the notification callback. */
module Voyage {

  /** 50 million free tokens. */
  const FreeTokens := 50_000_000

  /** The warning level: 80% of the free tokens, 40 million. */
  const WarningLevel := FreeTokens * 8 / 10

  /** Requests stop at 45 million, leaving 5 million in reserve. */
  const HardLimit := 45_000_000

  datatype State = State(totalTokens: int, warningSent: bool, limitReached: bool)

  /** What the notification callback is told. */
  datatype Notice =
    | LimitNotice(used: int)
    | WarningNotice(used: int, untilStop: int)

  /** A fresh limiter, or one just reset. */
  const Initial := State(0, false, false)

  datatype Checked = Checked(allowed: bool, state: State, notices: seq<Notice>)

  /** `can_make_request()`: refuses at or above the hard limit; the first
      refusal marks the limit as reached and sends one notice. */
  function CanMakeRequest(s: State): (r: Checked)
    ensures r.allowed <==> s.totalTokens < HardLimit
    ensures r.state.totalTokens == s.totalTokens && r.state.warningSent == s.warningSent
    ensures r.state.limitReached <==> s.limitReached || !r.allowed
    ensures r.notices != [] <==> !r.allowed && !s.limitReached
    ensures r.notices != [] ==> r.notices == [LimitNotice(s.totalTokens)]
  {
    if s.totalTokens >= HardLimit then
      if !s.limitReached then
        Checked(false, s.(limitReached := true), [LimitNotice(s.totalTokens)])
      else Checked(false, s, [])
    else Checked(true, s, [])
  }

  datatype Recorded = Recorded(state: State, notices: seq<Notice>)

  /** `record_usage(tokens)`: adds the tokens; the first time the total is at
      or above the warning level, marks the warning as sent and sends one
      notice. The limit flag is left alone. */
  function RecordUsage(s: State, tokens: int): (r: Recorded)
    ensures r.state.totalTokens == s.totalTokens + tokens
    ensures r.state.limitReached == s.limitReached
    ensures r.state.warningSent <==> s.warningSent || r.state.totalTokens >= WarningLevel
    ensures r.notices != [] <==> !s.warningSent && r.state.totalTokens >= WarningLevel
    ensures r.notices != [] ==>
      r.notices == [WarningNotice(r.state.totalTokens, HardLimit - r.state.totalTokens)]
  {
    var t := s.totalTokens + tokens;
    if !s.warningSent && t >= WarningLevel then
      Recorded(State(t, true, s.limitReached), [WarningNotice(t, HardLimit - t)])
    else Recorded(s.(totalTokens := t), [])
  }

  datatype ResetResult = ResetResult(done: bool, state: State)

  /** `reset(admin_confirmed)`: without confirmation nothing happens; with it
      the limiter starts over. */
  function Reset(s: State, confirmed: bool): (r: ResetResult)
    ensures r.done == confirmed
    ensures !confirmed ==> r.state == s
    ensures confirmed ==> r.state == Initial
  {
    if !confirmed then ResetResult(false, s) else ResetResult(true, Initial)
  }

  /** `get_stats()` without the rounded percentage. */
  datatype UsageStats = UsageStats(
    totalTokens: int, freeLimit: int, hardLimit: int, remaining: int,
    limitReached: bool, warningSent: bool)

  function GetStats(s: State): (r: UsageStats)
    ensures r.totalTokens == s.totalTokens && r.remaining == HardLimit - s.totalTokens
    ensures r.totalTokens + r.remaining == HardLimit
    ensures r.freeLimit == FreeTokens && r.hardLimit == HardLimit
    ensures r.limitReached == s.limitReached && r.warningSent == s.warningSent
  {
    UsageStats(s.totalTokens, FreeTokens, HardLimit, HardLimit - s.totalTokens,
               s.limitReached, s.warningSent)
  }

  /** The reported remainder runs out exactly when requests are refused; it
      goes negative once usage passes the hard limit. */
  lemma RemainingMatchesCheck(s: State)
    ensures GetStats(s).remaining <= 0 <==> !CanMakeRequest(s).allowed
    ensures GetStats(s).remaining < 0 <==> s.totalTokens > HardLimit
  {
  }

  // ---------------------------------------------------------------------------
  // Sequences of operations.

  datatype Op = Check | Record(tokens: int) | ResetOp(confirmed: bool)

  function Step(s: State, op: Op): (r: Recorded)
    ensures op.Check? ==> r.state == CanMakeRequest(s).state && r.notices == CanMakeRequest(s).notices
    ensures op.Record? ==> r == RecordUsage(s, op.tokens)
    ensures op.ResetOp? ==> r.state == Reset(s, op.confirmed).state && r.notices == []
  {
    match op
    case Check => var c := CanMakeRequest(s); Recorded(c.state, c.notices)
    case Record(t) => RecordUsage(s, t)
    case ResetOp(b) => Recorded(Reset(s, b).state, [])
  }

  /** The state after `ops` and every notice they sent, in order. */
  function Run(s: State, ops: seq<Op>): (r: Recorded)
    ensures |ops| == 0 ==> r == Recorded(s, [])
    decreases |ops|
  {
    if |ops| == 0 then Recorded(s, [])
    else
      var first := Step(s, ops[0]);
      var rest := Run(first.state, ops[1..]);
      Recorded(rest.state, first.notices + rest.notices)
  }

  function Warnings(ns: seq<Notice>): nat {
    if |ns| == 0 then 0 else (if ns[0].WarningNotice? then 1 else 0) + Warnings(ns[1..])
  }

  function LimitNotices(ns: seq<Notice>): nat {
    if |ns| == 0 then 0 else (if ns[0].LimitNotice? then 1 else 0) + LimitNotices(ns[1..])
  }

  lemma {:induction false} WarningsAppend(a: seq<Notice>, b: seq<Notice>)
    ensures Warnings(a + b) == Warnings(a) + Warnings(b)
    ensures LimitNotices(a + b) == LimitNotices(a) + LimitNotices(b)
  {
    if |a| == 0 {
      assert a + b == b;
    } else {
      assert (a + b)[0] == a[0] && (a + b)[1..] == a[1..] + b;
      WarningsAppend(a[1..], b);
    }
  }

  /** No confirmed reset among the operations. */
  predicate NoReset(ops: seq<Op>) {
    forall i :: 0 <= i < |ops| ==> ops[i] != ResetOp(true)
  }

  /** Between confirmed resets the limiter warns at most once and announces
      the hard limit at most once, and not at all when the flag was already
      set. */
  lemma {:induction false} AtMostOneNoticeEach(s: State, ops: seq<Op>)
    requires NoReset(ops)
    ensures Warnings(Run(s, ops).notices) <= if s.warningSent then 0 else 1
    ensures LimitNotices(Run(s, ops).notices) <= if s.limitReached then 0 else 1
    ensures s.warningSent ==> Run(s, ops).state.warningSent
    ensures s.limitReached ==> Run(s, ops).state.limitReached
    decreases |ops|
  {
    if |ops| != 0 {
      var first := Step(s, ops[0]);
      assert ops[0] != ResetOp(true);
      assert NoReset(ops[1..]) by {
        forall i | 0 <= i < |ops[1..]| ensures ops[1..][i] != ResetOp(true) {
          assert ops[1..][i] == ops[i + 1];
        }
      }
      AtMostOneNoticeEach(first.state, ops[1..]);
      WarningsAppend(first.notices, Run(first.state, ops[1..]).notices);
    }
  }

  /** Usage never goes down without a reset, as long as no negative amount is recorded. */
  predicate NonNegativeUsage(ops: seq<Op>) {
    forall i :: 0 <= i < |ops| ==> ops[i].Record? ==> ops[i].tokens >= 0
  }

  /** Once requests are refused they stay refused until a confirmed reset. */
  lemma {:induction false} RefusalIsSticky(s: State, ops: seq<Op>)
    requires NoReset(ops) && NonNegativeUsage(ops)
    requires !CanMakeRequest(s).allowed
    ensures !CanMakeRequest(Run(s, ops).state).allowed
    ensures Run(s, ops).state.totalTokens >= s.totalTokens
    decreases |ops|
  {
    if |ops| != 0 {
      var first := Step(s, ops[0]);
      assert ops[0] != ResetOp(true);
      assert NoReset(ops[1..]) && NonNegativeUsage(ops[1..]) by {
        forall i | 0 <= i < |ops[1..]| ensures ops[1..][i] == ops[i + 1] {
        }
      }
      RefusalIsSticky(first.state, ops[1..]);
    }
  }

  /** The tokens recorded by the operations, in total. */
  function RecordedTokens(ops: seq<Op>): int {
    if |ops| == 0 then 0 else (if ops[0].Record? then ops[0].tokens else 0) + RecordedTokens(ops[1..])
  }

  /** Between confirmed resets, `get_stats()` reports the starting usage plus
      every recorded amount, and the hard limit minus that as remaining. */
  lemma {:induction false} StatsCountRecords(s: State, ops: seq<Op>)
    requires NoReset(ops)
    ensures GetStats(Run(s, ops).state).totalTokens == s.totalTokens + RecordedTokens(ops)
    ensures GetStats(Run(s, ops).state).remaining == HardLimit - s.totalTokens - RecordedTokens(ops)
    decreases |ops|
  {
    if |ops| != 0 {
      var first := Step(s, ops[0]);
      assert ops[0] != ResetOp(true);
      assert NoReset(ops[1..]) by {
        forall i | 0 <= i < |ops[1..]| ensures ops[1..][i] == ops[i + 1] {
        }
      }
      StatsCountRecords(first.state, ops[1..]);
    }
  }

  /** A confirmed reset brings back a fresh limiter that accepts requests. */
  lemma ResetRestores(s: State)
    ensures Reset(s, true).state == Initial
    ensures CanMakeRequest(Reset(s, true).state).allowed
    ensures GetStats(Reset(s, true).state).remaining == HardLimit
  {
  }
}
