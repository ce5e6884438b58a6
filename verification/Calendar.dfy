/** Trading-day walking (backend/opaca/calendar/us_trading_calendar.py).

    A date is its proleptic Gregorian ordinal, so ordinal 1 is a Monday. The holiday
    table and the supported range are constructor parameters, as in the source. */
module Calendar {
  import opened Results

  type Day = int

  datatype TradingCalendar =
    | Us(holidays: set<Day>, start: Day, end: Day)
    | Static(sessions: set<Day>)
  {
    predicate Supported(day: Day) {
      Us? ==> start <= day <= end
    }

    predicate Trades(day: Day) {
      match this
      case Us(holidays, _, _) => Supported(day) && Weekday(day) < 5 && day !in holidays
      case Static(sessions) => day in sessions
    }

    /** `is_trading_day`: the built-in calendar refuses dates outside its range. */
    function IsTradingDay(day: Day): Result<bool> {
      if Supported(day) then Ok(Trades(day)) else Err
    }

    /** `last_supported_date` */
    function Bound(): Option<Day> {
      match this
      case Us(_, _, end) => Some(end)
      case Static(sessions) => if sessions == {} then None else Some(Latest(sessions))
    }
  }

  function Weekday(day: Day): (w: int)
    ensures 0 <= w < 7
  {
    (day + 6) % 7
  }

  lemma AnyMember<T>(s: set<T>) returns (x: T)
    requires s != {}
    ensures x in s
  {
    x :| x in s;
  }

  lemma {:induction false} LatestExists(days: set<Day>)
    requires days != {}
    ensures exists m :: m in days && forall d <- days :: d <= m
    decreases |days|
  {
    var x := AnyMember(days);
    var rest := days - {x};
    assert forall d <- days :: d == x || d in rest;
    if rest != {} {
      LatestExists(rest);
      var m :| m in rest && forall d <- rest :: d <= m;
      LaterOfTwo(days, x, m);
    } else {
      LaterOfTwo(days, x, x);
    }
  }

  lemma LaterOfTwo(days: set<Day>, x: Day, m: Day)
    requires x in days && m in days && forall d <- days :: d == x || d <= m
    ensures exists l :: l in days && forall d <- days :: d <= l
  {
    var l := if x > m then x else m;
    assert l in days && forall d <- days :: d <= l;
  }

  function Latest(days: set<Day>): (m: Day)
    requires days != {}
    ensures m in days && forall d <- days :: d <= m
  {
    LatestExists(days);
    var m :| m in days && forall d <- days :: d <= m;
    m
  }

  /** Number of trading days in (after, upTo]. */
  function SessionsIn(cal: TradingCalendar, after: Day, upTo: Day): nat
    decreases if upTo > after then upTo - after else 0
  {
    if upTo <= after then 0
    else SessionsIn(cal, after, upTo - 1) + (if cal.Trades(upTo) then 1 else 0)
  }

  /** First trading day in [candidate, bound]. */
  function FirstSession(cal: TradingCalendar, candidate: Day, bound: Day): Result<Day>
    decreases if bound >= candidate then bound - candidate + 1 else 0
  {
    if candidate > bound then Err
    else if cal.Trades(candidate) then Ok(candidate)
    else FirstSession(cal, candidate + 1, bound)
  }

  function NextSession(cal: TradingCalendar, day: Day): Result<Day> {
    if !cal.Supported(day) || cal.Bound().None? then Err
    else FirstSession(cal, day + 1, cal.Bound().value)
  }

  function AddSessions(cal: TradingCalendar, day: Day, count: nat): Result<Day> {
    if !cal.Supported(day) then Err
    else if count == 0 then Ok(day)
    else
      var before :- AddSessions(cal, day, count - 1);
      NextSession(cal, before)
  }

  /** Ordinal 1 is a Monday: multiples of seven are Sundays, and the days before them Saturdays. */
  lemma TradesIff(cal: TradingCalendar, day: Day)
    ensures cal.Us? ==>
              && (cal.Trades(day) <==> cal.start <= day <= cal.end && day % 7 != 0 && (day + 1) % 7 != 0 && day !in cal.holidays)
              && (cal.Supported(day) <==> cal.start <= day <= cal.end) && cal.Bound() == Some(cal.end)
    ensures cal.Static? ==>
              && (cal.Trades(day) <==> day in cal.sessions) && cal.Supported(day)
              && (cal.Bound().None? <==> cal.sessions == {})
              && (cal.Bound().Some? ==> cal.Bound().value in cal.sessions && forall d <- cal.sessions :: d <= cal.Bound().value)
    ensures cal.IsTradingDay(day) == if cal.Supported(day) then Ok(cal.Trades(day)) else Err
  {
  }

  /** `settlement_date` on a T+cycle schedule; a cycle below one is refused. */
  function SettlementOn(cal: TradingCalendar, tradeDate: Day, cycle: int): Result<Day> {
    if cycle < 1 then Err else AddSessions(cal, tradeDate, cycle)
  }

  /** The default T+1 cycle. */
  function SettlementDate(cal: TradingCalendar, tradeDate: Day): Result<Day> {
    SettlementOn(cal, tradeDate, 1)
  }

  method NextTradingDay(cal: TradingCalendar, day: Day) returns (r: Result<Day>)
    ensures r == NextSession(cal, day)
  {
    if !cal.Supported(day) {
      return Err;
    }
    var bound := cal.Bound();
    if bound.None? {
      return Err;
    }
    var candidate := day + 1;
    while true
      invariant day < candidate
      invariant NextSession(cal, day) == FirstSession(cal, candidate, bound.value)
      invariant cal.Us? && candidate > bound.value ==> candidate == bound.value + 1
      decreases bound.value - candidate
    {
      var trading := cal.IsTradingDay(candidate);
      if trading.Err? {
        return Err;
      }
      if trading.value {
        return Ok(candidate);
      }
      if candidate >= bound.value {
        return Err;
      }
      candidate := candidate + 1;
    }
  }

  method AddTradingDays(cal: TradingCalendar, day: Day, count: int) returns (r: Result<Day>)
    ensures count < 0 ==> r.Err?
    ensures count >= 0 ==> r == AddSessions(cal, day, count)
  {
    if !cal.Supported(day) || count < 0 {
      return Err;
    }
    var result := day;
    for i := 0 to count
      invariant AddSessions(cal, day, i) == Ok(result)
    {
      var next := NextTradingDay(cal, result);
      if next.Err? {
        AddSessionsFails(cal, day, i + 1, count);
        return Err;
      }
      result := next.value;
    }
    return Ok(result);
  }

  method TradingDaysBetween(cal: TradingCalendar, start: Day, end: Day) returns (r: Result<seq<Day>>)
    ensures r.Ok? <==> start <= end && forall d | start <= d <= end :: cal.Supported(d)
    ensures r.Ok? ==> forall i, j | 0 <= i < j < |r.value| :: r.value[i] < r.value[j]
    ensures r.Ok? ==> forall d :: d in r.value <==> start <= d <= end && cal.Trades(d)
    ensures r.Ok? ==> |r.value| == SessionsIn(cal, start - 1, end)
  {
    if end < start {
      return Err;
    }
    var days: seq<Day> := [];
    var candidate := start;
    while candidate <= end
      invariant start <= candidate <= end + 1
      invariant forall d | start <= d < candidate :: cal.Supported(d)
      invariant forall i, j | 0 <= i < j < |days| :: days[i] < days[j]
      invariant forall d :: d in days <==> start <= d < candidate && cal.Trades(d)
      invariant |days| == SessionsIn(cal, start - 1, candidate - 1)
    {
      var trading := cal.IsTradingDay(candidate);
      if trading.Err? {
        return Err;
      }
      if trading.value {
        assert forall i | 0 <= i < |days| :: days[i] in days;
        days := days + [candidate];
      }
      candidate := candidate + 1;
    }
    return Ok(days);
  }

  lemma {:induction false} AddSessionsFails(cal: TradingCalendar, day: Day, i: nat, k: nat)
    requires i <= k && AddSessions(cal, day, i).Err?
    ensures AddSessions(cal, day, k).Err?
  {
    if i < k {
      AddSessionsFails(cal, day, i, k - 1);
    }
  }

  lemma {:induction false} SessionsSplit(cal: TradingCalendar, a: Day, b: Day, c: Day)
    requires a <= b <= c
    ensures SessionsIn(cal, a, c) == SessionsIn(cal, a, b) + SessionsIn(cal, b, c)
    decreases c - b
  {
    if b < c {
      SessionsSplit(cal, a, b, c - 1);
    }
  }

  /** The walk of one step: it fails exactly when no session remains, and otherwise
      stops at the first one. */
  lemma {:induction false} FirstSessionIsFirst(cal: TradingCalendar, candidate: Day, bound: Day)
    ensures FirstSession(cal, candidate, bound).Err? <==> SessionsIn(cal, candidate - 1, bound) == 0
    ensures var r := FirstSession(cal, candidate, bound);
            r.Ok? ==> candidate <= r.value <= bound && cal.Trades(r.value)
                      && SessionsIn(cal, candidate - 1, r.value) == 1
    decreases if bound >= candidate then bound - candidate + 1 else 0
  {
    if candidate <= bound {
      assert SessionsIn(cal, candidate - 1, candidate - 1) == 0;
      SessionsSplit(cal, candidate - 1, candidate, bound);
      if !cal.Trades(candidate) {
        FirstSessionIsFirst(cal, candidate + 1, bound);
        var r := FirstSession(cal, candidate + 1, bound);
        if r.Ok? {
          SessionsSplit(cal, candidate - 1, candidate, r.value);
        }
      }
    }
  }

  lemma TradingDaysAreBounded(cal: TradingCalendar, day: Day)
    requires cal.Trades(day)
    ensures cal.Supported(day) && cal.Bound().Some? && day <= cal.Bound().value
  {
  }

  /** `add_trading_days(d, n)` for n >= 1: the result is a trading day with exactly n
      sessions in (d, result], and the call fails exactly when the date is unsupported
      or fewer than n sessions remain up to the bound. */
  lemma {:induction false} AddSessionsCounts(cal: TradingCalendar, day: Day, count: nat)
    requires count >= 1
    ensures var r := AddSessions(cal, day, count);
            && (r.Ok? ==> day < r.value && cal.Trades(r.value) && SessionsIn(cal, day, r.value) == count)
            && (r.Err? <==> !cal.Supported(day) || cal.Bound().None?
                            || SessionsIn(cal, day, cal.Bound().value) < count)
  {
    if !cal.Supported(day) || cal.Bound().None? {
      if count > 1 { AddSessionsCounts(cal, day, count - 1); }
      return;
    }
    var bound := cal.Bound().value;
    if count > 1 {
      AddSessionsCounts(cal, day, count - 1);
    }
    var before := AddSessions(cal, day, count - 1);
    if before.Ok? {
      FirstSessionIsFirst(cal, before.value + 1, bound);
      if count > 1 {
        TradingDaysAreBounded(cal, before.value);
      }
      if before.value <= bound {
        SessionsSplit(cal, day, before.value, bound);
      }
      var r := NextSession(cal, before.value);
      if r.Ok? {
        SessionsSplit(cal, day, before.value, r.value);
      }
    }
  }

  /** No other trading day has the same number of sessions before it. */
  lemma SessionCountIdentifiesDay(cal: TradingCalendar, day: Day, a: Day, b: Day)
    requires day <= a && day <= b && cal.Trades(a) && cal.Trades(b)
    requires SessionsIn(cal, day, a) == SessionsIn(cal, day, b)
    ensures a == b
  {
    if a < b {
      SessionsSplit(cal, day, a, b);
    } else if b < a {
      SessionsSplit(cal, day, b, a);
    }
  }

  /** Walking composes: n + m sessions are n sessions and then m more. */
  lemma {:induction false} AddSessionsComposes(cal: TradingCalendar, day: Day, n: nat, m: nat)
    ensures AddSessions(cal, day, n + m)
         == if AddSessions(cal, day, n).Err? then Err
            else AddSessions(cal, AddSessions(cal, day, n).value, m)
  {
    if AddSessions(cal, day, n).Err? {
      AddSessionsFails(cal, day, n, n + m);
    } else if m == 0 {
      if n > 0 {
        AddSessionsCounts(cal, day, n);
        TradingDaysAreBounded(cal, AddSessions(cal, day, n).value);
      }
    } else {
      AddSessionsComposes(cal, day, n, m - 1);
    }
  }

  /** On any cycle settlement is strictly after the trade date, on the trading day with
      exactly `cycle` sessions in between; it fails exactly for a cycle below one, an
      unsupported date, or too few sessions up to the bound. */
  lemma SettlementOnCycle(cal: TradingCalendar, tradeDate: Day, cycle: int)
    ensures var r := SettlementOn(cal, tradeDate, cycle);
            && (r.Ok? ==> r.value > tradeDate && cal.Trades(r.value) && SessionsIn(cal, tradeDate, r.value) == cycle)
            && (r.Err? <==> cycle < 1 || !cal.Supported(tradeDate) || cal.Bound().None?
                            || SessionsIn(cal, tradeDate, cal.Bound().value) < cycle)
  {
    if cycle >= 1 {
      AddSessionsCounts(cal, tradeDate, cycle);
    }
  }

  /** Sale proceeds always settle strictly after the trade date. */
  lemma SettlementAfterTrade(cal: TradingCalendar, tradeDate: Day)
    requires SettlementDate(cal, tradeDate).Ok?
    ensures SettlementDate(cal, tradeDate).value > tradeDate
  {
    SettlementOnCycle(cal, tradeDate, 1);
  }
}
