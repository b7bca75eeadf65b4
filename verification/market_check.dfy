/**
 The NYSE session oracle: is the market open now, should a monitor start
 now, and the process exit code a scheduler reads.

 All instants are integer minutes after midnight (Eastern Time) of the day
 being asked about; the trading calendar's answer for that day is an input.
 The human-readable reason is carried as a datatype holding the instants the
 message would print, not as formatted text.
 */
module MarketCheck {
  import opened Canonical

  /** Day of week as returned by `datetime.weekday()`: 0 is Monday, 6 is Sunday. */
  type Weekday = d: int | 0 <= d <= 6

  /** Today's trading window from the calendar, as minutes after midnight ET. */
  datatype Schedule = Schedule(open: int, close: int)

  /** A close at this hour marks an early-close day. */
  const EarlyCloseHour: int := 13
  /** How many minutes before the open a monitor may already start. */
  const StartLeadMinutes: int := 5

  /** Hour of the day of an instant, as `datetime.hour` reports it. */
  function Hour(t: int): (h: int)
    ensures 0 <= h < 24
    ensures 0 <= t < 24 * 60 ==> h * 60 <= t < h * 60 + 60
  {
    (t / 60) % 24
  }

  predicate IsEarlyClose(s: Schedule) {
    Hour(s.close) == EarlyCloseHour
  }

  /** Why there is no session today. */
  datatype Closure = Weekend(day: Weekday) | Holiday

  datatype StatusReason =
    | NoSession(why: Closure)
    | BeforeOpen(opensAt: int)
    | AfterEarlyClose(closedAt: int)
    | AfterClose(closedAt: int)
    | OpenEarlyClose(closesAt: int)
    | OpenUntil(closesAt: int)

  datatype Status = Status(isOpen: bool, reason: StatusReason, observed: int)

  datatype StartReason =
    | NoSessionToday(why: Closure)
    | TooEarly(canStartAt: int)
    | TooLate(closedAt: int)
    | GoodTime

  datatype StartDecision = StartDecision(start: bool, reason: StartReason, observed: int)

  /** The reason shared by both questions when the calendar has no entry for today. */
  function ClosureOf(weekday: Weekday): (c: Closure)
    ensures c.Weekend? <==> weekday >= 5
    ensures c.Weekend? ==> c.day == weekday
  {
    if weekday >= 5 then Weekend(weekday) else Holiday
  }

  /** `get_market_status`: open exactly on the half-open window [open, close). */
  function MarketStatus(today: Option<Schedule>, weekday: Weekday, now: int): (r: Status)
    ensures r.observed == now
    ensures r.isOpen <==> today.Some? && today.value.open <= now < today.value.close
    ensures today.None? ==> !r.isOpen && r.reason == NoSession(ClosureOf(weekday))
    ensures today.Some? ==> !r.reason.NoSession?
    ensures today.Some? && now < today.value.open ==> r.reason == BeforeOpen(today.value.open)
    ensures r.reason.BeforeOpen? <==> today.Some? && now < today.value.open
    ensures r.isOpen <==> r.reason.OpenEarlyClose? || r.reason.OpenUntil?
    ensures r.reason.AfterEarlyClose? || r.reason.AfterClose? <==>
              today.Some? && today.value.open <= now && today.value.close <= now
    ensures r.reason.AfterEarlyClose? || r.reason.OpenEarlyClose? <==>
              today.Some? && today.value.open <= now && IsEarlyClose(today.value)
    ensures (r.reason.AfterEarlyClose? || r.reason.AfterClose?) ==> r.reason.closedAt == today.value.close
    ensures (r.reason.OpenEarlyClose? || r.reason.OpenUntil?) ==> r.reason.closesAt == today.value.close
  {
    match today
    case None => Status(false, NoSession(ClosureOf(weekday)), now)
    case Some(s) =>
      if now < s.open then Status(false, BeforeOpen(s.open), now)
      else if now >= s.close then
        if IsEarlyClose(s) then Status(false, AfterEarlyClose(s.close), now)
        else Status(false, AfterClose(s.close), now)
      else if IsEarlyClose(s) then Status(true, OpenEarlyClose(s.close), now)
      else Status(true, OpenUntil(s.close), now)
  }

  /** `should_start_monitoring`: start on the wider window [open - 5 min, close). */
  function ShouldStart(today: Option<Schedule>, weekday: Weekday, now: int): (r: StartDecision)
    ensures r.observed == now
    ensures r.start <==> today.Some? && today.value.open - StartLeadMinutes <= now < today.value.close
    ensures r.start <==> r.reason == GoodTime
    ensures today.None? ==> r.reason == NoSessionToday(ClosureOf(weekday))
    ensures r.reason.TooEarly? <==> today.Some? && now < today.value.open - StartLeadMinutes
    ensures r.reason.TooEarly? ==> r.reason.canStartAt == today.value.open - StartLeadMinutes
    ensures r.reason.TooLate? <==>
              today.Some? && today.value.open - StartLeadMinutes <= now && today.value.close <= now
    ensures r.reason.TooLate? ==> r.reason.closedAt == today.value.close
  {
    match today
    case None => StartDecision(false, NoSessionToday(ClosureOf(weekday)), now)
    case Some(s) =>
      var startAt := s.open - StartLeadMinutes;
      if now < startAt then StartDecision(false, TooEarly(startAt), now)
      else if now >= s.close then StartDecision(false, TooLate(s.close), now)
      else StartDecision(true, GoodTime, now)
  }

  /** Whenever the market reports open, a monitor is told to start. */
  lemma OpenImpliesStart(today: Option<Schedule>, weekday: Weekday, now: int)
    ensures MarketStatus(today, weekday, now).isOpen ==> ShouldStart(today, weekday, now).start
  {
  }

  /** The start window is exactly the open window plus the five-minute lead. */
  lemma StartButNotOpenIsLead(today: Option<Schedule>, weekday: Weekday, now: int)
    ensures ShouldStart(today, weekday, now).start && !MarketStatus(today, weekday, now).isOpen <==>
              today.Some? && today.value.open - StartLeadMinutes <= now < today.value.open
                && now < today.value.close
  {
  }

  /** What the calendar query produced: an answer for today, or an exception. */
  datatype CalendarAnswer = CalendarError | Answer(today: Option<Schedule>)

  /**
   The `__main__` block: argv holds the program name and one command. Every
   path other than a true decision exits 1 (fail closed).
   */
  function ExitCode(argv: seq<string>, calendar: CalendarAnswer, weekday: Weekday, now: int): (code: int)
    ensures code == 0 || code == 1
    ensures code == 0 ==> |argv| == 2 && calendar.Answer?
    ensures code == 0 ==> argv[1] == "status" || argv[1] == "should_start"
  {
    if |argv| != 2 then 1
    else if argv[1] == "status" then
      match calendar
      case CalendarError => 1
      case Answer(today) => if MarketStatus(today, weekday, now).isOpen then 0 else 1
    else if argv[1] == "should_start" then
      match calendar
      case CalendarError => 1
      case Answer(today) => if ShouldStart(today, weekday, now).start then 0 else 1
    else 1
  }

  /** Exit 0 from `status` exactly when the calendar answered and now is in [open, close). */
  lemma StatusExitZeroIff(program: string, calendar: CalendarAnswer, weekday: Weekday, now: int)
    ensures ExitCode([program, "status"], calendar, weekday, now) == 0 <==>
              calendar.Answer? && calendar.today.Some?
                && calendar.today.value.open <= now < calendar.today.value.close
  {
  }

  /** Exit 0 from `should_start` exactly when the calendar answered and now is in [open - 5, close). */
  lemma ShouldStartExitZeroIff(program: string, calendar: CalendarAnswer, weekday: Weekday, now: int)
    ensures ExitCode([program, "should_start"], calendar, weekday, now) == 0 <==>
              calendar.Answer? && calendar.today.Some?
                && calendar.today.value.open - StartLeadMinutes <= now < calendar.today.value.close
  {
  }

  /** A calendar error, a wrong argument count or an unknown command always exits 1. */
  lemma FailClosed(argv: seq<string>, calendar: CalendarAnswer, weekday: Weekday, now: int)
    requires calendar.CalendarError? || |argv| != 2
             || (argv[1] != "status" && argv[1] != "should_start")
    ensures ExitCode(argv, calendar, weekday, now) == 1
  {
  }
}
