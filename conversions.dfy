/** The enum translation tables of the detail-to-incidence conversion:
    QtOrganizer classification, participation status and role, priority,
    recurrence frequency and limit, and reminders, mapped to their
    KCalendarCore counterparts (KCalendarCore's rendering of the CLASS,
    PARTSTAT, ROLE, PRIORITY and RRULE properties of RFC 5545). */
module Conversions {
  import opened Types

  // ---------------------------------------------------------------- CLASS

  /** QOrganizerItemClassification::AccessClassification. */
  datatype AccessClassification = AccessPublic | AccessConfidential | AccessPrivate

  /** KCalendarCore::Incidence::Secrecy (CLASS, section 3.8.1.3 of RFC 5545). */
  datatype Secrecy = SecrecyPublic | SecrecyPrivate | SecrecyConfidential

  /** Private and confidential keep their meaning; anything else is public. */
  function ToSecrecy(c: AccessClassification): (s: Secrecy)
    ensures s == SecrecyPrivate <==> c == AccessPrivate
    ensures s == SecrecyConfidential <==> c == AccessConfidential
    ensures s == SecrecyPublic <==> c != AccessPrivate && c != AccessConfidential
  {
    match c
    case AccessPrivate => SecrecyPrivate
    case AccessConfidential => SecrecyConfidential
    case _ => SecrecyPublic
  }

  // ------------------------------------------------------------- PARTSTAT

  /** QOrganizerEventAttendee::ParticipationStatus. */
  datatype ParticipationStatus =
    | StatusUnknown
    | StatusAccepted
    | StatusDeclined
    | StatusTentative
    | StatusDelegated
    | StatusInProcess
    | StatusCompleted

  /** KCalendarCore::Attendee::PartStat (PARTSTAT, section 3.2.12 of RFC 5545). */
  datatype PartStat =
    | NeedsAction
    | Accepted
    | Declined
    | Tentative
    | Delegated
    | Completed
    | InProcess
    | PartStatNone

  /** The six named statuses keep their name; any other status, the unknown
      one included, needs action. The result is never PartStatNone. */
  function ToPartStat(st: ParticipationStatus): (p: PartStat)
    ensures p == Accepted <==> st == StatusAccepted
    ensures p == Declined <==> st == StatusDeclined
    ensures p == Tentative <==> st == StatusTentative
    ensures p == Delegated <==> st == StatusDelegated
    ensures p == InProcess <==> st == StatusInProcess
    ensures p == Completed <==> st == StatusCompleted
    ensures p == NeedsAction <==> st == StatusUnknown
    ensures p != PartStatNone
  {
    match st
    case StatusAccepted => Accepted
    case StatusDeclined => Declined
    case StatusTentative => Tentative
    case StatusDelegated => Delegated
    case StatusInProcess => InProcess
    case StatusCompleted => Completed
    case _ => NeedsAction
  }

  // ----------------------------------------------------------------- ROLE

  /** QOrganizerEventAttendee::ParticipationRole. */
  datatype ParticipationRole =
    | RoleUnknown
    | RoleOrganizer
    | RoleChairperson
    | RoleHost
    | RoleRequiredParticipant
    | RoleOptionalParticipant
    | RoleNonParticipant

  /** KCalendarCore::Attendee::Role (ROLE, section 3.2.16 of RFC 5545). */
  datatype AttendeeRole = ReqParticipant | OptParticipant | NonParticipant | Chair

  /** Required, optional, non-participant and chair map to their
      counterparts; every other role becomes a required participant. */
  function ToAttendeeRole(r: ParticipationRole): (a: AttendeeRole)
    ensures a == Chair <==> r == RoleChairperson
    ensures a == OptParticipant <==> r == RoleOptionalParticipant
    ensures a == NonParticipant <==> r == RoleNonParticipant
    ensures a == ReqParticipant <==>
      r in {RoleRequiredParticipant, RoleUnknown, RoleOrganizer, RoleHost}
  {
    match r
    case RoleRequiredParticipant => ReqParticipant
    case RoleOptionalParticipant => OptParticipant
    case RoleNonParticipant => NonParticipant
    case RoleChairperson => Chair
    case _ => ReqParticipant
  }

  // ------------------------------------------------------------- PRIORITY

  /** QOrganizerItemPriority::Priority, whose underlying integers are 0..9. */
  datatype Priority =
    | UnknownPriority
    | HighestPriority
    | ExtremelyHighPriority
    | VeryHighPriority
    | HighPriority
    | MediumPriority
    | LowPriority
    | VeryLowPriority
    | ExtremelyLowPriority
    | LowestPriority

  /** The priority is stored as the enum's integer: unknown is 0 (undefined
      in section 3.8.1.9 of RFC 5545), highest is 1 and lowest is 9. */
  function PriorityValue(p: Priority): (n: int)
    ensures 0 <= n <= 9
    ensures n == 0 <==> p == UnknownPriority
    ensures p == HighestPriority <==> n == 1
    ensures p == LowestPriority <==> n == 9
  {
    match p
    case UnknownPriority => 0
    case HighestPriority => 1
    case ExtremelyHighPriority => 2
    case VeryHighPriority => 3
    case HighPriority => 4
    case MediumPriority => 5
    case LowPriority => 6
    case VeryLowPriority => 7
    case ExtremelyLowPriority => 8
    case LowestPriority => 9
  }

  /** Reading a stored integer back as a QtOrganizer priority; integers
      outside 0..9 name no priority. */
  function PriorityFromValue(n: int): (p: Option<Priority>)
    ensures p.Some? <==> 0 <= n <= 9
  {
    if n == 0 then Some(UnknownPriority)
    else if n == 1 then Some(HighestPriority)
    else if n == 2 then Some(ExtremelyHighPriority)
    else if n == 3 then Some(VeryHighPriority)
    else if n == 4 then Some(HighPriority)
    else if n == 5 then Some(MediumPriority)
    else if n == 6 then Some(LowPriority)
    else if n == 7 then Some(VeryLowPriority)
    else if n == 8 then Some(ExtremelyLowPriority)
    else if n == 9 then Some(LowestPriority)
    else None
  }

  /** Storing a priority loses nothing: reading the stored integer back
      gives the priority that was written. */
  lemma PriorityRoundTrip(p: Priority)
    ensures PriorityFromValue(PriorityValue(p)) == Some(p)
  {
  }

  /** The stored integers are distinct, so two priorities that store the same
      value are the same priority. */
  lemma PriorityValueInjective(p: Priority, q: Priority)
    requires PriorityValue(p) == PriorityValue(q)
    ensures p == q
  {
    PriorityRoundTrip(p);
    PriorityRoundTrip(q);
  }

  // ---------------------------------------------------------------- RRULE

  /** QOrganizerRecurrenceRule::Frequency. */
  datatype Frequency = Invalid | Daily | Weekly | Monthly | Yearly

  /** KCalendarCore::RecurrenceRule::PeriodType (FREQ, section 3.3.10 of
      RFC 5545). */
  datatype PeriodType = RNone | RSecondly | RMinutely | RHourly | RDaily | RWeekly | RMonthly | RYearly

  /** Daily, weekly, monthly and yearly keep their period; anything else
      becomes no recurrence. Sub-daily periods are never produced. */
  function ToPeriodType(f: Frequency): (t: PeriodType)
    ensures t == RDaily <==> f == Daily
    ensures t == RWeekly <==> f == Weekly
    ensures t == RMonthly <==> f == Monthly
    ensures t == RYearly <==> f == Yearly
    ensures t == RNone <==> f == Invalid
    ensures t !in {RSecondly, RMinutely, RHourly}
  {
    match f
    case Daily => RDaily
    case Weekly => RWeekly
    case Monthly => RMonthly
    case Yearly => RYearly
    case _ => RNone
  }

  /** QOrganizerRecurrenceRule's limit: its limit type together with the
      limit count or limit date that goes with it. */
  datatype RecurrenceLimit = NoLimit | CountLimit(count: int) | DateLimit(date: Date)

  /** QOrganizerRecurrenceRule. Its day, month, week and position
      constraints are QSet values in QtOrganizer; months are the integers of
      QOrganizerRecurrenceRule::Month (January is 1). */
  datatype ItemRule = ItemRule(
    frequency: Frequency,
    interval: int,
    limit: RecurrenceLimit,
    daysOfWeek: set<int>,
    daysOfMonth: set<int>,
    daysOfYear: set<int>,
    monthsOfYear: set<int>,
    weeksOfYear: set<int>,
    positions: set<int>)

  /** KCalendarCore::RecurrenceRule::WDayPos. */
  datatype WDayPos = WDayPos(pos: int, day: int)

  /** KCalendarCore::RecurrenceRule. An unset duration or end is None. */
  datatype IncidenceRule = IncidenceRule(
    periodType: PeriodType,
    allDay: bool,
    startDt: DateTime,
    frequency: int,
    duration: Option<int>,
    endDt: Option<DateTime>,
    byDays: set<WDayPos>,
    byMonthDays: set<int>,
    byYearDays: set<int>,
    byMonths: set<int>,
    byWeekNumbers: set<int>,
    bySetPos: set<int>)

  /** Each week day becomes a WDayPos at position 0 (every such day). */
  function WeekDays(days: set<int>): (r: set<WDayPos>)
    ensures forall d :: d in days <==> WDayPos(0, d) in r
    ensures forall w :: w in r ==> w.pos == 0
  {
    set d | d in days :: WDayPos(0, d)
  }

  /** toRecurrenceRule: the rule starts with the incidence (its all-day flag
      and start), the period comes from the frequency table, the interval
      becomes the rule's frequency, a count limit becomes the duration and a
      date limit becomes an end at the incidence's start time on the limit
      date. */
  function ToIncidenceRule(allDay: bool, dtStart: DateTime, rule: ItemRule): (r: IncidenceRule)
    ensures r.allDay == allDay && r.startDt == dtStart
    ensures r.periodType == ToPeriodType(rule.frequency)
    ensures r.frequency == rule.interval
    ensures r.duration.Some? <==> rule.limit.CountLimit?
    ensures rule.limit.CountLimit? ==> r.duration.value == rule.limit.count
    ensures r.endDt.Some? <==> rule.limit.DateLimit?
    ensures rule.limit.DateLimit? ==> r.endDt.value == WithDate(dtStart, rule.limit.date)
  {
    IncidenceRule(
      ToPeriodType(rule.frequency),
      allDay,
      dtStart,
      rule.interval,
      if rule.limit.CountLimit? then Some(rule.limit.count) else None,
      if rule.limit.DateLimit? then Some(WithDate(dtStart, rule.limit.date)) else None,
      WeekDays(rule.daysOfWeek),
      rule.daysOfMonth,
      rule.daysOfYear,
      rule.monthsOfYear,
      rule.weeksOfYear,
      rule.positions)
  }

  /** The frequency a stored period reads back as. */
  function FromPeriodType(t: PeriodType): Frequency
  {
    match t
    case RDaily => Daily
    case RWeekly => Weekly
    case RMonthly => Monthly
    case RYearly => Yearly
    case _ => Invalid
  }

  /** Reading a stored rule back: the inverse direction, used to state what
      the stored rule still carries of the original. */
  function FromIncidenceRule(r: IncidenceRule): ItemRule
  {
    ItemRule(
      FromPeriodType(r.periodType),
      r.frequency,
      if r.duration.Some? then CountLimit(r.duration.value)
      else if r.endDt.Some? && r.endDt.value.At? then DateLimit(r.endDt.value.date)
      else NoLimit,
      set w | w in r.byDays :: w.day,
      r.byMonthDays,
      r.byYearDays,
      r.byMonths,
      r.byWeekNumbers,
      r.bySetPos)
  }

  /** A converted rule loses nothing: frequency, interval, limit (count or
      date) and every by-day/month/year/week/position constraint read back
      as they were, whatever the incidence's start. A date limit needs a
      valid date, since an invalid one makes the end invalid. */
  lemma RuleRoundTrip(allDay: bool, dtStart: DateTime, rule: ItemRule)
    requires rule.limit.DateLimit? ==> rule.limit.date != InvalidDate
    ensures FromIncidenceRule(ToIncidenceRule(allDay, dtStart, rule)) == rule
  {
    var r := ToIncidenceRule(allDay, dtStart, rule);
    assert FromPeriodType(ToPeriodType(rule.frequency)) == rule.frequency by {
      match rule.frequency
      case Invalid =>
      case Daily =>
      case Weekly =>
      case Monthly =>
      case Yearly =>
    }
    assert (set w | w in r.byDays :: w.day) == rule.daysOfWeek by {
      forall d | d in rule.daysOfWeek ensures d in (set w | w in r.byDays :: w.day) {
        assert WDayPos(0, d) in r.byDays;
      }
    }
  }

  // --------------------------------------------------------------- ALARMS

  /** The timing part shared by every QOrganizerItemReminder. */
  datatype Reminder = Reminder(secondsBeforeStart: int, repetitionCount: int, repetitionDelay: int)

  /** What an alarm does: play a sound, send a mail or show a message. */
  datatype AlarmAction =
    | AudioAlarm(file: string)
    | EmailAlarm(subject: string, body: string, recipients: seq<string>)
    | DisplayAlarm(text: string)

  /** KCalendarCore::Alarm; offsets and snooze are durations in seconds. */
  datatype Alarm = Alarm(startOffset: int, repeatCount: int, snoozeTime: int, action: AlarmAction)

  /** toAlarm followed by the action setter of the reminder's kind. */
  function ToAlarm(rem: Reminder, action: AlarmAction): (a: Alarm)
    ensures a.startOffset == rem.secondsBeforeStart
    ensures a.repeatCount == rem.repetitionCount
    ensures a.snoozeTime == rem.repetitionDelay
    ensures a.action == action
  {
    Alarm(rem.secondsBeforeStart, rem.repetitionCount, rem.repetitionDelay, action)
  }
}
