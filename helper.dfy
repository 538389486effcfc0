/** The field-by-field translation of src/helper.cpp (duplicated as static
    functions in src/itemcalendars.cpp, modelled once here): a QtOrganizer
    item's details written into a KCalendarCore incidence under a detail
    mask, and a QtOrganizer collection's metadata written into an mKCal
    notebook and read back. */
module Helper {
  import opened Types
  import opened Conversions

  // ------------------------------------------------------------ the item

  /** QOrganizerItemDetail::DetailType; the types the translation ignores
      are TypeUntranslated, named. */
  datatype DetailType =
    | TypeDisplayLabel
    | TypeDescription
    | TypeComment
    | TypeClassification
    | TypeLocation
    | TypePriority
    | TypeTimestamp
    | TypeVersion
    | TypeAudibleReminder
    | TypeEmailReminder
    | TypeVisualReminder
    | TypeEventRsvp
    | TypeEventAttendee
    | TypeRecurrence
    | TypeEventTime
    | TypeTodoTime
    | TypeTodoProgress
    | TypeJournalTime
    | TypeUntranslated(name: string)

  /** The details of an item that the translation reads, with the fields it
      reads. Location coordinates (floating point) are not modelled. */
  datatype Detail =
    | ClassificationDetail(access: AccessClassification)
    | LocationDetail(locationName: string)
    | PriorityDetail(priority: Priority)
    | TimestampDetail(created: DateTime, lastModified: DateTime)
    | VersionDetail(version: int)
    | AudibleReminderDetail(reminder: Reminder, dataUrl: string)
    | EmailReminderDetail(reminder: Reminder, subject: string, body: string, recipients: seq<string>)
    | VisualReminderDetail(reminder: Reminder, message: string)
    | RsvpDetail(organizerName: string, organizerEmail: string)
    | AttendeeDetail(name: string, email: string, status: ParticipationStatus,
                     role: ParticipationRole, attendeeId: string)
    | RecurrenceDetail(rules: seq<ItemRule>, dates: seq<Date>,
                       exceptionRules: seq<ItemRule>, exceptionDates: seq<Date>)
    | EventTimeDetail(start: DateTime, end: DateTime, allDay: bool)
    | TodoTimeDetail(start: DateTime, due: DateTime, allDay: bool)
    | TodoProgressDetail(finished: DateTime, percentage: int)
    | JournalTimeDetail(entry: DateTime)
    | OtherDetail(name: string)

  function TypeOf(d: Detail): DetailType
  {
    match d
    case ClassificationDetail(_) => TypeClassification
    case LocationDetail(_) => TypeLocation
    case PriorityDetail(_) => TypePriority
    case TimestampDetail(_, _) => TypeTimestamp
    case VersionDetail(_) => TypeVersion
    case AudibleReminderDetail(_, _) => TypeAudibleReminder
    case EmailReminderDetail(_, _, _, _) => TypeEmailReminder
    case VisualReminderDetail(_, _) => TypeVisualReminder
    case RsvpDetail(_, _) => TypeEventRsvp
    case AttendeeDetail(_, _, _, _, _) => TypeEventAttendee
    case RecurrenceDetail(_, _, _, _) => TypeRecurrence
    case EventTimeDetail(_, _, _) => TypeEventTime
    case TodoTimeDetail(_, _, _) => TypeTodoTime
    case TodoProgressDetail(_, _) => TypeTodoProgress
    case JournalTimeDetail(_) => TypeJournalTime
    case OtherDetail(n) => TypeUntranslated(n)
  }

  /** QOrganizerItemParent: the parent item and the date of the occurrence. */
  datatype ParentDetail = ParentDetail(parentId: ItemId, originalDate: Date)

  /** QOrganizerItem. Its display label, description, comments and parent
      detail are kept apart from the other details, which keep their order. */
  datatype Item = Item(
    id: Option<ItemId>,
    itemType: ItemType,
    collectionId: Option<CollectionId>,
    displayLabel: string,
    description: string,
    comments: seq<string>,
    parent: Option<ParentDetail>,
    details: seq<Detail>)

  /** The detail-mask gate: a field is written when the mask is empty or
      names the field's detail type. */
  predicate Written(mask: seq<DetailType>, t: DetailType)
  {
    |mask| == 0 || t in mask
  }

  // ------------------------------------------------------- the incidence

  datatype IncidenceKind = EventKind | TodoKind | JournalKind

  /** KCalendarCore::Person. */
  datatype Person = Person(name: string, email: string)

  /** KCalendarCore::Attendee. */
  datatype Attendee = Attendee(name: string, email: string, rsvp: bool,
                               status: PartStat, role: AttendeeRole, uid: string)

  /** KCalendarCore::Recurrence: rules are kept in insertion order; dates and
      date-times are kept as sorted lists without duplicates, i.e. sets. */
  datatype Recurrence = Recurrence(
    rRules: seq<IncidenceRule>,
    rDates: set<Date>,
    rDateTimes: set<DateTime>,
    exRules: seq<IncidenceRule>,
    exDates: set<Date>,
    exDateTimes: set<DateTime>)

  const NoRecurrence := Recurrence([], {}, {}, [], {}, {})

  /** KCalendarCore::Incidence with the fields of Event (end), Todo (due,
      completion) and Journal that the translation writes. */
  datatype Incidence = Incidence(
    kind: IncidenceKind,
    uid: string,
    recurrenceId: Option<DateTime>,
    summary: string,
    description: string,
    comments: seq<string>,
    secrecy: Secrecy,
    location: string,
    priority: int,
    created: DateTime,
    lastModified: DateTime,
    revision: int,
    alarms: seq<Alarm>,
    organizer: Person,
    attendees: seq<Attendee>,
    recurrence: Recurrence,
    dtStart: DateTime,
    dtEnd: DateTime,
    dtDue: DateTime,
    allDay: bool,
    completed: DateTime,
    percentComplete: int)

  /** A freshly constructed Event, Todo or Journal with the given uid. */
  function NewIncidence(kind: IncidenceKind, uid: string): (r: Incidence)
    ensures r.kind == kind && r.uid == uid && r.recurrenceId == None
    ensures r.alarms == [] && r.attendees == [] && r.recurrence == NoRecurrence
  {
    Incidence(kind, uid, None, "", "", [], SecrecyPublic, "", 0,
              InvalidDateTime, InvalidDateTime, 0, [], Person("", ""), [],
              NoRecurrence, InvalidDateTime, InvalidDateTime, InvalidDateTime,
              false, InvalidDateTime, 0)
  }

  // --------------------------------------- updateIncidence, as functions

  /** Rules converted against the incidence's all-day flag and start. */
  function RulesFor(allDay: bool, start: DateTime, rules: seq<ItemRule>): (r: seq<IncidenceRule>)
    ensures |r| == |rules|
  {
    if |rules| == 0 then []
    else RulesFor(allDay, start, rules[..|rules| - 1])
         + [ToIncidenceRule(allDay, start, rules[|rules| - 1])]
  }

  function DateSet(ds: seq<Date>): set<Date>
  {
    set d | d in ds
  }

  /** Dates placed at the incidence's start time. */
  function DateTimesAt(start: DateTime, ds: seq<Date>): set<DateTime>
  {
    set d | d in ds :: WithDate(start, d)
  }

  /** The recurrence detail: rules and exception rules are appended; dates
      and exception dates are added as dates for an all-day incidence and as
      date-times at the incidence's start time otherwise. */
  function WithRecurrence(inc: Incidence, d: Detail): Incidence
    requires d.RecurrenceDetail?
  {
    var rec := inc.recurrence;
    inc.(recurrence := Recurrence(
      rec.rRules + RulesFor(inc.allDay, inc.dtStart, d.rules),
      if inc.allDay then rec.rDates + DateSet(d.dates) else rec.rDates,
      if inc.allDay then rec.rDateTimes else rec.rDateTimes + DateTimesAt(inc.dtStart, d.dates),
      rec.exRules + RulesFor(inc.allDay, inc.dtStart, d.exceptionRules),
      if inc.allDay then rec.exDates + DateSet(d.exceptionDates) else rec.exDates,
      if inc.allDay then rec.exDateTimes else rec.exDateTimes + DateTimesAt(inc.dtStart, d.exceptionDates)))
  }

  /** The attendee a QOrganizerEventAttendee detail becomes. */
  function ToAttendee(d: Detail): Attendee
    requires d.AttendeeDetail?
  {
    Attendee(d.name, d.email, false, ToPartStat(d.status), ToAttendeeRole(d.role), d.attendeeId)
  }

  /** The alarm a reminder detail becomes. */
  function ReminderAlarm(d: Detail): Alarm
    requires d.AudibleReminderDetail? || d.EmailReminderDetail? || d.VisualReminderDetail?
  {
    match d
    case AudibleReminderDetail(r, url) => ToAlarm(r, AudioAlarm(url))
    case EmailReminderDetail(r, s, b, rs) => ToAlarm(r, EmailAlarm(s, b, rs))
    case VisualReminderDetail(r, m) => ToAlarm(r, DisplayAlarm(m))
  }

  /** One pass of the incidence-level switch over one detail. */
  function ApplyDetail(inc: Incidence, d: Detail, mask: seq<DetailType>): Incidence
  {
    if !Written(mask, TypeOf(d)) then inc
    else match d
      case ClassificationDetail(c) => inc.(secrecy := ToSecrecy(c))
      case LocationDetail(l) => inc.(location := l)
      case PriorityDetail(p) => inc.(priority := PriorityValue(p))
      case TimestampDetail(c, m) => inc.(created := c, lastModified := m)
      case VersionDetail(v) => inc.(revision := v)
      case AudibleReminderDetail(_, _) => inc.(alarms := inc.alarms + [ReminderAlarm(d)])
      case EmailReminderDetail(_, _, _, _) => inc.(alarms := inc.alarms + [ReminderAlarm(d)])
      case VisualReminderDetail(_, _) => inc.(alarms := inc.alarms + [ReminderAlarm(d)])
      case RsvpDetail(n, e) => inc.(organizer := Person(n, e))
      case AttendeeDetail(_, _, _, _, _) => inc.(attendees := inc.attendees + [ToAttendee(d)])
      case RecurrenceDetail(_, _, _, _) => WithRecurrence(inc, d)
      case _ => inc
  }

  /** The details applied in order. */
  function ApplyDetails(inc: Incidence, ds: seq<Detail>, mask: seq<DetailType>): Incidence
  {
    if |ds| == 0 then inc
    else ApplyDetail(ApplyDetails(inc, ds[..|ds| - 1], mask), ds[|ds| - 1], mask)
  }

  /** Summary, description and comments, each behind its own gate. */
  function WithHeader(inc: Incidence, item: Item, mask: seq<DetailType>): Incidence
  {
    var a := if Written(mask, TypeDisplayLabel) then inc.(summary := item.displayLabel) else inc;
    var b := if Written(mask, TypeDescription) then a.(description := item.description) else a;
    if Written(mask, TypeComment) then b.(comments := item.comments) else b
  }

  /** updateIncidence as a function of the incidence before the call. */
  function UpdatedIncidence(inc: Incidence, item: Item, mask: seq<DetailType>): Incidence
  {
    ApplyDetails(WithHeader(inc, item, mask), item.details, mask)
  }

  /** The kind-specific switch of updateEvent, updateTodo and updateJournal. */
  function ApplyTimeDetail(kind: IncidenceKind, inc: Incidence, d: Detail, mask: seq<DetailType>): Incidence
  {
    if !Written(mask, TypeOf(d)) then inc
    else match (kind, d)
      case (EventKind, EventTimeDetail(s, e, a)) => inc.(dtStart := s, dtEnd := e, allDay := a)
      case (TodoKind, TodoTimeDetail(s, due, a)) => inc.(dtStart := s, dtDue := due, allDay := a)
      case (TodoKind, TodoProgressDetail(f, p)) => inc.(completed := f, percentComplete := p)
      case (JournalKind, JournalTimeDetail(e)) => inc.(dtStart := e)
      case _ => inc
  }

  function ApplyTimeDetails(kind: IncidenceKind, inc: Incidence, ds: seq<Detail>, mask: seq<DetailType>): Incidence
  {
    if |ds| == 0 then inc
    else ApplyTimeDetail(kind, ApplyTimeDetails(kind, inc, ds[..|ds| - 1], mask), ds[|ds| - 1], mask)
  }

  /** updateEvent / updateTodo / updateJournal: the incidence-level pass,
      then a second pass over the details for the kind's own times. */
  function UpdatedAs(kind: IncidenceKind, inc: Incidence, item: Item, mask: seq<DetailType>): Incidence
  {
    ApplyTimeDetails(kind, UpdatedIncidence(inc, item, mask), item.details, mask)
  }

  // ----------------------------------------- updateIncidence, as methods

  /** The loop adding each rule, converted, to the end of a rule list. */
  method AddRules(allDay: bool, start: DateTime, acc: seq<IncidenceRule>, rules: seq<ItemRule>)
    returns (r: seq<IncidenceRule>)
    ensures r == acc + RulesFor(allDay, start, rules)
  {
    r := acc;
    for i := 0 to |rules|
      invariant r == acc + RulesFor(allDay, start, rules[..i])
    {
      assert rules[..i + 1][..i] == rules[..i];
      r := r + [ToIncidenceRule(allDay, start, rules[i])];
    }
    assert rules[..|rules|] == rules;
  }

  /** The loop adding each date as a date (all-day) or as a date-time at the
      start time (otherwise). */
  method AddDates(allDay: bool, start: DateTime, dates: set<Date>, dateTimes: set<DateTime>, ds: seq<Date>)
    returns (rDates: set<Date>, rDateTimes: set<DateTime>)
    ensures rDates == if allDay then dates + DateSet(ds) else dates
    ensures rDateTimes == if allDay then dateTimes else dateTimes + DateTimesAt(start, ds)
  {
    rDates, rDateTimes := dates, dateTimes;
    for i := 0 to |ds|
      invariant rDates == if allDay then dates + DateSet(ds[..i]) else dates
      invariant rDateTimes == if allDay then dateTimes else dateTimes + DateTimesAt(start, ds[..i])
    {
      assert ds[..i + 1] == ds[..i] + [ds[i]];
      if allDay {
        rDates := rDates + {ds[i]};
      } else {
        rDateTimes := rDateTimes + {WithDate(start, ds[i])};
      }
    }
    assert ds[..|ds|] == ds;
  }

  /** The recurrence case of updateIncidence: rules, dates, exception rules
      and exception dates added to the incidence's recurrence. */
  method AddRecurrence(inc: Incidence, d: Detail) returns (r: Incidence)
    requires d.RecurrenceDetail?
    ensures r == WithRecurrence(inc, d)
  {
    var recur := inc.recurrence;
    var rRules := AddRules(inc.allDay, inc.dtStart, recur.rRules, d.rules);
    var rDates, rDateTimes := AddDates(inc.allDay, inc.dtStart, recur.rDates, recur.rDateTimes, d.dates);
    var exRules := AddRules(inc.allDay, inc.dtStart, recur.exRules, d.exceptionRules);
    var exDates, exDateTimes := AddDates(inc.allDay, inc.dtStart, recur.exDates, recur.exDateTimes,
                                         d.exceptionDates);
    r := inc.(recurrence := Recurrence(rRules, rDates, rDateTimes, exRules, exDates, exDateTimes));
  }

  /** updateIncidence: the header fields, then one switch per detail. */
  method UpdateIncidence(inc: Incidence, item: Item, mask: seq<DetailType>) returns (r: Incidence)
    ensures r == UpdatedIncidence(inc, item, mask)
  {
    r := UpdateHeader(inc, item, mask);
    r := UpdateDetails(r, item, mask);
  }

  /** The summary, description and comments of updateIncidence; the
      comments are cleared and appended one by one. */
  method UpdateHeader(inc: Incidence, item: Item, mask: seq<DetailType>) returns (r: Incidence)
    ensures r == WithHeader(inc, item, mask)
  {
    r := inc;
    if Written(mask, TypeDisplayLabel) {
      r := r.(summary := item.displayLabel);
    }
    if Written(mask, TypeDescription) {
      r := r.(description := item.description);
    }
    if Written(mask, TypeComment) {
      ghost var cleared := r.(comments := []);
      r := r.(comments := []);
      for j := 0 to |item.comments|
        invariant r == cleared.(comments := item.comments[..j])
      {
        assert item.comments[..j + 1] == item.comments[..j] + [item.comments[j]];
        r := r.(comments := r.comments + [item.comments[j]]);
      }
      assert item.comments[..|item.comments|] == item.comments;
    }
  }

  /** The detail loop of updateIncidence. */
  method UpdateDetails(inc: Incidence, item: Item, mask: seq<DetailType>) returns (r: Incidence)
    ensures r == ApplyDetails(inc, item.details, mask)
  {
    r := inc;
    for i := 0 to |item.details|
      invariant r == ApplyDetails(inc, item.details[..i], mask)
    {
      assert item.details[..i + 1][..i] == item.details[..i];
      var d := item.details[i];
      if Written(mask, TypeOf(d)) && d.RecurrenceDetail? {
        r := AddRecurrence(r, d);
      } else {
        r := ApplyDetail(r, d, mask);
      }
    }
    assert item.details[..|item.details|] == item.details;
  }

  /** The second loop of updateEvent, updateTodo and updateJournal. */
  method UpdateTimes(kind: IncidenceKind, inc: Incidence, item: Item, mask: seq<DetailType>)
    returns (r: Incidence)
    ensures r == ApplyTimeDetails(kind, inc, item.details, mask)
  {
    r := inc;
    for i := 0 to |item.details|
      invariant r == ApplyTimeDetails(kind, inc, item.details[..i], mask)
    {
      assert item.details[..i + 1][..i] == item.details[..i];
      r := ApplyTimeDetail(kind, r, item.details[i], mask);
    }
    assert item.details[..|item.details|] == item.details;
  }

  /** updateEvent. */
  method UpdateEvent(inc: Incidence, item: Item, mask: seq<DetailType>) returns (r: Incidence)
    ensures r == UpdatedAs(EventKind, inc, item, mask)
  {
    r := UpdateIncidence(inc, item, mask);
    r := UpdateTimes(EventKind, r, item, mask);
  }

  /** updateTodo. */
  method UpdateTodo(inc: Incidence, item: Item, mask: seq<DetailType>) returns (r: Incidence)
    ensures r == UpdatedAs(TodoKind, inc, item, mask)
  {
    r := UpdateIncidence(inc, item, mask);
    r := UpdateTimes(TodoKind, r, item, mask);
  }

  /** updateJournal. */
  method UpdateJournal(inc: Incidence, item: Item, mask: seq<DetailType>) returns (r: Incidence)
    ensures r == UpdatedAs(JournalKind, inc, item, mask)
  {
    r := UpdateIncidence(inc, item, mask);
    r := UpdateTimes(JournalKind, r, item, mask);
  }

  // ------------------------------------------ properties of the update

  /** The alarms the written reminder details give, one per detail, in order. */
  function AlarmsOf(ds: seq<Detail>, mask: seq<DetailType>): seq<Alarm>
  {
    if |ds| == 0 then []
    else
      var d := ds[|ds| - 1];
      AlarmsOf(ds[..|ds| - 1], mask)
      + if (d.AudibleReminderDetail? || d.EmailReminderDetail? || d.VisualReminderDetail?)
           && Written(mask, TypeOf(d))
        then [ReminderAlarm(d)] else []
  }

  /** The attendees the written attendee details give, one per detail, in order. */
  function AttendeesOf(ds: seq<Detail>, mask: seq<DetailType>): seq<Attendee>
  {
    if |ds| == 0 then []
    else
      var d := ds[|ds| - 1];
      AttendeesOf(ds[..|ds| - 1], mask)
      + if d.AttendeeDetail? && Written(mask, TypeEventAttendee) then [ToAttendee(d)] else []
  }

  /** The incidence-level pass only writes the detail-derived fields: the
      identity, the header fields and the times are left alone. */
  lemma {:induction false} ApplyDetailsFrame(inc: Incidence, ds: seq<Detail>, mask: seq<DetailType>)
    ensures var r := ApplyDetails(inc, ds, mask);
      r == inc.(secrecy := r.secrecy, location := r.location, priority := r.priority,
                created := r.created, lastModified := r.lastModified, revision := r.revision,
                alarms := r.alarms, organizer := r.organizer, attendees := r.attendees,
                recurrence := r.recurrence)
  {
    if |ds| > 0 {
      ApplyDetailsFrame(inc, ds[..|ds| - 1], mask);
    }
  }

  /** The incidence-level pass appends exactly one alarm per written
      reminder detail, after the alarms already there and in detail order. */
  lemma {:induction false} ApplyDetailsAlarms(inc: Incidence, ds: seq<Detail>, mask: seq<DetailType>)
    ensures ApplyDetails(inc, ds, mask).alarms == inc.alarms + AlarmsOf(ds, mask)
  {
    if |ds| > 0 {
      ApplyDetailsAlarms(inc, ds[..|ds| - 1], mask);
      var d := ds[|ds| - 1];
      if !(d.AudibleReminderDetail? || d.EmailReminderDetail? || d.VisualReminderDetail?) {
        assert ApplyDetails(inc, ds, mask).alarms == ApplyDetails(inc, ds[..|ds| - 1], mask).alarms;
      }
    }
  }

  /** The incidence-level pass appends exactly one attendee per written
      attendee detail, after the attendees already there and in detail order. */
  lemma {:induction false} ApplyDetailsAttendees(inc: Incidence, ds: seq<Detail>, mask: seq<DetailType>)
    ensures ApplyDetails(inc, ds, mask).attendees == inc.attendees + AttendeesOf(ds, mask)
  {
    if |ds| > 0 {
      ApplyDetailsAttendees(inc, ds[..|ds| - 1], mask);
      if !ds[|ds| - 1].AttendeeDetail? {
        assert ApplyDetails(inc, ds, mask).attendees == ApplyDetails(inc, ds[..|ds| - 1], mask).attendees;
      }
    }
  }

  /** One detail writes no detail-derived field whose detail type the mask
      does not write. */
  lemma ApplyDetailGated(inc: Incidence, d: Detail, mask: seq<DetailType>)
    ensures var r := ApplyDetail(inc, d, mask);
      && (!Written(mask, TypeClassification) ==> r.secrecy == inc.secrecy)
      && (!Written(mask, TypeLocation) ==> r.location == inc.location)
      && (!Written(mask, TypePriority) ==> r.priority == inc.priority)
      && (!Written(mask, TypeTimestamp) ==> r.created == inc.created && r.lastModified == inc.lastModified)
      && (!Written(mask, TypeVersion) ==> r.revision == inc.revision)
      && (!Written(mask, TypeEventRsvp) ==> r.organizer == inc.organizer)
      && (!Written(mask, TypeRecurrence) ==> r.recurrence == inc.recurrence)
  {
  }

  /** Every detail-derived field whose detail type the mask does not write
      keeps its value. */
  lemma {:induction false} ApplyDetailsGated(inc: Incidence, ds: seq<Detail>, mask: seq<DetailType>)
    ensures var r := ApplyDetails(inc, ds, mask);
      && (!Written(mask, TypeClassification) ==> r.secrecy == inc.secrecy)
      && (!Written(mask, TypeLocation) ==> r.location == inc.location)
      && (!Written(mask, TypePriority) ==> r.priority == inc.priority)
      && (!Written(mask, TypeTimestamp) ==> r.created == inc.created && r.lastModified == inc.lastModified)
      && (!Written(mask, TypeVersion) ==> r.revision == inc.revision)
      && (!Written(mask, TypeEventRsvp) ==> r.organizer == inc.organizer)
      && (!Written(mask, TypeRecurrence) ==> r.recurrence == inc.recurrence)
  {
    if |ds| > 0 {
      ApplyDetailsGated(inc, ds[..|ds| - 1], mask);
      ApplyDetailGated(ApplyDetails(inc, ds[..|ds| - 1], mask), ds[|ds| - 1], mask);
    }
  }

  /** One detail changes the secrecy only if it is a written classification. */
  lemma ApplyDetailSecrecy(inc: Incidence, d: Detail, mask: seq<DetailType>)
    ensures ApplyDetail(inc, d, mask).secrecy ==
      if d.ClassificationDetail? && Written(mask, TypeClassification) then ToSecrecy(d.access) else inc.secrecy
  {
  }

  /** One detail changes the priority only if it is a written priority. */
  lemma ApplyDetailPriority(inc: Incidence, d: Detail, mask: seq<DetailType>)
    ensures ApplyDetail(inc, d, mask).priority ==
      if d.PriorityDetail? && Written(mask, TypePriority) then PriorityValue(d.priority) else inc.priority
  {
  }

  /** The last written classification detail decides the secrecy. */
  lemma {:induction false} SecrecyFromLastClassification(inc: Incidence, ds: seq<Detail>,
                                                         mask: seq<DetailType>, k: nat)
    requires k < |ds| && ds[k].ClassificationDetail? && Written(mask, TypeClassification)
    requires forall j :: k < j < |ds| ==> !ds[j].ClassificationDetail?
    ensures ApplyDetails(inc, ds, mask).secrecy == ToSecrecy(ds[k].access)
  {
    ApplyDetailSecrecy(ApplyDetails(inc, ds[..|ds| - 1], mask), ds[|ds| - 1], mask);
    if k < |ds| - 1 {
      SecrecyFromLastClassification(inc, ds[..|ds| - 1], mask, k);
    }
  }

  /** The last written priority detail decides the stored priority, which is
      that priority's integer. */
  lemma {:induction false} PriorityFromLastDetail(inc: Incidence, ds: seq<Detail>,
                                                  mask: seq<DetailType>, k: nat)
    requires k < |ds| && ds[k].PriorityDetail? && Written(mask, TypePriority)
    requires forall j :: k < j < |ds| ==> !ds[j].PriorityDetail?
    ensures ApplyDetails(inc, ds, mask).priority == PriorityValue(ds[k].priority)
  {
    ApplyDetailPriority(ApplyDetails(inc, ds[..|ds| - 1], mask), ds[|ds| - 1], mask);
    if k < |ds| - 1 {
      PriorityFromLastDetail(inc, ds[..|ds| - 1], mask, k);
    }
  }

  /** updateIncidence writes summary, description and comments exactly when
      the mask lets them through; written comments are the item's comments,
      in order, replacing the old ones. */
  lemma UpdatedHeader(inc: Incidence, item: Item, mask: seq<DetailType>)
    ensures var r := UpdatedIncidence(inc, item, mask);
      && r.summary == (if Written(mask, TypeDisplayLabel) then item.displayLabel else inc.summary)
      && r.description == (if Written(mask, TypeDescription) then item.description else inc.description)
      && r.comments == (if Written(mask, TypeComment) then item.comments else inc.comments)
  {
    ApplyDetailsFrame(WithHeader(inc, item, mask), item.details, mask);
  }

  /** Each reminder detail the mask lets through appends exactly one alarm
      carrying the reminder's offset, repetition count and delay. */
  lemma {:induction false} AlarmsOfReminders(ds: seq<Detail>, mask: seq<DetailType>, k: nat)
    requires k < |ds|
    requires ds[k].AudibleReminderDetail? || ds[k].EmailReminderDetail? || ds[k].VisualReminderDetail?
    requires Written(mask, TypeOf(ds[k]))
    ensures |AlarmsOf(ds[..k], mask)| < |AlarmsOf(ds, mask)|
    ensures var a := AlarmsOf(ds, mask)[|AlarmsOf(ds[..k], mask)|];
      && a.startOffset == ds[k].reminder.secondsBeforeStart
      && a.repeatCount == ds[k].reminder.repetitionCount
      && a.snoozeTime == ds[k].reminder.repetitionDelay
  {
    if k == |ds| - 1 {
      assert ds[..|ds| - 1] == ds[..k];
    } else {
      assert ds[..|ds| - 1][..k] == ds[..k];
      AlarmsOfReminders(ds[..|ds| - 1], mask, k);
    }
  }

  /** The kind-specific pass only ever writes the kind's own times: start,
      end, due, all-day flag, completion and percentage. */
  lemma {:induction false} TimeDetailsOnlyTimes(kind: IncidenceKind, inc: Incidence,
                                                ds: seq<Detail>, mask: seq<DetailType>)
    ensures var r := ApplyTimeDetails(kind, inc, ds, mask);
      r == inc.(dtStart := r.dtStart, dtEnd := r.dtEnd, dtDue := r.dtDue, allDay := r.allDay,
                completed := r.completed, percentComplete := r.percentComplete)
    ensures kind == JournalKind ==>
      ApplyTimeDetails(kind, inc, ds, mask) == inc.(dtStart := ApplyTimeDetails(kind, inc, ds, mask).dtStart)
    ensures kind != TodoKind ==> ApplyTimeDetails(kind, inc, ds, mask).dtDue == inc.dtDue
  {
    if |ds| > 0 {
      TimeDetailsOnlyTimes(kind, inc, ds[..|ds| - 1], mask);
    }
  }

  /** An unwritten event-time detail type leaves the event's times as the
      incidence-level pass left them. */
  lemma {:induction false} EventTimesGated(inc: Incidence, ds: seq<Detail>, mask: seq<DetailType>)
    requires !Written(mask, TypeEventTime)
    ensures ApplyTimeDetails(EventKind, inc, ds, mask) == inc
  {
    if |ds| > 0 {
      EventTimesGated(inc, ds[..|ds| - 1], mask);
    }
  }

  /** Updating an incidence never changes what identifies it in a calendar:
      its kind, uid and recurrence id. */
  lemma UpdatedAsKeepsIdentity(kind: IncidenceKind, inc: Incidence, item: Item, mask: seq<DetailType>)
    ensures var r := UpdatedAs(kind, inc, item, mask);
      r.kind == inc.kind && r.uid == inc.uid && r.recurrenceId == inc.recurrenceId
  {
    ApplyDetailsFrame(WithHeader(inc, item, mask), item.details, mask);
    TimeDetailsOnlyTimes(kind, UpdatedIncidence(inc, item, mask), item.details, mask);
  }

  // --------------------------------------------- notebooks and collections

  /** QVariant, restricted to the kinds the metadata carries. */
  datatype Variant =
    | VNull
    | VBool(b: bool)
    | VString(s: string)
    | VInt(i: int)
    | VDateTime(dt: DateTime)
    | VStringList(l: seq<string>)

  /** An ASCII upper-case letter in lower case; every other character
      unchanged. */
  function LowerChar(c: char): char
  {
    if 'A' <= c <= 'Z' then (c as int - 'A' as int + 'a' as int) as char else c
  }

  /** QString::toLower as far as a comparison with "0" or "false" can
      tell: no character outside A-Z lowers to one of those letters, and
      one that lowers to something else stays unequal to them. */
  function AsciiLower(s: string): (r: string)
    ensures |r| == |s| && forall i :: 0 <= i < |s| ==> r[i] == LowerChar(s[i])
  {
    seq(|s|, i requires 0 <= i < |s| => LowerChar(s[i]))
  }

  /** The white space QString::trimmed removes: blank, tab, line feed,
      vertical tab, form feed and carriage return. */
  predicate IsSpace(c: char)
  {
    c == ' ' || '\t' <= c <= '\r'
  }

  function TrimStart(s: string): (r: string)
  {
    if |s| > 0 && IsSpace(s[0]) then TrimStart(s[1..]) else s
  }

  function TrimEnd(s: string): (r: string)
  {
    if |s| > 0 && IsSpace(s[|s| - 1]) then TrimEnd(s[..|s| - 1]) else s
  }

  /** A 64-bit value cast to a 32-bit int, keeping the low 32 bits. */
  function ToInt32(n: int): (r: int)
    ensures -0x8000_0000 <= r < 0x8000_0000
    ensures (r - n) % 0x1_0000_0000 == 0
    ensures -0x8000_0000 <= n < 0x8000_0000 ==> r == n
  {
    var m := n % 0x1_0000_0000;
    if m >= 0x8000_0000 then m - 0x1_0000_0000 else m
  }

  /** QString::toLongLong in base 10, cast to int as QVariant::toInt does:
      surrounding white space is skipped, a value that does not read or
      does not fit in 64 bits gives 0. */
  function StringToInt(s: string): int
  {
    match ParseInt(TrimEnd(TrimStart(s)))
    case Some(n) => if -0x8000_0000_0000_0000 <= n < 0x8000_0000_0000_0000 then ToInt32(n) else 0
    case None => 0
  }

  /** QVariant::toBool: a boolean as is, a number when non-zero, a string
      unless it lowers to "", "0" or "false"; no other kind converts. */
  function VariantToBool(v: Variant): bool
  {
    match v
    case VBool(b) => b
    case VString(s) => var t := AsciiLower(s); !(t == "" || t == "0" || t == "false")
    case VInt(i) => i != 0
    case _ => false
  }

  /** QVariant::toString: "true" or "false" for a boolean, the decimal
      text of a number, the text of a date-time, and the single element of
      a one-element string list; anything else is the empty string. */
  function VariantToString(v: Variant): string
  {
    match v
    case VString(s) => s
    case VBool(b) => if b then "true" else "false"
    case VInt(i) => IntText(i)
    case VDateTime(dt) => DateTimeText(dt)
    case VStringList(l) => if |l| == 1 then l[0] else ""
    case VNull => ""
  }

  /** QVariant::toInt: a number as is, a boolean as 1 or 0, a string read
      as a decimal integer; no other kind converts. */
  function VariantToInt(v: Variant): int
  {
    match v
    case VInt(i) => i
    case VBool(b) => if b then 1 else 0
    case VString(s) => StringToInt(s)
    case _ => 0
  }

  /** QVariant::toDateTime: only a date-time converts. */
  function VariantToDateTime(v: Variant): DateTime
  {
    match v
    case VDateTime(dt) => dt
    case _ => InvalidDateTime
  }

  /** QVariant::toStringList: a list as is, a string as a one-element
      list. */
  function VariantToStringList(v: Variant): seq<string>
  {
    match v
    case VStringList(l) => l
    case VString(s) => [s]
    case _ => []
  }

  /** The text of a boolean, in any letter case, reads back as that
      boolean. */
  lemma BoolTextIgnoresCase(b: bool, s: string)
    requires AsciiLower(s) == VariantToString(VBool(b))
    ensures VariantToBool(VString(s)) == b
  {
  }

  /** Lower-casing a string never changes what it reads as. */
  lemma {:induction false} BoolFromLowered(s: string)
    ensures VariantToBool(VString(AsciiLower(s))) == VariantToBool(VString(s))
  {
    assert AsciiLower(AsciiLower(s)) == AsciiLower(s);
  }

  /** The text of a 32-bit number reads back as that number, so a number
      stored as a custom property and read as an int survives. */
  lemma IntTextRoundTrip(i: int)
    requires -0x8000_0000 <= i < 0x8000_0000
    ensures VariantToInt(VString(VariantToString(VInt(i)))) == i
  {
    var t := IntText(i);
    IntTextParses(i);
    if i < 0 {
      assert t[0] == '-';
      assert t[|t| - 1] == NatText(-i)[|NatText(-i)| - 1];
    } else {
      assert t[0] == NatText(i)[0];
    }
    assert TrimStart(t) == t;
    assert TrimEnd(t) == t;
  }

  /** A one-element string list and its element convert into each other. */
  lemma StringListSingleton(s: string)
    ensures VariantToString(VStringList([s])) == s
    ensures VariantToStringList(VString(s)) == [s]
  {
  }


  /** QOrganizerCollection::MetaDataKey, without the extended key. */
  datatype MetaKey = KeyName | KeyDescription | KeyColor | KeySecondaryColor | KeyImage

  /** QOrganizerCollection: its id, its metadata and its extended metadata. */
  datatype Collection = Collection(
    id: Option<CollectionId>,
    metaData: map<MetaKey, Variant>,
    extendedMetaData: map<string, Variant>)

  /** QOrganizerCollection::metaData: a missing key reads as a null variant. */
  function MetaData(c: Collection, k: MetaKey): Variant
  {
    if k in c.metaData then c.metaData[k] else VNull
  }

  /** mKCal::Notebook. */
  datatype Notebook = Notebook(
    uid: string,
    name: string,
    description: string,
    color: string,
    isShared: bool,
    isMaster: bool,
    isSynchronized: bool,
    isReadOnly: bool,
    isVisible: bool,
    syncDate: DateTime,
    pluginName: string,
    account: string,
    attachmentSize: int,
    creationDate: DateTime,
    modifiedDate: DateTime,
    sharedWith: seq<string>,
    syncProfile: string,
    customProperties: map<string, string>)

  /** The extended-metadata keys that have a typed notebook field. */
  const KnownKeys: set<string> :=
    {"shared", "master", "synchronized", "readOnly", "visible", "syncDate", "creationDate",
     "modifiedDate", "pluginName", "account", "syncProfile", "attachmentSize", "sharedWith"}

  /** The custom properties that carry collection metadata. */
  const MetaProperties: set<string> := {"secondaryColor", "image"}

  /** The typed notebook field a known extended key reads. */
  function KnownValue(nb: Notebook, k: string): Variant
  {
    if k == "shared" then VBool(nb.isShared)
    else if k == "master" then VBool(nb.isMaster)
    else if k == "synchronized" then VBool(nb.isSynchronized)
    else if k == "readOnly" then VBool(nb.isReadOnly)
    else if k == "visible" then VBool(nb.isVisible)
    else if k == "syncDate" then VDateTime(nb.syncDate)
    else if k == "pluginName" then VString(nb.pluginName)
    else if k == "account" then VString(nb.account)
    else if k == "attachmentSize" then VInt(nb.attachmentSize)
    else if k == "creationDate" then VDateTime(nb.creationDate)
    else if k == "modifiedDate" then VDateTime(nb.modifiedDate)
    else if k == "sharedWith" then VStringList(nb.sharedWith)
    else VString(nb.syncProfile)
  }

  /** The typed notebook fields, as toCollection writes them. */
  function KnownExtended(nb: Notebook): map<string, Variant>
  {
    map k | k in KnownKeys :: KnownValue(nb, k)
  }

  /** The metadata toCollection writes: name, description and color, and the
      secondaryColor and image custom properties when present. */
  function NotebookMetaData(nb: Notebook): (m: map<MetaKey, Variant>)
    ensures KeyName in m && m[KeyName] == VString(nb.name)
    ensures KeyDescription in m && m[KeyDescription] == VString(nb.description)
    ensures KeyColor in m && m[KeyColor] == VString(nb.color)
    ensures KeySecondaryColor in m <==> "secondaryColor" in nb.customProperties
    ensures "secondaryColor" in nb.customProperties ==>
      m[KeySecondaryColor] == VString(nb.customProperties["secondaryColor"])
    ensures KeyImage in m <==> "image" in nb.customProperties
    ensures "image" in nb.customProperties ==> m[KeyImage] == VString(nb.customProperties["image"])
  {
    var cp := nb.customProperties;
    var meta := map[KeyName := VString(nb.name),
                    KeyDescription := VString(nb.description),
                    KeyColor := VString(nb.color)];
    var meta2 := if "secondaryColor" in cp then meta[KeySecondaryColor := VString(cp["secondaryColor"])] else meta;
    if "image" in cp then meta2[KeyImage := VString(cp["image"])] else meta2
  }

  /** The extended metadata toCollection writes: the typed fields, and every
      custom property other than secondaryColor and image, written after (so
      over) a typed field of the same name. */
  function NotebookExtendedMetaData(nb: Notebook): map<string, Variant>
  {
    var cp := nb.customProperties;
    KnownExtended(nb) + map k | k in cp && k !in MetaProperties :: VString(cp[k])
  }

  /** The extended metadata of a notebook holds exactly the typed keys and
      the custom properties other than secondaryColor and image; a custom
      property wins over a typed field of the same name. */
  lemma NotebookExtendedMetaDataKeys(nb: Notebook)
    ensures var m := NotebookExtendedMetaData(nb);
      && (forall k :: k in m <==> k in KnownKeys || (k in nb.customProperties && k !in MetaProperties))
      && (forall k :: k in nb.customProperties && k !in MetaProperties ==> m[k] == VString(nb.customProperties[k]))
      && (forall k :: k in KnownKeys && k !in nb.customProperties ==> m[k] == KnownValue(nb, k))
  {
  }

  /** toCollection: the collection id is the manager's uri with the
      notebook's uid. */
  function ToCollection(managerUri: string, nb: Notebook): (c: Collection)
    ensures c.id == Some(CollectionId(managerUri, nb.uid))
  {
    Collection(Some(CollectionId(managerUri, nb.uid)), NotebookMetaData(nb), NotebookExtendedMetaData(nb))
  }

  /** The fixed part of updateNotebook: name, description and color from the
      metadata, and the secondaryColor and image custom properties, always
      written even when the metadata is missing. */
  function WithMetaData(nb: Notebook, c: Collection): Notebook
  {
    nb.(name := VariantToString(MetaData(c, KeyName)),
        description := VariantToString(MetaData(c, KeyDescription)),
        color := VariantToString(MetaData(c, KeyColor)),
        customProperties := nb.customProperties
          ["secondaryColor" := VariantToString(MetaData(c, KeySecondaryColor))]
          ["image" := VariantToString(MetaData(c, KeyImage))])
  }

  /** One step of the extended-metadata loop of updateNotebook. */
  function ApplyExtendedKey(nb: Notebook, k: string, v: Variant): Notebook
  {
    if k == "shared" then nb.(isShared := VariantToBool(v))
    else if k == "master" then nb.(isMaster := VariantToBool(v))
    else if k == "synchronized" then nb.(isSynchronized := VariantToBool(v))
    else if k == "readOnly" then nb.(isReadOnly := VariantToBool(v))
    else if k == "visible" then nb.(isVisible := VariantToBool(v))
    else if k == "syncDate" then nb.(syncDate := VariantToDateTime(v))
    else if k == "creationDate" then nb.(creationDate := VariantToDateTime(v))
    else if k == "modifiedDate" then nb.(modifiedDate := VariantToDateTime(v))
    else if k == "pluginName" then nb.(pluginName := VariantToString(v))
    else if k == "account" then nb.(account := VariantToString(v))
    else if k == "syncProfile" then nb.(syncProfile := VariantToString(v))
    else if k == "attachmentSize" then nb.(attachmentSize := VariantToInt(v))
    else if k == "sharedWith" then nb.(sharedWith := VariantToStringList(v))
    else nb.(customProperties := nb.customProperties[k := VariantToString(v)])
  }

  /** The whole extended-metadata loop, which does not depend on the order
      of the keys since each key writes its own field. */
  function ApplyExtended(nb: Notebook, ext: map<string, Variant>): Notebook
  {
    nb.(isShared := if "shared" in ext then VariantToBool(ext["shared"]) else nb.isShared,
        isMaster := if "master" in ext then VariantToBool(ext["master"]) else nb.isMaster,
        isSynchronized := if "synchronized" in ext then VariantToBool(ext["synchronized"]) else nb.isSynchronized,
        isReadOnly := if "readOnly" in ext then VariantToBool(ext["readOnly"]) else nb.isReadOnly,
        isVisible := if "visible" in ext then VariantToBool(ext["visible"]) else nb.isVisible,
        syncDate := if "syncDate" in ext then VariantToDateTime(ext["syncDate"]) else nb.syncDate,
        creationDate := if "creationDate" in ext then VariantToDateTime(ext["creationDate"]) else nb.creationDate,
        modifiedDate := if "modifiedDate" in ext then VariantToDateTime(ext["modifiedDate"]) else nb.modifiedDate,
        pluginName := if "pluginName" in ext then VariantToString(ext["pluginName"]) else nb.pluginName,
        account := if "account" in ext then VariantToString(ext["account"]) else nb.account,
        syncProfile := if "syncProfile" in ext then VariantToString(ext["syncProfile"]) else nb.syncProfile,
        attachmentSize := if "attachmentSize" in ext then VariantToInt(ext["attachmentSize"]) else nb.attachmentSize,
        sharedWith := if "sharedWith" in ext then VariantToStringList(ext["sharedWith"]) else nb.sharedWith,
        customProperties := nb.customProperties + CustomFromExtended(ext))
  }

  /** The extended keys without a typed field, as custom properties. */
  function CustomFromExtended(ext: map<string, Variant>): map<string, string>
  {
    map k | k in ext && k !in KnownKeys :: VariantToString(ext[k])
  }

  /** updateNotebook as a function of the notebook before the call. */
  function UpdatedNotebook(nb: Notebook, c: Collection): (r: Notebook)
    ensures r.uid == nb.uid
  {
    ApplyExtended(WithMetaData(nb, c), c.extendedMetaData)
  }

  /** Adding one more key to the processed part of the extended metadata
      adds at most one custom property. */
  lemma CustomStep(ext: map<string, Variant>, k: string, v: Variant)
    requires k !in ext
    ensures k in KnownKeys ==> CustomFromExtended(ext[k := v]) == CustomFromExtended(ext)
    ensures k !in KnownKeys ==>
      CustomFromExtended(ext[k := v]) == CustomFromExtended(ext)[k := VariantToString(v)]
  {
  }

  // One lemma per typed key: adding that key to the processed part of the
  // extended metadata writes its own field and nothing else.

  lemma SharedKeyStep(nb: Notebook, ext: map<string, Variant>, v: Variant)
    requires "shared" !in ext
    ensures ApplyExtended(nb, ext["shared" := v]) == ApplyExtendedKey(ApplyExtended(nb, ext), "shared", v)
  {
    CustomStep(ext, "shared", v);
  }

  lemma MasterKeyStep(nb: Notebook, ext: map<string, Variant>, v: Variant)
    requires "master" !in ext
    ensures ApplyExtended(nb, ext["master" := v]) == ApplyExtendedKey(ApplyExtended(nb, ext), "master", v)
  {
    CustomStep(ext, "master", v);
  }

  lemma SynchronizedKeyStep(nb: Notebook, ext: map<string, Variant>, v: Variant)
    requires "synchronized" !in ext
    ensures ApplyExtended(nb, ext["synchronized" := v]) == ApplyExtendedKey(ApplyExtended(nb, ext), "synchronized", v)
  {
    CustomStep(ext, "synchronized", v);
  }

  lemma ReadOnlyKeyStep(nb: Notebook, ext: map<string, Variant>, v: Variant)
    requires "readOnly" !in ext
    ensures ApplyExtended(nb, ext["readOnly" := v]) == ApplyExtendedKey(ApplyExtended(nb, ext), "readOnly", v)
  {
    CustomStep(ext, "readOnly", v);
  }

  lemma VisibleKeyStep(nb: Notebook, ext: map<string, Variant>, v: Variant)
    requires "visible" !in ext
    ensures ApplyExtended(nb, ext["visible" := v]) == ApplyExtendedKey(ApplyExtended(nb, ext), "visible", v)
  {
    CustomStep(ext, "visible", v);
  }

  lemma SyncDateKeyStep(nb: Notebook, ext: map<string, Variant>, v: Variant)
    requires "syncDate" !in ext
    ensures ApplyExtended(nb, ext["syncDate" := v]) == ApplyExtendedKey(ApplyExtended(nb, ext), "syncDate", v)
  {
    CustomStep(ext, "syncDate", v);
  }

  lemma CreationDateKeyStep(nb: Notebook, ext: map<string, Variant>, v: Variant)
    requires "creationDate" !in ext
    ensures ApplyExtended(nb, ext["creationDate" := v]) == ApplyExtendedKey(ApplyExtended(nb, ext), "creationDate", v)
  {
    CustomStep(ext, "creationDate", v);
  }

  lemma ModifiedDateKeyStep(nb: Notebook, ext: map<string, Variant>, v: Variant)
    requires "modifiedDate" !in ext
    ensures ApplyExtended(nb, ext["modifiedDate" := v]) == ApplyExtendedKey(ApplyExtended(nb, ext), "modifiedDate", v)
  {
    CustomStep(ext, "modifiedDate", v);
  }

  lemma PluginNameKeyStep(nb: Notebook, ext: map<string, Variant>, v: Variant)
    requires "pluginName" !in ext
    ensures ApplyExtended(nb, ext["pluginName" := v]) == ApplyExtendedKey(ApplyExtended(nb, ext), "pluginName", v)
  {
    CustomStep(ext, "pluginName", v);
  }

  lemma AccountKeyStep(nb: Notebook, ext: map<string, Variant>, v: Variant)
    requires "account" !in ext
    ensures ApplyExtended(nb, ext["account" := v]) == ApplyExtendedKey(ApplyExtended(nb, ext), "account", v)
  {
    CustomStep(ext, "account", v);
  }

  lemma SyncProfileKeyStep(nb: Notebook, ext: map<string, Variant>, v: Variant)
    requires "syncProfile" !in ext
    ensures ApplyExtended(nb, ext["syncProfile" := v]) == ApplyExtendedKey(ApplyExtended(nb, ext), "syncProfile", v)
  {
    CustomStep(ext, "syncProfile", v);
  }

  lemma AttachmentSizeKeyStep(nb: Notebook, ext: map<string, Variant>, v: Variant)
    requires "attachmentSize" !in ext
    ensures ApplyExtended(nb, ext["attachmentSize" := v]) == ApplyExtendedKey(ApplyExtended(nb, ext), "attachmentSize", v)
  {
    CustomStep(ext, "attachmentSize", v);
  }

  lemma SharedWithKeyStep(nb: Notebook, ext: map<string, Variant>, v: Variant)
    requires "sharedWith" !in ext
    ensures ApplyExtended(nb, ext["sharedWith" := v]) == ApplyExtendedKey(ApplyExtended(nb, ext), "sharedWith", v)
  {
    CustomStep(ext, "sharedWith", v);
  }

  /** Adding one more key to the processed part of the extended metadata is
      one more loop step. */
  lemma ApplyExtendedStep(nb: Notebook, ext: map<string, Variant>, k: string, v: Variant)
    requires k !in ext
    ensures ApplyExtended(nb, ext[k := v]) == ApplyExtendedKey(ApplyExtended(nb, ext), k, v)
  {
    if k == "shared" {
      SharedKeyStep(nb, ext, v);
    } else if k == "master" {
      MasterKeyStep(nb, ext, v);
    } else if k == "synchronized" {
      SynchronizedKeyStep(nb, ext, v);
    } else if k == "readOnly" {
      ReadOnlyKeyStep(nb, ext, v);
    } else if k == "visible" {
      VisibleKeyStep(nb, ext, v);
    } else if k == "syncDate" {
      SyncDateKeyStep(nb, ext, v);
    } else if k == "creationDate" {
      CreationDateKeyStep(nb, ext, v);
    } else if k == "modifiedDate" {
      ModifiedDateKeyStep(nb, ext, v);
    } else if k == "pluginName" {
      PluginNameKeyStep(nb, ext, v);
    } else if k == "account" {
      AccountKeyStep(nb, ext, v);
    } else if k == "syncProfile" {
      SyncProfileKeyStep(nb, ext, v);
    } else if k == "attachmentSize" {
      AttachmentSizeKeyStep(nb, ext, v);
    } else if k == "sharedWith" {
      SharedWithKeyStep(nb, ext, v);
    } else {
      CustomStep(ext, k, v);
      OverrideUpdate(nb.customProperties, CustomFromExtended(ext), k, VariantToString(v));
      assert k != "shared" && k != "master" && k != "synchronized" && k != "readOnly"
        && k != "visible" && k != "syncDate" && k != "creationDate" && k != "modifiedDate"
        && k != "pluginName" && k != "account" && k != "syncProfile" && k != "attachmentSize"
        && k != "sharedWith";
    }
  }

  lemma OverrideUpdate<K, V>(m: map<K, V>, n: map<K, V>, k: K, v: V)
    ensures (m + n)[k := v] == m + n[k := v]
  {
  }

  /** updateNotebook: the metadata fields, then one step per extended key. */
  method UpdateNotebook(nb: Notebook, c: Collection) returns (r: Notebook)
    ensures r == UpdatedNotebook(nb, c)
  {
    r := nb.(name := VariantToString(MetaData(c, KeyName)));
    r := r.(description := VariantToString(MetaData(c, KeyDescription)));
    r := r.(color := VariantToString(MetaData(c, KeyColor)));
    r := r.(customProperties := r.customProperties["secondaryColor" := VariantToString(MetaData(c, KeySecondaryColor))]);
    r := r.(customProperties := r.customProperties["image" := VariantToString(MetaData(c, KeyImage))]);
    r := ApplyExtendedMetaData(r, c.extendedMetaData);
  }

  /** The extended-metadata loop of updateNotebook: one step per key. */
  method ApplyExtendedMetaData(base: Notebook, ext: map<string, Variant>) returns (r: Notebook)
    ensures r == ApplyExtended(base, ext)
  {
    r := base;
    var todo := ext.Keys;
    ghost var done: map<string, Variant> := map[];
    ApplyExtendedEmpty(base);
    while todo != {}
      invariant todo <= ext.Keys
      invariant done.Keys == ext.Keys - todo
      invariant forall j :: j in done ==> done[j] == ext[j]
      invariant r == ApplyExtended(base, done)
      decreases todo
    {
      var k :| k in todo;
      ApplyExtendedStep(base, done, k, ext[k]);
      r := ApplyExtendedKey(r, k, ext[k]);
      done := done[k := ext[k]];
      todo := todo - {k};
    }
    assert done == ext;
  }

  /** With no extended metadata the loop of updateNotebook changes nothing. */
  lemma ApplyExtendedEmpty(nb: Notebook)
    ensures ApplyExtended(nb, map[]) == nb
  {
    assert CustomFromExtended(map[]) == map[];
    assert nb.customProperties + map[] == nb.customProperties;
  }

  /** Writing a collection's metadata into a notebook and reading the
      notebook back gives the same name, description, color, secondary
      color and image, when all five are present as text and no extended
      key overwrites the two custom properties that carry the last two. */
  lemma MetaDataRoundTrip(managerUri: string, nb: Notebook, c: Collection)
    requires forall k :: k in c.metaData ==> c.metaData[k].VString?
    requires c.metaData.Keys == {KeyName, KeyDescription, KeyColor, KeySecondaryColor, KeyImage}
    requires "secondaryColor" !in c.extendedMetaData && "image" !in c.extendedMetaData
    ensures ToCollection(managerUri, UpdatedNotebook(nb, c)).metaData == c.metaData
  {
    UpdatedMetaData(nb, c);
    MetaDataReadBack(managerUri, UpdatedNotebook(nb, c), c);
  }

  /** A notebook holding a collection's five text metadata values reads back
      as that collection's metadata. */
  lemma MetaDataReadBack(managerUri: string, u: Notebook, c: Collection)
    requires forall k :: k in c.metaData ==> c.metaData[k].VString?
    requires c.metaData.Keys == {KeyName, KeyDescription, KeyColor, KeySecondaryColor, KeyImage}
    requires u.name == VariantToString(MetaData(c, KeyName))
    requires u.description == VariantToString(MetaData(c, KeyDescription))
    requires u.color == VariantToString(MetaData(c, KeyColor))
    requires "secondaryColor" in u.customProperties && "image" in u.customProperties
    requires u.customProperties["secondaryColor"] == VariantToString(MetaData(c, KeySecondaryColor))
    requires u.customProperties["image"] == VariantToString(MetaData(c, KeyImage))
    ensures ToCollection(managerUri, u).metaData == c.metaData
  {
    var read := NotebookMetaData(u);
    forall k | k in c.metaData ensures k in read && read[k] == c.metaData[k] {
      assert MetaData(c, k) == c.metaData[k];
    }
    assert read.Keys == c.metaData.Keys;
  }

  /** updateNotebook writes the five metadata values as text, the last two
      as custom properties that only an extended key of the same name can
      overwrite. */
  lemma UpdatedMetaData(nb: Notebook, c: Collection)
    requires "secondaryColor" !in c.extendedMetaData && "image" !in c.extendedMetaData
    ensures var u := UpdatedNotebook(nb, c);
      && u.name == VariantToString(MetaData(c, KeyName))
      && u.description == VariantToString(MetaData(c, KeyDescription))
      && u.color == VariantToString(MetaData(c, KeyColor))
      && "secondaryColor" in u.customProperties && "image" in u.customProperties
      && u.customProperties["secondaryColor"] == VariantToString(MetaData(c, KeySecondaryColor))
      && u.customProperties["image"] == VariantToString(MetaData(c, KeyImage))
  {
    assert "secondaryColor" !in CustomFromExtended(c.extendedMetaData);
    assert "image" !in CustomFromExtended(c.extendedMetaData);
  }

  /** updateNotebook sets each flag present in the extended metadata to
      that value's truth. */
  lemma UpdatedFlags(nb: Notebook, c: Collection, k: string)
    requires k in c.extendedMetaData && k in {"shared", "master", "synchronized", "readOnly", "visible"}
    ensures KnownValue(UpdatedNotebook(nb, c), k) == VBool(VariantToBool(c.extendedMetaData[k]))
  {
  }

  /** Writing a collection's extended metadata into a notebook and reading
      the notebook back gives the same flags, when the flags are booleans
      and the notebook has no custom property shadowing a typed key. */
  lemma FlagsRoundTrip(managerUri: string, nb: Notebook, c: Collection)
    requires forall k :: k in c.extendedMetaData && k in {"shared", "master", "synchronized", "readOnly", "visible"}
               ==> c.extendedMetaData[k].VBool?
    requires forall k :: k in nb.customProperties ==> k !in KnownKeys
    ensures var read := ToCollection(managerUri, UpdatedNotebook(nb, c));
      forall k :: k in c.extendedMetaData && k in {"shared", "master", "synchronized", "readOnly", "visible"}
        ==> k in read.extendedMetaData && read.extendedMetaData[k] == c.extendedMetaData[k]
  {
    forall k | k in c.extendedMetaData && k in {"shared", "master", "synchronized", "readOnly", "visible"}
      ensures var m := NotebookExtendedMetaData(UpdatedNotebook(nb, c));
        k in m && m[k] == c.extendedMetaData[k]
    {
      FlagReadBack(nb, c, k);
    }
  }

  /** One flag of the round trip above. */
  lemma FlagReadBack(nb: Notebook, c: Collection, k: string)
    requires k in c.extendedMetaData && k in {"shared", "master", "synchronized", "readOnly", "visible"}
    requires c.extendedMetaData[k].VBool?
    requires k !in nb.customProperties
    ensures var m := NotebookExtendedMetaData(UpdatedNotebook(nb, c));
      k in m && m[k] == c.extendedMetaData[k]
  {
    var u := UpdatedNotebook(nb, c);
    assert k !in CustomFromExtended(c.extendedMetaData);
    assert k !in u.customProperties;
    UpdatedFlags(nb, c, k);
    NotebookExtendedMetaDataKeys(u);
  }

  /** Writing a collection's extended metadata into a notebook and reading
      the notebook back gives the same text values for the keys without a
      typed field, unless they reuse the names of the two metadata custom
      properties. */
  lemma CustomRoundTrip(managerUri: string, nb: Notebook, c: Collection)
    requires forall k :: k in c.extendedMetaData && k !in KnownKeys ==> c.extendedMetaData[k].VString?
    requires "secondaryColor" !in c.extendedMetaData && "image" !in c.extendedMetaData
    ensures var read := ToCollection(managerUri, UpdatedNotebook(nb, c));
      forall k :: k in c.extendedMetaData && k !in KnownKeys
        ==> k in read.extendedMetaData && read.extendedMetaData[k] == c.extendedMetaData[k]
  {
    forall k | k in c.extendedMetaData && k !in KnownKeys
      ensures var m := NotebookExtendedMetaData(UpdatedNotebook(nb, c));
        k in m && m[k] == c.extendedMetaData[k]
    {
      CustomReadBack(nb, c, k);
    }
  }

  /** One text value of the round trip above. */
  lemma CustomReadBack(nb: Notebook, c: Collection, k: string)
    requires k in c.extendedMetaData && k !in KnownKeys && k !in MetaProperties
    requires c.extendedMetaData[k].VString?
    ensures var m := NotebookExtendedMetaData(UpdatedNotebook(nb, c));
      k in m && m[k] == c.extendedMetaData[k]
  {
    var u := UpdatedNotebook(nb, c);
    var custom := CustomFromExtended(c.extendedMetaData);
    UpdatedCustomProperties(nb, c);
    assert k in custom && custom[k] == VariantToString(c.extendedMetaData[k]);
    assert k in u.customProperties && u.customProperties[k] == custom[k];
    ExtendedCustomAt(u, k);
  }

  /** The custom properties updateNotebook leaves: those the metadata wrote,
      then the extended keys without a typed field. */
  lemma UpdatedCustomProperties(nb: Notebook, c: Collection)
    ensures UpdatedNotebook(nb, c).customProperties
      == WithMetaData(nb, c).customProperties + CustomFromExtended(c.extendedMetaData)
  {
  }

  /** A custom property other than secondaryColor and image is read back
      into the extended metadata as text. */
  lemma ExtendedCustomAt(nb: Notebook, k: string)
    requires k in nb.customProperties && k !in MetaProperties
    ensures var m := NotebookExtendedMetaData(nb);
      k in m && m[k] == VString(nb.customProperties[k])
  {
  }

  /** Saving a collection into a notebook and reading it back keeps its id
      (under the notebook's uid), its metadata and its extended metadata,
      under the conditions of the three lemmas above. */
  lemma SaveReadRoundTrip(managerUri: string, nb: Notebook, c: Collection)
    requires forall k :: k in c.metaData ==> c.metaData[k].VString?
    requires c.metaData.Keys == {KeyName, KeyDescription, KeyColor, KeySecondaryColor, KeyImage}
    requires forall k :: k in c.extendedMetaData && k in {"shared", "master", "synchronized", "readOnly", "visible"}
               ==> c.extendedMetaData[k].VBool?
    requires forall k :: k in c.extendedMetaData && k !in KnownKeys ==> c.extendedMetaData[k].VString?
    requires forall k :: k in nb.customProperties ==> k !in KnownKeys
    requires "secondaryColor" !in c.extendedMetaData && "image" !in c.extendedMetaData
    ensures var read := ToCollection(managerUri, UpdatedNotebook(nb, c));
      && read.id == Some(CollectionId(managerUri, nb.uid))
      && read.metaData == c.metaData
      && (forall k :: k in c.extendedMetaData && k in {"shared", "master", "synchronized", "readOnly", "visible"}
            ==> k in read.extendedMetaData && read.extendedMetaData[k] == c.extendedMetaData[k])
      && (forall k :: k in c.extendedMetaData && k !in KnownKeys
            ==> k in read.extendedMetaData && read.extendedMetaData[k] == c.extendedMetaData[k])
  {
    MetaDataRoundTrip(managerUri, nb, c);
    FlagsRoundTrip(managerUri, nb, c);
    CustomRoundTrip(managerUri, nb, c);
  }
}
