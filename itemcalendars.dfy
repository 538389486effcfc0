/** ItemCalendars (src/itemcalendars.cpp): the in-memory calendar of
    incidences, keyed by uid and recurrence id, and the dispatch that turns
    a QtOrganizer item into an added, updated or removed incidence. */
module ItemCals {
  import opened Types
  import opened Helper

  /** What identifies an incidence in a calendar: its uid, and its
      recurrence id when it is an exception of a recurring incidence. */
  datatype Key = Key(uid: string, recurrenceId: Option<DateTime>)

  function KeyOf(inc: Incidence): Key
  {
    Key(inc.uid, inc.recurrenceId)
  }

  /** A QDateTime used as a recurrence id: the null date-time names the
      main incidence. */
  function RecurrenceKey(dt: DateTime): (r: Option<DateTime>)
    ensures r.None? <==> dt == InvalidDateTime
    ensures r.Some? ==> r.value == dt
  {
    if dt == InvalidDateTime then None else Some(dt)
  }

  /** Calendar::createException: a copy of the parent for one occurrence,
      with its recurrence id and start set to that occurrence, no recurrence
      of its own, created and modified now, at revision 0. */
  function CreateException(parent: Incidence, recurId: DateTime, now: DateTime): (r: Incidence)
    ensures r.kind == parent.kind && r.uid == parent.uid
    ensures r.recurrenceId == RecurrenceKey(recurId) && r.dtStart == recurId
    ensures r.recurrence == NoRecurrence
  {
    parent.(recurrenceId := RecurrenceKey(recurId), dtStart := recurId, recurrence := NoRecurrence,
            created := now, lastModified := now, revision := 0)
  }

  /** The local id of the parent named by the item's parent detail; empty
      when the item has none. */
  function ParentUid(item: Item): string
  {
    if item.parent.Some? then item.parent.value.parentId.localId else ""
  }

  /** The original date of the item's parent detail; invalid when the item
      has none. */
  function OriginalDate(item: Item): Date
  {
    if item.parent.Some? then item.parent.value.originalDate else InvalidDate
  }

  /** The uid updateItem and removeItem work on: the parent's when the item
      has a parent detail, the item's own local id otherwise. */
  function ItemUid(item: Item): (uid: string)
    ensures item.parent.Some? ==> uid == item.parent.value.parentId.localId
    ensures item.parent.None? ==> uid == LocalIdOf(item.id)
  {
    if item.parent.Some? then item.parent.value.parentId.localId else LocalIdOf(item.id)
  }

  /** The incidence kind an item type stands for, if any. */
  function KindOf(t: ItemType): Option<IncidenceKind>
  {
    match t
    case TypeEvent => Some(EventKind)
    case TypeEventOccurrence => Some(EventKind)
    case TypeTodo => Some(TodoKind)
    case TypeTodoOccurrence => Some(TodoKind)
    case TypeJournal => Some(JournalKind)
    case _ => None
  }

  predicate IsOccurrence(t: ItemType)
  {
    t == TypeEventOccurrence || t == TypeTodoOccurrence
  }

  /** The exception addItem builds for an occurrence: the parent is any
      incidence stored under the parent uid, and the recurrence id is the
      parent's start with its date replaced by the original date. */
  function ExceptionFor(incs: map<Key, Incidence>, item: Item, kind: IncidenceKind, now: DateTime): Option<Incidence>
  {
    var pk := Key(ParentUid(item), None);
    if pk !in incs then None
    else
      var recurId := WithDate(incs[pk].dtStart, OriginalDate(item));
      Some(UpdatedAs(kind, CreateException(incs[pk], recurId, now), item, []))
  }

  /** The incidence addItem builds before storing it, if any. */
  function NewIncidenceFor(incs: map<Key, Incidence>, item: Item, freshUid: string, now: DateTime): Option<Incidence>
  {
    match item.itemType
    case TypeEvent => Some(UpdatedAs(EventKind, NewIncidence(EventKind, freshUid), item, []))
    case TypeEventOccurrence => ExceptionFor(incs, item, EventKind, now)
    case TypeTodo => Some(UpdatedAs(TodoKind, NewIncidence(TodoKind, freshUid), item, []))
    case TypeTodoOccurrence => ExceptionFor(incs, item, TodoKind, now)
    case TypeJournal => Some(UpdatedAs(JournalKind, NewIncidence(JournalKind, freshUid), item, []))
    case _ => None
  }

  /** The notebook addItem stores into: the item's collection, or the
      calendar's default notebook when the collection's local id is empty. */
  function TargetNotebook(item: Item, defaultNotebookUid: string): string
  {
    var nbuid := if item.collectionId.Some? then item.collectionId.value.localId else "";
    if nbuid == "" then defaultNotebookUid else nbuid
  }

  /** Where updateItem writes. */
  datatype Target = NoTarget | MissingParent | Target(kind: IncidenceKind, key: Key)

  /** The target of an occurrence: with a parent detail, the parent of the
      right kind must exist and the key carries the derived recurrence id;
      without one, the item's own id is used as for a main incidence. */
  function OccurrenceTarget(incs: map<Key, Incidence>, item: Item, kind: IncidenceKind): Target
  {
    var uid := ItemUid(item);
    if item.parent.None? then Target(kind, Key(uid, None))
    else
      var pk := Key(uid, None);
      if pk in incs && incs[pk].kind == kind
      then Target(kind, Key(uid, RecurrenceKey(WithDate(incs[pk].dtStart, OriginalDate(item)))))
      else MissingParent
  }

  function UpdateTarget(incs: map<Key, Incidence>, item: Item): Target
  {
    match item.itemType
    case TypeEventOccurrence => OccurrenceTarget(incs, item, EventKind)
    case TypeEvent => Target(EventKind, Key(ItemUid(item), None))
    case TypeTodoOccurrence => OccurrenceTarget(incs, item, TodoKind)
    case TypeTodo => Target(TodoKind, Key(ItemUid(item), None))
    case TypeJournal => Target(JournalKind, Key(ItemUid(item), None))
    case _ => NoTarget
  }

  /** Whether a target names a stored incidence of its kind. */
  predicate Found(incs: map<Key, Incidence>, t: Target)
  {
    t.Target? && t.key in incs && incs[t.key].kind == t.kind
  }

  /** What removeItem does. */
  datatype Removal =
    | RemoveNothing
    | ExcludeOccurrence(parentKey: Key, date: Date, recurId: DateTime)
    | Delete(key: Key)

  function DeleteIfFound(incs: map<Key, Incidence>, k: Key, kind: IncidenceKind): Removal
  {
    if k in incs && incs[k].kind == kind then Delete(k) else RemoveNothing
  }

  /** An occurrence needs a parent detail and a parent of the right kind; a
      stored exception is deleted, otherwise the occurrence is excluded from
      the parent. */
  function OccurrenceRemoval(incs: map<Key, Incidence>, item: Item, kind: IncidenceKind): Removal
  {
    var uid := ItemUid(item);
    var pk := Key(uid, None);
    if item.parent.None? || !(pk in incs && incs[pk].kind == kind) then RemoveNothing
    else
      var recurId := WithDate(incs[pk].dtStart, item.parent.value.originalDate);
      var k := Key(uid, RecurrenceKey(recurId));
      if k in incs && incs[k].kind == kind then Delete(k)
      else ExcludeOccurrence(pk, item.parent.value.originalDate, recurId)
  }

  function RemovalFor(incs: map<Key, Incidence>, item: Item): Removal
  {
    match item.itemType
    case TypeEventOccurrence => OccurrenceRemoval(incs, item, EventKind)
    case TypeEvent => DeleteIfFound(incs, Key(ItemUid(item), None), EventKind)
    case TypeTodoOccurrence => OccurrenceRemoval(incs, item, TodoKind)
    case TypeTodo => DeleteIfFound(incs, Key(ItemUid(item), None), TodoKind)
    case TypeJournal => DeleteIfFound(incs, Key(ItemUid(item), None), JournalKind)
    case _ => RemoveNothing
  }

  /** The parent with one occurrence excluded: by date when the parent is
      all-day, by date-time otherwise. */
  function Excluded(parent: Incidence, date: Date, recurId: DateTime): Incidence
  {
    var rec := parent.recurrence;
    if parent.allDay then parent.(recurrence := rec.(exDates := rec.exDates + {date}))
    else parent.(recurrence := rec.(exDateTimes := rec.exDateTimes + {recurId}))
  }

  /** Incidence::instanceIdentifier: the uid of a main incidence, the uid
      and the recurrence id of an exception. */
  function InstanceIdentifier(k: Key): (s: string)
    ensures k.recurrenceId.None? ==> s == k.uid
    ensures k.recurrenceId.Some? ==> |s| > |k.uid| && s[..|k.uid|] == k.uid
  {
    if k.recurrenceId.None? then k.uid else k.uid + "-" + DateTimeText(k.recurrenceId.value)
  }

  /** The state of a calendar: its incidences and the notebook each one
      belongs to. */
  datatype Calendar = Calendar(incidences: map<Key, Incidence>, notebookOf: map<Key, string>)

  /** Each incidence is stored under its own key and belongs to a notebook. */
  ghost predicate WellKeyed(cal: Calendar)
  {
    && (forall k :: k in cal.incidences ==> KeyOf(cal.incidences[k]) == k)
    && cal.incidences.Keys == cal.notebookOf.Keys
  }

  /** addItem as a function of the calendar before the call: the calendar
      after it, and the local id returned. The incidence is stored when the
      storage accepts it, the target notebook is named and no incidence with
      its key is stored yet; the id is then its uid, otherwise empty. */
  function AfterAdd(cal: Calendar, item: Item, defaultNotebookUid: string, freshUid: string,
                    now: DateTime, accepted: bool): (Calendar, string)
  {
    var planned := NewIncidenceFor(cal.incidences, item, freshUid, now);
    var target := TargetNotebook(item, defaultNotebookUid);
    if planned.Some? && accepted && target != "" && KeyOf(planned.value) !in cal.incidences
    then (Calendar(cal.incidences[KeyOf(planned.value) := planned.value],
                   cal.notebookOf[KeyOf(planned.value) := target]),
          planned.value.uid)
    else (cal, "")
  }

  /** updateItem as a function of the calendar before the call: only the
      target incidence, when it is found, is rewritten from the item. */
  function AfterUpdate(cal: Calendar, item: Item, mask: seq<DetailType>): (Calendar, bool)
  {
    var t := UpdateTarget(cal.incidences, item);
    if Found(cal.incidences, t)
    then (cal.(incidences := cal.incidences[t.key := UpdatedAs(t.kind, cal.incidences[t.key], item, mask)]), true)
    else (cal, false)
  }

  /** removeItem as a function of the calendar before the call. */
  function AfterRemove(cal: Calendar, item: Item, deleteOk: bool): (Calendar, bool)
  {
    match RemovalFor(cal.incidences, item)
    case RemoveNothing => (cal, false)
    case ExcludeOccurrence(pk, date, recurId) =>
      (cal.(incidences := cal.incidences[pk := Excluded(cal.incidences[pk], date, recurId)]), true)
    case Delete(k) =>
      if deleteOk then (Calendar(cal.incidences - {k}, cal.notebookOf - {k}), true) else (cal, false)
  }

  class ItemCalendars {
    var incidences: map<Key, Incidence>
    var notebookOf: map<Key, string>

    function State(): Calendar
      reads this
    {
      Calendar(incidences, notebookOf)
    }

    ghost predicate Valid()
      reads this
    {
      WellKeyed(State())
    }

    constructor ()
      ensures Valid() && incidences == map[] && notebookOf == map[]
    {
      incidences := map[];
      notebookOf := map[];
    }

    /** ExtendedCalendar::notebook(incidence): the notebook uid of a stored
        incidence, empty for one the calendar does not hold. */
    function NotebookOf(k: Key): string
      reads this
    {
      if k in notebookOf then notebookOf[k] else ""
    }

    /** ExtendedCalendar::addIncidence: refused without a notebook uid or
        when an incidence with the same key is stored already. */
    method AddIncidence(inc: Incidence, notebookUid: string, accepted: bool) returns (added: bool)
      requires Valid()
      modifies this
      ensures Valid()
      ensures added <==> accepted && notebookUid != "" && KeyOf(inc) !in old(incidences)
      ensures incidences == if added then old(incidences)[KeyOf(inc) := inc] else old(incidences)
      ensures notebookOf == if added then old(notebookOf)[KeyOf(inc) := notebookUid] else old(notebookOf)
    {
      added := accepted && notebookUid != "" && KeyOf(inc) !in incidences;
      if added {
        incidences := incidences[KeyOf(inc) := inc];
        notebookOf := notebookOf[KeyOf(inc) := notebookUid];
      }
    }

    /** Calendar::deleteIncidence on a stored incidence. */
    method DeleteIncidence(k: Key, ok: bool) returns (deleted: bool)
      requires Valid() && k in incidences
      modifies this
      ensures Valid()
      ensures deleted == ok
      ensures incidences == if deleted then old(incidences) - {k} else old(incidences)
      ensures notebookOf == if deleted then old(notebookOf) - {k} else old(notebookOf)
    {
      deleted := ok;
      if deleted {
        incidences := incidences - {k};
        notebookOf := notebookOf - {k};
      }
    }

    /** Calendar::instance: the stored incidence with this instance
        identifier, if any. */
    method Instance(identifier: string) returns (found: Option<Key>)
      requires Valid()
      ensures found.Some? ==> found.value in incidences && InstanceIdentifier(found.value) == identifier
      ensures found.None? ==> forall k :: k in incidences ==> InstanceIdentifier(k) != identifier
    {
      if exists k :: k in incidences && InstanceIdentifier(k) == identifier {
        var k :| k in incidences && InstanceIdentifier(k) == identifier;
        found := Some(k);
      } else {
        found := None;
      }
    }

    /** The first half of ItemCalendars::addItem: the incidence built for
        the item, a new one of the item's kind or, for an occurrence, an
        exception of the parent stored under the parent uid. */
    method BuildIncidence(item: Item, freshUid: string, now: DateTime) returns (r: Option<Incidence>)
      ensures r == NewIncidenceFor(incidences, item, freshUid, now)
    {
      r := None;
      match item.itemType {
        case TypeEvent =>
          var inc := UpdateEvent(NewIncidence(EventKind, freshUid), item, []);
          r := Some(inc);
        case TypeEventOccurrence =>
          var pk := Key(ParentUid(item), None);
          if pk in incidences {
            var recurId := WithDate(incidences[pk].dtStart, OriginalDate(item));
            var inc := UpdateEvent(CreateException(incidences[pk], recurId, now), item, []);
            r := Some(inc);
          }
        case TypeTodo =>
          var inc := UpdateTodo(NewIncidence(TodoKind, freshUid), item, []);
          r := Some(inc);
        case TypeTodoOccurrence =>
          var pk := Key(ParentUid(item), None);
          if pk in incidences {
            var recurId := WithDate(incidences[pk].dtStart, OriginalDate(item));
            var inc := UpdateTodo(CreateException(incidences[pk], recurId, now), item, []);
            r := Some(inc);
          }
        case TypeJournal =>
          var inc := UpdateJournal(NewIncidence(JournalKind, freshUid), item, []);
          r := Some(inc);
        case _ =>
      }
    }

    /** ItemCalendars::addItem: builds the incidence for the item, stores it
        in the target notebook and returns its uid, or the empty string when
        nothing was stored. */
    method AddItem(item: Item, defaultNotebookUid: string, freshUid: string, now: DateTime, accepted: bool)
      returns (localId: string)
      requires Valid()
      modifies this
      ensures Valid()
      ensures (State(), localId) == AfterAdd(old(State()), item, defaultNotebookUid, freshUid, now, accepted)
    {
      var newIncidence := BuildIncidence(item, freshUid, now);
      localId := "";
      if newIncidence.Some? {
        var valid;
        var nbuid := if item.collectionId.Some? then item.collectionId.value.localId else "";
        if nbuid == "" {
          valid := AddIncidence(newIncidence.value, defaultNotebookUid, accepted);
        } else {
          valid := AddIncidence(newIncidence.value, nbuid, accepted);
        }
        if valid {
          localId := newIncidence.value.uid;
        }
      }
    }

    /** The update of one stored incidence of the given kind. */
    method UpdateAt(kind: IncidenceKind, k: Key, item: Item, mask: seq<DetailType>) returns (found: bool)
      requires Valid()
      modifies this
      ensures Valid()
      ensures found <==> k in old(incidences) && old(incidences)[k].kind == kind
      ensures incidences == if found then old(incidences)[k := UpdatedAs(kind, old(incidences)[k], item, mask)]
                            else old(incidences)
      ensures notebookOf == old(notebookOf)
    {
      found := k in incidences && incidences[k].kind == kind;
      if found {
        var inc := incidences[k];
        var r;
        match kind {
          case EventKind => r := UpdateEvent(inc, item, mask);
          case TodoKind => r := UpdateTodo(inc, item, mask);
          case JournalKind => r := UpdateJournal(inc, item, mask);
        }
        UpdatedAsKeepsIdentity(kind, inc, item, mask);
        incidences := incidences[k := r];
      }
    }

    /** ItemCalendars::updateItem: false when an occurrence's parent is
        missing; otherwise true exactly when the target incidence exists, in
        which case it alone is rewritten from the item. */
    method UpdateItem(item: Item, mask: seq<DetailType>) returns (updated: bool)
      requires Valid()
      modifies this
      ensures Valid()
      ensures (State(), updated) == AfterUpdate(old(State()), item, mask)
    {
      var uid := ItemUid(item);
      var recurId := InvalidDateTime;
      match item.itemType {
        case TypeEventOccurrence =>
          if item.parent.Some? {
            var pk := Key(uid, None);
            if pk in incidences && incidences[pk].kind == EventKind {
              recurId := WithDate(incidences[pk].dtStart, item.parent.value.originalDate);
            } else {
              return false;
            }
          }
          updated := UpdateAt(EventKind, Key(uid, RecurrenceKey(recurId)), item, mask);
        case TypeEvent =>
          updated := UpdateAt(EventKind, Key(uid, RecurrenceKey(recurId)), item, mask);
        case TypeTodoOccurrence =>
          if item.parent.Some? {
            var pk := Key(uid, None);
            if pk in incidences && incidences[pk].kind == TodoKind {
              recurId := WithDate(incidences[pk].dtStart, item.parent.value.originalDate);
            } else {
              return false;
            }
          }
          updated := UpdateAt(TodoKind, Key(uid, RecurrenceKey(recurId)), item, mask);
        case TypeTodo =>
          updated := UpdateAt(TodoKind, Key(uid, RecurrenceKey(recurId)), item, mask);
        case TypeJournal =>
          updated := UpdateAt(JournalKind, Key(uid, None), item, mask);
        case _ =>
          updated := false;
      }
    }

    /** The lookups of ItemCalendars::removeItem: the incidence to delete,
        or the parent to exclude an occurrence from. */
    method PlanRemoval(item: Item) returns (plan: Removal)
      ensures plan == RemovalFor(incidences, item)
    {
      var uid := ItemUid(item);
      var kind: IncidenceKind;
      match item.itemType {
        case TypeEventOccurrence => kind := EventKind;
        case TypeEvent => kind := EventKind;
        case TypeTodoOccurrence => kind := TodoKind;
        case TypeTodo => kind := TodoKind;
        case TypeJournal => kind := JournalKind;
        case _ => return RemoveNothing;
      }
      if IsOccurrence(item.itemType) {
        if item.parent.None? {
          return RemoveNothing;
        }
        var pk := Key(uid, None);
        if !(pk in incidences && incidences[pk].kind == kind) {
          return RemoveNothing;
        }
        var recurId := WithDate(incidences[pk].dtStart, item.parent.value.originalDate);
        var k := Key(uid, RecurrenceKey(recurId));
        if k in incidences && incidences[k].kind == kind {
          plan := Delete(k);
        } else {
          plan := ExcludeOccurrence(pk, item.parent.value.originalDate, recurId);
        }
      } else {
        var k := Key(uid, None);
        plan := if k in incidences && incidences[k].kind == kind then Delete(k) else RemoveNothing;
      }
    }

    /** ItemCalendars::removeItem: an occurrence with a stored exception, or a
        main incidence, is deleted (true iff the deletion succeeds); an
        occurrence of an existing parent without a stored exception is
        excluded from the parent instead, and true is returned. */
    method RemoveItem(item: Item, deleteOk: bool) returns (removed: bool)
      requires Valid()
      modifies this
      ensures Valid()
      ensures (State(), removed) == AfterRemove(old(State()), item, deleteOk)
    {
      var plan := PlanRemoval(item);
      match plan {
        case RemoveNothing =>
          removed := false;
        case ExcludeOccurrence(pk, date, recurId) =>
          incidences := incidences[pk := Excluded(incidences[pk], date, recurId)];
          removed := true;
        case Delete(k) =>
          removed := DeleteIncidence(k, deleteOk);
      }
    }
  }

  // ------------------------------------------------------------ properties

  /** addItem builds an incidence of the kind the item type names, and
      nothing for an item type that names none; an exception keeps the
      parent's kind and uid and carries the derived recurrence id. */
  lemma NewIncidenceKinds(incs: map<Key, Incidence>, item: Item, freshUid: string, now: DateTime)
    requires forall k :: k in incs ==> KeyOf(incs[k]) == k
    ensures var r := NewIncidenceFor(incs, item, freshUid, now);
      && (KindOf(item.itemType).None? ==> r.None?)
      && (KindOf(item.itemType).Some? && !IsOccurrence(item.itemType) ==>
            r.Some? && r.value.kind == KindOf(item.itemType).value
            && r.value.uid == freshUid && r.value.recurrenceId == None)
      && (IsOccurrence(item.itemType) ==>
            var pk := Key(ParentUid(item), None);
            && (r.Some? <==> pk in incs)
            && (r.Some? ==>
                  && r.value.kind == incs[pk].kind && r.value.uid == ParentUid(item)
                  && r.value.recurrenceId == RecurrenceKey(WithDate(incs[pk].dtStart, OriginalDate(item)))))
  {
    var r := NewIncidenceFor(incs, item, freshUid, now);
    if KindOf(item.itemType).Some? {
      var kind := KindOf(item.itemType).value;
      if IsOccurrence(item.itemType) {
        var pk := Key(ParentUid(item), None);
        if pk in incs {
          var e := CreateException(incs[pk], WithDate(incs[pk].dtStart, OriginalDate(item)), now);
          UpdatedAsKeepsIdentity(kind, e, item, []);
        }
      } else {
        UpdatedAsKeepsIdentity(kind, NewIncidence(kind, freshUid), item, []);
      }
    }
  }

  /** updateItem's target: the key's uid is the parent's when the item has a
      parent detail and the item's own otherwise; only an occurrence with a
      parent detail gets a recurrence id, the parent's start with the
      original date; a missing parent is reported only for such an
      occurrence; an item type naming no incidence has no target. */
  lemma UpdateTargetShape(incs: map<Key, Incidence>, item: Item)
    ensures var t := UpdateTarget(incs, item);
      && (KindOf(item.itemType).None? <==> t.NoTarget?)
      && (t.MissingParent? ==> IsOccurrence(item.itemType) && item.parent.Some?
                               && (Key(ParentUid(item), None) !in incs
                                   || incs[Key(ParentUid(item), None)].kind != KindOf(item.itemType).value))
      && (t.Target? ==>
            && t.kind == KindOf(item.itemType).value
            && t.key.uid == ItemUid(item)
            && (t.key.recurrenceId.Some? ==>
                  IsOccurrence(item.itemType) && item.parent.Some?
                  && t.key.recurrenceId.value
                     == WithDate(incs[Key(ItemUid(item), None)].dtStart, item.parent.value.originalDate)))
  {
  }

  /** removeItem of an occurrence whose parent exists but which has no stored
      exception deletes nothing: it excludes the original date (all-day
      parent) or the derived recurrence id (otherwise) from the parent, and
      every other incidence is left as it was. */
  lemma ExcludedOccurrence(incs: map<Key, Incidence>, item: Item)
    requires RemovalFor(incs, item).ExcludeOccurrence?
    ensures var x := RemovalFor(incs, item);
      && IsOccurrence(item.itemType) && item.parent.Some?
      && x.parentKey == Key(ParentUid(item), None) && x.parentKey in incs
      && x.date == item.parent.value.originalDate
      && x.recurId == WithDate(incs[x.parentKey].dtStart, x.date)
      && (Key(ParentUid(item), RecurrenceKey(x.recurId)) !in incs
          || incs[Key(ParentUid(item), RecurrenceKey(x.recurId))].kind != incs[x.parentKey].kind)
      && var p := Excluded(incs[x.parentKey], x.date, x.recurId);
         && (incs[x.parentKey].allDay ==>
               p.recurrence.exDates == incs[x.parentKey].recurrence.exDates + {x.date})
         && (!incs[x.parentKey].allDay ==>
               p.recurrence.exDateTimes == incs[x.parentKey].recurrence.exDateTimes + {x.recurId})
         && KeyOf(p) == KeyOf(incs[x.parentKey])
  {
  }

  /** removeItem of an occurrence without a parent detail, or of an item type
      naming no incidence, never removes anything. */
  lemma RemoveNeedsParent(incs: map<Key, Incidence>, item: Item)
    requires (IsOccurrence(item.itemType) && item.parent.None?) || KindOf(item.itemType).None?
    ensures RemovalFor(incs, item) == RemoveNothing
  {
  }

  /** addItem stores at most one incidence: a new key, for the incidence
      built from the item, in the target notebook; every stored incidence is
      left as it was, and a non-empty id is returned only when one was
      stored. */
  lemma AfterAddStoresOne(cal: Calendar, item: Item, defaultNotebookUid: string, freshUid: string,
                          now: DateTime, accepted: bool)
    requires WellKeyed(cal)
    ensures var (c, id) := AfterAdd(cal, item, defaultNotebookUid, freshUid, now, accepted);
      && WellKeyed(c)
      && (forall k :: k in cal.incidences ==> k in c.incidences && c.incidences[k] == cal.incidences[k]
                                              && c.notebookOf[k] == cal.notebookOf[k])
      && (c == cal || exists k :: k !in cal.incidences && c.incidences.Keys == cal.incidences.Keys + {k}
                                  && c.incidences[k] == NewIncidenceFor(cal.incidences, item, freshUid, now).value
                                  && c.notebookOf[k] == TargetNotebook(item, defaultNotebookUid))
      && (id != "" ==> c != cal)
  {
    var planned := NewIncidenceFor(cal.incidences, item, freshUid, now);
    var (c, id) := AfterAdd(cal, item, defaultNotebookUid, freshUid, now, accepted);
    if c != cal {
      var k := KeyOf(planned.value);
      assert c.incidences.Keys == cal.incidences.Keys + {k};
    }
  }

  /** updateItem keeps the keys and notebooks of the calendar and changes at
      most the target incidence, which keeps its key. */
  lemma AfterUpdateChangesTarget(cal: Calendar, item: Item, mask: seq<DetailType>)
    requires WellKeyed(cal)
    ensures var (c, updated) := AfterUpdate(cal, item, mask);
      var t := UpdateTarget(cal.incidences, item);
      && WellKeyed(c)
      && c.incidences.Keys == cal.incidences.Keys && c.notebookOf == cal.notebookOf
      && (updated <==> Found(cal.incidences, t))
      && (forall k :: k in cal.incidences && (!updated || k != t.key) ==> c.incidences[k] == cal.incidences[k])
  {
    var t := UpdateTarget(cal.incidences, item);
    if Found(cal.incidences, t) {
      UpdatedAsKeepsIdentity(t.kind, cal.incidences[t.key], item, mask);
    }
  }

  /** removeItem deletes at most one incidence, and none when it excludes an
      occurrence from its parent; it reports success exactly when it
      excluded an occurrence or its deletion went through. */
  lemma AfterRemoveDeletesAtMostOne(cal: Calendar, item: Item, deleteOk: bool)
    requires WellKeyed(cal)
    ensures var (c, removed) := AfterRemove(cal, item, deleteOk);
      var x := RemovalFor(cal.incidences, item);
      && WellKeyed(c)
      && (x.ExcludeOccurrence? ==> removed && c.incidences.Keys == cal.incidences.Keys)
      && (x.Delete? ==> removed == deleteOk && x.key in cal.incidences
                        && c.incidences.Keys == (if deleteOk then cal.incidences.Keys - {x.key} else cal.incidences.Keys))
      && (x.RemoveNothing? ==> !removed && c == cal)
  {
    match RemovalFor(cal.incidences, item)
    case RemoveNothing =>
    case ExcludeOccurrence(pk, date, recurId) =>
      var c := AfterRemove(cal, item, deleteOk).0;
      assert KeyOf(Excluded(cal.incidences[pk], date, recurId)) == pk;
      assert c.incidences.Keys == cal.incidences.Keys;
    case Delete(k) =>
  }
}
