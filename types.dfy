/** Values shared by every part of the model: optional values, dates and
    date-times, identifiers of items and collections, and the error codes
    a QtOrganizer manager engine reports. */
module Types {

  datatype Option<T> = None | Some(value: T)

  /** QDate. InvalidDate is the value a default-constructed QDate has, for
      instance the original date of an absent parent detail. */
  datatype Date = InvalidDate | Date(year: int, month: int, day: int)

  /** QDateTime reduced to an opaque (date, time of day, zone) record; no
      calendar or time-zone arithmetic is modelled. */
  datatype DateTime = InvalidDateTime | At(date: Date, time: nat, zone: string)

  /** QDateTime::setDate: only the date part is replaced. An invalid
      date-time takes midnight as its time, and an invalid date makes the
      whole value invalid. */
  function WithDate(dt: DateTime, d: Date): (r: DateTime)
    ensures d != InvalidDate ==> r.At? && r.date == d
    ensures d != InvalidDate && dt.At? ==> r.time == dt.time && r.zone == dt.zone
    ensures d == InvalidDate ==> r == InvalidDateTime
  {
    if d == InvalidDate then InvalidDateTime
    else match dt
      case InvalidDateTime => At(d, 0, "")
      case At(_, t, z) => At(d, t, z)
  }

  predicate AllDigits(s: string)
  {
    forall i :: 0 <= i < |s| ==> '0' <= s[i] <= '9'
  }

  /** The value of a string of decimal digits, most significant first. */
  function DigitsValue(s: string): nat
    requires AllDigits(s)
  {
    if |s| == 0 then 0 else DigitsValue(s[..|s| - 1]) * 10 + (s[|s| - 1] as int - '0' as int)
  }

  /** Decimal digits of a natural number. */
  function NatText(n: nat): (s: string)
    ensures |s| > 0 && AllDigits(s)
  {
    var digit := ('0' as int + n % 10) as char;
    if n < 10 then [digit] else NatText(n / 10) + [digit]
  }

  /** QString::number for an integer: a minus sign for a negative value,
      then its decimal digits. */
  function IntText(i: int): string
  {
    if i < 0 then "-" + NatText(-i) else NatText(i)
  }

  /** Reading a decimal integer: an optional sign followed by at least one
      digit, and nothing else. */
  function ParseInt(s: string): Option<int>
  {
    if |s| > 1 && (s[0] == '-' || s[0] == '+') && AllDigits(s[1..]) then
      var n: int := DigitsValue(s[1..]);
      Some(if s[0] == '-' then -n else n)
    else if |s| > 0 && AllDigits(s) then Some(DigitsValue(s))
    else None
  }

  lemma {:induction false} NatTextValue(n: nat)
    ensures DigitsValue(NatText(n)) == n
  {
    if n >= 10 {
      NatTextValue(n / 10);
      var s := NatText(n);
      assert s[..|s| - 1] == NatText(n / 10);
    }
  }

  /** Reading back the text of an integer gives the integer. */
  lemma IntTextParses(i: int)
    ensures ParseInt(IntText(i)) == Some(i)
  {
    var s := IntText(i);
    if i < 0 {
      var digits := NatText(-i);
      NatTextValue(-i);
      assert s[0] == '-' && s[1..] == digits;
    } else {
      NatTextValue(i);
      assert '0' <= s[0] <= '9';
    }
  }

  /** A textual rendering of a date-time, year-month-day, then the time of
      day and the zone. */
  function DateTimeText(dt: DateTime): string
  {
    match dt
    case InvalidDateTime => ""
    case At(InvalidDate, t, z) => "T" + NatText(t) + z
    case At(Date(y, m, d), t, z) => IntText(y) + "-" + IntText(m) + "-" + IntText(d) + "T" + NatText(t) + z
  }

  /** QOrganizerManager::Error, restricted to the codes this plugin emits. */
  datatype Error = NoError | DoesNotExistError | PermissionsError | InvalidItemTypeError

  /** QOrganizerItemId; a null id is None in an Option<ItemId>. */
  datatype ItemId = ItemId(managerUri: string, localId: string)

  /** QOrganizerCollectionId; a null id is None in an Option<CollectionId>. */
  datatype CollectionId = CollectionId(managerUri: string, localId: string)

  /** The local id of an optional item id: empty for a null id. */
  function LocalIdOf(id: Option<ItemId>): string
  {
    if id.Some? then id.value.localId else ""
  }

  /** QOrganizerItemType::ItemType. */
  datatype ItemType =
    | TypeUndefined
    | TypeEvent
    | TypeEventOccurrence
    | TypeTodo
    | TypeTodoOccurrence
    | TypeJournal
    | TypeNote

  /** QOrganizerManager::Operation, as carried by the modification signals. */
  datatype Operation = Add | Change | Remove
}
