/** What the batch operations of the worker (src/mkcalworker.cpp) compute,
    as functions of the state before the call: one step per list element,
    folded over the list from its first element to its last. */
module WorkerSpec {
  import opened Types
  import opened Helper
  import opened ItemCals

  // ------------------------------------------------------------ lists

  /** The list in the opposite order, as repeated prepending builds it. */
  function Reverse<T>(s: seq<T>): (r: seq<T>)
    ensures |r| == |s|
    ensures forall i :: 0 <= i < |s| ==> r[i] == s[|s| - 1 - i]
  {
    if |s| == 0 then [] else [s[|s| - 1]] + Reverse(s[..|s| - 1])
  }

  lemma ReverseSnoc<T>(s: seq<T>, x: T)
    ensures Reverse(s + [x]) == [x] + Reverse(s)
  {
    assert (s + [x])[..|s|] == s;
  }

  lemma ReverseReverse<T>(s: seq<T>)
    ensures Reverse(Reverse(s)) == s
  {
  }

  /** Each id paired with an operation, as the modification signals carry
      them. */
  function Tagged<T>(ids: seq<T>, op: Operation): (r: seq<(T, Operation)>)
    ensures |r| == |ids|
    ensures forall i :: 0 <= i < |ids| ==> r[i] == (ids[i], op)
  {
    seq(|ids|, i requires 0 <= i < |ids| => (ids[i], op))
  }

  lemma TaggedCons<T>(x: T, s: seq<T>, op: Operation)
    ensures Tagged([x] + s, op) == [(x, op)] + Tagged(s, op)
  {
  }

  /** A batch succeeds when no global error was set and no element failed. */
  predicate BatchOk(errorMap: map<int, Error>, error: Error)
  {
    error == NoError && errorMap == map[]
  }

  /** Every error recorded for an element is at an index of the input list
      and is a real error. */
  predicate ErrorsWithin(errorMap: map<int, Error>, n: int)
  {
    forall i :: i in errorMap ==> 0 <= i < n && errorMap[i] != NoError
  }

  // ------------------------------------------------ itemStartDateTime

  /** QOrganizerItem::detail: the first detail of the given type. */
  function FirstDetail(ds: seq<Detail>, t: DetailType): (r: Option<Detail>)
    ensures r.Some? ==> r.value in ds && TypeOf(r.value) == t
    ensures r.None? ==> forall d :: d in ds ==> TypeOf(d) != t
  {
    if |ds| == 0 then None
    else if TypeOf(ds[0]) == t then Some(ds[0])
    else FirstDetail(ds[1..], t)
  }

  /** itemStartDateTime: the start of an event or a todo (or one of their
      occurrences), the entry date of a journal, read from the first time
      detail of the item's type; the null date-time for a note, an
      undefined item or an item without that detail. */
  function ItemStartDateTime(item: Item): (r: DateTime)
    ensures r != InvalidDateTime ==>
      || (item.itemType in {TypeEvent, TypeEventOccurrence}
          && exists d :: d in item.details && d.EventTimeDetail? && d.start == r)
      || (item.itemType in {TypeTodo, TypeTodoOccurrence}
          && exists d :: d in item.details && d.TodoTimeDetail? && d.start == r)
      || (item.itemType == TypeJournal
          && exists d :: d in item.details && d.JournalTimeDetail? && d.entry == r)
  {
    match item.itemType
    case TypeEvent => EventStart(FirstDetail(item.details, TypeEventTime))
    case TypeEventOccurrence => EventStart(FirstDetail(item.details, TypeEventTime))
    case TypeTodo => TodoStart(FirstDetail(item.details, TypeTodoTime))
    case TypeTodoOccurrence => TodoStart(FirstDetail(item.details, TypeTodoTime))
    case TypeJournal => JournalEntry(FirstDetail(item.details, TypeJournalTime))
    case _ => InvalidDateTime
  }

  function EventStart(d: Option<Detail>): DateTime
  {
    if d.Some? && d.value.EventTimeDetail? then d.value.start else InvalidDateTime
  }

  function TodoStart(d: Option<Detail>): DateTime
  {
    if d.Some? && d.value.TodoTimeDetail? then d.value.start else InvalidDateTime
  }

  function JournalEntry(d: Option<Detail>): DateTime
  {
    if d.Some? && d.value.JournalTimeDetail? then d.value.entry else InvalidDateTime
  }

  /** QDate ordering: the null date first, then by year, month and day. */
  predicate DateBefore(a: Date, b: Date)
  {
    match (a, b)
    case (InvalidDate, Date(_, _, _)) => true
    case (Date(y1, m1, d1), Date(y2, m2, d2)) => y1 < y2 || (y1 == y2 && (m1 < m2 || (m1 == m2 && d1 < d2)))
    case _ => false
  }

  /** QDateTime ordering: the null date-time first, then by date and time of
      day. */
  predicate Before(a: DateTime, b: DateTime)
  {
    match (a, b)
    case (InvalidDateTime, At(_, _, _)) => true
    case (At(d1, t1, _), At(d2, t2, _)) => DateBefore(d1, d2) || (d1 == d2 && t1 < t2)
    case _ => false
  }

  /** The sort predicate of items() and itemIds(): the order compareItem
      gives for the requested sort orders, and the start date-time between
      items it does not tell apart. */
  predicate ItemLess(cmp: (Item, Item) -> int, x: Item, y: Item)
  {
    if cmp(x, y) == 0 then Before(ItemStartDateTime(x), ItemStartDateTime(y)) else cmp(x, y) < 0
  }

  /** An antisymmetric comparator gives an asymmetric sort predicate. */
  lemma ItemLessAsymmetric(cmp: (Item, Item) -> int, x: Item, y: Item)
    requires cmp(x, y) < 0 <==> cmp(y, x) > 0
    requires cmp(y, x) < 0 <==> cmp(x, y) > 0
    ensures ItemLess(cmp, x, y) ==> !ItemLess(cmp, y, x)
  {
    var a, b := ItemStartDateTime(x), ItemStartDateTime(y);
    if cmp(x, y) == 0 && Before(a, b) {
      assert !Before(b, a) by {
        match (a, b)
        case (At(d1, t1, _), At(d2, t2, _)) =>
        case _ =>
      }
    }
  }

  /** No adjacent pair of the list is out of order under the sort
      predicate. */
  predicate Settled(cmp: (Item, Item) -> int, s: seq<Item>)
  {
    forall i :: 0 < i < |s| ==> !ItemLess(cmp, s[i], s[i - 1])
  }

  /** Swapping two neighbours keeps the elements. */
  lemma SwapKeepsElements<T>(s: seq<T>, j: int)
    requires 0 < j < |s|
    ensures multiset(s[j - 1 := s[j]][j := s[j - 1]]) == multiset(s)
  {
    var t := s[j - 1 := s[j]][j := s[j - 1]];
    assert s == s[..j - 1] + [s[j - 1], s[j]] + s[j + 1..];
    assert t == s[..j - 1] + [s[j], s[j - 1]] + s[j + 1..];
  }

  /** No element is ordered before an earlier one. */
  predicate SortedBy(cmp: (Item, Item) -> int, s: seq<Item>)
  {
    forall i, j :: 0 <= i < j < |s| ==> !ItemLess(cmp, s[j], s[i])
  }

  /** "Not ordered before" is transitive, as it is for the strict weak
      orders std::sort expects. */
  ghost predicate NotLessTransitive(cmp: (Item, Item) -> int)
  {
    forall x, y, z {:trigger ItemLess(cmp, z, x), ItemLess(cmp, y, x), ItemLess(cmp, z, y)} ::
      !ItemLess(cmp, y, x) && !ItemLess(cmp, z, y) ==> !ItemLess(cmp, z, x)
  }

  /** With a comparator whose "not ordered before" is transitive, a list
      with no adjacent pair out of order is sorted. */
  lemma {:induction false} SettledIsSorted(cmp: (Item, Item) -> int, s: seq<Item>)
    requires NotLessTransitive(cmp) && Settled(cmp, s)
    ensures SortedBy(cmp, s)
    decreases |s|
  {
    if |s| > 1 {
      var n := |s| - 1;
      assert Settled(cmp, s[..n]) by {
        forall i | 0 < i < n
          ensures !ItemLess(cmp, s[..n][i], s[..n][i - 1])
        {
          assert s[..n][i] == s[i] && s[..n][i - 1] == s[i - 1];
        }
      }
      SettledIsSorted(cmp, s[..n]);
      forall i, j | 0 <= i < j < |s|
        ensures !ItemLess(cmp, s[j], s[i])
      {
        if j < n {
          assert s[..n][j] == s[j] && s[..n][i] == s[i];
        } else if i < n - 1 {
          assert s[..n][n - 1] == s[n - 1] && s[..n][i] == s[i];
          assert !ItemLess(cmp, s[n - 1], s[i]);
          assert !ItemLess(cmp, s[n], s[n - 1]);
        }
      }
    }
  }

  // ------------------------------------------------------------ items(ids)

  /** Whether items(ids) returns an item for the id: one of this manager,
      whose instance the storage loads and which the calendar turns into a
      non-empty item. */
  predicate FetchOk(managerUri: string, id: ItemId, loaded: bool, fetched: Option<Item>)
  {
    id.managerUri == managerUri && loaded && fetched.Some?
  }

  /** One id of items(ids): the item is appended, or the error is set,
      PermissionsError for an empty item and DoesNotExistError otherwise;
      an earlier error is never cleared. */
  function FetchStep(managerUri: string, items: seq<Item>, error: Error, id: ItemId, loaded: bool,
                     fetched: Option<Item>): (seq<Item>, Error)
  {
    if id.managerUri == managerUri && loaded then
      if fetched.Some? then (items + [fetched.value], error) else (items, PermissionsError)
    else (items, DoesNotExistError)
  }

  function FetchRun(managerUri: string, ids: seq<ItemId>, loaded: seq<bool>, fetched: seq<Option<Item>>,
                    errorIn: Error): (seq<Item>, Error)
    requires |loaded| == |ids| && |fetched| == |ids|
    decreases |ids|
  {
    if |ids| == 0 then ([], errorIn)
    else
      var n := |ids| - 1;
      var (items, error) := FetchRun(managerUri, ids[..n], loaded[..n], fetched[..n], errorIn);
      FetchStep(managerUri, items, error, ids[n], loaded[n], fetched[n])
  }

  /** items(ids): when every id is fetched the items come back in the order
      of the ids and the incoming error is left alone; otherwise fewer
      items come back and the error is DoesNotExistError or
      PermissionsError. */
  lemma {:induction false} FetchRunOutcome(managerUri: string, ids: seq<ItemId>, loaded: seq<bool>,
                                           fetched: seq<Option<Item>>, errorIn: Error)
    requires |loaded| == |ids| && |fetched| == |ids|
    ensures var (items, error) := FetchRun(managerUri, ids, loaded, fetched, errorIn);
      && |items| <= |ids|
      && ((forall i :: 0 <= i < |ids| ==> FetchOk(managerUri, ids[i], loaded[i], fetched[i])) ==>
            |items| == |ids| && error == errorIn
            && forall i :: 0 <= i < |ids| ==> fetched[i] == Some(items[i]))
      && ((exists i :: 0 <= i < |ids| && !FetchOk(managerUri, ids[i], loaded[i], fetched[i])) ==>
            |items| < |ids| && (error == DoesNotExistError || error == PermissionsError))
    decreases |ids|
  {
    if |ids| > 0 {
      var n := |ids| - 1;
      FetchRunOutcome(managerUri, ids[..n], loaded[..n], fetched[..n], errorIn);
      var (items, error) := FetchRun(managerUri, ids, loaded, fetched, errorIn);
      if exists i :: 0 <= i < |ids| && !FetchOk(managerUri, ids[i], loaded[i], fetched[i]) {
        var i :| 0 <= i < |ids| && !FetchOk(managerUri, ids[i], loaded[i], fetched[i]);
        if i < n {
          assert ids[..n][i] == ids[i] && loaded[..n][i] == loaded[i] && fetched[..n][i] == fetched[i];
        }
      } else {
        forall i | 0 <= i < n
          ensures FetchOk(managerUri, ids[..n][i], loaded[..n][i], fetched[..n][i])
        {
          assert ids[..n][i] == ids[i] && loaded[..n][i] == loaded[i] && fetched[..n][i] == fetched[i];
          assert FetchOk(managerUri, ids[i], loaded[i], fetched[i]);
        }
        assert FetchOk(managerUri, ids[n], loaded[n], fetched[n]);
        forall i | 0 <= i < n
          ensures fetched[i] == Some(items[i])
        {
          assert fetched[..n][i] == fetched[i];
        }
      }
    }
  }

  // ------------------------------------------------------------- itemIds

  /** An entry of itemIds: an item's own id, or the parent id of an
      occurrence that has none. */
  datatype IdEntry = OwnId(own: ItemId) | ParentId(parent: Option<ItemId>)

  function ParentIdOf(item: Item): Option<ItemId>
  {
    if item.parent.Some? then Some(item.parent.value.parentId) else None
  }

  function EntryId(e: IdEntry): Option<ItemId>
  {
    match e
    case OwnId(i) => Some(i)
    case ParentId(p) => p
  }

  function EntryLocalId(e: IdEntry): string
  {
    LocalIdOf(EntryId(e))
  }

  /** The local ids already emitted. */
  function LocalIds(es: seq<IdEntry>): set<string>
  {
    set e | e in es :: EntryLocalId(e)
  }

  /** The de-duplicating loop of itemIds over the sorted items: every item
      with an id is emitted; an event or todo occurrence without one emits
      its parent id unless that local id was emitted before. */
  function IdEntries(items: seq<Item>): seq<IdEntry>
    decreases |items|
  {
    if |items| == 0 then []
    else
      var prev := IdEntries(items[..|items| - 1]);
      var item := items[|items| - 1];
      if item.id.Some? then prev + [OwnId(item.id.value)]
      else if IsOccurrence(item.itemType) && LocalIdOf(ParentIdOf(item)) !in LocalIds(prev)
      then prev + [ParentId(ParentIdOf(item))]
      else prev
  }

  function IdsOf(es: seq<IdEntry>): (ids: seq<Option<ItemId>>)
    ensures |ids| == |es|
    ensures forall i :: 0 <= i < |es| ==> ids[i] == EntryId(es[i])
  {
    seq(|es|, i requires 0 <= i < |es| => EntryId(es[i]))
  }

  /** The own ids among the entries, in order. */
  function OwnIds(es: seq<IdEntry>): seq<ItemId>
  {
    if |es| == 0 then []
    else OwnIds(es[..|es| - 1]) + (if es[|es| - 1].OwnId? then [es[|es| - 1].own] else [])
  }

  /** The ids of the items that have one, in order. */
  function ItemOwnIds(items: seq<Item>): seq<ItemId>
  {
    if |items| == 0 then []
    else ItemOwnIds(items[..|items| - 1])
         + (if items[|items| - 1].id.Some? then [items[|items| - 1].id.value] else [])
  }

  /** itemIds keeps every item that has an id, in the sorted order. */
  lemma {:induction false} IdEntriesKeepOwnIds(items: seq<Item>)
    ensures OwnIds(IdEntries(items)) == ItemOwnIds(items)
    decreases |items|
  {
    if |items| > 0 {
      var prev := IdEntries(items[..|items| - 1]);
      IdEntriesKeepOwnIds(items[..|items| - 1]);
      var e := IdEntries(items);
      if e != prev {
        assert e[..|e| - 1] == prev;
      }
    }
  }

  lemma LocalIdsSnoc(es: seq<IdEntry>, e: IdEntry)
    ensures LocalIds(es + [e]) == LocalIds(es) + {EntryLocalId(e)}
  {
    assert forall x :: x in es + [e] <==> x in es || x == e;
  }

  /** No parent entry repeats the local id of an earlier entry. */
  predicate ParentsFresh(es: seq<IdEntry>)
  {
    forall i, j :: 0 <= j < i < |es| && es[i].ParentId? ==> EntryLocalId(es[j]) != EntryLocalId(es[i])
  }

  /** A parent id is only emitted when its local id has not been emitted
      before, so each parent appears at most once and never after an entry
      with the same local id. */
  lemma {:induction false} IdEntriesParentsFresh(items: seq<Item>)
    ensures ParentsFresh(IdEntries(items))
    decreases |items|
  {
    if |items| > 0 {
      var prev := IdEntries(items[..|items| - 1]);
      IdEntriesParentsFresh(items[..|items| - 1]);
      var es := IdEntries(items);
      forall i, j | 0 <= j < i < |es| && es[i].ParentId?
        ensures EntryLocalId(es[j]) != EntryLocalId(es[i])
      {
        assert es[..|prev|] == prev;
        assert es[j] == prev[j];
        if i < |prev| {
          assert es[i] == prev[i];
        } else {
          var item := items[|items| - 1];
          assert item.id.None? && LocalIdOf(ParentIdOf(item)) !in LocalIds(prev);
          assert es[i] == ParentId(ParentIdOf(item));
          assert EntryLocalId(prev[j]) in LocalIds(prev);
        }
      }
    }
  }

  /** Every occurrence without an id is represented: its parent's local id
      is among the emitted local ids. */
  lemma {:induction false} IdEntriesCoverParents(items: seq<Item>)
    ensures forall i :: 0 <= i < |items| && items[i].id.None? && IsOccurrence(items[i].itemType) ==>
      LocalIdOf(ParentIdOf(items[i])) in LocalIds(IdEntries(items))
    decreases |items|
  {
    if |items| > 0 {
      var n := |items| - 1;
      var prev := IdEntries(items[..n]);
      IdEntriesCoverParents(items[..n]);
      var es := IdEntries(items);
      assert LocalIds(prev) <= LocalIds(es) by {
        assert forall e :: e in prev ==> e in es;
      }
      forall i | 0 <= i < |items| && items[i].id.None? && IsOccurrence(items[i].itemType)
        ensures LocalIdOf(ParentIdOf(items[i])) in LocalIds(es)
      {
        if i < n {
          assert items[i] == items[..n][i];
          assert LocalIdOf(ParentIdOf(items[..n][i])) in LocalIds(prev);
        } else if LocalIdOf(ParentIdOf(items[i])) !in LocalIds(prev) {
          var e := ParentId(ParentIdOf(items[i]));
          assert es == prev + [e];
          assert e in es;
          assert EntryLocalId(e) in LocalIds(es);
        }
      }
    }
  }

  // ------------------------------------------------------ storageUpdated

  /** The item id of an incidence: the manager's uri and its instance
      identifier. */
  function InstanceItemId(managerUri: string, inc: Incidence): ItemId
  {
    ItemId(managerUri, InstanceIdentifier(KeyOf(inc)))
  }

  function InstanceItemIds(managerUri: string, incs: seq<Incidence>): (r: seq<ItemId>)
    ensures |r| == |incs|
    ensures forall i :: 0 <= i < |incs| ==> r[i] == InstanceItemId(managerUri, incs[i])
  {
    seq(|incs|, i requires 0 <= i < |incs| => InstanceItemId(managerUri, incs[i]))
  }

  /** The instance identifiers of the incidences, in order. */
  function InstanceIdentifiers(incs: seq<Incidence>): (r: seq<string>)
    ensures |r| == |incs|
    ensures forall i :: 0 <= i < |incs| ==> r[i] == InstanceIdentifier(KeyOf(incs[i]))
  {
    seq(|incs|, i requires 0 <= i < |incs| => InstanceIdentifier(KeyOf(incs[i])))
  }

  /** One more incidence adds one tagged item id and one instance
      identifier at the end. */
  lemma InstancesSnoc(managerUri: string, incs: seq<Incidence>, i: int, op: Operation,
                      ops0: seq<(ItemId, Operation)>)
    requires 0 <= i < |incs|
    ensures ops0 + Tagged(InstanceItemIds(managerUri, incs[..i + 1]), op)
      == ops0 + Tagged(InstanceItemIds(managerUri, incs[..i]), op) + [(InstanceItemId(managerUri, incs[i]), op)]
    ensures InstanceIdentifiers(incs[..i + 1]) == InstanceIdentifiers(incs[..i]) + [InstanceIdentifier(KeyOf(incs[i]))]
  {
    var t := Tagged(InstanceItemIds(managerUri, incs[..i]), op);
    assert Tagged(InstanceItemIds(managerUri, incs[..i + 1]), op) == t + [(InstanceItemId(managerUri, incs[i]), op)];
  }

  /** The notebook an incidence's deletion is purged from: its notebook,
      when that notebook is stored, master, not shared and has no plugin. */
  function PurgeNotebook(nbs: map<string, Notebook>, nbOf: map<Key, string>, inc: Incidence): Option<string>
  {
    var u := if KeyOf(inc) in nbOf then nbOf[KeyOf(inc)] else "";
    if u in nbs && nbs[u].isMaster && !nbs[u].isShared && nbs[u].pluginName == "" then Some(nbs[u].uid)
    else None
  }

  /** The purge lists of storageUpdated: per notebook uid, the deleted
      incidences to purge from it, in the order they were deleted. */
  function PurgeLists(nbs: map<string, Notebook>, nbOf: map<Key, string>, ds: seq<Incidence>)
    : map<string, seq<Incidence>>
    decreases |ds|
  {
    if |ds| == 0 then map[]
    else
      var prev := PurgeLists(nbs, nbOf, ds[..|ds| - 1]);
      var inc := ds[|ds| - 1];
      match PurgeNotebook(nbs, nbOf, inc)
      case None => prev
      case Some(u) => prev[u := if u in prev then prev[u] + [inc] else [inc]]
  }

  /** The deleted incidences to purge from notebook u, in order. */
  function PurgedFrom(nbs: map<string, Notebook>, nbOf: map<Key, string>, ds: seq<Incidence>, u: string)
    : seq<Incidence>
    decreases |ds|
  {
    if |ds| == 0 then []
    else
      PurgedFrom(nbs, nbOf, ds[..|ds| - 1], u)
      + (if PurgeNotebook(nbs, nbOf, ds[|ds| - 1]) == Some(u) then [ds[|ds| - 1]] else [])
  }

  /** For one notebook u: it has a purge list exactly when some deleted
      incidence is to be purged from it, and that list holds exactly those
      incidences, in order. */
  lemma {:induction false} PurgeListAt(nbs: map<string, Notebook>, nbOf: map<Key, string>, ds: seq<Incidence>,
                                       u: string)
    ensures var p := PurgeLists(nbs, nbOf, ds);
      && (u in p <==> exists i :: 0 <= i < |ds| && PurgeNotebook(nbs, nbOf, ds[i]) == Some(u))
      && (u in p ==> p[u] == PurgedFrom(nbs, nbOf, ds, u))
      && (u !in p ==> PurgedFrom(nbs, nbOf, ds, u) == [])
    decreases |ds|
  {
    if |ds| > 0 {
      var n := |ds| - 1;
      var prev := PurgeLists(nbs, nbOf, ds[..n]);
      var p := PurgeLists(nbs, nbOf, ds);
      var found := PurgeNotebook(nbs, nbOf, ds[n]);
      PurgeListAt(nbs, nbOf, ds[..n], u);
      assert forall i :: 0 <= i < n ==> ds[..n][i] == ds[i];
      if found == Some(u) {
        assert u in p && p[u] == if u in prev then prev[u] + [ds[n]] else [ds[n]];
        assert PurgedFrom(nbs, nbOf, ds, u) == PurgedFrom(nbs, nbOf, ds[..n], u) + [ds[n]];
      } else {
        assert (u in p <==> u in prev) && (u in p ==> p[u] == prev[u]);
        assert PurgedFrom(nbs, nbOf, ds, u) == PurgedFrom(nbs, nbOf, ds[..n], u);
      }
    }
  }

  /** The purge lists of storageUpdated group the deleted incidences by the
      notebook they are purged from, keeping their order. */
  lemma PurgeListsGroup(nbs: map<string, Notebook>, nbOf: map<Key, string>, ds: seq<Incidence>)
    ensures var p := PurgeLists(nbs, nbOf, ds);
      && (forall u :: u in p <==> exists i :: 0 <= i < |ds| && PurgeNotebook(nbs, nbOf, ds[i]) == Some(u))
      && (forall u :: u in p ==> p[u] == PurgedFrom(nbs, nbOf, ds, u))
  {
    forall u {
      PurgeListAt(nbs, nbOf, ds, u);
    }
  }

  // ----------------------------------------------------------- saveItems

  /** What saveItems works with besides the list: the manager's uri, the
      default collection id, the calendar's default notebook, the detail
      mask and the current time. */
  datatype SaveContext = SaveContext(
    managerUri: string,
    defaultCollection: Option<CollectionId>,
    defaultNotebook: string,
    mask: seq<DetailType>,
    now: DateTime)

  /** What the calendar decides when an item is added: the uid it generates
      and whether the storage accepts the incidence. */
  datatype AddOracle = AddOracle(freshUid: string, accepted: bool)

  datatype SaveState = SaveState(cal: Calendar, items: seq<Item>, errorMap: map<int, Error>, error: Error)

  /** One item of saveItems, at index |st.items|: a new item (null id) gets
      the default collection when it has none and is added; an item of this
      manager is updated; any other item sets the global error. */
  function SaveStep(ctx: SaveContext, st: SaveState, item: Item, o: AddOracle): SaveState
  {
    var index := |st.items|;
    if item.id.None? then
      var item1 := if item.collectionId.None? then item.(collectionId := ctx.defaultCollection) else item;
      var (cal, localId) := AfterAdd(st.cal, item1, ctx.defaultNotebook, o.freshUid, ctx.now, o.accepted);
      if localId == "" then SaveState(cal, st.items + [item1], st.errorMap[index := InvalidItemTypeError], st.error)
      else SaveState(cal, st.items + [item1.(id := Some(ItemId(ctx.managerUri, localId)))], st.errorMap, st.error)
    else if item.id.value.managerUri == ctx.managerUri then
      var (cal, updated) := AfterUpdate(st.cal, item, ctx.mask);
      SaveState(cal, st.items + [item],
                if updated then st.errorMap else st.errorMap[index := DoesNotExistError], st.error)
    else SaveState(st.cal, st.items + [item], st.errorMap, DoesNotExistError)
  }

  function SaveRun(ctx: SaveContext, cal: Calendar, items: seq<Item>, oracles: seq<AddOracle>): SaveState
    requires |oracles| == |items|
    decreases |items|
  {
    if |items| == 0 then SaveState(cal, [], map[], NoError)
    else
      var n := |items| - 1;
      SaveStep(ctx, SaveRun(ctx, cal, items[..n], oracles[..n]), items[n], oracles[n])
  }

  /** The run over one more item is one more step. */
  lemma SaveRunSnoc(ctx: SaveContext, cal: Calendar, items: seq<Item>, oracles: seq<AddOracle>, i: int)
    requires |oracles| == |items| && 0 <= i < |items|
    ensures SaveRun(ctx, cal, items[..i + 1], oracles[..i + 1])
      == SaveStep(ctx, SaveRun(ctx, cal, items[..i], oracles[..i]), items[i], oracles[i])
  {
    assert items[..i + 1][..i] == items[..i] && oracles[..i + 1][..i] == oracles[..i];
  }

  /** What saveItems promises for one index: a new item keeps its collection
      or gets the default one, and either receives an id of this manager or
      is reported as InvalidItemTypeError; an existing item is left as it
      was and is reported only when it belongs to this manager and its
      update failed (DoesNotExistError). */
  ghost predicate SavedAt(ctx: SaveContext, before: Item, after: Item, errorMap: map<int, Error>, i: int)
  {
    if before.id.None? then
      && after.collectionId == (if before.collectionId.None? then ctx.defaultCollection else before.collectionId)
      && (i in errorMap <==> after.id.None?)
      && (i in errorMap ==> errorMap[i] == InvalidItemTypeError)
      && (after.id.Some? ==> after.id.value.managerUri == ctx.managerUri)
    else
      && after == before
      && (i in errorMap ==> before.id.value.managerUri == ctx.managerUri && errorMap[i] == DoesNotExistError)
  }

  /** Whether the list holds an item of another manager. */
  predicate HasForeignItem(ctx: SaveContext, items: seq<Item>)
  {
    exists i :: 0 <= i < |items| && items[i].id.Some? && items[i].id.value.managerUri != ctx.managerUri
  }

  /** Two error maps agree everywhere except at index i. */
  ghost predicate AgreeExcept(m: map<int, Error>, n: map<int, Error>, i: int)
  {
    && (forall j :: j != i ==> (j in m <==> j in n))
    && (forall j :: j != i && j in m ==> m[j] == n[j])
  }

  /** One step of saveItems appends the handled item, touches the error map
      only at its own index, and sets the global error only for an item of
      another manager. */
  lemma SaveStepOutcome(ctx: SaveContext, st: SaveState, item: Item, o: AddOracle)
    requires ErrorsWithin(st.errorMap, |st.items|)
    ensures var s := SaveStep(ctx, st, item, o);
      var i := |st.items|;
      && |s.items| == i + 1 && s.items[..i] == st.items
      && AgreeExcept(s.errorMap, st.errorMap, i)
      && (i in s.errorMap ==> s.errorMap[i] != NoError)
      && SavedAt(ctx, item, s.items[i], s.errorMap, i)
      && s.error == (if item.id.Some? && item.id.value.managerUri != ctx.managerUri then DoesNotExistError
                     else st.error)
  {
    assert |st.items| !in st.errorMap;
  }

  /** What saveItems promises after handling the items: every element is
      handled as SavedAt says, errors are recorded only at indices of the
      list, and the global error is DoesNotExistError exactly when the list
      holds an item of another manager. */
  ghost predicate ItemsSaved(ctx: SaveContext, items: seq<Item>, st: SaveState)
  {
    && |st.items| == |items|
    && ErrorsWithin(st.errorMap, |items|)
    && (forall i :: 0 <= i < |items| ==> SavedAt(ctx, items[i], st.items[i], st.errorMap, i))
    && st.error == (if HasForeignItem(ctx, items) then DoesNotExistError else NoError)
  }

  /** A state that extends one satisfying ItemsSaved the way SaveStepOutcome
      says satisfies it for one more item. */
  lemma ItemsSavedExtends(ctx: SaveContext, items: seq<Item>, st: SaveState, s: SaveState)
    requires |items| > 0 && ItemsSaved(ctx, items[..|items| - 1], st)
    requires var i := |st.items|;
      var item := items[|items| - 1];
      && |s.items| == i + 1 && s.items[..i] == st.items
      && AgreeExcept(s.errorMap, st.errorMap, i)
      && (i in s.errorMap ==> s.errorMap[i] != NoError)
      && SavedAt(ctx, item, s.items[i], s.errorMap, i)
      && s.error == (if item.id.Some? && item.id.value.managerUri != ctx.managerUri then DoesNotExistError
                     else st.error)
    ensures ItemsSaved(ctx, items, s)
  {
    var n := |items| - 1;
    forall j | 0 <= j < n
      ensures SavedAt(ctx, items[j], s.items[j], s.errorMap, j)
    {
      assert items[..n][j] == items[j];
      assert s.items[j] == st.items[j];
      assert SavedAt(ctx, items[..n][j], st.items[j], st.errorMap, j);
    }
    ForeignSplit(ctx, items);
  }

  /** saveItems keeps its promise over the whole list. */
  lemma {:induction false} SaveRunOutcome(ctx: SaveContext, cal: Calendar, items: seq<Item>, oracles: seq<AddOracle>)
    requires |oracles| == |items|
    ensures ItemsSaved(ctx, items, SaveRun(ctx, cal, items, oracles))
    decreases |items|
  {
    if |items| > 0 {
      var n := |items| - 1;
      var prev := SaveRun(ctx, cal, items[..n], oracles[..n]);
      SaveRunOutcome(ctx, cal, items[..n], oracles[..n]);
      SaveStepOutcome(ctx, prev, items[n], oracles[n]);
      ItemsSavedExtends(ctx, items, prev, SaveStep(ctx, prev, items[n], oracles[n]));
    }
  }

  lemma ForeignSplit(ctx: SaveContext, items: seq<Item>)
    requires |items| > 0
    ensures var n := |items| - 1;
      HasForeignItem(ctx, items) <==>
        HasForeignItem(ctx, items[..n]) || (items[n].id.Some? && items[n].id.value.managerUri != ctx.managerUri)
  {
    var n := |items| - 1;
    if HasForeignItem(ctx, items) {
      var i :| 0 <= i < |items| && items[i].id.Some? && items[i].id.value.managerUri != ctx.managerUri;
      if i < n {
        assert items[..n][i] == items[i];
      }
    }
    if HasForeignItem(ctx, items[..n]) {
      var i :| 0 <= i < n && items[..n][i].id.Some? && items[..n][i].id.value.managerUri != ctx.managerUri;
      assert items[i] == items[..n][i];
    }
  }

  // --------------------------------------------------- removeItems(items)

  datatype RemoveState = RemoveState(cal: Calendar, errorMap: map<int, Error>, error: Error)

  /** Whether removeItems(items) handles the item: a new item, or one of this
      manager with a local id. */
  predicate RemovableItem(managerUri: string, item: Item)
  {
    item.id.None? || (item.id.value.managerUri == managerUri && item.id.value.localId != "")
  }

  function RemoveStep(managerUri: string, st: RemoveState, index: int, item: Item, deleteOk: bool): RemoveState
  {
    if RemovableItem(managerUri, item) then
      var (cal, removed) := AfterRemove(st.cal, item, deleteOk);
      RemoveState(cal, if removed then st.errorMap else st.errorMap[index := PermissionsError], st.error)
    else RemoveState(st.cal, st.errorMap, DoesNotExistError)
  }

  function RemoveRun(managerUri: string, cal: Calendar, items: seq<Item>, deleteOk: seq<bool>): RemoveState
    requires |deleteOk| == |items|
    decreases |items|
  {
    if |items| == 0 then RemoveState(cal, map[], NoError)
    else
      var n := |items| - 1;
      RemoveStep(managerUri, RemoveRun(managerUri, cal, items[..n], deleteOk[..n]), n, items[n], deleteOk[n])
  }

  /** What removeItems(items) promises after handling the items: every
      recorded error is a PermissionsError at the index of a handled item,
      and the global error is DoesNotExistError exactly when some item is
      not handled. */
  ghost predicate ItemsRemoved(managerUri: string, items: seq<Item>, st: RemoveState)
  {
    && ErrorsWithin(st.errorMap, |items|)
    && (forall i :: i in st.errorMap ==> st.errorMap[i] == PermissionsError && RemovableItem(managerUri, items[i]))
    && (st.error == NoError <==> forall i :: 0 <= i < |items| ==> RemovableItem(managerUri, items[i]))
    && (st.error == NoError || st.error == DoesNotExistError)
  }

  /** One more item keeps ItemsRemoved. */
  lemma RemoveStepOutcome(managerUri: string, items: seq<Item>, st: RemoveState, deleteOk: bool)
    requires |items| > 0 && ItemsRemoved(managerUri, items[..|items| - 1], st)
    ensures var n := |items| - 1;
      ItemsRemoved(managerUri, items, RemoveStep(managerUri, st, n, items[n], deleteOk))
  {
    var n := |items| - 1;
    assert forall i :: 0 <= i < n ==> items[..n][i] == items[i];
  }

  /** removeItems(items) keeps its promise over the whole list. */
  lemma {:induction false} RemoveRunOutcome(managerUri: string, cal: Calendar, items: seq<Item>, deleteOk: seq<bool>)
    requires |deleteOk| == |items|
    ensures ItemsRemoved(managerUri, items, RemoveRun(managerUri, cal, items, deleteOk))
    decreases |items|
  {
    if |items| > 0 {
      var n := |items| - 1;
      var prev := RemoveRun(managerUri, cal, items[..n], deleteOk[..n]);
      assert RemoveRun(managerUri, cal, items, deleteOk) == RemoveStep(managerUri, prev, n, items[n], deleteOk[n]);
      RemoveRunOutcome(managerUri, cal, items[..n], deleteOk[..n]);
      RemoveStepOutcome(managerUri, items, prev, deleteOk[n]);
    }
  }

  // ----------------------------------------------------- removeItems(ids)

  /** Whether removeItems(ids) looks the id up: one of this manager with a
      local id. */
  predicate RemovableId(managerUri: string, id: ItemId)
  {
    id.managerUri == managerUri && id.localId != ""
  }

  /** The result of Calendar::instance for the id: a stored incidence with
      that instance identifier, or none when no stored incidence has it. */
  ghost predicate InstanceFits(cal: Calendar, id: ItemId, chosen: Option<Key>)
  {
    if chosen.Some? then chosen.value in cal.incidences && InstanceIdentifier(chosen.value) == id.localId
    else forall k :: k in cal.incidences ==> InstanceIdentifier(k) != id.localId
  }

  function RemoveIdStep(managerUri: string, st: RemoveState, index: int, id: ItemId, chosen: Option<Key>,
                        deleteOk: bool): RemoveState
  {
    if RemovableId(managerUri, id) then
      if chosen.Some? then
        if deleteOk then st.(cal := Calendar(st.cal.incidences - {chosen.value}, st.cal.notebookOf - {chosen.value}))
        else st.(errorMap := st.errorMap[index := PermissionsError])
      else st
    else st.(error := DoesNotExistError)
  }

  function RemoveIdRun(managerUri: string, cal: Calendar, ids: seq<ItemId>, chosen: seq<Option<Key>>,
                       deleteOk: seq<bool>): RemoveState
    requires |chosen| == |ids| && |deleteOk| == |ids|
    decreases |ids|
  {
    if |ids| == 0 then RemoveState(cal, map[], NoError)
    else
      var n := |ids| - 1;
      RemoveIdStep(managerUri, RemoveIdRun(managerUri, cal, ids[..n], chosen[..n], deleteOk[..n]),
                   n, ids[n], chosen[n], deleteOk[n])
  }

  /** Every lookup made by removeItems(ids) is a lookup in the calendar as
      the earlier deletions left it. */
  ghost predicate InstancesFit(managerUri: string, cal: Calendar, ids: seq<ItemId>, chosen: seq<Option<Key>>,
                               deleteOk: seq<bool>)
    requires |chosen| == |ids| && |deleteOk| == |ids|
    decreases |ids|
  {
    if |ids| == 0 then true
    else
      var n := |ids| - 1;
      && InstancesFit(managerUri, cal, ids[..n], chosen[..n], deleteOk[..n])
      && (RemovableId(managerUri, ids[n]) ==>
            InstanceFits(RemoveIdRun(managerUri, cal, ids[..n], chosen[..n], deleteOk[..n]).cal, ids[n], chosen[n]))
  }

  /** removeItems(ids): an id of this manager whose instance is missing is
      skipped without an error; a PermissionsError is recorded exactly at
      the indices whose instance was found and could not be deleted; the
      global error is DoesNotExistError exactly when some id is not looked
      up. */
  lemma {:induction false} RemoveIdRunOutcome(managerUri: string, cal: Calendar, ids: seq<ItemId>,
                                              chosen: seq<Option<Key>>, deleteOk: seq<bool>)
    requires |chosen| == |ids| && |deleteOk| == |ids|
    ensures var run := RemoveIdRun(managerUri, cal, ids, chosen, deleteOk);
      && ErrorsWithin(run.errorMap, |ids|)
      && (forall i :: 0 <= i < |ids| ==>
            (i in run.errorMap <==> RemovableId(managerUri, ids[i]) && chosen[i].Some? && !deleteOk[i]))
      && (forall i :: i in run.errorMap ==> run.errorMap[i] == PermissionsError)
      && (run.error == NoError <==> forall i :: 0 <= i < |ids| ==> RemovableId(managerUri, ids[i]))
      && (run.error == NoError || run.error == DoesNotExistError)
    decreases |ids|
  {
    if |ids| > 0 {
      var n := |ids| - 1;
      var prev := RemoveIdRun(managerUri, cal, ids[..n], chosen[..n], deleteOk[..n]);
      assert RemoveIdRun(managerUri, cal, ids, chosen, deleteOk)
        == RemoveIdStep(managerUri, prev, n, ids[n], chosen[n], deleteOk[n]);
      RemoveIdRunOutcome(managerUri, cal, ids[..n], chosen[..n], deleteOk[..n]);
      assert forall i :: 0 <= i < n ==> ids[..n][i] == ids[i] && chosen[..n][i] == chosen[i]
                                        && deleteOk[..n][i] == deleteOk[i];
    }
  }

  // ----------------------------------------------------- saveCollections

  /** What the storage decides for one collection: the notebook a
      `new mKCal::Notebook` yields (with its generated uid), and whether
      adding or updating it is accepted. */
  datatype CollectionOracle = CollectionOracle(created: Notebook, addOk: bool, updateOk: bool)

  datatype CollectionsState = CollectionsState(
    nbs: map<string, Notebook>,
    collections: seq<Collection>,
    errors: map<int, Error>,
    added: seq<CollectionId>,
    changed: seq<CollectionId>,
    addedUids: seq<string>,
    modifiedUids: seq<string>)

  /** One collection of saveCollections, at index |st.collections|: a new
      collection (null id) becomes a new notebook and receives the id of
      this manager with the notebook's uid; an existing one updates the
      stored notebook with its local id, with no check of its manager uri.
      The notebook is rewritten in the store only when the storage accepts
      the update. */
  function SaveCollectionStep(managerUri: string, st: CollectionsState, c: Collection, o: CollectionOracle)
    : CollectionsState
  {
    var index := |st.collections|;
    if c.id.None? then
      // updateNotebook leaves the uid of the notebook alone
      var u := o.created.uid;
      if o.addOk && u !in st.nbs then
        var id := CollectionId(managerUri, u);
        st.(nbs := st.nbs[u := UpdatedNotebook(o.created, c)], collections := st.collections + [c.(id := Some(id))],
            added := st.added + [id], addedUids := st.addedUids + [u])
      else st.(collections := st.collections + [c], errors := st.errors[index := PermissionsError])
    else
      var uid := c.id.value.localId;
      if uid in st.nbs then
        var u := st.nbs[uid].uid;
        if o.updateOk && u in st.nbs then
          st.(nbs := st.nbs[u := UpdatedNotebook(st.nbs[uid], c)], collections := st.collections + [c],
              changed := st.changed + [c.id.value], modifiedUids := st.modifiedUids + [u])
        else st.(collections := st.collections + [c], errors := st.errors[index := PermissionsError])
      else st.(collections := st.collections + [c], errors := st.errors[index := DoesNotExistError])
  }

  function SaveCollectionsRun(managerUri: string, nbs: map<string, Notebook>, cs: seq<Collection>,
                              oracles: seq<CollectionOracle>): CollectionsState
    requires |oracles| == |cs|
    decreases |cs|
  {
    if |cs| == 0 then CollectionsState(nbs, [], map[], [], [], [], [])
    else
      var n := |cs| - 1;
      SaveCollectionStep(managerUri, SaveCollectionsRun(managerUri, nbs, cs[..n], oracles[..n]), cs[n], oracles[n])
  }

  /** The run over one more collection is one more step. */
  lemma SaveCollectionsRunSnoc(managerUri: string, nbs: map<string, Notebook>, cs: seq<Collection>,
                               oracles: seq<CollectionOracle>, i: int)
    requires |oracles| == |cs| && 0 <= i < |cs|
    ensures SaveCollectionsRun(managerUri, nbs, cs[..i + 1], oracles[..i + 1])
      == SaveCollectionStep(managerUri, SaveCollectionsRun(managerUri, nbs, cs[..i], oracles[..i]), cs[i], oracles[i])
  {
    assert cs[..i + 1][..i] == cs[..i] && oracles[..i + 1][..i] == oracles[..i];
  }

  /** What saveCollections promises after handling the collections cs:
      errors are recorded only at indices of the list; a collection is either
      reported or listed as added or changed, never both; every added
      collection received an id of this manager, and an existing collection
      keeps its id. */
  ghost predicate CollectionsSaved(managerUri: string, cs: seq<Collection>, st: CollectionsState)
  {
    && |st.collections| == |cs|
    && ErrorsWithin(st.errors, |cs|)
    && |st.added| + |st.changed| + |st.errors| == |cs|
    && (forall i :: 0 <= i < |st.added| ==> st.added[i].managerUri == managerUri)
    && (forall i :: 0 <= i < |cs| ==>
          (cs[i].id.Some? ==> st.collections[i] == cs[i])
          && (cs[i].id.None? && i !in st.errors ==>
                st.collections[i].id.Some? && st.collections[i].id.value.managerUri == managerUri))
  }

  /** One collection of saveCollections appends it, listed as added,
      listed as changed or reported at its own index. */
  lemma SaveCollectionStepShape(managerUri: string, st: CollectionsState, c: Collection, o: CollectionOracle)
    requires ErrorsWithin(st.errors, |st.collections|)
    ensures var s := SaveCollectionStep(managerUri, st, c, o);
      var i := |st.collections|;
      && |s.collections| == i + 1 && s.collections[..i] == st.collections
      && ErrorsWithin(s.errors, i + 1)
      && |s.added| + |s.changed| + |s.errors| == |st.added| + |st.changed| + |st.errors| + 1
      && AgreeExcept(s.errors, st.errors, i)
      && (s.added == st.added
          || (|s.added| == |st.added| + 1 && s.added[..|st.added|] == st.added
              && s.added[|st.added|].managerUri == managerUri))
      && (c.id.Some? ==> s.collections[i] == c)
      && (c.id.None? && i !in s.errors ==>
            s.collections[i].id.Some? && s.collections[i].id.value.managerUri == managerUri)
  {
    SaveCollectionStepErrors(managerUri, st, c, o);
    SaveCollectionStepIds(managerUri, st, c, o);
  }

  /** The error map and list sizes after one collection of saveCollections. */
  lemma SaveCollectionStepErrors(managerUri: string, st: CollectionsState, c: Collection, o: CollectionOracle)
    requires ErrorsWithin(st.errors, |st.collections|)
    ensures var s := SaveCollectionStep(managerUri, st, c, o);
      var i := |st.collections|;
      && ErrorsWithin(s.errors, i + 1)
      && |s.added| + |s.changed| + |s.errors| == |st.added| + |st.changed| + |st.errors| + 1
      && AgreeExcept(s.errors, st.errors, i)
  {
    assert |st.collections| !in st.errors;
  }

  /** The collections and added ids after one collection of saveCollections. */
  lemma SaveCollectionStepIds(managerUri: string, st: CollectionsState, c: Collection, o: CollectionOracle)
    ensures var s := SaveCollectionStep(managerUri, st, c, o);
      var i := |st.collections|;
      && |s.collections| == i + 1 && s.collections[..i] == st.collections
      && (s.added == st.added
          || (|s.added| == |st.added| + 1 && s.added[..|st.added|] == st.added
              && s.added[|st.added|].managerUri == managerUri))
      && (c.id.Some? ==> s.collections[i] == c)
      && (c.id.None? && i !in s.errors ==>
            s.collections[i].id.Some? && s.collections[i].id.value.managerUri == managerUri)
  {
  }

  /** A state that extends one satisfying CollectionsSaved the way
      SaveCollectionStepShape says satisfies it for one more collection. */
  lemma CollectionsSavedExtends(managerUri: string, cs: seq<Collection>, st: CollectionsState, s: CollectionsState)
    requires |cs| > 0 && CollectionsSaved(managerUri, cs[..|cs| - 1], st)
    requires var i := |st.collections|;
      && |s.collections| == i + 1 && s.collections[..i] == st.collections
      && ErrorsWithin(s.errors, i + 1)
      && |s.added| + |s.changed| + |s.errors| == |st.added| + |st.changed| + |st.errors| + 1
      && AgreeExcept(s.errors, st.errors, i)
      && (s.added == st.added
          || (|s.added| == |st.added| + 1 && s.added[..|st.added|] == st.added
              && s.added[|st.added|].managerUri == managerUri))
      && (cs[i].id.Some? ==> s.collections[i] == cs[i])
      && (cs[i].id.None? && i !in s.errors ==>
            s.collections[i].id.Some? && s.collections[i].id.value.managerUri == managerUri)
    ensures CollectionsSaved(managerUri, cs, s)
  {
    var i := |st.collections|;
    forall j | 0 <= j < i
      ensures (cs[j].id.Some? ==> s.collections[j] == cs[j])
        && (cs[j].id.None? && j !in s.errors ==>
              s.collections[j].id.Some? && s.collections[j].id.value.managerUri == managerUri)
    {
      assert cs[..i][j] == cs[j];
      assert s.collections[j] == st.collections[j];
    }
  }

  /** One more collection keeps CollectionsSaved. */
  lemma SaveCollectionStepOutcome(managerUri: string, cs: seq<Collection>, st: CollectionsState, o: CollectionOracle)
    requires |cs| > 0 && CollectionsSaved(managerUri, cs[..|cs| - 1], st)
    ensures CollectionsSaved(managerUri, cs, SaveCollectionStep(managerUri, st, cs[|cs| - 1], o))
  {
    SaveCollectionStepShape(managerUri, st, cs[|cs| - 1], o);
    CollectionsSavedExtends(managerUri, cs, st, SaveCollectionStep(managerUri, st, cs[|cs| - 1], o));
  }

  /** saveCollections keeps its promise over the whole list. */
  lemma {:induction false} SaveCollectionsOutcome(managerUri: string, nbs: map<string, Notebook>,
                                                  cs: seq<Collection>, oracles: seq<CollectionOracle>)
    requires |oracles| == |cs|
    ensures CollectionsSaved(managerUri, cs, SaveCollectionsRun(managerUri, nbs, cs, oracles))
    decreases |cs|
  {
    if |cs| > 0 {
      var n := |cs| - 1;
      var prev := SaveCollectionsRun(managerUri, nbs, cs[..n], oracles[..n]);
      assert SaveCollectionsRun(managerUri, nbs, cs, oracles) == SaveCollectionStep(managerUri, prev, cs[n], oracles[n]);
      SaveCollectionsOutcome(managerUri, nbs, cs[..n], oracles[..n]);
      SaveCollectionStepOutcome(managerUri, cs, prev, oracles[n]);
    }
  }

  // --------------------------------------------------- removeCollections

  datatype RemovalsState = RemovalsState(
    nbs: map<string, Notebook>,
    errors: map<int, Error>,
    removed: seq<CollectionId>,
    uids: seq<string>)

  /** One id of removeCollections: the notebook with its local id is deleted,
      with no check of the manager uri. */
  function RemoveCollectionStep(st: RemovalsState, index: int, id: CollectionId, deleteOk: bool): RemovalsState
  {
    if id.localId in st.nbs then
      if deleteOk then
        RemovalsState(st.nbs - {id.localId}, st.errors, st.removed + [id], st.uids + [st.nbs[id.localId].uid])
      else st.(errors := st.errors[index := PermissionsError])
    else st.(errors := st.errors[index := DoesNotExistError])
  }

  function RemoveCollectionsRun(nbs: map<string, Notebook>, ids: seq<CollectionId>, deleteOk: seq<bool>)
    : RemovalsState
    requires |deleteOk| == |ids|
    decreases |ids|
  {
    if |ids| == 0 then RemovalsState(nbs, map[], [], [])
    else
      var n := |ids| - 1;
      RemoveCollectionStep(RemoveCollectionsRun(nbs, ids[..n], deleteOk[..n]), n, ids[n], deleteOk[n])
  }

  /** One step of removeCollections removes the notebook with the id's local
      id or records one error at its own index. */
  lemma RemoveCollectionStepOutcome(st: RemovalsState, index: int, id: CollectionId, deleteOk: bool)
    requires ErrorsWithin(st.errors, index) && 0 <= index
    ensures var s := RemoveCollectionStep(st, index, id, deleteOk);
      && ErrorsWithin(s.errors, index + 1)
      && AgreeExcept(s.errors, st.errors, index)
      && |s.removed| + |s.errors| == |st.removed| + |st.errors| + 1
      && (index in s.errors && s.errors[index] == PermissionsError ==> !deleteOk)
      && (forall k :: k in s.nbs ==> k in st.nbs && s.nbs[k] == st.nbs[k])
      && (id.localId !in s.nbs || index in s.errors)
  {
    assert index !in st.errors;
  }

  /** removeCollections: an id is either removed or reported at its own
      index, DoesNotExistError when no notebook had its local id and
      PermissionsError when the deletion failed. */
  lemma {:induction false} RemoveCollectionsOutcome(nbs: map<string, Notebook>, ids: seq<CollectionId>,
                                                    deleteOk: seq<bool>)
    requires |deleteOk| == |ids|
    ensures var run := RemoveCollectionsRun(nbs, ids, deleteOk);
      && ErrorsWithin(run.errors, |ids|)
      && |run.removed| + |run.errors| == |ids|
      && (forall i :: 0 <= i < |ids| && i in run.errors && run.errors[i] == PermissionsError ==> !deleteOk[i])
      && (forall k :: k in run.nbs ==> k in nbs && run.nbs[k] == nbs[k])
      && (forall i :: 0 <= i < |ids| ==> ids[i].localId !in run.nbs || i in run.errors)
    decreases |ids|
  {
    if |ids| > 0 {
      var n := |ids| - 1;
      var prev := RemoveCollectionsRun(nbs, ids[..n], deleteOk[..n]);
      RemoveCollectionsOutcome(nbs, ids[..n], deleteOk[..n]);
      RemoveCollectionStepOutcome(prev, n, ids[n], deleteOk[n]);
      var run := RemoveCollectionsRun(nbs, ids, deleteOk);
      assert run == RemoveCollectionStep(prev, n, ids[n], deleteOk[n]);
      forall i | 0 <= i < n
        ensures (i in run.errors && run.errors[i] == PermissionsError ==> !deleteOk[i])
          && (ids[i].localId !in run.nbs || i in run.errors)
      {
        assert ids[i] == ids[..n][i] && deleteOk[i] == deleteOk[..n][i];
      }
    }
  }

  // ------------------------------------ saveCollection / removeCollection

  /** The error saveCollection and removeCollection report, as written: the
      first per-index error, NoError when there is none (the global error of
      the batch is dropped). The batch has one element, so its only possible
      index is 0. */
  function ReportAsWritten(errors: map<int, Error>, error: Error): Error
  {
    if errors == map[] then NoError else if 0 in errors then errors[0] else NoError
  }

  /** The report evidently intended: the first per-index error, and the
      global error of the batch when there is none. */
  function ReportCorrected(errors: map<int, Error>, error: Error): Error
  {
    if errors == map[] then error else if 0 in errors then errors[0] else NoError
  }

  /** As written, a batch that failed only with a global error (storage not
      opened) reports NoError while returning false. */
  lemma ReportAsWrittenHidesGlobalError()
    ensures !BatchOk(map[], PermissionsError) && ReportAsWritten(map[], PermissionsError) == NoError
  {
  }

  /** Corrected, the reported error is NoError exactly when the one-element
      batch succeeded. */
  lemma ReportCorrectedAgrees(errors: map<int, Error>, error: Error)
    requires ErrorsWithin(errors, 1)
    ensures BatchOk(errors, error) <==> ReportCorrected(errors, error) == NoError
  {
    if 0 !in errors {
      forall k
        ensures k !in errors
      {
        if k in errors {
          assert false;
        }
      }
      assert errors == map[];
    }
  }
}
