/** mKCalWorker (src/mkcalworker.cpp): the worker that owns the storage and
    the calendar of the engine and runs its batch operations. Each batch
    operation is proved against the fold that specifies it in WorkerSpec;
    the properties of those folds are lemmas there. */
module Worker {
  import opened Types
  import opened Helper
  import opened Storage
  import opened ItemCals
  import opened WorkerSpec

  /** The std::sort of items() and itemIds(), as an insertion sort by
      adjacent swaps under the sort predicate `less` the worker passes. */
  method SortItems(a: array<Item>, less: (Item, Item) -> bool)
    requires forall x, y :: less(x, y) ==> !less(y, x)
    modifies a
    ensures multiset(a[..]) == multiset(old(a[..]))
    ensures forall k :: 0 < k < a.Length ==> !less(a[k], a[k - 1])
  {
    var i := 1;
    while i < a.Length
      invariant 1 <= i
      invariant a.Length == 0 || i <= a.Length
      invariant multiset(a[..]) == multiset(old(a[..]))
      invariant InOrder(a[..], if i < a.Length then i else a.Length, less)
    {
      SinkLast(a, i, less);
      i := i + 1;
    }
    assert InOrder(a[..], a.Length, less);
    assert forall k :: 0 < k < a.Length ==> a[k] == a[..][k];
  }

  /** The first n elements are in order: none is ordered before the one
      just before it. */
  ghost predicate InOrder(s: seq<Item>, n: int, less: (Item, Item) -> bool)
    requires n <= |s|
  {
    forall k :: 0 < k < n ==> !less(s[k], s[k - 1])
  }

  /** One pass of the insertion sort: a[i] moves down past every earlier
      element it is ordered before. */
  method SinkLast(a: array<Item>, i: int, less: (Item, Item) -> bool)
    requires forall x, y :: less(x, y) ==> !less(y, x)
    requires 0 < i < a.Length && InOrder(a[..], i, less)
    modifies a
    ensures multiset(a[..]) == multiset(old(a[..]))
    ensures InOrder(a[..], i + 1, less)
  {
    var j := i;
    assert Sinking(a[..], i, j, less);
    while j > 0 && less(a[j], a[j - 1])
      invariant 0 <= j <= i
      invariant multiset(a[..]) == multiset(old(a[..]))
      invariant Sinking(a[..], i, j, less)
    {
      ghost var before := a[..];
      SinkStep(before, i, j, less);
      a[j], a[j - 1] := a[j - 1], a[j];
      assert a[..] == before[j - 1 := before[j]][j := before[j - 1]];
      j := j - 1;
    }
    SinkDone(a[..], i, j, less);
  }

  /** The pass ends in order once a[i] reached the front or an element it
      is not ordered before. */
  lemma SinkDone(s: seq<Item>, i: int, j: int, less: (Item, Item) -> bool)
    requires 0 <= j <= i < |s| && Sinking(s, i, j, less)
    requires j == 0 || !less(s[j], s[j - 1])
    ensures InOrder(s, i + 1, less)
  {
  }

  /** While a[i] sinks to position j, every adjacent pair up to i is in
      order except the one at j, and a[j + 1] is in order with a[j - 1]. */
  ghost predicate Sinking(s: seq<Item>, i: int, j: int, less: (Item, Item) -> bool)
    requires 0 <= j <= i < |s|
  {
    && (forall k :: 0 < k <= i && k != j ==> !less(s[k], s[k - 1]))
    && (0 < j < i ==> !less(s[j + 1], s[j - 1]))
  }

  /** Swapping a[j] with a[j - 1] when they are out of order keeps the
      elements and moves the sinking position down by one. */
  lemma SinkStep(s: seq<Item>, i: int, j: int, less: (Item, Item) -> bool)
    requires forall x, y :: less(x, y) ==> !less(y, x)
    requires 0 < j <= i < |s| && Sinking(s, i, j, less) && less(s[j], s[j - 1])
    ensures var t := s[j - 1 := s[j]][j := s[j - 1]];
      multiset(t) == multiset(s) && Sinking(t, i, j - 1, less)
  {
    var t := s[j - 1 := s[j]][j := s[j - 1]];
    SwapKeepsElements(s, j);
    forall k | 0 < k <= i && k != j - 1
      ensures !less(t[k], t[k - 1])
    {
      if k == j {
        assert t[k] == s[j - 1] && t[k - 1] == s[j];
      } else if k == j + 1 {
        assert t[k] == s[j + 1] && t[k - 1] == s[j - 1];
      } else {
        assert t[k] == s[k] && t[k - 1] == s[k - 1];
      }
    }
  }

  /** The mods loops of saveCollections: each id in turn is prepended,
      tagged with the operation, to the list. */
  method PrependTagged(ids: seq<CollectionId>, op: Operation, mods: seq<(CollectionId, Operation)>)
    returns (r: seq<(CollectionId, Operation)>)
    ensures r == Tagged(Reverse(ids), op) + mods
  {
    r := mods;
    for k := 0 to |ids|
      invariant r == Tagged(Reverse(ids[..k]), op) + mods
    {
      assert ids[..k + 1] == ids[..k] + [ids[k]];
      ReverseSnoc(ids[..k], ids[k]);
      TaggedCons(ids[k], Reverse(ids[..k]), op);
      r := [(ids[k], op)] + r;
    }
    assert ids[..|ids|] == ids;
  }

  /** Replacing the first element after a prefix. */
  lemma ReplaceAtSplit<T>(prefix: seq<T>, rest: seq<T>, x: T)
    requires |rest| > 0
    ensures (prefix + rest)[|prefix| := x] == (prefix + [x]) + rest[1..]
  {
    assert forall k :: 0 <= k < |prefix| + |rest| ==>
      (prefix + rest)[|prefix| := x][k] == ((prefix + [x]) + rest[1..])[k];
  }

  /** The modification list of saveCollections, built by prepending a
      Change for each id of the (reversed) changed list, then an Add for
      each id of the (reversed) added list: every Add, then every Change,
      each in list order. */
  method CollectionMods(added: seq<CollectionId>, changed: seq<CollectionId>,
                        ghost inAdded: seq<CollectionId>, ghost inChanged: seq<CollectionId>)
    returns (mods: seq<(CollectionId, Operation)>)
    requires added == Reverse(inAdded) && changed == Reverse(inChanged)
    ensures mods == Tagged(inAdded, Add) + Tagged(inChanged, Change)
  {
    ReverseReverse(inChanged);
    ReverseReverse(inAdded);
    mods := PrependTagged(changed, Change, []);
    mods := PrependTagged(added, Add, mods);
  }

  /** How saveCollections handled one collection. */
  datatype CollectionOutcome =
    | Failed(error: Error)
    | AddedAs(id: CollectionId, uid: string)
    | ChangedAs(id: CollectionId, uid: string)

  class MKCalWorker {
    const managerUri: string
    const store: NotebookStore
    const calendars: ItemCalendars
    var isOpen: bool
    var defaultNotebookUid: string

    ghost predicate Valid()
      reads this, store, calendars
    {
      store.Valid() && calendars.Valid()
    }

    /** The worker before init(): nothing isOpen, no default notebook
        known. */
    constructor (managerUri: string, store: NotebookStore, calendars: ItemCalendars)
      requires store.Valid() && calendars.Valid()
      ensures Valid()
      ensures this.managerUri == managerUri && this.store == store && this.calendars == calendars
      ensures !isOpen && defaultNotebookUid == ""
    {
      this.managerUri := managerUri;
      this.store := store;
      this.calendars := calendars;
      isOpen := false;
      defaultNotebookUid := "";
    }

    /** init: opens the storage and, when it is open and has no default
        notebook, makes a new notebook named "Default" the default one.
        The uid of the default notebook, when there is one, is remembered
        and signalled. */
    method Init(openOk: bool, created: Notebook, setOk: bool) returns (result: bool, signalled: Option<string>)
      requires Valid()
      requires created.name == "Default" && created.description == ""
      modifies this, store
      ensures Valid()
      ensures result == openOk && isOpen == openOk
      ensures var dflt := old(store.DefaultNotebook());
        if openOk && dflt.Some? then
          store.notebooks == old(store.notebooks) && store.defaultUid == old(store.defaultUid)
          && signalled == Some(dflt.value.uid)
        else if openOk && setOk then
          store.notebooks == old(store.notebooks)[created.uid := created] && store.defaultUid == Some(created.uid)
          && signalled == Some(created.uid)
        else
          store.notebooks == old(store.notebooks) && store.defaultUid == old(store.defaultUid) && signalled == None
      ensures defaultNotebookUid == if signalled.Some? then signalled.value else old(defaultNotebookUid)
      ensures isOpen && signalled.Some? ==>
        store.DefaultNotebook().Some? && store.DefaultNotebook().value.uid == defaultNotebookUid
    {
      isOpen := openOk;
      var nb := if isOpen then store.DefaultNotebook() else None;
      if isOpen && nb.None? {
        var done := store.SetDefaultNotebook(created, setOk);
        nb := if done then Some(created) else None;
      }
      signalled := None;
      if nb.Some? {
        defaultNotebookUid := nb.value.uid;
        signalled := Some(nb.value.uid);
      }
      result := isOpen;
    }

    /** storageModified: the remembered default notebook uid follows the
        storage's default notebook, and a change of it is signalled. */
    method StorageModified() returns (signalled: Option<string>)
      requires Valid()
      modifies this
      ensures isOpen == old(isOpen)
      ensures var dflt := store.DefaultNotebook();
        && (signalled.Some? <==> dflt.Some? && dflt.value.uid != old(defaultNotebookUid))
        && (signalled.Some? ==> signalled.value == dflt.value.uid)
        && (dflt.Some? ==> defaultNotebookUid == dflt.value.uid)
        && (dflt.None? ==> defaultNotebookUid == old(defaultNotebookUid))
    {
      var nb := store.DefaultNotebook();
      signalled := None;
      if nb.Some? && nb.value.uid != defaultNotebookUid {
        defaultNotebookUid := nb.value.uid;
        signalled := Some(nb.value.uid);
      }
    }

    /** storageUpdated: the instance identifiers of the added, modified and
        deleted incidences, the modification list (every Add, then every
        Change, then every Remove, each in the order given) and the purge
        lists of the deleted incidences. */
    method StorageUpdated(added: seq<Incidence>, modified: seq<Incidence>, deleted: seq<Incidence>)
      returns (ops: seq<(ItemId, Operation)>, addedIds: seq<string>, modifiedIds: seq<string>,
               removedIds: seq<string>, purgeList: map<string, seq<Incidence>>)
      requires Valid()
      ensures ops == Tagged(InstanceItemIds(managerUri, added), Add)
                     + Tagged(InstanceItemIds(managerUri, modified), Change)
                     + Tagged(InstanceItemIds(managerUri, deleted), Remove)
      ensures addedIds == InstanceIdentifiers(added)
      ensures modifiedIds == InstanceIdentifiers(modified)
      ensures removedIds == InstanceIdentifiers(deleted)
      ensures purgeList == PurgeLists(store.notebooks, calendars.notebookOf, deleted)
    {
      ops, addedIds := TagInstances(added, Add, []);
      assert ops == Tagged(InstanceItemIds(managerUri, added), Add);
      ops, modifiedIds := TagInstances(modified, Change, ops);
      ops, removedIds := TagInstances(deleted, Remove, ops);
      purgeList := PurgeListsOf(deleted);
    }

    /** One loop of storageUpdated over a list of incidences: each one's
        item id, tagged with the operation, is appended to the modification
        list, and its instance identifier to the identifiers. */
    method TagInstances(incs: seq<Incidence>, op: Operation, ops0: seq<(ItemId, Operation)>)
      returns (ops: seq<(ItemId, Operation)>, ids: seq<string>)
      ensures ops == ops0 + Tagged(InstanceItemIds(managerUri, incs), op)
      ensures ids == InstanceIdentifiers(incs)
    {
      ops, ids := ops0, [];
      for i := 0 to |incs|
        invariant ops == ops0 + Tagged(InstanceItemIds(managerUri, incs[..i]), op)
        invariant ids == InstanceIdentifiers(incs[..i])
      {
        var id := ItemId(managerUri, InstanceIdentifier(KeyOf(incs[i])));
        InstancesSnoc(managerUri, incs, i, op, ops0);
        ids := ids + [id.localId];
        ops := ops + [(id, op)];
      }
      assert incs[..|incs|] == incs;
    }

    /** The purge part of the deletion loop of storageUpdated: a deleted
        incidence whose notebook is stored, master, not shared and without a
        plugin is appended to the purge list of that notebook's uid. */
    method PurgeListsOf(deleted: seq<Incidence>) returns (purgeList: map<string, seq<Incidence>>)
      requires Valid()
      ensures purgeList == PurgeLists(store.notebooks, calendars.notebookOf, deleted)
    {
      purgeList := map[];
      for i := 0 to |deleted|
        invariant purgeList == PurgeLists(store.notebooks, calendars.notebookOf, deleted[..i])
      {
        var inc := deleted[i];
        var notebook := store.NotebookWithUid(calendars.NotebookOf(KeyOf(inc)));
        if notebook.Some? && notebook.value.isMaster && !notebook.value.isShared && notebook.value.pluginName == "" {
          var u := notebook.value.uid;
          if u in purgeList {
            purgeList := purgeList[u := purgeList[u] + [inc]];
          } else {
            purgeList := purgeList[u := [inc]];
          }
        }
        assert deleted[..i + 1][..i] == deleted[..i] && deleted[..i + 1][i] == inc;
      }
      assert deleted[..|deleted|] == deleted;
    }

    /** defaultCollectionId: the id of the storage's default notebook, null
        when there is none. */
    function DefaultCollectionId(): (r: Option<CollectionId>)
      reads this, store, calendars
      requires Valid()
      ensures r.Some? <==> store.DefaultNotebook().Some?
      ensures r.Some? ==> r.value == CollectionId(managerUri, store.defaultUid.value)
    {
      var nb := store.DefaultNotebook();
      if nb.Some? then Some(CollectionId(managerUri, nb.value.uid)) else None
    }

    /** items(ids): each id of this manager whose instance the storage
        loads is turned into an item by the calendar (`fetched`, None for an
        empty item); see FetchRun. */
    method ItemsById(ids: seq<ItemId>, loaded: seq<bool>, fetched: seq<Option<Item>>, errorIn: Error)
      returns (items: seq<Item>, error: Error)
      requires Valid() && |loaded| == |ids| && |fetched| == |ids|
      ensures isOpen ==> (items, error) == FetchRun(managerUri, ids, loaded, fetched, errorIn)
      ensures !isOpen ==> items == [] && error == PermissionsError
    {
      items, error := [], errorIn;
      if !isOpen {
        error := PermissionsError;
        return;
      }
      for i := 0 to |ids|
        invariant (items, error) == FetchRun(managerUri, ids[..i], loaded[..i], fetched[..i], errorIn)
      {
        assert ids[..i + 1][..i] == ids[..i] && loaded[..i + 1][..i] == loaded[..i]
          && fetched[..i + 1][..i] == fetched[..i];
        var id := ids[i];
        if id.managerUri == managerUri && loaded[i] {
          var item := fetched[i];
          if item.Some? {
            items := items + [item.value];
          } else {
            error := PermissionsError;
          }
        } else {
          error := DoesNotExistError;
        }
      }
      assert ids[..|ids|] == ids && loaded[..|loaded|] == loaded && fetched[..|fetched|] == fetched;
    }

    /** The items the calendar returns for a filter (`fetched`), sorted by the
        sort predicate of items() and itemIds(). */
    method SortedItems(fetched: seq<Item>, cmp: (Item, Item) -> int) returns (sorted: seq<Item>)
      requires forall x, y :: cmp(x, y) < 0 <==> cmp(y, x) > 0
      ensures multiset(sorted) == multiset(fetched) && Settled(cmp, sorted)
    {
      var a := new Item[|fetched|](k requires 0 <= k < |fetched| => fetched[k]);
      assert a[..] == fetched;
      var less := (x, y) => ItemLess(cmp, x, y);
      forall x, y
        ensures less(x, y) ==> !less(y, x)
      {
        ItemLessAsymmetric(cmp, x, y);
      }
      SortItems(a, less);
      sorted := a[..];
    }

    /** items(filter): when the storage is open and loads the range, the
        items of the calendar sorted by compareItem and, between items it
        does not tell apart, by start date-time. */
    method ItemsByFilter(loadOk: bool, fetched: seq<Item>, cmp: (Item, Item) -> int, errorIn: Error)
      returns (items: seq<Item>, error: Error)
      requires Valid()
      requires forall x, y :: cmp(x, y) < 0 <==> cmp(y, x) > 0
      ensures isOpen && loadOk ==> multiset(items) == multiset(fetched) && Settled(cmp, items) && error == errorIn
      ensures !(isOpen && loadOk) ==> items == [] && error == PermissionsError
    {
      if isOpen && loadOk {
        items := SortedItems(fetched, cmp);
        error := errorIn;
      } else {
        items, error := [], PermissionsError;
      }
    }

    /** itemIds: the ids of the sorted items, an occurrence without an id
        standing for its parent, each parent local id at most once. */
    method ItemIds(loadOk: bool, fetched: seq<Item>, cmp: (Item, Item) -> int, errorIn: Error)
      returns (ids: seq<Option<ItemId>>, error: Error, ghost sorted: seq<Item>)
      requires Valid()
      requires forall x, y :: cmp(x, y) < 0 <==> cmp(y, x) > 0
      ensures isOpen && loadOk ==>
        && multiset(sorted) == multiset(fetched) && Settled(cmp, sorted)
        && ids == IdsOf(IdEntries(sorted)) && error == errorIn
      ensures !(isOpen && loadOk) ==> ids == [] && error == PermissionsError
    {
      ids, error, sorted := [], errorIn, [];
      if !(isOpen && loadOk) {
        error := PermissionsError;
        return;
      }
      var items := SortedItems(fetched, cmp);
      sorted := items;
      var localIds: set<string> := {};
      ghost var es: seq<IdEntry> := [];
      for i := 0 to |items|
        invariant es == IdEntries(items[..i]) && ids == IdsOf(es) && localIds == LocalIds(es)
      {
        assert items[..i + 1][..i] == items[..i];
        var item := items[i];
        if item.id.Some? {
          var e := OwnId(item.id.value);
          LocalIdsSnoc(es, e);
          assert IdsOf(es + [e]) == IdsOf(es) + [item.id];
          ids := ids + [item.id];
          localIds := localIds + {item.id.value.localId};
          es := es + [e];
        } else if item.itemType == TypeEventOccurrence || item.itemType == TypeTodoOccurrence {
          var parentId := ParentIdOf(item);
          if LocalIdOf(parentId) !in localIds {
            var e := ParentId(parentId);
            LocalIdsSnoc(es, e);
            assert IdsOf(es + [e]) == IdsOf(es) + [parentId];
            ids := ids + [parentId];
            localIds := localIds + {LocalIdOf(parentId)};
            es := es + [e];
          }
        }
      }
      assert items[..|items|] == items;
    }

    /** What saveItems works with besides its list. */
    function SaveCtx(mask: seq<DetailType>, now: DateTime): SaveContext
      reads this, store, calendars
      requires Valid()
    {
      SaveContext(managerUri, DefaultCollectionId(), defaultNotebookUid, mask, now)
    }

    /** The body of the loop of saveItems for the item at index |st.items|. */
    method SaveItemAt(ctx: SaveContext, index: int, item: Item, o: AddOracle, errorMap0: map<int, Error>,
                      ghost st: SaveState)
      returns (saved: Item, errorMap: map<int, Error>)
      requires Valid() && st.cal == calendars.State() && st.errorMap == errorMap0 && index == |st.items|
      requires ctx.managerUri == managerUri
      modifies calendars
      ensures Valid()
      ensures var s := SaveStep(ctx, st, item, o);
        s.cal == calendars.State() && s.items == st.items + [saved] && s.errorMap == errorMap
        && s.error == (if item.id.Some? && item.id.value.managerUri != managerUri then DoesNotExistError else st.error)
    {
      saved, errorMap := item, errorMap0;
      if item.id.None? {
        if item.collectionId.None? {
          saved := item.(collectionId := ctx.defaultCollection);
        }
        var localId := calendars.AddItem(saved, ctx.defaultNotebook, o.freshUid, ctx.now, o.accepted);
        if localId == "" {
          errorMap := errorMap[index := InvalidItemTypeError];
        } else {
          saved := saved.(id := Some(ItemId(managerUri, localId)));
        }
      } else if item.id.value.managerUri == managerUri {
        var updated := calendars.UpdateItem(item, ctx.mask);
        if !updated {
          errorMap := errorMap[index := DoesNotExistError];
        }
      }
    }

    /** saveItems: the items are handled in order as SaveRun says, each new
        one receiving its id in place in the list; a failed save of the
        storage overrides the global error with PermissionsError. The result
        is true exactly when no error was reported. */
    method SaveItems(items: array<Item>, mask: seq<DetailType>, oracles: seq<AddOracle>, now: DateTime,
                     saveOk: bool)
      returns (errorMap: map<int, Error>, error: Error, ok: bool)
      requires Valid() && items.Length == |oracles|
      modifies items, calendars
      ensures Valid()
      ensures old(isOpen) ==>
        var run := SaveRun(old(SaveCtx(mask, now)), old(calendars.State()), old(items[..]), oracles);
        && calendars.State() == run.cal && items[..] == run.items && errorMap == run.errorMap
        && error == (if saveOk then run.error else PermissionsError)
      ensures !old(isOpen) ==>
        && calendars.State() == old(calendars.State()) && items[..] == old(items[..])
        && errorMap == map[] && error == PermissionsError
      ensures ok == BatchOk(errorMap, error)
    {
      errorMap, error := map[], NoError;
      if isOpen {
        var ctx := SaveCtx(mask, now);
        ghost var cal0 := calendars.State();
        ghost var items0 := items[..];
        ghost var run := SaveRun(ctx, cal0, [], []);
        for i := 0 to items.Length
          invariant Valid()
          invariant run == SaveRun(ctx, cal0, items0[..i], oracles[..i])
          invariant |run.items| == i && items[..] == run.items + items0[i..]
          invariant calendars.State() == run.cal && errorMap == run.errorMap && error == run.error
        {
          SaveRunSnoc(ctx, cal0, items0, oracles, i);
          assert items[i] == items0[i];
          var item := items[i];
          var saved;
          saved, errorMap := SaveItemAt(ctx, i, item, oracles[i], errorMap, run);
          if item.id.Some? && item.id.value.managerUri != managerUri {
            error := DoesNotExistError;
          }
          ghost var before := items[..];
          items[i] := saved;
          assert items[..] == before[i := saved];
          ReplaceAtSplit(run.items, items0[i..], saved);
          assert items0[i..][1..] == items0[i + 1..];
          run := SaveStep(ctx, run, items0[i], oracles[i]);
        }
        assert items0[..items.Length] == items0 && oracles[..items.Length] == oracles;
        assert items[..] == run.items;
        if !saveOk {
          error := PermissionsError;
        }
      } else {
        error := PermissionsError;
      }
      ok := error == NoError && errorMap == map[];
    }

    /** removeItems(items): the items are removed from the calendar in order
        as RemoveRun says; a failed save of the storage overrides the global
        error with PermissionsError. */
    method RemoveItems(items: seq<Item>, deleteOk: seq<bool>, saveOk: bool)
      returns (errorMap: map<int, Error>, error: Error, ok: bool)
      requires Valid() && |deleteOk| == |items|
      modifies calendars
      ensures Valid()
      ensures isOpen ==>
        var run := RemoveRun(managerUri, old(calendars.State()), items, deleteOk);
        && calendars.State() == run.cal && errorMap == run.errorMap
        && error == (if saveOk then run.error else PermissionsError)
      ensures !isOpen ==>
        calendars.State() == old(calendars.State()) && errorMap == map[] && error == PermissionsError
      ensures ok == BatchOk(errorMap, error)
    {
      errorMap, error := map[], NoError;
      if isOpen {
        ghost var cal0 := calendars.State();
        for i := 0 to |items|
          invariant Valid()
          invariant var run := RemoveRun(managerUri, cal0, items[..i], deleteOk[..i]);
            calendars.State() == run.cal && errorMap == run.errorMap && error == run.error
        {
          assert items[..i + 1][..i] == items[..i] && deleteOk[..i + 1][..i] == deleteOk[..i];
          var item := items[i];
          if item.id.None? || (item.id.value.managerUri == managerUri && item.id.value.localId != "") {
            var removed := calendars.RemoveItem(item, deleteOk[i]);
            if !removed {
              errorMap := errorMap[i := PermissionsError];
            }
          } else {
            error := DoesNotExistError;
          }
        }
        assert items[..|items|] == items && deleteOk[..|deleteOk|] == deleteOk;
        if !saveOk {
          error := PermissionsError;
        }
      } else {
        error := PermissionsError;
      }
      ok := error == NoError && errorMap == map[];
    }

    /** removeItems(ids): each id of this manager is looked up with
        Calendar::instance in the calendar as the earlier deletions left it
        (`chosen` records the answers) and the incidence found is deleted,
        as RemoveIdRun says; a failed save of the storage overrides the
        global error with PermissionsError. */
    method RemoveItemsById(ids: seq<ItemId>, deleteOk: seq<bool>, saveOk: bool)
      returns (errorMap: map<int, Error>, error: Error, ok: bool, ghost chosen: seq<Option<Key>>)
      requires Valid() && |deleteOk| == |ids|
      modifies calendars
      ensures Valid()
      ensures |chosen| == |ids|
      ensures isOpen ==>
        var run := RemoveIdRun(managerUri, old(calendars.State()), ids, chosen, deleteOk);
        && InstancesFit(managerUri, old(calendars.State()), ids, chosen, deleteOk)
        && calendars.State() == run.cal && errorMap == run.errorMap
        && error == (if saveOk then run.error else PermissionsError)
      ensures !isOpen ==>
        calendars.State() == old(calendars.State()) && errorMap == map[] && error == PermissionsError
      ensures ok == BatchOk(errorMap, error)
    {
      errorMap, error, chosen := map[], NoError, seq(|ids|, _ => None);
      if isOpen {
        ghost var cal0 := calendars.State();
        chosen := [];
        for i := 0 to |ids|
          invariant Valid() && |chosen| == i
          invariant InstancesFit(managerUri, cal0, ids[..i], chosen, deleteOk[..i])
          invariant var run := RemoveIdRun(managerUri, cal0, ids[..i], chosen, deleteOk[..i]);
            calendars.State() == run.cal && errorMap == run.errorMap && error == run.error
        {
          assert ids[..i + 1][..i] == ids[..i] && deleteOk[..i + 1][..i] == deleteOk[..i];
          var id := ids[i];
          var found: Option<Key> := None;
          if id.managerUri == managerUri && id.localId != "" {
            found := calendars.Instance(id.localId);
            if found.Some? {
              var deleted := calendars.DeleteIncidence(found.value, deleteOk[i]);
              if !deleted {
                errorMap := errorMap[i := PermissionsError];
              }
            }
          } else {
            error := DoesNotExistError;
          }
          assert (chosen + [found])[..i] == chosen;
          chosen := chosen + [found];
        }
        assert ids[..|ids|] == ids && deleteOk[..|deleteOk|] == deleteOk;
        if !saveOk {
          error := PermissionsError;
        }
      } else {
        error := PermissionsError;
      }
      ok := error == NoError && errorMap == map[];
    }

    /** collections: one collection per stored notebook, in the store's
        order; PermissionsError when the storage is not open. */
    method Collections() returns (cs: seq<Collection>, error: Error, ghost order: seq<string>)
      requires Valid()
      ensures isOpen ==>
        && error == NoError && |cs| == |order|
        && (forall i :: 0 <= i < |order| ==>
              order[i] in store.notebooks && cs[i] == ToCollection(managerUri, store.notebooks[order[i]]))
        && (forall i, j :: 0 <= i < j < |order| ==> order[i] != order[j])
        && (forall u :: u in store.notebooks ==> u in order)
      ensures !isOpen ==> cs == [] && error == PermissionsError
    {
      if isOpen {
        cs, order := CollectionsOf(managerUri, store);
        error := NoError;
      } else {
        cs, error, order := [], PermissionsError, [];
      }
    }

    /** The body of the loop of saveCollections for the collection at index
        |st.collections|. */
    method SaveCollectionAt(c: Collection, o: CollectionOracle, ghost st: CollectionsState)
      returns (saved: Collection, outcome: CollectionOutcome)
      requires Valid() && st.nbs == store.notebooks
      modifies store
      ensures Valid() && store.defaultUid == old(store.defaultUid)
      ensures var s := SaveCollectionStep(managerUri, st, c, o);
        && s.nbs == store.notebooks && s.collections == st.collections + [saved]
        && match outcome
           case Failed(e) =>
             && s.errors == st.errors[|st.collections| := e]
             && s.added == st.added && s.addedUids == st.addedUids
             && s.changed == st.changed && s.modifiedUids == st.modifiedUids
           case AddedAs(id, u) =>
             && s.errors == st.errors
             && s.added == st.added + [id] && s.addedUids == st.addedUids + [u]
             && s.changed == st.changed && s.modifiedUids == st.modifiedUids
           case ChangedAs(id, u) =>
             && s.errors == st.errors
             && s.added == st.added && s.addedUids == st.addedUids
             && s.changed == st.changed + [id] && s.modifiedUids == st.modifiedUids + [u]
    {
      saved := c;
      if c.id.None? {
        var nb := UpdateNotebook(o.created, c);
        var added := store.AddNotebook(nb, o.addOk);
        if !added {
          outcome := Failed(PermissionsError);
        } else {
          saved := c.(id := Some(CollectionId(managerUri, nb.uid)));
          outcome := AddedAs(saved.id.value, nb.uid);
        }
      } else {
        var stored := store.NotebookWithUid(c.id.value.localId);
        if stored.Some? {
          var nb := UpdateNotebook(stored.value, c);
          var updated := store.UpdateNotebook(nb, o.updateOk);
          if !updated {
            outcome := Failed(PermissionsError);
          } else {
            outcome := ChangedAs(c.id.value, nb.uid);
          }
        } else {
          outcome := Failed(DoesNotExistError);
        }
      }
    }

    /** saveCollections: the collections are saved in order as
        SaveCollectionsRun says, each new one receiving its id in place in
        the list. The uid and id lists are built by prepending, so they come
        out in reverse order; the modification list holds every Add, then
        every Change, each in list order. */
    method SaveCollections(collections: array<Collection>, oracles: seq<CollectionOracle>)
      returns (errors: map<int, Error>, error: Error, ok: bool,
               addedIds: seq<string>, modifiedIds: seq<string>,
               added: seq<CollectionId>, changed: seq<CollectionId>,
               mods: seq<(CollectionId, Operation)>)
      requires Valid() && collections.Length == |oracles|
      modifies collections, store
      ensures Valid()
      ensures isOpen ==>
        var run := SaveCollectionsRun(managerUri, old(store.notebooks), old(collections[..]), oracles);
        && store.notebooks == run.nbs && collections[..] == run.collections
        && errors == run.errors && error == NoError
        && addedIds == Reverse(run.addedUids) && modifiedIds == Reverse(run.modifiedUids)
        && added == Reverse(run.added) && changed == Reverse(run.changed)
        && mods == Tagged(run.added, Add) + Tagged(run.changed, Change)
      ensures !isOpen ==>
        && store.notebooks == old(store.notebooks) && collections[..] == old(collections[..])
        && errors == map[] && error == PermissionsError
        && addedIds == [] && modifiedIds == [] && added == [] && changed == [] && mods == []
      ensures store.defaultUid == old(store.defaultUid)
      ensures ok == BatchOk(errors, error)
    {
      error, mods := NoError, [];
      if isOpen {
        ghost var run;
        errors, addedIds, modifiedIds, added, changed, run := SaveCollectionsLoop(collections, oracles);
        mods := CollectionMods(added, changed, run.added, run.changed);
      } else {
        errors, addedIds, modifiedIds, added, changed := map[], [], [], [], [];
        error := PermissionsError;
      }
      ok := error == NoError && errors == map[];
    }

    /** The loop of saveCollections, with its prepended uid and id lists. */
    method SaveCollectionsLoop(collections: array<Collection>, oracles: seq<CollectionOracle>)
      returns (errors: map<int, Error>, addedIds: seq<string>, modifiedIds: seq<string>,
               added: seq<CollectionId>, changed: seq<CollectionId>, ghost run: CollectionsState)
      requires Valid() && collections.Length == |oracles|
      modifies collections, store
      ensures Valid() && store.defaultUid == old(store.defaultUid)
      ensures run == SaveCollectionsRun(managerUri, old(store.notebooks), old(collections[..]), oracles)
      ensures && store.notebooks == run.nbs && collections[..] == run.collections && errors == run.errors
        && addedIds == Reverse(run.addedUids) && modifiedIds == Reverse(run.modifiedUids)
        && added == Reverse(run.added) && changed == Reverse(run.changed)
    {
      errors, addedIds, modifiedIds, added, changed := map[], [], [], [], [];
      ghost var nbs0 := store.notebooks;
      ghost var cs0 := collections[..];
      run := SaveCollectionsRun(managerUri, nbs0, [], []);
      for i := 0 to collections.Length
        invariant Valid() && store.defaultUid == old(store.defaultUid)
        invariant run == SaveCollectionsRun(managerUri, nbs0, cs0[..i], oracles[..i])
        invariant |run.collections| == i && collections[..] == run.collections + cs0[i..]
        invariant store.notebooks == run.nbs && errors == run.errors
        invariant addedIds == Reverse(run.addedUids) && modifiedIds == Reverse(run.modifiedUids)
        invariant added == Reverse(run.added) && changed == Reverse(run.changed)
      {
        SaveCollectionsRunSnoc(managerUri, nbs0, cs0, oracles, i);
        assert collections[i] == cs0[i];
        var saved, outcome := SaveCollectionAt(collections[i], oracles[i], run);
        match outcome {
          case Failed(e) =>
            errors := errors[i := e];
          case AddedAs(id, u) =>
            ReverseSnoc(run.addedUids, u);
            ReverseSnoc(run.added, id);
            addedIds := [u] + addedIds;
            added := [id] + added;
          case ChangedAs(id, u) =>
            ReverseSnoc(run.modifiedUids, u);
            ReverseSnoc(run.changed, id);
            modifiedIds := [u] + modifiedIds;
            changed := [id] + changed;
        }
        ghost var before := collections[..];
        collections[i] := saved;
        assert collections[..] == before[i := saved];
        ReplaceAtSplit(run.collections, cs0[i..], saved);
        assert cs0[i..][1..] == cs0[i + 1..];
        run := SaveCollectionStep(managerUri, run, cs0[i], oracles[i]);
      }
      assert cs0[..collections.Length] == cs0 && oracles[..collections.Length] == oracles;
      assert collections[..] == run.collections;
    }

    /** removeCollections: the notebooks with the ids' local ids are deleted
        in order as RemoveCollectionsRun says; the uid, id and modification
        lists are built by prepending, so they come out in reverse order. */
    method RemoveCollections(ids: seq<CollectionId>, deleteOk: seq<bool>)
      returns (errors: map<int, Error>, error: Error, ok: bool,
               removedUids: seq<string>, removed: seq<CollectionId>, mods: seq<(CollectionId, Operation)>)
      requires Valid() && |deleteOk| == |ids|
      modifies store
      ensures Valid()
      ensures isOpen ==>
        var run := RemoveCollectionsRun(old(store.notebooks), ids, deleteOk);
        && store.notebooks == run.nbs && errors == run.errors && error == NoError
        && removedUids == Reverse(run.uids) && removed == Reverse(run.removed)
        && mods == Tagged(Reverse(run.removed), Remove)
      ensures !isOpen ==>
        && store.notebooks == old(store.notebooks) && errors == map[] && error == PermissionsError
        && removedUids == [] && removed == [] && mods == []
      ensures store.defaultUid == old(store.defaultUid)
      ensures ok == BatchOk(errors, error)
    {
      errors, error, removedUids, removed, mods := map[], NoError, [], [], [];
      if isOpen {
        ghost var nbs0 := store.notebooks;
        for i := 0 to |ids|
          invariant Valid() && store.defaultUid == old(store.defaultUid)
          invariant var run := RemoveCollectionsRun(nbs0, ids[..i], deleteOk[..i]);
            && store.notebooks == run.nbs && errors == run.errors
            && removedUids == Reverse(run.uids) && removed == Reverse(run.removed)
            && mods == Tagged(Reverse(run.removed), Remove)
        {
          ghost var st := RemoveCollectionsRun(nbs0, ids[..i], deleteOk[..i]);
          assert ids[..i + 1][..i] == ids[..i] && deleteOk[..i + 1][..i] == deleteOk[..i];
          var id := ids[i];
          var nb := store.NotebookWithUid(id.localId);
          if nb.Some? {
            var deleted := store.DeleteNotebook(nb.value.uid, deleteOk[i]);
            if !deleted {
              errors := errors[i := PermissionsError];
            } else {
              ReverseSnoc(st.uids, nb.value.uid);
              ReverseSnoc(st.removed, id);
              TaggedCons(id, Reverse(st.removed), Remove);
              removedUids := [nb.value.uid] + removedUids;
              removed := [id] + removed;
              mods := [(id, Remove)] + mods;
            }
          } else {
            errors := errors[i := DoesNotExistError];
          }
        }
        assert ids[..|ids|] == ids && deleteOk[..|deleteOk|] == deleteOk;
      } else {
        error := PermissionsError;
      }
      ok := error == NoError && errors == map[];
    }

    /** saveCollection: saveCollections on a one-element list; the error
        reported is the one ReportAsWritten picks. */
    method SaveCollection(c: Collection, o: CollectionOracle) returns (saved: Collection, error: Error, ok: bool)
      requires Valid()
      modifies store
      ensures Valid()
      ensures var run := SaveCollectionsRun(managerUri, old(store.notebooks), [c], [o]);
        && (isOpen ==> store.notebooks == run.nbs && saved == run.collections[0]
                       && error == ReportAsWritten(run.errors, NoError) && ok == BatchOk(run.errors, NoError))
        && (!isOpen ==> store.notebooks == old(store.notebooks) && saved == c && error == NoError && !ok)
    {
      var list := new Collection[1](_ => c);
      assert list[..] == [c];
      var errors, batchError, batchOk, addedIds, modifiedIds, added, changed, mods := SaveCollections(list, [o]);
      ok := batchOk;
      error := if errors == map[] then NoError else if 0 in errors then errors[0] else NoError;
      saved := list[0];
    }

    /** removeCollection: removeCollections on a one-element list; the error
        reported is the one ReportAsWritten picks. */
    method RemoveCollection(id: CollectionId, deleteOk: bool) returns (error: Error, ok: bool)
      requires Valid()
      modifies store
      ensures Valid()
      ensures var run := RemoveCollectionsRun(old(store.notebooks), [id], [deleteOk]);
        && (isOpen ==> store.notebooks == run.nbs && error == ReportAsWritten(run.errors, NoError)
                       && ok == BatchOk(run.errors, NoError))
        && (!isOpen ==> store.notebooks == old(store.notebooks) && error == NoError && !ok)
    {
      var errors, batchError, batchOk, removedUids, removed, mods := RemoveCollections([id], [deleteOk]);
      ok := batchOk;
      error := if errors == map[] then NoError else if 0 in errors then errors[0] else NoError;
    }
  }
}
