/** The older engine of src/mkcalplugin.cpp, which works on collections
    directly over the notebook store, one collection per call. */
module Engine {
  import opened Types
  import opened Helper
  import opened Storage
  import opened WorkerSpec

  /** QOrganizerCollection(): no id and no metadata. */
  const EmptyCollection: Collection := Collection(None, map[], map[])

  /** The outcome of code that may dereference a null reference. */
  datatype Deref<T> = NullDereference | Value(value: T)

  // ------------------------------------------------- defaultCollectionId

  /** defaultCollectionId as written: when the storage is open, the uid of
      the default notebook is read without checking that there is one. */
  function DefaultIdAsWritten(managerUri: string, isOpen: bool, dflt: Option<Notebook>)
    : (r: Deref<Option<CollectionId>>)
    ensures r.NullDereference? <==> isOpen && dflt.None?
  {
    if !isOpen then Value(None)
    else if dflt.None? then NullDereference
    else Value(Some(CollectionId(managerUri, dflt.value.uid)))
  }

  /** An open storage without a default notebook makes the written code
      dereference a null reference. */
  lemma DefaultIdAsWrittenDereferencesNull(managerUri: string)
    ensures DefaultIdAsWritten(managerUri, true, None) == NullDereference
  {
  }

  /** defaultCollectionId as evidently intended: the id of the default
      notebook when the storage is open and has one, the null id otherwise. */
  function DefaultIdCorrected(managerUri: string, isOpen: bool, dflt: Option<Notebook>): (r: Option<CollectionId>)
    ensures r.Some? <==> isOpen && dflt.Some?
    ensures r.Some? ==> r.value == CollectionId(managerUri, dflt.value.uid)
    ensures DefaultIdAsWritten(managerUri, isOpen, dflt).Value? ==>
      DefaultIdAsWritten(managerUri, isOpen, dflt).value == r
  {
    if isOpen && dflt.Some? then Some(CollectionId(managerUri, dflt.value.uid)) else None
  }

  // ------------------------------------------------------ saveCollection

  datatype Saved = Saved(nbs: map<string, Notebook>, collection: Collection, error: Error,
                         mods: seq<(CollectionId, Operation)>)

  /** saveCollection as a function of the store before the call: a new
      collection becomes a new notebook and receives the id of this manager
      with the notebook's uid; an existing one updates the stored notebook
      with its local id. The modification signal carries the one id. */
  function EngineSave(managerUri: string, isOpen: bool, nbs: map<string, Notebook>, c: Collection,
                      o: CollectionOracle): Saved
  {
    if !isOpen then Saved(nbs, c, PermissionsError, [])
    else if c.id.None? then
      var nb := UpdatedNotebook(o.created, c);
      if o.addOk && nb.uid !in nbs then
        var id := CollectionId(managerUri, nb.uid);
        Saved(nbs[nb.uid := nb], c.(id := Some(id)), NoError, [(id, Add)])
      else Saved(nbs, c, PermissionsError, [])
    else if c.id.value.localId in nbs then
      var nb := UpdatedNotebook(nbs[c.id.value.localId], c);
      if o.updateOk && nb.uid in nbs then Saved(nbs[nb.uid := nb], c, NoError, [(c.id.value, Change)])
      else Saved(nbs, c, PermissionsError, [])
    else Saved(nbs, c, DoesNotExistError, [])
  }

  /** The error contract of saveCollection: a new collection gets an id of
      this manager exactly when the notebook is added, and otherwise keeps
      its null id with PermissionsError; an existing collection is
      DoesNotExistError without a stored notebook and PermissionsError when
      the update fails. A collection that fails adds or rewrites no notebook
      of the modelled store. */
  lemma EngineSaveErrors(managerUri: string, isOpen: bool, nbs: map<string, Notebook>, c: Collection,
                         o: CollectionOracle)
    ensures var s := EngineSave(managerUri, isOpen, nbs, c, o);
      && (s.error != NoError ==> s.nbs == nbs && s.collection == c && s.mods == [])
      && (!isOpen ==> s.error == PermissionsError)
      && (isOpen && c.id.None? ==>
            && (s.error == NoError <==> o.addOk && o.created.uid !in nbs)
            && (s.error == NoError ==>
                  s.collection.id == Some(CollectionId(managerUri, o.created.uid)) && o.created.uid in s.nbs)
            && (s.error != NoError ==> s.error == PermissionsError && s.collection.id.None?))
      && (isOpen && c.id.Some? && c.id.value.localId !in nbs ==> s.error == DoesNotExistError)
      && (isOpen && c.id.Some? && c.id.value.localId in nbs ==>
            s.error == (if o.updateOk && nbs[c.id.value.localId].uid in nbs then NoError else PermissionsError))
      && |s.mods| == (if s.error == NoError then 1 else 0)
  {
  }

  /** On a storage whose notebooks are stored under their uids, the engine's
      saveCollection and the worker's saveCollections on a one-element list
      leave the same notebooks and the same collection, signal the same
      modification, and agree on the error once the worker reports the
      batch's global error (ReportCorrected). */
  lemma {:induction false} EngineSaveAgreesWithWorker(managerUri: string, nbs: map<string, Notebook>,
                                                     c: Collection, o: CollectionOracle)
    requires forall u :: u in nbs ==> nbs[u].uid == u
    ensures var s := EngineSave(managerUri, true, nbs, c, o);
      var run := SaveCollectionsRun(managerUri, nbs, [c], [o]);
      && s.nbs == run.nbs && s.collection == run.collections[0]
      && s.error == ReportCorrected(run.errors, NoError)
      && s.mods == Tagged(run.added, Add) + Tagged(run.changed, Change)
  {
    var empty := SaveCollectionsRun(managerUri, nbs, [], []);
    assert [c][..0] == [] && [o][..0] == [];
    assert SaveCollectionsRun(managerUri, nbs, [c], [o]) == SaveCollectionStep(managerUri, empty, c, o);
    var run := SaveCollectionStep(managerUri, empty, c, o);
    assert c.id.None? ==> UpdatedNotebook(o.created, c).uid == o.created.uid;
    if c.id.Some? && c.id.value.localId in nbs {
      assert UpdatedNotebook(nbs[c.id.value.localId], c).uid == nbs[c.id.value.localId].uid;
    }
    assert 0 !in run.errors ==> run.errors == map[];
  }

  // ---------------------------------------------------- removeCollection

  datatype Removed = Removed(nbs: map<string, Notebook>, error: Error, mods: seq<(CollectionId, Operation)>)

  /** removeCollection as a function of the store before the call: an id of
      another manager is refused; the notebook with the id's local id is
      deleted, and a missing notebook is not an error. */
  function EngineRemove(managerUri: string, isOpen: bool, nbs: map<string, Notebook>, id: CollectionId,
                        deleteOk: bool): Removed
  {
    if !(isOpen && id.managerUri == managerUri) then Removed(nbs, PermissionsError, [])
    else if id.localId in nbs then
      if deleteOk then Removed(nbs - {id.localId}, NoError, [(id, Remove)])
      else Removed(nbs, PermissionsError, [])
    else Removed(nbs, NoError, [])
  }

  /** The error contract of removeCollection: PermissionsError for an id of
      another manager or a failed deletion, success (with nothing removed)
      for an id of this manager without a notebook. */
  lemma EngineRemoveErrors(managerUri: string, isOpen: bool, nbs: map<string, Notebook>, id: CollectionId,
                           deleteOk: bool)
    ensures var r := EngineRemove(managerUri, isOpen, nbs, id, deleteOk);
      && (r.error == NoError || r.error == PermissionsError)
      && (r.error == NoError <==> isOpen && id.managerUri == managerUri && (id.localId in nbs ==> deleteOk))
      && (r.error == NoError ==> id.localId !in r.nbs)
      && (forall u :: u in r.nbs ==> u in nbs && r.nbs[u] == nbs[u])
      && (r.mods != [] <==> r.nbs != nbs)
  {
    var r := EngineRemove(managerUri, isOpen, nbs, id, deleteOk);
    if r.nbs != nbs {
      assert isOpen && id.managerUri == managerUri && id.localId in nbs && deleteOk;
    }
    if isOpen && id.managerUri == managerUri && id.localId in nbs && deleteOk {
      assert id.localId in nbs && id.localId !in r.nbs;
    }
  }

  /** The engine's removeCollection and the worker's removeCollections on a
      one-element list: for an id of this manager they leave the same
      notebooks, and their errors differ only when no notebook has the id's
      local id (the engine reports success, the worker DoesNotExistError);
      for an id of another manager the engine refuses while the worker, which
      does not check the uri, deletes the notebook with that local id. */
  lemma {:induction false} EngineRemoveVersusWorker(managerUri: string, nbs: map<string, Notebook>,
                                                    id: CollectionId, deleteOk: bool)
    ensures var r := EngineRemove(managerUri, true, nbs, id, deleteOk);
      var run := RemoveCollectionsRun(nbs, [id], [deleteOk]);
      && (id.managerUri == managerUri ==>
            && r.nbs == run.nbs
            && (id.localId in nbs ==> r.error == ReportAsWritten(run.errors, NoError)
                                      && r.mods == Tagged(run.removed, Remove))
            && (id.localId !in nbs ==> r.error == NoError && ReportAsWritten(run.errors, NoError) == DoesNotExistError))
      && (id.managerUri != managerUri ==>
            r.error == PermissionsError && r.nbs == nbs
            && run.nbs == (if id.localId in nbs && deleteOk then nbs - {id.localId} else nbs))
  {
    var empty := RemoveCollectionsRun(nbs, [], []);
    assert [id][..0] == [] && [deleteOk][..0] == [];
    assert RemoveCollectionsRun(nbs, [id], [deleteOk]) == RemoveCollectionStep(empty, 0, id, deleteOk);
    var run := RemoveCollectionStep(empty, 0, id, deleteOk);
    if !(id.localId in nbs && deleteOk) {
      assert 0 in run.errors;
    }
  }

  // ---------------------------------------------------------- the engine

  class MKCalEngine {
    const managerUri: string
    const store: NotebookStore
    const isOpened: bool

    ghost predicate Valid()
      reads this, store
    {
      store.Valid()
    }

    /** The engine opens its storage once, when it is built. */
    constructor (managerUri: string, store: NotebookStore, openOk: bool)
      requires store.Valid()
      ensures Valid()
      ensures this.managerUri == managerUri && this.store == store && isOpened == openOk
    {
      this.managerUri := managerUri;
      this.store := store;
      isOpened := openOk;
    }

    /** defaultCollectionId, corrected (see DefaultIdAsWritten): null when
        the storage is not open or has no default notebook. */
    function DefaultCollectionId(): (r: Option<CollectionId>)
      reads this, store
      requires Valid()
      ensures r.Some? <==> isOpened && store.DefaultNotebook().Some?
      ensures r.Some? ==> r.value == CollectionId(managerUri, store.defaultUid.value)
    {
      DefaultIdCorrected(managerUri, isOpened, store.DefaultNotebook())
    }

    /** collection: the collection of the notebook with the id's local id,
        whose id is then the one asked for; an empty collection with
        PermissionsError when the storage is not open, and with
        DoesNotExistError for an id of another manager or without a
        notebook. */
    function CollectionWithId(id: CollectionId): (r: (Collection, Error))
      reads this, store
      requires Valid()
      ensures r.1 == NoError <==> isOpened && id.managerUri == managerUri && id.localId in store.notebooks
      ensures r.1 == NoError ==> r.0 == ToCollection(managerUri, store.notebooks[id.localId]) && r.0.id == Some(id)
      ensures r.1 != NoError ==> r.0 == EmptyCollection
      ensures !isOpened ==> r.1 == PermissionsError
      ensures isOpened && r.1 != NoError ==> r.1 == DoesNotExistError
    {
      if !isOpened then (EmptyCollection, PermissionsError)
      else
        var nb := store.NotebookWithUid(id.localId);
        if id.managerUri == managerUri && nb.Some? then (ToCollection(managerUri, nb.value), NoError)
        else (EmptyCollection, DoesNotExistError)
    }

    /** collections: one collection per stored notebook, in the store's
        order; PermissionsError when the storage is not open. */
    method Collections() returns (cs: seq<Collection>, error: Error, ghost order: seq<string>)
      requires Valid()
      ensures isOpened ==>
        && error == NoError && |cs| == |order|
        && (forall i :: 0 <= i < |order| ==>
              order[i] in store.notebooks && cs[i] == ToCollection(managerUri, store.notebooks[order[i]]))
        && (forall i, j :: 0 <= i < j < |order| ==> order[i] != order[j])
        && (forall u :: u in store.notebooks ==> u in order)
      ensures !isOpened ==> cs == [] && error == PermissionsError
    {
      if isOpened {
        cs, order := CollectionsOf(managerUri, store);
        error := NoError;
      } else {
        cs, error, order := [], PermissionsError, [];
      }
    }

    /** saveCollection, as EngineSave says; the result is true exactly when
        the error is NoError. */
    method SaveCollection(c: Collection, o: CollectionOracle)
      returns (saved: Collection, error: Error, ok: bool, mods: seq<(CollectionId, Operation)>)
      requires Valid()
      modifies store
      ensures Valid() && store.defaultUid == old(store.defaultUid)
      ensures Saved(store.notebooks, saved, error, mods) == EngineSave(managerUri, isOpened, old(store.notebooks), c, o)
      ensures ok <==> error == NoError
    {
      saved, error, mods := c, NoError, [];
      if isOpened {
        if c.id.None? {
          var nb := UpdateNotebook(o.created, c);
          var added := store.AddNotebook(nb, o.addOk);
          if !added {
            error := PermissionsError;
          } else {
            saved := c.(id := Some(CollectionId(managerUri, nb.uid)));
            mods := [(saved.id.value, Add)];
          }
        } else {
          var stored := store.NotebookWithUid(c.id.value.localId);
          if stored.Some? {
            var nb := UpdateNotebook(stored.value, c);
            var updated := store.UpdateNotebook(nb, o.updateOk);
            if !updated {
              error := PermissionsError;
            } else {
              mods := [(c.id.value, Change)];
            }
          } else {
            error := DoesNotExistError;
          }
        }
      } else {
        error := PermissionsError;
      }
      ok := error == NoError;
    }

    /** removeCollection, as EngineRemove says; the result is true exactly
        when the error is NoError. */
    method RemoveCollection(id: CollectionId, deleteOk: bool)
      returns (error: Error, ok: bool, mods: seq<(CollectionId, Operation)>)
      requires Valid()
      modifies store
      ensures Valid() && store.defaultUid == old(store.defaultUid)
      ensures Removed(store.notebooks, error, mods) == EngineRemove(managerUri, isOpened, old(store.notebooks), id, deleteOk)
      ensures ok <==> error == NoError
    {
      error, mods := NoError, [];
      if isOpened && id.managerUri == managerUri {
        var nb := store.NotebookWithUid(id.localId);
        if nb.Some? {
          var deleted := store.DeleteNotebook(nb.value.uid, deleteOk);
          if !deleted {
            error := PermissionsError;
          } else {
            mods := [(id, Remove)];
          }
        }
      } else {
        error := PermissionsError;
      }
      ok := error == NoError;
    }
  }
}
