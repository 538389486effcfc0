/** The part of mKCal's storage that the worker and the engine use for
    notebooks: the notebooks by uid and the default notebook. Whether a
    storage call succeeds is decided by the storage, not by the plugin, and
    is an input here (the `ok` parameters). */
module Storage {
  import opened Types
  import opened Helper

  class NotebookStore {
    var notebooks: map<string, Notebook>
    var defaultUid: Option<string>

    /** Every notebook is stored under its own uid. */
    ghost predicate Valid()
      reads this
    {
      forall u :: u in notebooks ==> notebooks[u].uid == u
    }

    constructor (initial: map<string, Notebook>, initialDefault: Option<string>)
      requires forall u :: u in initial ==> initial[u].uid == u
      ensures Valid()
      ensures notebooks == initial && defaultUid == initialDefault
    {
      notebooks := initial;
      defaultUid := initialDefault;
    }

    /** ExtendedStorage::notebook: the notebook with this uid, if any. */
    function NotebookWithUid(uid: string): (r: Option<Notebook>)
      reads this
      requires Valid()
      ensures r.Some? <==> uid in notebooks
      ensures r.Some? ==> r.value == notebooks[uid] && r.value.uid == uid
    {
      if uid in notebooks then Some(notebooks[uid]) else None
    }

    /** ExtendedStorage::defaultNotebook: the default notebook, if one is set
        and still stored. */
    function DefaultNotebook(): (r: Option<Notebook>)
      reads this
      requires Valid()
      ensures r.Some? <==> defaultUid.Some? && defaultUid.value in notebooks
      ensures r.Some? ==> r.value.uid == defaultUid.value
    {
      if defaultUid.Some? && defaultUid.value in notebooks then Some(notebooks[defaultUid.value]) else None
    }

    /** ExtendedStorage::addNotebook: a notebook whose uid is already stored
        is refused. */
    method AddNotebook(nb: Notebook, ok: bool) returns (added: bool)
      requires Valid()
      modifies this
      ensures Valid()
      ensures added <==> ok && nb.uid !in old(notebooks)
      ensures notebooks == if added then old(notebooks)[nb.uid := nb] else old(notebooks)
      ensures defaultUid == old(defaultUid)
    {
      added := ok && nb.uid !in notebooks;
      if added {
        notebooks := notebooks[nb.uid := nb];
      }
    }

    /** ExtendedStorage::updateNotebook: only a stored notebook can be
        updated. */
    method UpdateNotebook(nb: Notebook, ok: bool) returns (updated: bool)
      requires Valid()
      modifies this
      ensures Valid()
      ensures updated <==> ok && nb.uid in old(notebooks)
      ensures notebooks == if updated then old(notebooks)[nb.uid := nb] else old(notebooks)
      ensures defaultUid == old(defaultUid)
    {
      updated := ok && nb.uid in notebooks;
      if updated {
        notebooks := notebooks[nb.uid := nb];
      }
    }

    /** ExtendedStorage::deleteNotebook. */
    method DeleteNotebook(uid: string, ok: bool) returns (deleted: bool)
      requires Valid()
      modifies this
      ensures Valid()
      ensures deleted <==> ok && uid in old(notebooks)
      ensures notebooks == if deleted then old(notebooks) - {uid} else old(notebooks)
      ensures defaultUid == old(defaultUid)
    {
      deleted := ok && uid in notebooks;
      if deleted {
        notebooks := notebooks - {uid};
      }
    }

    /** ExtendedStorage::setDefaultNotebook: stores the notebook and makes it
        the default. */
    method SetDefaultNotebook(nb: Notebook, ok: bool) returns (done: bool)
      requires Valid()
      modifies this
      ensures Valid()
      ensures done == ok
      ensures notebooks == if done then old(notebooks)[nb.uid := nb] else old(notebooks)
      ensures defaultUid == if done then Some(nb.uid) else old(defaultUid)
    {
      done := ok;
      if done {
        notebooks := notebooks[nb.uid := nb];
        defaultUid := Some(nb.uid);
      }
    }
  }

  /** The loop of the collections() operations: one collection per stored
      notebook, each with the manager's uri, in the store's iteration order
      (given by `order`, every stored uid exactly once). */
  method CollectionsOf(managerUri: string, store: NotebookStore)
    returns (cs: seq<Collection>, ghost order: seq<string>)
    requires store.Valid()
    ensures |cs| == |order|
    ensures forall i :: 0 <= i < |order| ==>
      order[i] in store.notebooks && cs[i] == ToCollection(managerUri, store.notebooks[order[i]])
    ensures forall i, j :: 0 <= i < j < |order| ==> order[i] != order[j]
    ensures forall u :: u in store.notebooks ==> u in order
  {
    cs, order := [], [];
    var nbs := store.notebooks;
    var todo := nbs.Keys;
    ghost var done: set<string> := {};
    while todo != {}
      invariant todo + done == nbs.Keys && todo !! done
      invariant forall u :: u in done <==> u in order
      invariant |cs| == |order|
      invariant forall i :: 0 <= i < |order| ==> order[i] in nbs
      invariant forall i :: 0 <= i < |order| ==> cs[i] == ToCollection(managerUri, nbs[order[i]])
      invariant forall i, j :: 0 <= i < j < |order| ==> order[i] != order[j]
      decreases todo
    {
      var u :| u in todo;
      cs := cs + [ToCollection(managerUri, nbs[u])];
      order := order + [u];
      todo := todo - {u};
      done := done + {u};
    }
  }
}
