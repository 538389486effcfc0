# qtorganizer-mkcal, modelled in Dafny

This project models the core of the qtorganizer-mkcal plugin. The plugin
exposes a calendar stored by mKCal (notebooks of KCalendarCore incidences)
as a QtOrganizer manager engine. The model covers four source files:

- `src/helper.cpp` translates QtOrganizer items and collections to
  KCalendarCore incidences and mKCal notebooks, and back:
  - the conversion tables for classification, priority, attendee status
    and role, recurrence frequency and limit, and reminders;
  - the detail mask that gates every field write;
  - the metadata mapping between a collection and a notebook.
- `src/itemcalendars.cpp`: the calendar's add, update and remove dispatch.
  It finds the target incidence from the item's type and its optional
  parent detail.
- `src/mkcalworker.cpp`: the worker's batch operations:
  - per-index error maps and the global error;
  - default-collection assignment;
  - parent-id de-duplication in `itemIds`;
  - the order of the Add, Change and Remove lists;
  - per-notebook purge lists;
  - tracking of the default notebook uid.
- `src/mkcalplugin.cpp`: the older single-collection engine.

Modules:

- `Types` (types.dfy): dates, date-times, identifiers, error codes.
- `Conversions` (conversions.dfy): the enum tables of helper.cpp, each
  stated as an if-and-only-if table, with round trips for priority and
  recurrence rules.
- `Helper` (helper.dfy):
  - the incidence and notebook records;
  - `updateIncidence`/`updateEvent`/`updateTodo`/`updateJournal` and
    `updateNotebook` as loop methods, each proved equal to a specification
    function;
  - lemmas about mask gating, alarms, attendees, and the save-then-read
    round trip of collection metadata.
- `ItemCals` (itemcalendars.dfy): class `ItemCalendars`. It holds a map
  from (uid, optional recurrence id) to incidence, plus the notebook of
  each incidence. `AddItem`, `UpdateItem` and `RemoveItem` are proved
  against the functions `AfterAdd`, `AfterUpdate` and `AfterRemove`, and
  lemmas state what those change.
- `Storage` (storage.dfy): class `NotebookStore`, the part of the mKCal
  storage the plugin uses. Each storage call takes a success flag.
- `WorkerSpec` (workerspec.dfy): specification functions for every batch
  operation of the worker, one step per list element, with the
  all-elements lemmas about them. Also `itemStartDateTime` and the sort
  predicate.
- `Worker` (worker.dfy): class `MKCalWorker` with fields `isOpen` and
  `defaultNotebookUid`:
  - its batch methods are loops proved against WorkerSpec;
  - `SortItems` is an in-place insertion sort on an array, standing for
    `std::sort`.
- `Engine` (engine.dfy): class `MKCalEngine`, whose collection operations
  work over a `NotebookStore`.

Storage results are parameters, never computed:

- whether `open`, `load`, `save`, `addNotebook`, `updateNotebook`,
  `deleteNotebook` or `setDefaultNotebook` succeed;
- the uid a new notebook or incidence receives;
- what `ItemCalendars::item`/`items` return.

The worker's batch operations combine a per-index error map with a global
error, and the single-collection wrappers drop the global error (Finding 1
below).

## Model

| member | source | states |
|---|---|---|
| Types.WithDate | src/helper.cpp:89-91 | `QDateTime::setDate` replaces only the date. Time and zone are kept, and an invalid date gives an invalid date-time |
| Conversions.ToSecrecy | src/helper.cpp:147-163 | AccessPrivate gives SecrecyPrivate and AccessConfidential gives SecrecyConfidential; every other classification gives SecrecyPublic (both directions) |
| Conversions.ToPartStat | src/helper.cpp:236-257 | each of the six named statuses gives the PartStat of the same name; any other status, including StatusUnknown, gives NeedsAction; never PartStatNone |
| Conversions.ToAttendeeRole | src/helper.cpp:258-274 | Chairperson, OptionalParticipant and NonParticipant map to their counterparts; Required, Unknown, Organizer and Host give ReqParticipant (both directions) |
| Conversions.PriorityValue | src/helper.cpp:173-179 | the stored priority is the enum's integer: 0 exactly for UnknownPriority, 1 exactly for Highest, 9 exactly for Lowest, always within 0..9 |
| Conversions.PriorityFromValue | src/helper.cpp:173-179 | reading a stored priority back succeeds exactly for 0..9 |
| Conversions.PriorityRoundTrip | src/helper.cpp:173-179 | reading back the stored integer yields the original priority |
| Conversions.PriorityValueInjective | src/helper.cpp:173-179 | two priorities with the same stored integer are equal |
| Conversions.ToPeriodType | src/helper.cpp:67-83 | Daily/Weekly/Monthly/Yearly give rDaily/rWeekly/rMonthly/rYearly and anything else gives rNone (both directions); the sub-daily types never appear |
| Conversions.WeekDays | src/helper.cpp:97-103 | a weekday is in the rule's by-day list exactly when it is in the item's days of week, always at position 0 |
| Conversions.ToIncidenceRule | src/helper.cpp:61-124 | the rule copies all-day and start; its period follows ToPeriodType; its frequency is the item's interval; duration is set exactly for a count limit (to the count), and the end exactly for a date limit (to the start with its date replaced) |
| Conversions.RuleRoundTrip | src/helper.cpp:61-124 | with a valid limit date, converting the KCalendarCore rule back gives the original QtOrganizer rule |
| Conversions.ToAlarm | src/helper.cpp:50-59 | the alarm's start offset, repeat count and snooze time are the reminder's seconds before start, repetition count and repetition delay |
| Helper.NewIncidence | src/itemcalendars.cpp:406-445 | a freshly constructed Event, Todo or Journal has the given kind and uid, no recurrence id, no alarms, no attendees and no recurrence |
| Helper.AddRules | src/helper.cpp:285-287 | the loop appends one converted rule per QtOrganizer rule, in order |
| Helper.AddDates | src/helper.cpp:288-295 | recurrence dates go to the date set for an all-day incidence, otherwise to the date-time set at the start's time of day |
| Helper.AddRecurrence | src/helper.cpp:280-310 | the recurrence detail's loops give the incidence WithRecurrence applied to it |
| Helper.UpdateIncidence | src/helper.cpp:126-315 | the method's result equals the specification function UpdatedIncidence (header, then the detail loop) |
| Helper.UpdateHeader | src/helper.cpp:130-144 | the header part equals WithHeader: summary, description and comments written under the mask |
| Helper.UpdateDetails | src/helper.cpp:145-314 | the detail loop equals ApplyDetails folded over the item's details in order |
| Helper.UpdateTimes | src/helper.cpp:320-336 | the type-specific detail loop equals ApplyTimeDetails |
| Helper.UpdateEvent | src/helper.cpp:317-337 | updateEvent equals UpdatedAs(EventKind, …) |
| Helper.UpdateTodo | src/helper.cpp:339-367 | updateTodo equals UpdatedAs(TodoKind, …) |
| Helper.UpdateJournal | src/helper.cpp:369-387 | updateJournal equals UpdatedAs(JournalKind, …) |
| Helper.ApplyDetailsFrame | src/helper.cpp:145-314 | the detail loop changes only secrecy, location, priority, timestamps, revision, alarms, organizer, attendees and recurrence |
| Helper.ApplyDetailsAlarms | src/helper.cpp:195-222 | the alarms after the loop are the old ones followed by one alarm per reminder detail that passes the mask, in order |
| Helper.ApplyDetailsAttendees | src/helper.cpp:231-279 | the attendees after the loop are the old ones followed by one attendee per attendee detail that passes the mask, in order |
| Helper.ApplyDetailGated | src/helper.cpp:147-310 | one detail whose type the mask excludes leaves the field it maps to unchanged |
| Helper.ApplyDetailsGated | src/helper.cpp:145-314 | over all details, every field whose detail type the mask excludes is unchanged |
| Helper.ApplyDetailSecrecy | src/helper.cpp:147-163 | a classification detail that passes the mask sets the secrecy to ToSecrecy of its value; any other detail leaves it |
| Helper.ApplyDetailPriority | src/helper.cpp:173-179 | a priority detail that passes the mask sets the priority to its integer; any other detail leaves it |
| Helper.SecrecyFromLastClassification | src/helper.cpp:145-163 | the secrecy after the loop comes from the last classification detail |
| Helper.PriorityFromLastDetail | src/helper.cpp:145-179 | the priority after the loop comes from the last priority detail |
| Helper.UpdatedHeader | src/helper.cpp:130-144 | summary, description and comments are the item's exactly when the mask allows their type, and unchanged otherwise |
| Helper.AlarmsOfReminders | src/helper.cpp:195-222 | the alarm added for the k-th detail, a reminder, sits after the alarms of the earlier details and carries the reminder's offset, repeat count and delay |
| Helper.TimeDetailsOnlyTimes | src/helper.cpp:317-387 | the type-specific loop changes only the time fields; for a journal only the start; the due date only for a todo |
| Helper.EventTimesGated | src/helper.cpp:324-333 | with the event-time type masked out, updateEvent's own loop changes nothing |
| Helper.UpdatedAsKeepsIdentity | src/helper.cpp:317-387 | updating never changes an incidence's kind, uid or recurrence id |
| Helper.NotebookMetaData | src/helper.cpp:394-399 | toCollection's metadata holds name, description and color; it holds secondaryColor and image exactly when the notebook has those custom properties |
| Helper.NotebookExtendedMetaDataKeys | src/helper.cpp:400-437 | the extended metadata holds exactly the known keys plus the custom properties other than secondaryColor and image; a custom property overrides a known key |
| Helper.ToCollection | src/helper.cpp:389-439 | the collection's id is (managerUri, notebook uid) |
| Helper.UpdatedNotebook | src/helper.cpp:441-482 | updateNotebook keeps the notebook's uid |
| Helper.CustomStep | src/helper.cpp:478-480 | a known key adds no custom property; an unknown key adds one with the value's `QVariant::toString` text (a string as is, "true"/"false", a number's decimal text, a date-time's Types.DateTimeText, a one-element list's element, otherwise empty) |
| Helper.SharedKeyStep | src/helper.cpp:452-453 | handling "shared" after the other keys equals setting the shared flag on the result |
| Helper.MasterKeyStep | src/helper.cpp:454-455 | likewise for "master" |
| Helper.SynchronizedKeyStep | src/helper.cpp:456-457 | likewise for "synchronized" |
| Helper.ReadOnlyKeyStep | src/helper.cpp:458-459 | likewise for "readOnly" |
| Helper.VisibleKeyStep | src/helper.cpp:460-461 | likewise for "visible" |
| Helper.SyncDateKeyStep | src/helper.cpp:462-463 | likewise for "syncDate" |
| Helper.CreationDateKeyStep | src/helper.cpp:464-465 | likewise for "creationDate" |
| Helper.ModifiedDateKeyStep | src/helper.cpp:466-467 | likewise for "modifiedDate" |
| Helper.PluginNameKeyStep | src/helper.cpp:468-469 | likewise for "pluginName" |
| Helper.AccountKeyStep | src/helper.cpp:470-471 | likewise for "account" |
| Helper.SyncProfileKeyStep | src/helper.cpp:472-473 | likewise for "syncProfile" |
| Helper.AttachmentSizeKeyStep | src/helper.cpp:474-475 | likewise for "attachmentSize" |
| Helper.SharedWithKeyStep | src/helper.cpp:476-477 | likewise for "sharedWith" |
| Helper.ApplyExtendedStep | src/helper.cpp:449-481 | handling one more key of any name, last, equals applying that key to the result of the others, so the iteration order does not matter |
| Helper.UpdateNotebook | src/helper.cpp:441-482 | the method equals UpdatedNotebook |
| Helper.ApplyExtendedMetaData | src/helper.cpp:449-481 | the loop over the extended metadata equals ApplyExtended, whatever order the keys are visited in |
| Helper.ApplyExtendedEmpty | src/helper.cpp:449-481 | empty extended metadata changes nothing |
| Helper.MetaDataRoundTrip | src/helper.cpp:389-448 | saving a collection whose metadata are the five string keys, then reading the notebook back, gives the same metadata |
| Helper.MetaDataReadBack | src/helper.cpp:394-437 | a notebook carrying a collection's five metadata strings reads back as exactly that metadata |
| Helper.UpdatedMetaData | src/helper.cpp:444-448 | updateNotebook writes name, description and color, and always writes secondaryColor and image as custom properties |
| Helper.UpdatedFlags | src/helper.cpp:452-461 | each boolean key of the extended metadata sets its flag to the value's `QVariant::toBool`: a string is false exactly when it lower-cases to "", "0" or "false" |
| Helper.BoolTextIgnoresCase | src/helper.cpp:452-461 | a flag given as the text "true" or "false" in any letter case sets that boolean |
| Helper.BoolFromLowered | src/helper.cpp:452-461 | lower-casing a flag's text never changes the flag it sets |
| Helper.ToInt32 | src/helper.cpp:474-475 | the cast to int keeps the low 32 bits: the result is a 32-bit value congruent to the input modulo 2^32, and equal to it when it fits |
| Types.NatTextValue | src/helper.cpp:474-480 | the decimal digits of a natural number read back as that number |
| Types.IntTextParses | src/helper.cpp:474-480 | the decimal text of any integer, with its minus sign, reads back as that integer |
| Helper.IntTextRoundTrip | src/helper.cpp:474-480 | a 32-bit number turned into text by `toString` reads back through `toInt`, after trimming, as the same number |
| Helper.StringListSingleton | src/helper.cpp:476-480 | a one-element string list converts to its element, and a string to the one-element list holding it |
| Helper.FlagsRoundTrip | src/helper.cpp:400-409 | after save and read, shared, master, synchronized, readOnly and visible carry the saved booleans |
| Helper.FlagReadBack | src/helper.cpp:400-409 | one saved flag reads back unchanged |
| Helper.CustomRoundTrip | src/helper.cpp:426-437 | after save and read, every unknown extended key carries its saved string |
| Helper.CustomReadBack | src/helper.cpp:434-435 | one saved unknown key reads back unchanged |
| Helper.UpdatedCustomProperties | src/helper.cpp:444-481 | the custom properties after the update are the metadata ones overridden by the unknown extended keys |
| Helper.ExtendedCustomAt | src/helper.cpp:434-435 | a custom property other than secondaryColor and image appears in the extended metadata as its string |
| Helper.SaveReadRoundTrip | src/helper.cpp:389-482 | save then read preserves the id, the metadata, the five flags and every unknown key |
| ItemCals.RecurrenceKey | src/itemcalendars.cpp:416-418 | an invalid recurrence date-time is the key of the parent, and a valid one keys the exception |
| ItemCals.CreateException | src/itemcalendars.cpp:415-419 | the exception has the parent's kind and uid, the recurrence id derived from the parent's start, that start, and no recurrence of its own |
| ItemCals.ItemUid | src/itemcalendars.cpp:463-467 | the uid comes from the parent detail when there is one, otherwise from the item's own id |
| ItemCals.InstanceIdentifier | src/mkcalworker.cpp:145-147 | the identifier is the uid for a parent, and starts with the uid and is longer for an exception |
| ItemCals.ItemCalendars.constructor | src/itemcalendars.cpp:397-400 | a new calendar is empty |
| ItemCals.ItemCalendars.AddIncidence | src/itemcalendars.cpp:446-453 | adding succeeds exactly when storage accepts it, the notebook uid is non-empty and the key is new; only that entry is added |
| ItemCals.ItemCalendars.DeleteIncidence | src/itemcalendars.cpp:571 | a successful deletion removes exactly that key |
| ItemCals.ItemCalendars.Instance | src/mkcalworker.cpp:483 | the lookup returns a stored key with the given identifier, or none when no stored key has it |
| ItemCals.ItemCalendars.BuildIncidence | src/itemcalendars.cpp:405-445 | the type switch of addItem equals NewIncidenceFor |
| ItemCals.ItemCalendars.AddItem | src/itemcalendars.cpp:402-459 | new calendar state and returned uid equal AfterAdd of the old state |
| ItemCals.ItemCalendars.UpdateAt | src/itemcalendars.cpp:479-484 | the lookup succeeds exactly when the key holds an incidence of that kind, and only that entry is updated |
| ItemCals.ItemCalendars.UpdateItem | src/itemcalendars.cpp:461-515 | new calendar state and result equal AfterUpdate of the old state |
| ItemCals.ItemCalendars.PlanRemoval | src/itemcalendars.cpp:519-562 | the dispatch of removeItem equals RemovalFor |
| ItemCals.ItemCalendars.RemoveItem | src/itemcalendars.cpp:517-572 | new calendar state and result equal AfterRemove of the old state |
| ItemCals.NewIncidenceKinds | src/itemcalendars.cpp:406-445 | Event, Todo and Journal give a new incidence of that kind with the fresh uid; other types give none; an occurrence gives an exception exactly when its parent exists, with the parent's start re-dated as recurrence id |
| ItemCals.UpdateTargetShape | src/itemcalendars.cpp:462-514 | other types have no target; an occurrence with a missing parent fails; the target key is the item's uid with the recurrence id derived from the parent |
| ItemCals.ExcludedOccurrence | src/itemcalendars.cpp:526-570 | when there is no stored exception, removing an occurrence adds its original date (all-day parent) or its recurrence id (otherwise) to the parent's exceptions |
| ItemCals.RemoveNeedsParent | src/itemcalendars.cpp:527-562 | an occurrence without a parent detail, or an item of another type, removes nothing |
| ItemCals.AfterAddStoresOne | src/itemcalendars.cpp:446-458 | adding keeps every stored incidence and stores at most one new one, in the target notebook; a non-empty uid means it was stored |
| ItemCals.AfterUpdateChangesTarget | src/itemcalendars.cpp:471-514 | updating keeps the keys and notebooks, reports success exactly when the target exists, and changes nothing but the target |
| ItemCals.AfterRemoveDeletesAtMostOne | src/itemcalendars.cpp:563-571 | excluding an occurrence keeps every key and succeeds; a deletion removes exactly its key when storage agrees; otherwise nothing changes and false is returned |
| Storage.NotebookStore.constructor | src/mkcalworker.cpp:88-94 | the store starts with the given notebooks and default |
| Storage.NotebookStore.NotebookWithUid | src/mkcalplugin.cpp:117 | the lookup finds the notebook exactly when its uid is stored |
| Storage.NotebookStore.DefaultNotebook | src/mkcalworker.cpp:95 | the default notebook exists exactly when the default uid names a stored notebook |
| Storage.NotebookStore.AddNotebook | src/mkcalworker.cpp:571 | adding succeeds exactly when storage accepts it and the uid is new |
| Storage.NotebookStore.UpdateNotebook | src/mkcalworker.cpp:581 | updating succeeds exactly when storage accepts it and the uid is stored |
| Storage.NotebookStore.DeleteNotebook | src/mkcalworker.cpp:645 | deleting succeeds exactly when storage accepts it and the uid is stored |
| Storage.NotebookStore.SetDefaultNotebook | src/mkcalworker.cpp:99 | on success the notebook is stored and becomes the default |
| Storage.CollectionsOf | src/mkcalworker.cpp:545-547 | one collection per stored notebook, each equal to toCollection of it, with no notebook twice |
| WorkerSpec.Reverse | src/mkcalworker.cpp:574-575 | repeated prepending gives the list in reverse |
| WorkerSpec.ReverseSnoc | src/mkcalworker.cpp:574-575 | prepending one more element puts it first |
| WorkerSpec.ReverseReverse | src/mkcalworker.cpp:603-610 | prepending a reversed list gives the original order back |
| WorkerSpec.Tagged | src/mkcalworker.cpp:150 | each id is paired with the operation |
| WorkerSpec.TaggedCons | src/mkcalworker.cpp:603-610 | tagging distributes over a prepended element |
| WorkerSpec.FirstDetail | src/mkcalworker.cpp:291-306 | the detail found is in the list and of the type; none means no detail of the type |
| WorkerSpec.ItemStartDateTime | src/mkcalworker.cpp:291-306 | a valid start comes from an event-time detail (events and their occurrences), a todo-time detail (todos and their occurrences) or a journal-time detail (journals) |
| WorkerSpec.ItemLessAsymmetric | src/mkcalworker.cpp:349-357 | with an antisymmetric compareItem, the sort predicate is asymmetric, as std::sort requires |
| WorkerSpec.SwapKeepsElements | src/mkcalworker.cpp:349-357 | swapping neighbours keeps the multiset |
| WorkerSpec.SettledIsSorted | src/mkcalworker.cpp:349-357 | when "not before" is transitive, no adjacent inversion means sorted |
| WorkerSpec.FetchRunOutcome | src/mkcalworker.cpp:308-335 | items(ids): all ids fetched gives the items in id order with the error untouched; any failure gives fewer items and DoesNotExistError or PermissionsError |
| WorkerSpec.IdEntriesKeepOwnIds | src/mkcalworker.cpp:385-389 | every item's own id appears, in sorted order |
| WorkerSpec.LocalIdsSnoc | src/mkcalworker.cpp:388 | the local-id set grows by the appended entry's local id |
| WorkerSpec.IdEntriesParentsFresh | src/mkcalworker.cpp:390-401 | a parent id is appended only when its local id was not emitted before |
| WorkerSpec.IdEntriesCoverParents | src/mkcalworker.cpp:390-401 | the parent of every id-less occurrence is among the emitted local ids |
| WorkerSpec.InstanceItemIds | src/mkcalworker.cpp:144-148 | one item id per incidence, from its instance identifier |
| WorkerSpec.InstanceIdentifiers | src/mkcalworker.cpp:145 | one identifier per incidence |
| WorkerSpec.InstancesSnoc | src/mkcalworker.cpp:144-150 | one more incidence appends one (id, operation) pair |
| WorkerSpec.PurgeListAt | src/mkcalworker.cpp:166-185 | a notebook uid has a purge list exactly when some deleted incidence is in that notebook and it is local (master, not shared, no plugin); the list holds those incidences in order |
| WorkerSpec.PurgeListsGroup | src/mkcalworker.cpp:166-185 | the same, for every notebook uid |
| WorkerSpec.SaveRunSnoc | src/mkcalworker.cpp:442-461 | the run over one more item is one more step |
| WorkerSpec.SaveStepOutcome | src/mkcalworker.cpp:443-460 | one item of saveItems appends it, touches the error map only at its index and sets the global error only for a foreign item |
| WorkerSpec.ItemsSavedExtends | src/mkcalworker.cpp:442-461 | the saveItems promise extends by one item |
| WorkerSpec.SaveRunOutcome | src/mkcalworker.cpp:442-461 | new items get the default collection when they have none, and either an id of this manager or InvalidItemTypeError; failed own updates get DoesNotExistError; the global error is DoesNotExistError exactly when a foreign item is present |
| WorkerSpec.ForeignSplit | src/mkcalworker.cpp:457-459 | a list has a foreign item exactly when its prefix does or its last element is foreign |
| WorkerSpec.RemoveStepOutcome | src/mkcalworker.cpp:510-520 | removeItems(items) keeps its promise for one more item |
| WorkerSpec.RemoveRunOutcome | src/mkcalworker.cpp:503-531 | only PermissionsError is recorded, at handled indices; the global error is DoesNotExistError exactly when an item is neither new nor a local-id item of this manager |
| WorkerSpec.RemoveIdRunOutcome | src/mkcalworker.cpp:474-501 | a missing instance is skipped silently; PermissionsError is recorded exactly where the instance was found and not deleted; the global error is DoesNotExistError exactly when some id is foreign or has no local id |
| WorkerSpec.SaveCollectionsRunSnoc | src/mkcalworker.cpp:566-593 | the run over one more collection is one more step |
| WorkerSpec.SaveCollectionStepShape | src/mkcalworker.cpp:566-593 | one collection is reported, added or changed, never two of these; a new one gets an id of this manager; an existing one keeps its id |
| WorkerSpec.SaveCollectionStepErrors | src/mkcalworker.cpp:570-591 | one collection writes the error map only at its own index |
| WorkerSpec.SaveCollectionStepIds | src/mkcalworker.cpp:569-578 | one collection appends itself, with the new id when it was added |
| WorkerSpec.CollectionsSavedExtends | src/mkcalworker.cpp:566-593 | the saveCollections promise extends by one collection |
| WorkerSpec.SaveCollectionStepOutcome | src/mkcalworker.cpp:566-593 | one step keeps the saveCollections promise |
| WorkerSpec.SaveCollectionsOutcome | src/mkcalworker.cpp:556-620 | errors are at indices of the list; every collection is reported, added or changed; added ids belong to this manager; existing collections keep their id |
| WorkerSpec.RemoveCollectionStepOutcome | src/mkcalworker.cpp:643-656 | one id is reported or removed; PermissionsError means the deletion was refused; no notebook changes but the removed one |
| WorkerSpec.RemoveCollectionsOutcome | src/mkcalworker.cpp:634-673 | every id is reported or removed; no remaining notebook changes; a named notebook is gone unless its index is reported |
| WorkerSpec.ReportAsWrittenHidesGlobalError | src/mkcalworker.cpp:629 | as written, a batch that failed only with a global error reports NoError |
| WorkerSpec.ReportCorrectedAgrees | src/mkcalworker.cpp:622-632 | corrected, the reported error is NoError exactly when the batch succeeded |
| Worker.SortItems | src/mkcalworker.cpp:349-357 | the array is a permutation of the input with no adjacent pair out of order under the sort predicate |
| Worker.SinkLast | src/mkcalworker.cpp:349-357 | one insertion step extends the ordered prefix by one and keeps the multiset |
| Worker.SinkDone | src/mkcalworker.cpp:349-357 | an element that stops sinking leaves the prefix ordered |
| Worker.SinkStep | src/mkcalworker.cpp:349-357 | one swap while sinking keeps the multiset and the sinking invariant |
| Worker.PrependTagged | src/mkcalworker.cpp:603-610 | prepending the tagged ids in a loop gives them reversed, before the earlier list |
| Worker.ReplaceAtSplit | src/mkcalworker.cpp:442-461 | writing the element after a prefix equals appending it to the prefix |
| Worker.CollectionMods | src/mkcalworker.cpp:603-614 | the modification list is all Add entries, then all Change entries, each in input order |
| Worker.MKCalWorker.constructor | src/mkcalworker.cpp:55-58 | a new worker is closed and has no default notebook uid |
| Worker.MKCalWorker.Init | src/mkcalworker.cpp:86-110 | the result is whether storage opened; an open storage without a default gets a new "Default" notebook when setting it succeeds; the stored uid and the signal follow the default notebook |
| Worker.MKCalWorker.StorageModified | src/mkcalworker.cpp:112-126 | the uid is updated and signalled exactly when the default notebook's uid differs from the stored one |
| Worker.MKCalWorker.StorageUpdated | src/mkcalworker.cpp:128-199 | ops are the added, then modified, then deleted ids, each in input order; the three identifier lists match; the purge lists are PurgeLists of the deleted incidences |
| Worker.MKCalWorker.TagInstances | src/mkcalworker.cpp:144-150 | one loop appends the tagged ids and the identifiers of its incidences |
| Worker.MKCalWorker.PurgeListsOf | src/mkcalworker.cpp:166-185 | the loop builds PurgeLists |
| Worker.MKCalWorker.DefaultCollectionId | src/mkcalworker.cpp:533-538 | the id is (managerUri, default uid) when a default notebook exists, and null otherwise |
| Worker.MKCalWorker.ItemsById | src/mkcalworker.cpp:308-335 | open: the result is FetchRun; closed: no items and PermissionsError |
| Worker.MKCalWorker.SortedItems | src/mkcalworker.cpp:349-357 | the sorted list is a permutation of the fetched items with no adjacent pair out of order |
| Worker.MKCalWorker.ItemsByFilter | src/mkcalworker.cpp:337-363 | open and loaded: the fetched items, permuted into order, with the error untouched; otherwise nothing and PermissionsError |
| Worker.MKCalWorker.ItemIds | src/mkcalworker.cpp:365-409 | open and loaded: the ids are IdsOf(IdEntries) of the sorted items; otherwise none and PermissionsError |
| Worker.MKCalWorker.SaveItemAt | src/mkcalworker.cpp:443-460 | one loop iteration performs SaveStep on the calendar and the item |
| Worker.MKCalWorker.SaveItems | src/mkcalworker.cpp:435-472 | open: the calendar, the rewritten items and the error map are SaveRun's, and a failed save gives PermissionsError; closed: nothing changes and PermissionsError; the result is BatchOk |
| Worker.MKCalWorker.RemoveItems | src/mkcalworker.cpp:503-531 | open: calendar and error map are RemoveRun's, and a failed save gives PermissionsError; closed: nothing changes; the result is BatchOk |
| Worker.MKCalWorker.RemoveItemsById | src/mkcalworker.cpp:474-501 | open: calendar and error map are RemoveIdRun's, over lookups that fit the calendar at each step; closed: nothing changes; the result is BatchOk |
| Worker.MKCalWorker.Collections | src/mkcalworker.cpp:540-554 | open: one collection per notebook and NoError; closed: none and PermissionsError |
| Worker.MKCalWorker.SaveCollectionAt | src/mkcalworker.cpp:566-593 | one loop iteration performs SaveCollectionStep on the store |
| Worker.MKCalWorker.SaveCollections | src/mkcalworker.cpp:556-620 | open: store, collections and errors are SaveCollectionsRun's; the uid and id lists are reversed, as prepending builds them; mods are the Adds then the Changes in input order; closed: nothing changes; the result is BatchOk |
| Worker.MKCalWorker.SaveCollectionsLoop | src/mkcalworker.cpp:566-593 | the loop's state equals SaveCollectionsRun, with the prepended lists reversed |
| Worker.MKCalWorker.RemoveCollections | src/mkcalworker.cpp:634-673 | open: store and errors are RemoveCollectionsRun's, and the lists are reversed as prepending builds them; closed: nothing changes; the result is BatchOk |
| Worker.MKCalWorker.SaveCollection | src/mkcalworker.cpp:622-632 | as written: the error is the first per-index error or NoError, so a closed storage gives false with NoError |
| Worker.MKCalWorker.RemoveCollection | src/mkcalworker.cpp:675-684 | as written: the same report for removal |
| Engine.DefaultIdAsWritten | src/mkcalplugin.cpp:103-110 | the as-written code dereferences a null reference exactly when storage is open and has no default notebook |
| Engine.DefaultIdAsWrittenDereferencesNull | src/mkcalplugin.cpp:105-108 | an open storage without a default notebook reaches the null dereference |
| Engine.DefaultIdCorrected | src/mkcalplugin.cpp:103-110 | the id is (managerUri, default uid) exactly when open with a default; null otherwise; it agrees with the code wherever the code does not crash |
| Engine.EngineSaveErrors | src/mkcalplugin.cpp:146-181 | closed gives PermissionsError; a null id is added, or fails with PermissionsError and stays null; an unknown id gives DoesNotExistError; a refused update gives PermissionsError; one modification exactly on success |
| Engine.EngineSaveAgreesWithWorker | src/mkcalplugin.cpp:146-181 | on an open storage, the engine's save of one collection equals the worker's one-element batch, with the corrected report |
| Engine.EngineRemoveErrors | src/mkcalplugin.cpp:183-202 | NoError exactly when open, the uri matches and an existing notebook is deleted; an unknown notebook is NoError; no other notebook changes |
| Engine.EngineRemoveVersusWorker | src/mkcalplugin.cpp:183-202 | against the worker: the same store and report for an existing notebook of this manager; NoError for an unknown notebook where the worker reports DoesNotExistError; a foreign uri gives PermissionsError, which the worker does not check |
| Engine.MKCalEngine.constructor | src/mkcalplugin.cpp:53-65 | the engine is opened exactly when storage opened |
| Engine.MKCalEngine.DefaultCollectionId | src/mkcalplugin.cpp:103-110 | corrected: the default collection id is present exactly when open with a default notebook |
| Engine.MKCalEngine.CollectionWithId | src/mkcalplugin.cpp:112-128 | NoError with toCollection of the notebook exactly when open, the uri matches and the notebook exists; otherwise an empty collection, with PermissionsError when closed and DoesNotExistError when open |
| Engine.MKCalEngine.Collections | src/mkcalplugin.cpp:130-144 | open: one collection per notebook and NoError; closed: none and PermissionsError |
| Engine.MKCalEngine.SaveCollection | src/mkcalplugin.cpp:146-181 | the new store, collection, error and modifications are EngineSave's; the result is true exactly when the error is NoError |
| Engine.MKCalEngine.RemoveCollection | src/mkcalplugin.cpp:183-202 | the new store, error and modifications are EngineRemove's; the result is true exactly when the error is NoError |

## Left out

- Qt signals are not delivered. The ids and lists a method would emit are returned as out-parameters (`signalled`, `ops`, `mods`, the id lists).
- mKCal's SQLite storage is not modelled. `open`, `load`, `loadIncidenceInstance`, `save` and the notebook calls are success flags; `purgeDeletedIncidences` is represented by the purge lists it receives.
- `runRequest` (src/mkcalworker.cpp:201-289) is left out: it is the request-dispatch switch of the worker thread, and the model has no concurrency.
- `itemOccurrences` (src/mkcalworker.cpp:411-433) is left out, as are `ItemCalendars::item`, `items` and `occurrences`: they depend on KCalendarCore's recurrence expansion. Their results are parameters (`fetched`).
- `mKCalFactory::engine`, plugin loading, `managerName` and `managerParameters` are plumbing and are left out.
- Location latitude and longitude (floating point) are not modelled; the location is its label only. `Person::fromFullName` parsing of email recipients is left out.
- The by-day and other by-lists of a recurrence rule are sets in the model; the source's list order and duplicates are not kept.
- Email recipients stay plain strings, since `Person::fromFullName` is left out.
- `compareItem`: QtOrganizer's sort-order comparison is an abstract comparator parameter, assumed antisymmetric.
- Worker.MKCalWorker.ItemsByFilter: promises that no adjacent pair is out of order (`Settled`), which is what a sort with an asymmetric predicate gives. Full sortedness follows by WorkerSpec.SettledIsSorted when "not before" is transitive.
- Worker.MKCalWorker.SortedItems: the same as ItemsByFilter; `std::sort` is modelled by an insertion sort, so which permutation is chosen among equal elements is not modelled.
- Worker.MKCalWorker.ItemIds: same ordering caveat as ItemsByFilter.
- ItemCals.InstanceIdentifier: KCalendarCore's instance identifier is modelled as the uid followed by a textual form of the recurrence id. The model keeps the property the worker relies on: a parent's identifier is its uid, an exception's extends it. It does not reproduce QDateTime's exact ISO text.
- Helper.UpdateEvent, Helper.UpdateTodo, Helper.UpdateJournal: the recurrence rules keep the start and all-day flag the incidence had when the recurrence detail was handled (src/helper.cpp:63-64). In KCalendarCore, the later `setDtStart`/`setAllDay` of the time pass (src/helper.cpp:328-330, 346-348 and 380) re-base the rules and exception rules to the new start; for a newly added recurring item the model's rules keep the invalid start. Likewise Helper.NewIncidence leaves the created and last-modified stamps invalid where a new KCalendarCore incidence takes the current time, and ItemCals.CreateException does not shift an event's end with its start as `createException` does.
- Helper.CustomStep: a date-time value is stored as the model's own date-time text (Types.DateTimeText), not QDateTime's ISO text; QVariant kinds outside the model's Variant (floating point, variant lists and maps) are not modelled.
- Helper.UpdatedCustomProperties: the same conversion caveats as Helper.CustomStep.
- Helper.VariantToDateTime: a string is not parsed as an ISO date-time (QDateTime::fromString is not modelled), so "syncDate", "creationDate" or "modifiedDate" given as text set the invalid date-time.
- Helper.StringToInt: only ASCII white space is trimmed before a number is read; other Unicode spaces are not.
- Worker.MKCalWorker.Init: whether the storage opened is a parameter; when it did not open, the model does not ask it for a default notebook, while the source still calls `defaultNotebook()` (src/mkcalworker.cpp:95) on the unopened storage, which is taken to hold none.
- Worker.MKCalWorker.SaveCtx and ItemCals.TargetNotebook: an item without a collection goes to the notebook whose uid the worker remembered as default. The source's `addIncidence` without a notebook uses the calendar's own default notebook (src/itemcalendars.cpp:449-450); the two are identified, as both follow the storage's default notebook through init and storageModified.
- ItemCals.CreateException: always yields an exception. KCalendarCore's `createException` can return null (a parent without recurrence, an invalid recurrence id), and the source then dereferences it (src/itemcalendars.cpp:418-419 and 434-435); that path is not modelled.
- Types.WithDate: QDateTime is an opaque (date, time of day, zone) record; there is no time-zone or calendar arithmetic.
- Storage.CollectionsOf and Worker.MKCalWorker.Collections: mKCal's notebook list order is unspecified, so the contract says "each notebook once, in some order", with the order as a ghost output.
- Incidences and notebooks are reference-counted handles in the source; here they are values in maps, so aliasing of a notebook or incidence held elsewhere is not modelled. An in-place update becomes a map write. In particular `saveCollection` first runs `updateNotebook` on the notebook it shares with mKCal's storage and only then asks the storage to update it (src/mkcalworker.cpp:582-583 and src/mkcalplugin.cpp:165-166), so a failed update leaves that in-memory notebook changed; the model keeps the stored notebook unchanged on failure and has no separate in-memory copy.
- The worker's batch methods start from an empty error map. The callers always pass an empty one (src/mkcalworker.cpp:201-289), so an incoming non-empty map is not modelled.
- Worker.MKCalWorker.ItemsById: the source keeps an index counter but never writes the error map; the model has no error map here.
- The uid of a notebook created by `new mKCal::Notebook` and of an incidence created by `new KCalendarCore::Event` comes from an oracle (`created`, `freshUid`), since the source generates it randomly.
- Conversions.PriorityFromValue and Conversions.FromIncidenceRule are the inverse conversions used only to state round trips; the plugin's own reverse conversion lives in `ItemCalendars::item`, which is not part of this model.

## Findings

| source | as written | input that shows it | evidently intended | confidence | as-written member | corrected member |
|---|---|---|---|---|---|---|
| src/mkcalworker.cpp:629, 682 | `saveCollection` and `removeCollection` set `*error` to NoError whenever the per-index map is empty, overwriting the global error `saveCollections`/`removeCollections` set | the storage is not opened: the batch sets PermissionsError and returns false, then the wrapper reports false with NoError | report the global error when no per-index error exists, so the error is NoError exactly when the call succeeded | not executed | WorkerSpec.ReportAsWrittenHidesGlobalError | WorkerSpec.ReportCorrectedAgrees |
| src/mkcalplugin.cpp:105-108 | `defaultCollectionId` dereferences `nb` whenever the storage is opened, without checking that a default notebook exists | an opened storage with no default notebook (`defaultNotebook()` returns null) | return a null collection id when there is no default notebook, as the worker's `defaultCollectionId` does | not executed | Engine.DefaultIdAsWrittenDereferencesNull | Engine.DefaultIdCorrected |
