# mapwidget core, modelled in Dafny

This project models three parts of the mapwidget package (interactive maps for Jupyter
built on anywidget) and proves properties of them:

- **The MapLibre front end's call dispatcher and control registry** (`mapwidget/js/maplibre.js`).
  A Python caller outside these files writes `{method, args}` records to the synchronised
  `calls` list of the widget's model; the front end's handler is the reader. On each change the
  front end dispatches only the records past its cursor `processedCallsCount`. Five names are
  routed to handlers that keep a registry of live controls keyed by the caller's type string:
  `addControl`, `removeControl`, `addDrawControl`, `removeDrawControl` and
  `drawFeaturesDeleteAll`. Any other name is called on the map if the map has such a function,
  and its exceptions are contained.
  - `MapLibreControls` covers the pure parts: control-type normalisation and the draw-option merge.
  - `MapLibreDispatch` gives one specification function per handler over a `State` value,
    plus the lemmas.
  - `MapLibreWidget.Widget` is the imperative front end. It is a class whose fields are the
    cursor, the registry and the five draw fields, and each of its methods is proved equal to
    its specification function.
- **The basemap table** (`mapwidget/basemaps.py`).
  - `_unpack_sub_parameters` resolves a dotted provider name through the tile-provider catalogue.
  - `get_xyz_dict` scans the catalogue, filters by `requires_token` and normalises each kept
    provider to `{name, url, attribution, max_zoom}`. `max_zoom` defaults to 24. It then merges
    the providers in sorted key order into the module-level `xyz_tiles` table, through an alias,
    and returns that table. A `build_url()` that raises stops the merge, and the writes before
    it stay in the table.
  - `get_basemap_list` returns the table's keys.
  - `BasemapCatalogue` holds the specification and `BasemapTable.Basemaps` the imperative
    version, with the table as a field.
- **The Leaflet widget's message builders** (`mapwidget/leaflet.py`).
  - `add_basemap` looks a name up in the refreshed table, or raises `ValueError` listing the keys.
  - `add_layer` fills defaults and drops extra keyword arguments.
  - Sending is modelled by returning the message (`LeafletMap`).

Modelling choices:

- **The live map is not modelled.** `MapSurface` stands in for it with three things:
  - the set of its method names;
  - an oracle for which invocations throw;
  - an oracle for which controls `map.addControl` refuses.
- **Control identity.** Every `new` control is a value carrying a fresh serial number, so
  re-adding the same type yields a different control.
- **Console output** is a log of `Diagnostic` values.
- **JavaScript values in messages** are `Json.Value`.

Where the code and the written design differ, the model follows the code:

- **The cursor can move backwards.** The handler always sets the cursor to the length of the
  current list. If the list shrinks or the field is missing, the cursor goes down, so it is not
  monotone (`MapLibreDispatch.MissingCallsResetCursor`).
- **There are no result messages and the queue is never cleared.** The handler does neither,
  so neither is modelled.
- **Some calls throw out of the handler.** This happens for a special call without `args`, or
  an `addControl` whose type is not a string. The exception escapes the `forEach`, and the
  cursor update after the loop never runs. Every later change therefore re-runs the calls
  before the bad one and stops at it again (`MapLibreDispatch.MalformedCallStalls`).
- **`removeControl("draw")` does not reset the draw fields.** It detaches the draw tool, but
  only `removeDrawControl` resets the five draw fields.
- **The registry is keyed by the raw type string.** `"NavigationControl"` and `"navigation"`
  create the same kind of control under different keys.

## Model

| member | source | states |
|---|---|---|
| Text.IndexOfFromFirst | mapwidget/js/maplibre.js:200 | the pattern search finds the first occurrence at or after its start, or reports that there is none |
| Text.FirstOccurrence | mapwidget/js/maplibre.js:200 | an occurrence with none before it is the one the search from the start finds |
| Text.ReplaceFirstSpec | mapwidget/js/maplibre.js:200 | `replace` with a string pattern changes only the first occurrence; with no occurrence the string is unchanged |
| Text.Split | mapwidget/basemaps.py:216 | `split(".")` always yields at least one piece, and empty pieces are kept |
| Text.JoinSplit | mapwidget/basemaps.py:216 | joining the pieces of a split gives back the original string |
| Text.SplitJoin | mapwidget/basemaps.py:216 | splitting the join of separator-free pieces gives back those pieces |
| Text.Sort | mapwidget/basemaps.py:256 | `sorted` of distinct keys is ascending and a permutation of its input |
| Ordered.Put | mapwidget/basemaps.py:240-242 | assigning a dict key keeps insertion order: an existing key keeps its place, a new key goes last, and the value is updated |
| MapLibreControls.Normalize | mapwidget/js/maplibre.js:200 | definition: `controlType.toLowerCase().replace("control", "")` |
| MapLibreControls.KindOf | mapwidget/js/maplibre.js:200-230 | definition: the control kind the `switch` on the normalised type selects, or none for its `default` |
| MapLibreControls.DrawOptions | mapwidget/js/maplibre.js:272-298 | definition: the caller's controls spread over the six button defaults, and the caller's options spread over `{displayControlsDefault: false, controls}` |
| MapLibreControls.KindNamedExactly | mapwidget/js/maplibre.js:202-226 | each of the eight case labels selects exactly its control kind |
| MapLibreControls.KindNamedNone | mapwidget/js/maplibre.js:227-229 | any other normalised type selects no control |
| MapLibreControls.NormalizeRemovesFirst | mapwidget/js/maplibre.js:200 | normalisation lower-cases and then removes only the first "control" |
| MapLibreControls.NormalizeDropsSuffix | mapwidget/js/maplibre.js:200 | a type whose lower-cased form is a base without "c" followed by "control" normalises to that base |
| MapLibreControls.NavigationControlIsNavigation | mapwidget/js/maplibre.js:200-205 | "NavigationControl" normalises to "navigation" and selects the navigation control |
| MapLibreControls.DrawOptionsMerge | mapwidget/js/maplibre.js:272-298 | the options passed to MapboxDraw: caller options override, `displayControlsDefault` defaults to false, and `controls` holds exactly the six buttons, each taken from the caller's controls or its default |
| MapLibreControls.DrawOptionsDefaults | mapwidget/js/maplibre.js:272-298 | with no options and no controls: polygon, line, point and trash are on, combine and uncombine are off, and default display is false |
| MapLibreControls.DrawOptionsDropUnknownButtons | mapwidget/js/maplibre.js:287-294 | a control key that is not one of the six buttons never reaches the `controls` option |
| MapLibreDispatch.AddControl | mapwidget/js/maplibre.js:196-239 | definition: `addControlToMap`, which throws out of the handler for a type that is not a string |
| MapLibreDispatch.AttachControl | mapwidget/js/maplibre.js:202-238 | definition: the `switch` result, then the `try` block that attaches the control, logs and registers it under the raw type, or warns |
| MapLibreDispatch.RemoveControl | mapwidget/js/maplibre.js:242-251 | definition: `removeControlFromMap`: detach and unregister a registered type, or warn "not found" |
| MapLibreDispatch.Seed | mapwidget/js/maplibre.js:313-323 | definition: the initial-geojson branch: add a collection's features or a single feature, then mirror the features into the collection field |
| MapLibreDispatch.AttachDraw | mapwidget/js/maplibre.js:301-330 | definition: the draw handler's `try` block for a freshly created draw tool |
| MapLibreDispatch.AddDrawControl | mapwidget/js/maplibre.js:254-331 | definition: `addDrawControlToMap` with the merged options and the position, "top-right" by default |
| MapLibreDispatch.RemoveDrawControl | mapwidget/js/maplibre.js:370-387 | definition: `removeDrawControlFromMap`: detach the draw tool, unregister it and empty the five draw fields, or warn |
| MapLibreDispatch.DeleteAllDrawFeatures | mapwidget/js/maplibre.js:390-407 | definition: `deleteAllDrawFeatures`: with a draw tool holding features, record them as deleted and empty the store and the collection |
| MapLibreDispatch.Invoke | mapwidget/js/maplibre.js:180-188 | definition: the generic branch: call the map's method with `args || []`, warning when it throws or does not exist |
| MapLibreDispatch.Dispatch | mapwidget/js/maplibre.js:157-189 | definition: one `forEach` iteration: log the call, then route it by method name |
| MapLibreDispatch.DispatchAll | mapwidget/js/maplibre.js:157-189 | definition: the `forEach` over the new calls, stopped by the first exception that escapes |
| MapLibreDispatch.HandleCalls | mapwidget/js/maplibre.js:151-193 | definition: the `change:calls` handler: dispatch `calls.slice(processedCallsCount)`, then set the cursor to `calls.length` |
| MapLibreDispatch.Without | mapwidget/js/maplibre.js:245 | detaching a control removes exactly that control from the map's controls |
| MapLibreDispatch.WithoutAppended | mapwidget/js/maplibre.js:233-245 | detaching the control just attached restores the map's controls |
| MapLibreDispatch.InitialValid | mapwidget/js/maplibre.js:87-88 | the empty registry with the cursor at 0 satisfies the registry invariant |
| MapLibreDispatch.HandlersLogQuietly | mapwidget/js/maplibre.js:159-188 | a well-formed call returns normally, and after its "Calling map.…" line it logs nothing that claims another call |
| MapLibreDispatch.AttachControlLogsQuietly | mapwidget/js/maplibre.js:202-238 | the `switch` default and the `try` block of `addControl` log only their own diagnostics |
| MapLibreDispatch.AttachDrawLogsQuietly | mapwidget/js/maplibre.js:301-330 | the `try` block of `addDrawControl` logs only its own diagnostics |
| MapLibreDispatch.AddDrawLogsQuietly | mapwidget/js/maplibre.js:254-331 | the draw handler logs only its own diagnostics |
| MapLibreDispatch.DispatchAllLogsOneMore | mapwidget/js/maplibre.js:157-189 | one more well-formed call returns normally and adds exactly that call to the calls the log records |
| MapLibreDispatch.DispatchAllLogsCalls | mapwidget/js/maplibre.js:157-189 | a batch of well-formed calls completes, and the log records exactly those calls in order |
| MapLibreDispatch.HandleCallsDispatchesNewCalls | mapwidget/js/maplibre.js:151-193 | a change dispatches exactly the entries from the cursor to the end of the list, in order, then sets the cursor to the list's length |
| MapLibreDispatch.MissingCallsResetCursor | mapwidget/js/maplibre.js:152-192 | a missing `calls` field dispatches nothing and sets the cursor to 0 |
| MapLibreDispatch.HandleSameCallsTwice | mapwidget/js/maplibre.js:151-193 | handling an unchanged list a second time changes nothing |
| MapLibreDispatch.MalformedCallStalls | mapwidget/js/maplibre.js:162-192 | a malformed special call at the cursor throws before the cursor moves, and every longer list throws again |
| MapLibreDispatch.DispatchAllPrefixThrows | mapwidget/js/maplibre.js:157-192 | once a call throws, no later call of the batch runs and the cursor stays where it was |
| MapLibreDispatch.DispatchOneKeepsCursor | mapwidget/js/maplibre.js:157-189 | no single call's handler moves the cursor |
| MapLibreDispatch.DispatchKeepsCursor | mapwidget/js/maplibre.js:157-189 | dispatching calls never moves the cursor; only the handler's last line does |
| MapLibreDispatch.SpecialNamesBypassMap | mapwidget/js/maplibre.js:162-179 | the five special names are handled alike whatever methods the map has |
| MapLibreDispatch.GenericNameInvoked | mapwidget/js/maplibre.js:180-185 | any other name the map has is invoked with `args`, or with no arguments when `args` is absent; a throw only adds a warning |
| MapLibreDispatch.UnknownNameOnlyWarns | mapwidget/js/maplibre.js:186-188 | a name the map lacks only logs "is not a function" |
| MapLibreDispatch.OrdinaryCallsAllInvoked | mapwidget/js/maplibre.js:180-188 | a batch of ordinary calls always completes, and the map receives every call it has a method for, in order, even when earlier ones threw; the registry is untouched |
| MapLibreDispatch.AddControlRegistersRawType | mapwidget/js/maplibre.js:196-239 | a known type that the map accepts is attached and registered under the raw type string; an unknown type or a refused control changes neither the registry nor the map |
| MapLibreDispatch.ReAddKeepsEarlierControl | mapwidget/js/maplibre.js:232-235 | re-adding a registered type overwrites its entry, and the earlier control stays on the map |
| MapLibreDispatch.RemoveRegisteredControl | mapwidget/js/maplibre.js:242-247 | removing a registered type detaches exactly its control and deletes exactly that key |
| MapLibreDispatch.RemoveUnregisteredIsNoop | mapwidget/js/maplibre.js:248-250 | removing an unregistered type only logs "not found" |
| MapLibreDispatch.RemoveControlDrawKeepsFields | mapwidget/js/maplibre.js:242-251 | `removeControl("draw")` detaches the draw tool but leaves the five draw fields unchanged |
| MapLibreDispatch.AddThenRemoveRestores | mapwidget/js/maplibre.js:196-251 | adding a new type and then removing it restores the registry and the map's controls |
| MapLibreDispatch.NormalisedNameDoesNotRemove | mapwidget/js/maplibre.js:200-243 | after adding "NavigationControl", removing "navigation" finds nothing because the registry key is the raw type |
| MapLibreDispatch.AddDrawControlRegisters | mapwidget/js/maplibre.js:301-311 | a draw tool the map accepts is attached and registered under "draw" with the merged options; a refused one only warns |
| MapLibreDispatch.AddDrawControlSeeds | mapwidget/js/maplibre.js:313-323 | an initial FeatureCollection's features become the tool's features and the collection field |
| MapLibreDispatch.RemoveDrawControlResets | mapwidget/js/maplibre.js:370-387 | with a draw tool, removing it deletes "draw" and resets the five fields to empty; without one, only a warning is logged |
| MapLibreDispatch.DeleteAllActsOnlyWithFeatures | mapwidget/js/maplibre.js:390-407 | delete-all acts exactly when a draw tool is registered and holds a feature; then all prior features are recorded as deleted and none remain |
| MapLibreDispatch.DrawIsNoControlType | mapwidget/js/maplibre.js:202-230 | "draw" is not a control type, so `addControl` can never overwrite the draw tool's entry |
| MapLibreDispatch.AttachControlKeepsValid | mapwidget/js/maplibre.js:202-238 | attaching a fresh control of the kind its type names keeps the registry invariant |
| MapLibreDispatch.AddControlKeepsValid | mapwidget/js/maplibre.js:196-239 | `addControl` keeps the registry invariant: registered controls are attached, under a matching key, with distinct identities |
| MapLibreDispatch.RemoveControlKeepsValid | mapwidget/js/maplibre.js:242-251 | `removeControl` keeps the registry invariant |
| MapLibreDispatch.SeedKeepsRegistry | mapwidget/js/maplibre.js:313-323 | seeding the initial features touches only the draw features, the draw fields and the log |
| MapLibreDispatch.AttachDrawKeepsValid | mapwidget/js/maplibre.js:301-330 | attaching a fresh draw tool keeps the registry invariant |
| MapLibreDispatch.AddDrawControlKeepsValid | mapwidget/js/maplibre.js:254-331 | `addDrawControl` keeps the registry invariant |
| MapLibreDispatch.RemoveDrawControlKeepsValid | mapwidget/js/maplibre.js:370-387 | `removeDrawControl` keeps the registry invariant |
| MapLibreDispatch.DispatchKeepsValid | mapwidget/js/maplibre.js:157-189 | dispatching any single call keeps the registry invariant |
| MapLibreDispatch.DispatchAllKeepsValid | mapwidget/js/maplibre.js:157-189 | a batch, completed or interrupted, keeps the registry invariant |
| MapLibreDispatch.HandleCallsKeepsValid | mapwidget/js/maplibre.js:151-193 | every `calls` change keeps the registry invariant |
| MapLibreWidget.Widget.constructor | mapwidget/js/maplibre.js:87-88 | the front end starts with an empty registry, the cursor at 0 and empty draw fields |
| MapLibreWidget.Widget.AddControlToMap | mapwidget/js/maplibre.js:196-239 | the fields after `addControlToMap` are those of its specification, and the method reports whether it threw |
| MapLibreWidget.Widget.AttachControlToMap | mapwidget/js/maplibre.js:202-238 | the fields after the `switch` result and the `try` block of `addControlToMap` are those of its specification |
| MapLibreWidget.Widget.RemoveControlFromMap | mapwidget/js/maplibre.js:242-251 | the fields after `removeControlFromMap` are those of its specification |
| MapLibreWidget.Widget.UpdateDrawFeatures | mapwidget/js/maplibre.js:364-367 | the collection field becomes the draw tool's current features |
| MapLibreWidget.Widget.SeedDrawFeatures | mapwidget/js/maplibre.js:313-323 | the feature loop adds the initial features in order and mirrors them into the collection field |
| MapLibreWidget.Widget.AttachDrawTool | mapwidget/js/maplibre.js:301-330 | the fields after the `try` block of `addDrawControlToMap` are those of its specification |
| MapLibreWidget.Widget.InstallDrawTool | mapwidget/js/maplibre.js:303-311 | an accepted draw tool is attached and registered under "draw", with no features yet |
| MapLibreWidget.Widget.AddDrawControlToMap | mapwidget/js/maplibre.js:254-331 | the fields after `addDrawControlToMap` are those of its specification |
| MapLibreWidget.Widget.RemoveDrawControlFromMap | mapwidget/js/maplibre.js:370-387 | the fields after `removeDrawControlFromMap` are those of its specification |
| MapLibreWidget.Widget.DeleteAllDrawFeaturesOnMap | mapwidget/js/maplibre.js:390-407 | the fields after `deleteAllDrawFeatures` are those of its specification |
| MapLibreWidget.Widget.DispatchCall | mapwidget/js/maplibre.js:157-189 | one iteration of the `forEach` has the effect of `Dispatch` and reports an escaping exception |
| MapLibreWidget.Widget.OnCallsChange | mapwidget/js/maplibre.js:151-193 | the `change:calls` loop has the effect of `HandleCalls`; when nothing throws, the cursor is the list's length |
| BasemapCatalogue.Resolve | mapwidget/basemaps.py:214-218 | definition: `getattr` applied for each dot-separated segment in turn, failing on a name the group lacks |
| BasemapCatalogue.CollectGroup | mapwidget/basemaps.py:244-254 | definition: the except branch's loop over a group's sub-items |
| BasemapCatalogue.CollectItem | mapwidget/basemaps.py:232-254 | definition: one item of the scan: the `try` block for a provider, the except branch for a group |
| BasemapCatalogue.Collect | mapwidget/basemaps.py:231-254 | definition: the scan over the catalogue's items, ending at the first exception that escapes |
| BasemapCatalogue.ResolveAppend | mapwidget/basemaps.py:214-218 | resolving a dotted path is resolving its first part and then the rest, one attribute at a time |
| BasemapCatalogue.CollectPrefixErr | mapwidget/basemaps.py:232-254 | an exception from the scan's `except` branch ends the whole scan |
| BasemapCatalogue.CollectGroupPrefixErr | mapwidget/basemaps.py:244-254 | an exception inside a group's sub-items ends the group's scan |
| BasemapCatalogue.CollectGroupSucceeds | mapwidget/basemaps.py:244-254 | a group is scanned without an exception exactly when all its members are providers whose names resolve |
| BasemapCatalogue.CollectGroupContents | mapwidget/basemaps.py:244-254 | a group's scan adds exactly its admitted providers, each under its name |
| BasemapCatalogue.CollectSucceeds | mapwidget/basemaps.py:231-254 | the scan raises nothing exactly when every provider name resolves and no group nests a group |
| BasemapCatalogue.CollectContents | mapwidget/basemaps.py:231-254 | after the scan, `xyz_dict` holds exactly the names read whose providers pass the token filter, each mapped to the provider its name resolves to |
| BasemapCatalogue.CollectCharacterised | mapwidget/basemaps.py:231-254 | whether the scan succeeds, and what it collects, in one statement |
| BasemapCatalogue.FreeOnlyExcludesTokenProviders | mapwidget/basemaps.py:236-254 | with `free_only`, no kept provider requires a token |
| BasemapCatalogue.AllProvidersKept | mapwidget/basemaps.py:232-254 | without `free_only`, every provider the scan reads is kept, sub-items of groups included |
| BasemapCatalogue.ToEntry | mapwidget/basemaps.py:261-274 | definition: the entry written for a provider: its name, built URL, attribution and maximum zoom (24 when absent) |
| BasemapCatalogue.MergeInto | mapwidget/basemaps.py:258-274 | definition: the write loop through the alias `tiles`, stopping at the first `build_url()` that raises |
| BasemapCatalogue.MergeIntoFails | mapwidget/basemaps.py:260-262 | the write loop raises exactly when some provider's URL cannot be built |
| BasemapCatalogue.MergeIntoStops | mapwidget/basemaps.py:260-274 | at the first provider whose URL cannot be built the loop raises, and the writes of the keys before it stay in the table |
| BasemapCatalogue.MergeIntoHas | mapwidget/basemaps.py:258-274 | the write loop never removes a key and adds only keys it is given; when every URL is built, a key is present afterwards exactly when it was before or was written |
| BasemapCatalogue.MergeIntoKeys | mapwidget/basemaps.py:258-274 | when every URL is built the loop raises nothing, keeps the table's keys in their order and appends the new keys in the order given |
| BasemapCatalogue.MergeIntoValues | mapwidget/basemaps.py:260-274 | when every URL is built, every written key maps to its normalised provider (maximum zoom 24 when absent), and every other entry is unchanged |
| BasemapCatalogue.MergeOrder | mapwidget/basemaps.py:256 | definition: the sorted keys of the scan's dictionary |
| BasemapCatalogue.MergeOrderSorted | mapwidget/basemaps.py:256 | the write order holds each key of the scan's dictionary exactly once, in ascending order |
| BasemapCatalogue.MergeOrderBuilds | mapwidget/basemaps.py:256-262 | every URL along the write order is built exactly when every kept provider's URL is |
| BasemapCatalogue.MergeScanned | mapwidget/basemaps.py:256-276 | definition: the sorted write loop and the exception it may raise |
| BasemapCatalogue.MergeScannedKeys | mapwidget/basemaps.py:256-276 | a write loop that raises nothing keeps the old keys first and appends the new ones in ascending order |
| BasemapCatalogue.MergeScannedValues | mapwidget/basemaps.py:258-274 | a write loop that raises nothing writes each kept provider's entry and keeps every other entry |
| BasemapCatalogue.MergeScannedMerges | mapwidget/basemaps.py:256-276 | both of the above in one statement |
| BasemapCatalogue.MergeScannedRaises | mapwidget/basemaps.py:258-274 | the write loop raises exactly when a kept provider's URL cannot be built; then the table holds the writes of the sorted keys before the first such provider, and that key is not written |
| BasemapCatalogue.GetXyzDict | mapwidget/basemaps.py:221-276 | definition: the scan, then the sorted write loop into the shared table, which is also the return value |
| BasemapCatalogue.GetXyzDictRaises | mapwidget/basemaps.py:221-276 | `get_xyz_dict` raises exactly when the scan raises, leaving the table untouched, or some kept provider's URL cannot be built |
| BasemapCatalogue.NewKeysAscending | mapwidget/basemaps.py:256-260 | keys added in sorted order come out ascending |
| BasemapCatalogue.GetXyzDictMerges | mapwidget/basemaps.py:221-276 | a `get_xyz_dict` call that raises nothing keeps the earlier keys as a prefix, appends the new names in ascending order, overwrites kept providers and keeps every other entry |
| BasemapCatalogue.BasemapList | mapwidget/basemaps.py:279-289 | definition: `list(get_xyz_dict(free_only).keys())` |
| BasemapCatalogue.BasemapListOrder | mapwidget/basemaps.py:279-289 | the basemap list is the earlier keys, then the new names ascending, without duplicates, naming every kept provider |
| BasemapCatalogue.HandWrittenValid | mapwidget/basemaps.py:8-39 | the table as first defined holds the five hand-written services as a consistent dictionary |
| BasemapCatalogue.GetXyzDictKeepsKeys | mapwidget/basemaps.py:258-276 | no call removes a key from the shared table, whether or not it raises, so the five hand-written services stay present |
| BasemapCatalogue.TokenEntriesPersist | mapwidget/basemaps.py:258-276 | through the shared table, a provider added by a call without `free_only` that raised nothing, token providers included, is still present after any later call |
| BasemapTable.UnpackSubParameters | mapwidget/basemaps.py:214-218 | the attribute loop returns what resolving the dot-separated path gives, and nothing when an attribute is missing |
| BasemapTable.Basemaps.constructor | mapwidget/basemaps.py:8-39 | the table starts as the five hand-written services |
| BasemapTable.Basemaps.Admit | mapwidget/basemaps.py:236-242 | a provider is added to `xyz_dict` unless it requires a token and `free_only` is set |
| BasemapTable.Basemaps.ScanGroup | mapwidget/basemaps.py:244-254 | the sub-item loop computes the group's scan |
| BasemapTable.Basemaps.Scan | mapwidget/basemaps.py:231-254 | the item loop computes the scan, including the exception that escapes it |
| BasemapTable.Basemaps.Merge | mapwidget/basemaps.py:258-274 | the write loop updates the table through its alias exactly as the merge specifies, and reports a `build_url()` failure after the writes before it |
| BasemapTable.Basemaps.GetXyzDict | mapwidget/basemaps.py:221-276 | `get_xyz_dict` returns the updated table itself; a scan exception leaves the table unchanged; a `build_url()` exception escapes after the earlier writes; the hand-written keys remain |
| BasemapTable.Basemaps.GetBasemapList | mapwidget/basemaps.py:279-289 | `get_basemap_list` returns the updated table's keys in order, or the exception `get_xyz_dict` raised |
| LeafletMap.AddBasemap | mapwidget/leaflet.py:24-47 | definition: refresh the table with `get_xyz_dict()`, then build the message for the name or raise `ValueError` |
| LeafletMap.BasemapMessage | mapwidget/leaflet.py:29-47 | definition: the `add_basemap` message for a name in the table, or the `ValueError` |
| LeafletMap.NotFoundMessage | mapwidget/leaflet.py:45-47 | definition: "Basemap NAME not found. It must be one of the following: " followed by the repr of the key list |
| LeafletMap.AddBasemapFound | mapwidget/leaflet.py:24-43 | a name in the refreshed table gives an `add_basemap` message with exactly six keys, holding the entry's URL, attribution and maximum zoom, the opacity (1.0 when omitted) and the name; kwargs play no part |
| LeafletMap.BasemapMessageFields | mapwidget/leaflet.py:30-43 | the message for a name in the table has exactly six keys, holding the entry's URL, attribution and maximum zoom, the opacity and the name |
| LeafletMap.ReprItemsNamesEveryKey | mapwidget/leaflet.py:45-47 | the repr of a key list contains each key's repr |
| LeafletMap.NotFoundMessageNamesKeys | mapwidget/leaflet.py:45-47 | the error text holds the requested name and the repr of every key in the table |
| LeafletMap.AddBasemapNotFound | mapwidget/leaflet.py:24-47 | a name not in the refreshed table raises `ValueError`, whose text names it and lists every key |
| LeafletMap.AddBasemapPropagatesCatalogueError | mapwidget/leaflet.py:24-28 | `add_basemap` fails exactly when the table refresh raises or the name is absent, and a refresh error escapes unchanged |
| LeafletMap.HandWrittenBasemapsFound | mapwidget/leaflet.py:27-29 | the five hand-written names are always found |
| LeafletMap.AddLayer | mapwidget/leaflet.py:49-61 | definition: the `add_layer` message with the argument defaults filled in |
| LeafletMap.AddLayerFields | mapwidget/leaflet.py:49-61 | the `add_layer` message has exactly six keys; given arguments pass through, omitted ones take the defaults 'Layer', '', 24 and 1.0, and kwargs are dropped |

## Left out

- CSS and script loading, map construction and the view-state handlers (`moveend`, `click`, `load`) are not modelled: they are browser I/O.
- The lazy MapboxDraw load is not modelled. When MapboxDraw is not loaded yet, the front end retries `addDrawControlToMap` after loading it; the model assumes it is loaded. The MapboxDraw CSS-class patching is left out too.
- `setupDrawEventHandlers` and the `draw.create`, `draw.update`, `draw.delete` and `draw.selectionchange` handlers are not modelled: they react to user drawing, not to calls.
- `model.save_changes()` is not modelled: it synchronises with the Python side, outside this model.
- Exceptions thrown by the control constructors and by `map.removeControl` are not modelled. Only `map.addControl` refusing a control and generic map methods throwing are.
- `draw.add` is modelled as appending a feature. Its validation and its treatment of feature ids are not modelled.
- Text.ToLower lower-cases ASCII letters only. JavaScript's full-Unicode `toLowerCase` is not modelled.
- Json.Spread treats strings and arrays like other non-objects. JavaScript would spread their indices as keys.
- An `args` value that is neither a list nor absent is not modelled. The model indexes `args` as a list.
- `build_url()` of a tile provider is modelled by the provider's `url` field: the URL it returns, or nothing when it raises (xyzservices raises `ValueError` for a provider that requires a token it was not given). Which providers it fails for, and its templating and API-key substitution, are not modelled: the catalogue supplies the outcome.
- BasemapTable.UnpackSubParameters: a path that continues past a provider resolves to nothing here. In Python, `getattr` on a tile provider reads its fields, so `"OpenTopoMap.url"` gives the URL string. The scan's outcome is the same either way: it calls `requires_token()` on the result, which a string lacks, so such a name raises exactly what a missing name raises (`TypeError` from the except branch for a top-level provider, `AttributeError` for a group's member).
- BasemapCatalogue.CatalogueError records only the kind of exception and, for `KeyError`, the key. Exception messages are not modelled.
- Attribute lookup on a catalogue group is modelled as member lookup. Built-in dict attributes such as `keys`, which `getattr` would also find, are not modelled.
- LeafletMap.Quote does not escape quotes or backslashes inside keys, unlike Python's `repr`.
- Numbers are modelled as reals, and Leaflet's `max_zoom` as an integer. Floating-point behaviour is not modelled.
- LeafletMap.AddBasemap returns the message and does not model `send`'s transport. Its update of the shared table is modelled by BasemapTable.Basemaps.GetXyzDict, not by AddBasemap itself.
- The other backends are not modelled: Mapbox, Cesium, OpenLayers, the `mapwidget.py` wrappers and the traitlet declarations. `mapwidget/maplibre.py` is not part of this model: its `Map` class defines only `set_esm` and `set_css`, and it loads `javascript/maplibre.js`, not the `js/maplibre.js` front end modelled here. The Python code that writes `calls` is not among these files.
- The WMS table in `mapwidget/basemaps.py` is not modelled: no core operation reads it.
