# Open MCT edit, persistence and view-controller core, in Dafny

This project models part of Open MCT's legacy platform. It covers the
engine that edits and saves domain objects, and a handful of view
controllers and policies built on it.

- **Domain objects** (`DomainObjects`). An object is an id plus a model.
  The model changes only through the mutation capability, which stamps
  `modified` with its timestamp argument, or with the clock when no
  timestamp is given.
- **Persistence capability** (`PersistenceCapability`). `persist` first
  stamps `persisted := modified`. It then writes the model with
  `updateObject` when the object was persisted before, and with
  `createObject` otherwise. A falsy store result becomes a rejection.
  Every failure raises a dismissable notification and stays a rejection.
  `refresh` replaces the model by the stored one. An object never
  persisted succeeds without reading the store.
- **Editor capability** (`EditorCapability`). `edit` starts a
  transaction and sets the `editing` status. `save` commits the
  transaction and `cancel` cancels it; both clear the status. The object
  is the edit root when its own status is `editing`. It is in an edit
  context when it or an ancestor is editing. It is dirty when the
  transaction holds queued operations.
- **Contextualize service** (`Contextualize`). It wraps a child with a
  `context` pointing at a parent. It warns when the parent's composition
  does not list the child, unless the child is being edited.
- **Cancel action** (`CancelAction`). It cancels the edit, then
  navigates to the original object, or to the parent for a new object.
- **Save As action** (`SaveAsAction`). A chain of eight steps runs one
  after the other: find the parent, run the creation wizard, show a
  progress dialog, find the chosen location, clone into it, refresh the
  originals the clone filter let through, commit the edit, and hide the
  dialog. Any failure hides the dialog and yields `false`.
- **Edit contextual action policy** (`EditContextualActionPolicy`).
  While the navigated object is the edit root, it refuses actions on one
  of two blacklists.
- **Activity timespan** (`ActivityTimespan`). The start/duration/end
  setters of a timeline activity clamp what they write at 0.
- **Timeline zoom controller** (`TimelineZoomController`). It holds a
  zoom index into a table of levels. It converts between pixels and
  milliseconds and keeps the centre of the view fixed while zooming. The
  fit search finds the level that shows a whole activity.
- **Display layout controller** (`LayoutController`). It places frames
  on a grid from the saved configuration or from default positions. Drop,
  drag, grid-size changes and composition reloads update the frames. A
  reply to an older composition request is discarded.
- **Real-time table controller** (`RealtimeTableController`). It
  appends one row per telemetry object with a datum and keeps at most
  100000 rows. It broadcasts each removal and addition.
- **Mode column** (`ModeColumn`). The "Activity Mode N" column of the
  timeline CSV export.
- **Composition model policy** (`CompositionModelPolicy`). A type may
  contain objects only when its initial model has an array
  `composition`.

Objects whose fields the source updates in place are classes. Examples
are the domain object, the editor and its transaction service, the
activity timespan, and the zoom, layout, table and Save As controllers.
Their methods are proved against pure specification functions, and the
lemmas beside those functions prove the properties. Promises are modelled
as settled outcomes (`Outcome`) given as parameters. Collaborators are
either parameters or small classes that log the calls made to them.

## Model

| member | source | states |
|---|---|---|
| DomainObjects.DomainObject.Mutate | platform/core/src/capabilities/PersistenceCapability.js:122-124 | the model becomes the transform's result, stamped with the timestamp argument (or the clock), and the request is logged |
| PersistenceCapability.RejectIfFalsey | platform/core/src/capabilities/PersistenceCapability.js:67-73 | resolves exactly for a truthy value, which passes through unchanged; a falsy one is rejected with "Error persisting object" |
| PersistenceCapability.FormatError | platform/core/src/capabilities/PersistenceCapability.js:75-83 | never empty: the error's non-empty message, else the error itself when it is a non-empty string, else "unknown error" |
| PersistenceCapability.NotifyOnError | platform/core/src/capabilities/PersistenceCapability.js:89-102 | a dismissable notification titled "Error persisting <name>"; the hint "Unable to persist <name>" gets ": <formatted error>" appended exactly when the error is truthy |
| PersistenceCapability.HintDescribesError | platform/core/src/capabilities/PersistenceCapability.js:89-93 | the hint always starts with "Unable to persist <name>"; it is longer exactly when the error is truthy, and then ends with the formatted error |
| PersistenceCapability.Settle | platform/core/src/capabilities/PersistenceCapability.js:131-135 | a persist succeeds exactly when the store resolves with a truthy result, which is passed on unchanged; a store rejection keeps its own error; a notification is raised exactly on failure |
| PersistenceCapability.PersistenceCapability.Persist | platform/core/src/capabilities/PersistenceCapability.js:111-136 | `persisted` becomes the entry-time `modified` through one mutation with that timestamp; the stamped model is written with updateObject if the object was persisted before, else createObject, at (space, key); the outcome is Settle of the store's reply |
| PersistenceCapability.PersistenceCapability.GetSpace | platform/core/src/capabilities/PersistenceCapability.js:175-178 | the space the identifier parser gives for the object's id, and nothing else |
| PersistenceCapability.PersistenceCapability.GetKey | platform/core/src/capabilities/PersistenceCapability.js:186-189 | the key the identifier parser gives for the object's id, and nothing else |
| PersistenceCapability.PersistenceCapability.Refresh | platform/core/src/capabilities/PersistenceCapability.js:144-163 | a never-persisted object succeeds without reading the store or changing; otherwise (space, key) is read, and a successful read replaces the model through one mutation stamped with the read model's `modified`, while a failed read changes nothing and rejects with the store's error |
| PersistenceCapability.RefreshReplacesModel | platform/core/src/capabilities/PersistenceCapability.js:148-153 | a refresh leaves exactly the stored model when the stored model carries a `modified` stamp |
| PersistenceCapability.AddressDependsOnlyOnId | platform/core/src/capabilities/PersistenceCapability.js:175-189 | the space and key depend only on the object's id and the identifier parser |
| EditorCapability.IsEditing | platform/commonUI/edit/test/capabilities/EditorCapabilitySpec.js:120-127 | true exactly when some status on the context chain is `editing` |
| EditorCapability.Editor.Edit | platform/commonUI/edit/test/capabilities/EditorCapabilitySpec.js:102-110 | starts a transaction (one StartCall logged) and sets the `editing` status |
| EditorCapability.Editor.IsEditContextRoot | platform/commonUI/edit/test/capabilities/EditorCapabilitySpec.js:112-118 | is the object's own `editing` status, so a root is always in an edit context |
| EditorCapability.Editor.InEditContext | platform/commonUI/edit/test/capabilities/EditorCapabilitySpec.js:120-127 | true exactly when the object or one of its ancestors is editing |
| EditorCapability.Editor.Save | platform/commonUI/edit/test/capabilities/EditorCapabilitySpec.js:129-140 | commits the transaction (one CommitCall, queue emptied), clears `editing`, and reports whether the commit succeeded |
| EditorCapability.Editor.Cancel | platform/commonUI/edit/test/capabilities/EditorCapabilitySpec.js:142-153 | cancels the transaction (one CancelCall, queue emptied) and clears `editing` |
| EditorCapability.Editor.Dirty | platform/commonUI/edit/test/capabilities/EditorCapabilitySpec.js:155-169 | true exactly when the transaction holds queued operations |
| Contextualize.Contextualize | platform/core/test/services/ContextualizeSpec.js:72-99 | the wrapper keeps the child's id and its context's parent is the given parent; a warning is logged exactly when the child is not in an edit context and the parent's composition does not list it |
| CancelAction.AppliesTo | platform/commonUI/edit/test/actions/CancelActionSpec.js:114-124 | applies exactly to a present object with an editor capability that is the edit root |
| CancelAction.Perform | platform/commonUI/edit/test/actions/CancelActionSpec.js:126-152 | cancels the edit through the editor capability, then navigates to the original when the object was persisted before, else to its parent |
| SaveAsAction.AppliesTo | platform/commonUI/edit/src/actions/SaveAsAction.js:197-203 | applies exactly to a present object with an editor capability that is the edit root and was never persisted |
| SaveAsAction.AppliesOnlyWhereCancelApplies | platform/commonUI/edit/src/actions/SaveAsAction.js:197-203 | wherever Save As applies, Cancel applies too |
| SaveAsAction.Allowed | platform/commonUI/edit/src/actions/SaveAsAction.js:146-154 | the candidates kept are exactly those offered that are the edited object or an original, in offer order |
| SaveAsAction.CloneFilter.AllowClone | platform/commonUI/edit/src/actions/SaveAsAction.js:146-154 | allows exactly the edited object or an original, and remembers each allowed candidate, so the list to refresh stays `Allowed` of all candidates offered |
| SaveAsAction.SaveAsAction.OfferAll | platform/commonUI/edit/src/actions/SaveAsAction.js:156-158 | after the copy service has offered every candidate, the list to refresh is exactly `Allowed` of them |
| SaveAsAction.StepsRunSequential | platform/commonUI/edit/src/actions/SaveAsAction.js:179-187 | the chain is sequential: every step before the last one run succeeded; the last one run failed unless all ran; all run exactly when every step succeeds |
| SaveAsAction.CommitFollowsCloneAndUndirty | platform/commonUI/edit/src/actions/SaveAsAction.js:164-172 | the edit is committed only after the clone succeeded and every allowed original refreshed successfully |
| SaveAsAction.SaveAsAction.Locate | platform/commonUI/edit/src/actions/SaveAsAction.js:179-182 | runs the first four steps as far as they succeed, shows the dialog once the wizard succeeded, and goes on exactly when the chosen location was found |
| SaveAsAction.SaveAsAction.CloneAndUndirty | platform/commonUI/edit/src/actions/SaveAsAction.js:156-167 | clones through the filter, refreshes exactly the allowed candidates when the clone succeeded, and goes on exactly when every refresh succeeds |
| SaveAsAction.SaveAsAction.Commit | platform/commonUI/edit/src/actions/SaveAsAction.js:169-172 | commits the edit (one CommitCall, the transaction closed with an empty queue, `editing` cleared) and then hides the dialog step; yields the clone exactly when the commit succeeds |
| SaveAsAction.SaveAsAction.Finish | platform/commonUI/edit/src/actions/SaveAsAction.js:156-172 | after the location is found: runs steps five onwards as far as they succeed, refreshes the allowed candidates once the clone succeeded, commits only after every refresh succeeded (closing the transaction and emptying its queue, which are otherwise left alone), and yields the clone exactly when the whole chain succeeds; the dialog is untouched |
| SaveAsAction.SaveAsAction.Save | platform/commonUI/edit/src/actions/SaveAsAction.js:110-188 | runs exactly the first StepsRun steps of the chain; yields the clone exactly when all eight succeed; the dialog is hidden on every path (shown first once the wizard succeeded); the edit is committed (transaction closed, queue emptied) and `editing` cleared only after clone and refreshes succeeded, and otherwise the transaction and `editing` are left as they were |
| SaveAsAction.SaveAsAction.Perform | platform/commonUI/edit/src/actions/SaveAsAction.js:97-104 | navigates to the save's result exactly when it is an object, and yields that result; that result is the clone exactly when all eight steps succeed, and the steps run, dialog, refreshes, commit and `editing` end as Save states |
| EditContextualActionPolicy.Allow | platform/commonUI/edit/src/policies/EditContextualActionPolicy.js:53-68 | everything is allowed unless the navigated object is the edit root; then an action is refused exactly when its key is on the edit-mode blacklist (selected object in the edit context) or on the non-edit-context blacklist (otherwise) |
| EditContextualActionPolicy.KeylessActionAllowed | platform/commonUI/edit/src/policies/EditContextualActionPolicy.js:56-63 | an action without metadata or key is never refused |
| EditContextualActionPolicy.RefusalNamesBlacklist | platform/commonUI/edit/src/policies/EditContextualActionPolicy.js:58-63 | a refused action has a key, and that key is on the blacklist that applied |
| ActivityTimespan.AfterSetStart | platform/features/timeline/src/capabilities/ActivityTimespan.js:53-60 | start and duration end non-negative; a non-negative start is taken as given; a start within [0, end] keeps the end; a start past the end leaves duration 0 |
| ActivityTimespan.AfterSetDuration | platform/features/timeline/src/capabilities/ActivityTimespan.js:63-67 | the start is kept; the end is start plus the value, or the start for a negative value |
| ActivityTimespan.AfterSetEnd | platform/features/timeline/src/capabilities/ActivityTimespan.js:70-75 | the start is kept; the end becomes the value, or the start when the value is before it |
| ActivityTimespan.NegativeStartMovesEnd | platform/features/timeline/src/capabilities/ActivityTimespan.js:53-60 | a negative start is clamped to 0, but the duration is computed from the unclamped value, so the end moves later by its magnitude |
| ActivityTimespan.SetEndToOwnEnd | platform/features/timeline/src/capabilities/ActivityTimespan.js:70-75 | setting the end a span already has changes nothing |
| ActivityTimespan.SetStartThenEnd | platform/features/timeline/src/capabilities/ActivityTimespan.js:53-75 | moving the start within [0, e] and then setting the end to e gives exactly start v, duration e - v |
| ActivityTimespan.ActivityTimespan.GetStart | platform/features/timeline/src/capabilities/ActivityTimespan.js:33-35 | the start of the current span |
| ActivityTimespan.ActivityTimespan.GetDuration | platform/features/timeline/src/capabilities/ActivityTimespan.js:43-45 | the duration of the current span, which added to the start gives the end |
| ActivityTimespan.ActivityTimespan.GetEpoch | platform/features/timeline/src/capabilities/ActivityTimespan.js:48-50 | the model's epoch; it is a constant field of the capability, so none of the setters (SetStart, SetDuration, SetEnd, Write) changes it |
| ActivityTimespan.ActivityTimespan.GetEnd | platform/features/timeline/src/capabilities/ActivityTimespan.js:38-40 | the end of the current span (start plus duration), the quantity the setter lemmas AfterSetStart, AfterSetDuration and AfterSetEnd describe |
| ActivityTimespan.ActivityTimespan.Write | platform/features/timeline/src/capabilities/ActivityTimespan.js:55-59 | the span is written through one mutation whose timestamp is the model's current `modified` |
| ActivityTimespan.ActivityTimespan.SetStart | platform/features/timeline/src/capabilities/ActivityTimespan.js:53-60 | the new span is AfterSetStart of the old one, written through one mutation stamped with the old `modified` |
| ActivityTimespan.ActivityTimespan.SetDuration | platform/features/timeline/src/capabilities/ActivityTimespan.js:63-67 | the new span is AfterSetDuration of the old one, written through one mutation stamped with the old `modified` |
| ActivityTimespan.ActivityTimespan.SetEnd | platform/features/timeline/src/capabilities/ActivityTimespan.js:70-75 | the new span is AfterSetEnd of the old one, written through one mutation stamped with the old `modified` |
| TimelineZoomController.ConversionsAreInverse | platform/features/timeline/src/controllers/TimelineZoomController.js:37-43 | at a fixed level, pixels-to-milliseconds and milliseconds-to-pixels undo each other |
| TimelineZoomController.Clamp | platform/features/timeline/src/controllers/TimelineZoomController.js:49-52 | the index lands in range: kept when in range, 0 below, the last index above |
| TimelineZoomController.FitFrom | platform/features/timeline/src/controllers/TimelineZoomController.js:63-69 | the first index from the start that shows the whole duration, or the last index when none before it does |
| TimelineZoomController.Ceil | platform/features/timeline/src/controllers/TimelineZoomController.js:128 | the least integer at or above the value |
| TimelineZoomController.TimelineZoomController.constructor | platform/features/timeline/src/controllers/TimelineZoomController.js:33-35 | levels default to [1000] and a missing or zero width to 200; the index starts at the middle level |
| TimelineZoomController.TimelineZoomController.ToMillis | platform/features/timeline/src/controllers/TimelineZoomController.js:37-39 | a non-negative width in pixels shows a non-negative time |
| TimelineZoomController.TimelineZoomController.ToPixels | platform/features/timeline/src/controllers/TimelineZoomController.js:41-43 | a non-negative time needs a non-negative width |
| TimelineZoomController.TimelineZoomController.SetZoomLevel | platform/features/timeline/src/controllers/TimelineZoomController.js:46-54 | a number moves the index to that level kept in range; NaN leaves it alone |
| TimelineZoomController.TimelineZoomController.Zoom | platform/features/timeline/src/controllers/TimelineZoomController.js:94-103 | moves the index by the amount, kept in range, and requests a scroll position at which the time at the view's centre is the one that was there before; NaN changes nothing; answers the current level |
| TimelineZoomController.TimelineZoomController.Fit | platform/features/timeline/src/controllers/TimelineZoomController.js:63-71 | the index becomes FitFrom from level 0, and a scroll to the activity's start is requested |
| TimelineZoomController.TimelineZoomController.Width | platform/features/timeline/src/controllers/TimelineZoomController.js:127-130 | at least the view's width and at least the padded timestamp in pixels, and less than one pixel more than the latter unless it is the view's width |
| LayoutController.CeilDiv | platform/features/layout/src/LayoutController.js:172 | the fewest multiples of the divisor that reach the dividend |
| LayoutController.DefaultSize | platform/features/layout/src/LayoutController.js:168-176 | per axis, at least the default cell count and at least the minimum frame size in pixels, and no more cells than needed for either |
| LayoutController.DefaultGridSize12By8 | platform/features/layout/src/LayoutController.js:32-34 | on the default 32 by 32 grid a new frame is 12 by 8 cells |
| LayoutController.DefaultPosition | platform/features/layout/src/LayoutController.js:180-185 | the default frame of index i sits at cell (i, i) and has the default size |
| LayoutController.DefaultPositionsAreUnique | platform/features/layout/src/LayoutController.js:178-185 | different indices give default frames at different cells |
| LayoutController.Convert | platform/features/layout/src/LayoutController.js:156-165 | each pixel component is the grid size of its axis times the cell component |
| LayoutController.DropSnapsToGrid | platform/features/layout/src/LayoutController.js:75-79 | a dropped frame's top-left corner is the grid point at or just before the drop point, on both axes |
| LayoutController.Distinct | platform/features/layout/src/LayoutController.js:286-288 | the same ids without repeats, in order of first occurrence |
| LayoutController.DistinctOfDistinct | platform/features/layout/src/LayoutController.js:58 | the key list of the shown frames, having no repeats, is laid out again in its own order |
| LayoutController.LaidOut | platform/features/layout/src/LayoutController.js:270-289 | one raw frame per listed id: its saved frame, else the default frame at its first index |
| LayoutController.LaidOutFrames | platform/features/layout/src/LayoutController.js:270-289 | a listed id with a saved frame keeps it; one without gets the default frame at the index where it first occurs |
| LayoutController.Populate | platform/features/layout/src/LayoutController.js:190-195 | the id keeps its raw frame or gets the default one at the index, and is shown as its raw frame in pixels; no other frame changes |
| LayoutController.PopulateRestoresCoherence | platform/features/layout/src/LayoutController.js:190-195 | populating the one id whose frame is out of date makes every shown frame its raw frame in pixels again |
| LayoutController.PopulateAllShows | platform/features/layout/src/LayoutController.js:286-288 | populating a list shows what was shown before plus exactly the listed ids |
| LayoutController.PopulateAllCoherent | platform/features/layout/src/LayoutController.js:286-288 | populating a list keeps every shown frame equal to its raw frame in pixels |
| LayoutController.PopulateAllOrder | platform/features/layout/src/LayoutController.js:279-288 | from nothing shown, the shown ids end up in order of first occurrence |
| LayoutController.PopulatePrefixKeys | platform/features/layout/src/LayoutController.js:275-288 | part-way through the layout, the raw frames are those of the listed ids with a saved frame and those of the ids populated so far |
| LayoutController.PopulatePrefixFrames | platform/features/layout/src/LayoutController.js:275-288 | part-way through the layout, each raw frame is already the one the finished layout gives it |
| LayoutController.LayoutResult | platform/features/layout/src/LayoutController.js:270-289 | a layout shows exactly the listed ids, each with its LaidOut frame, in order of first occurrence |
| LayoutController.LayoutController.GetFrameStyle | platform/features/layout/src/LayoutController.js:205-209 | answers exactly for a shown id, with its raw frame in pixels |
| LayoutController.LayoutController.PopulatePosition | platform/features/layout/src/LayoutController.js:190-195 | the frames become Populate of the old ones, with an absent index read as 0 |
| LayoutController.LayoutController.LayoutPanels | platform/features/layout/src/LayoutController.js:270-289 | the grid comes from the model or the default, the raw frames are LaidOut of the saved ones, every raw frame is shown, in order of first occurrence |
| LayoutController.LayoutController.ShowFrame | platform/features/layout/src/LayoutController.js:87-89 | the id's raw frame becomes the given one and is shown in pixels; every other frame and every other field is unchanged |
| LayoutController.LayoutController.HandleDrop | platform/features/layout/src/LayoutController.js:63-94 | an already handled drop changes nothing; otherwise the frame of the cell under the drop point is saved to the configuration (created if absent), committed with "Dropped a frame." when commit exists, and shown; the event ends handled |
| LayoutController.LayoutController.UpdateGridSize | platform/features/layout/src/LayoutController.js:50-60 | adopts the model's new `layoutGrid` (the default 32×32 when absent) as both the model grid and the grid size; an unchanged size leaves the frames alone, a changed one lays the shown ids out again in their key order at the new size |
| LayoutController.LayoutController.StartDrag | platform/features/layout/src/LayoutController.js:231-239 | a drag of the given id becomes active and no frame changes |
| LayoutController.LayoutController.ContinueDrag | platform/features/layout/src/LayoutController.js:246-252 | with a drag active, the dragged frame becomes the adjusted one and is shown, its id appended to the key order only if it was not shown before; with none, nothing changes |
| LayoutController.LayoutController.EndDrag | platform/features/layout/src/LayoutController.js:121-137 | the dragged frame is saved into the configuration (created if absent) and committed with "Moved frame." when commit exists; no frame changes |
| LayoutController.LayoutController.RequestComposition | platform/features/layout/src/LayoutController.js:98-100 | each request takes the next callback number |
| LayoutController.LayoutController.ReceiveComposition | platform/features/layout/src/LayoutController.js:102-115 | the reply to the latest request sets the composition and lays it out; a reply to an older request changes nothing |
| RealtimeTableController.Push | platform/features/table/src/controllers/RealtimeTableController.js:59-65 | the row ends the buffer; below the bound it is simply appended; the bound is never exceeded |
| RealtimeTableController.NewRows | platform/features/table/src/controllers/RealtimeTableController.js:54-58 | a batch brings at most one row per telemetry object |
| RealtimeTableController.FedKeepsNewest | platform/features/table/src/controllers/RealtimeTableController.js:54-65 | after a batch the buffer is exactly the newest rows (at most the bound) of the old rows followed by the batch's rows |
| RealtimeTableController.FedStaysBounded | platform/features/table/src/controllers/RealtimeTableController.js:41-68 | the buffer stays within the bound, and every broadcast removes row 0 or adds a row at an index within the bound |
| RealtimeTableController.OneAddPerRow | platform/features/table/src/controllers/RealtimeTableController.js:62-68 | at least one broadcast per new row; below the bound, exactly one AddRow per row, at consecutive indices after the old rows |
| RealtimeTableController.AddsFrom | platform/features/table/src/controllers/RealtimeTableController.js:67-68 | consecutive AddRow broadcasts starting at the given index |
| RealtimeTableController.RealtimeTableController.AddRealtimeData | platform/features/table/src/controllers/RealtimeTableController.js:50-72 | the buffer becomes the newest rows of the old ones plus the batch's, within the bound; the broadcasts are appended in order; loading ends |
| ModeColumn.Name | platform/features/timeline/src/actions/ModeColumn.js:40-42 | "Activity Mode " followed by decimal digits that denote the one-based column number |
| ModeColumn.DecimalRoundTrip | platform/features/timeline/src/actions/ModeColumn.js:41 | reading back the decimal text of a number gives the number |
| ModeColumn.NamesAreDistinct | platform/features/timeline/src/actions/ModeColumn.js:40-42 | different columns have different names |
| ModeColumn.Modes | platform/features/timeline/src/actions/ModeColumn.js:46 | the activity's modes, or none when relationships or their modes are missing |
| ModeColumn.Value | platform/features/timeline/src/actions/ModeColumn.js:44-49 | for an index within the modes, the idMap entry of that mode (undefined when there is none); past the end, the empty string |
| CompositionModelPolicy.Allow | platform/containment/src/CompositionModelPolicy.js:16-20 | allowed exactly when the initial model is an object whose `composition` is an array; a missing or falsy model is refused |
| CompositionModelPolicy.EmptyCompositionAllowed | platform/containment/src/CompositionModelPolicy.js:17-19 | an empty composition array is enough |

## Left out

- The mutation capability's own source is not part of this model. Its stamping rule (the timestamp argument, else the clock) is taken from how `persist`, `refresh` and the timespan setters call it. It is not read as an "expected base" check that could refuse a mutation.
- The editor capability's source file is not part of this model. `EditorCapability` is modelled from the behaviour its test file fixes. `edit` is unconditional, and dirtiness is the transaction's queue size.
- The transaction service, status capability, persistence store, identifier service, notification service, object service, dialog service, creation wizard, copy service, navigation and logging are collaborators. Each is a parameter or a small logging class.
- Promises are settled outcomes given as inputs. Their asynchrony and interleaving are not modelled, except for the stale-reply guard of the layout's composition requests.
- PersistenceCapability.PersistenceCapability.Refresh: a successful read resolves with `true` here. In the source it resolves with whatever the mutation capability returns, which is not part of this model.
- PersistenceCapability.PersistenceCapability.Refresh: a store read that resolves with `undefined` (no stored object) is not modelled. The reply is either a model or a rejection.
- SaveAsAction.CloneFilter.AllowClone requires every candidate that is not the edited object to have a location capability. Without one the source throws inside the copy service, and that path is not modelled.
- SaveAsAction.SaveAsAction.Save: the wizard's form structure and the values it writes into the object are not modelled. Only the location it chooses is an input.
- The Save As `fetchObject` lookup that resolves to `undefined` (an unknown id) is not modelled. Each lookup either finds an object or rejects.
- JavaScript numbers are `int` in the domain and layout models and `real` in the zoom controller. NaN, infinities and fractional values are left out, except that the zoom's NaN checks are an absent `Option`.
- TimelineZoomController.TimelineZoomController.Zoom and SetZoomLevel take whole numbers, so a fractional zoom amount or index is not modelled.
- TimelineZoomController.TimelineZoomController.constructor requires the configured levels to be non-empty and positive and the width to be non-negative. The source does not check these, and division by a zero level is not modelled.
- The zoom controller's `requestAnimationFrame` scroll updates are a log of requested scroll positions. The `domainObject` watch that triggers `fit` is left out, and `Fit` takes the timespan's start and duration directly.
- LayoutController methods require positive grid sizes. In the source a zero component of `layoutGrid` divides by zero, and a negative one gives frames with non-positive cell counts; neither case is modelled.
- Layout styles are integer pixel offsets, not CSS `px` strings.
- The layout drag arithmetic (`LayoutDrag`) is not part of this model. `ContinueDrag` takes the adjusted frame as a parameter, and `StartDrag` ignores the position and dimension factors.
- LayoutController.LayoutController.EndDrag: a dragged id with no raw frame stores `undefined` in the source. Here it is the removal of that key, which is how every later read treats it.
- JavaScript's `Object.keys` puts integer-like keys first. The layout's key order is insertion order, which matches the source only for ids that are not array indices.
- A view configuration that is present but has no `panels` is merged with an absent one, since every operation reads both the same way.
- Angular watches, scopes and `$broadcast` are not modelled. Watches are the methods that handle them, and broadcasts are a log.
- The real-time table's row formatter (`getRowValues`) is a collaborator. A batch gives the row of each telemetry object, or none when it has no datum.
- The context chain of `inEditContext` is a finite list of ancestors, so a cyclic parent chain is not modelled.
- ModeColumn takes a non-negative index. The source never builds a column with a negative one.
- ModeColumn.Value: a lookup of an id missing from `idMap` yields `undefined`, here None. The CSV writer's rendering of it is not part of this model.
