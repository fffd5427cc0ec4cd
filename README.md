# Label Studio front-end helpers, audio worker and small validators, in Dafny

This project models the small, self-contained pieces of logic in Label Studio's web front end, its
documentation site and its server. Each one gets a datatype, function, class or method, and the
properties its code promises are proved about that model. The pieces are:

- the video-labelling userscript `labelstudiohelper.js`:
  - region navigation (next, previous, next unlabelled) and tracking ids;
  - label counts;
  - bulk selection, which Escape can cancel;
- the audio worker that splits interleaved samples into per-channel buffers, and its message listener;
- the timeline minimap, with its selected-row window and its connection widths;
- the video timeline region editor (start, end and duration fields, and the clamp on input);
- the image editor's move/selection tool;
- the details-panel region editor:
  - the numeric input sanitiser and arrow-key steps;
  - property updates;
  - the icon labels;
- the in-app tips helpers: event names, metadata, and the dismissal cookie;
- the analytics hook `__lsa`;
- the production editor environment (`getData`, `getState`, `configureApplication`);
- the server's feature-flag user description;
- the documentation site's table-of-contents renderer.

JavaScript values are `Common.Val`. Truthiness follows the language: `0`, `""`, `NaN`, `null` and
`undefined` are falsy. Exceptions the code would raise are an `Outcome.Throw`. Side effects on the
page are appended to effect logs, and pure functions state what each call appends. One module is
kept per source file, plus `Common` (strings, `parseInt`, filters, JS values) and `Regions` (the
region record the userscript and the minimap share).

## Model

| member | source | states |
|---|---|---|
| RegionHelper.GetSelectedRegion | web/labelstudiohelper.js:89-90 | none exactly when no region is selected or in the selection; otherwise the first selected region of the list |
| RegionHelper.GetNextRegion | web/labelstudiohelper.js:92-118 | a result is a region of the list, and exists only when the current region is given and its id is found |
| RegionHelper.NextOfIndex | web/labelstudiohelper.js:102-117 | from the k-th region: the next one, or at the end the first (cyclic) or none |
| RegionHelper.AdvanceForward | web/labelstudiohelper.js:112-114 | m steps from the k-th region reach region k+m while that exists |
| RegionHelper.CycleReturnsToStart | web/labelstudiohelper.js:112-116 | with unique ids and cyclic stepping, `|regions|` steps return to the starting region |
| RegionHelper.PreviousUndoesNext | web/labelstudiohelper.js:144-152 | a step over the reversed list (previous) undoes a step over the list (next) |
| RegionHelper.NothingSelectedStartsAtEnds | web/labelstudiohelper.js:130-152 | with nothing selected, next starts from the first region and previous from the last |
| RegionHelper.GetTrackingId | web/labelstudiohelper.js:154-164 | a tracking id exists iff the id is non-empty and splits on '-' into exactly three parts; its prefix starts the id |
| RegionHelper.TrackingIdOfWellFormedId | web/labelstudiohelper.js:154-164 | an id `a-b-<n>#…` has prefix `a-b-` and part n |
| RegionHelper.GetSameTrackingRegions | web/labelstudiohelper.js:166-184 | empty for an untracked reference; always an order-preserving subsequence of the page's regions |
| RegionHelper.SameTrackingAfterIsSubsequence | web/labelstudiohelper.js:166-184 | the "from this part on" result is a subsequence of the whole-group result |
| RegionHelper.SameTrackingAfterMembers | web/labelstudiohelper.js:171-183 | a region is kept from this part on iff it is on the page, has the same prefix and a part at least the reference part |
| RegionHelper.SameTrackingMembers | web/labelstudiohelper.js:171 | a region is in the whole group iff it is on the page and its id starts with the prefix |
| RegionHelper.PersonAndActionPartition | web/labelstudiohelper.js:192-206 | person labels (ending in さん) and action labels together count every label once |
| RegionHelper.LabelCountsAddUp | web/labelstudiohelper.js:186-206 | person plus action count is the label count; a missing region counts -1 in all three |
| RegionHelper.GetEmptyLabelRegion | web/labelstudiohelper.js:213-219 | the loop returns the first region with no label, or none |
| RegionHelper.FirstUnlabelledIsFirst | web/labelstudiohelper.js:213-219 | none iff every region is labelled; otherwise the result is unlabelled and every earlier region is labelled |
| HelperActions.SelectRegionBehaviour | web/labelstudiohelper.js:120-128 | no-op returning null for a missing region or one without `onClickRegion`; clicks only unselected regions, then moves the playhead to the first keyframe and shows the row |
| HelperActions.WrapSearchIsCyclicFirst | web/labelstudiohelper.js:241-247 | the search from a labelled region finds the first unlabelled region reading round from it, and none iff all are labelled |
| HelperActions.NextEmptyLabelSelectsWrapSearch | web/labelstudiohelper.js:221-248 | from a labelled region of the list, next-unlabelled selects exactly the region the cyclic search finds |
| HelperActions.StepsRun | web/labelstudiohelper.js:259-261 | the loop runs at least the first step and stops just after the first step during which Escape was pressed: no earlier step saw Escape |
| HelperActions.FirstStall | web/labelstudiohelper.js:264-270 | the first region whose step throws (unselected, no handler), with all earlier ones safe |
| HelperActions.BulkSpecStalled | web/labelstudiohelper.js:254-271 | a run that reaches a throwing step before any Escape stalls there |
| HelperActions.BulkSpecCancelled | web/labelstudiohelper.js:273-281 | a run that saw Escape during step k runs steps 0 to k-1, then runs selectRegion on the earlier region (clicking it only if it was unselected at the call), reports the cancellation and unblocks the page; a throwing selectRegion leaves the page blocked |
| HelperActions.BulkSpecCompleted | web/labelstudiohelper.js:283-292 | a run with no Escape and no throwing step completes and reports the region count |
| HelperActions.StepsClickUnselected | web/labelstudiohelper.js:262-269 | the first k steps click exactly the unselected regions among the first k, in order |
| HelperActions.BulkCompletes | web/labelstudiohelper.js:254-294 | without Escape, a completed run has clicked exactly the list's unselected regions |
| HelperActions.BulkCancelScenario | web/labelstudiohelper.js:254-294 | five regions with Escape during the third step: three clicks, then cancelled |
| HelperActions.HelperScript.SetSelectedRegion | web/labelstudiohelper.js:51-56 | shows the region's row only when the page lists its id |
| HelperActions.HelperScript.SelectRegion | web/labelstudiohelper.js:120-128 | result and effects are those of `SelectRegionRun` |
| HelperActions.HelperScript.SelectNextRegion | web/labelstudiohelper.js:130-143 | selects the next target from the selected region, or the first region |
| HelperActions.HelperScript.SelectPreviousRegion | web/labelstudiohelper.js:144-152 | selects the next target over the reversed list |
| HelperActions.HelperScript.SelectNextEmptyLabelRegion | web/labelstudiohelper.js:221-248 | result and effects are those of `NextEmptyLabelRun` |
| HelperActions.HelperScript.SelectPreviousEmptyLabelRegion | web/labelstudiohelper.js:250-252 | next-unlabelled over the reversed list, in reverse mode |
| HelperActions.HelperScript.SelectRegions | web/labelstudiohelper.js:254-294 | result and effects are those of `BulkSpec`, and the cancel flag ends cleared |
| HelperActions.HelperScript.RunSteps | web/labelstudiohelper.js:260-274 | the loop runs whole steps, none stalling, until Escape was seen or the list ends; when a step stalls, its progress is the last effect and the cancel flag was never set |
| HelperActions.HelperScript.Step | web/labelstudiohelper.js:264-272 | a step shows its progress and then ctrl-clicks the region unless it is already selected; it stalls exactly when the region is unselected and has no click handler |
| HelperActions.HelperScript.FinishCancelled | web/labelstudiohelper.js:276-285 | after a cancelled run the flag is cleared and selectRegion runs on the earlier region (clicking it only if it was unselected at the call); result and effects are those of `BulkSpec` |
| HelperActions.HelperScript.SelectSameTrackingRegions | web/labelstudiohelper.js:296-309 | with no region, only the "no region selected" notice; otherwise bulk selection of the same-tracking regions under the right title |
| HelperActions.HelperScript.SelectAllRegions | web/labelstudiohelper.js:311-314 | bulk selection of every region; on cancel, selectRegion runs on the region selected at the call (clicking it only if it was unselected then) |
| ChannelWorker.Channel | web/dist/libs/datamanager/editor_src_lib_AudioUltra_Media_SplitChannelWorker_ts.js:168-170 | each channel buffer has length `value.length / channelCount`, truncated |
| ChannelWorker.SplitChannels | web/dist/libs/datamanager/editor_src_lib_AudioUltra_Media_SplitChannelWorker_ts.js:161-188 | the loop fills fresh, distinct arrays whose contents are the split; with no channels only an empty input returns |
| ChannelWorker.FilledChannels | web/dist/libs/datamanager/editor_src_lib_AudioUltra_Media_SplitChannelWorker_ts.js:173-186 | buffers written as the loop writes them hold exactly the split |
| ChannelWorker.SplitInterleave | web/dist/libs/datamanager/editor_src_lib_AudioUltra_Media_SplitChannelWorker_ts.js:173-186 | sample i is at channel i % n, position i / n, and re-interleaving whole frames gives back the input |
| ChannelWorker.EachSlotOnce | web/dist/libs/datamanager/editor_src_lib_AudioUltra_Media_SplitChannelWorker_ts.js:181-185 | position j of channel c of the split is sample j * n + c, which the loop writes there, and no other sample is written there |
| ChannelWorker.TwoChannelExample | web/dist/libs/datamanager/editor_src_lib_AudioUltra_Media_SplitChannelWorker_ts.js:175-184 | with two channels, samples 8, 9, 10 and 11 land at positions 4, 4, 5, 5 of channels 0, 1, 0, 1 |
| ChannelWorker.StoreMerges | web/dist/libs/datamanager/editor_src_lib_AudioUltra_Media_SplitChannelWorker_ts.js:81-83 | a store message merges its payload over the storage (payload wins), keeps other keys, and replies nothing |
| ChannelWorker.ComputeReplies | web/dist/libs/datamanager/editor_src_lib_AudioUltra_Media_SplitChannelWorker_ts.js:84-91 | a compute message leaves storage alone and replies once with the split and the request's event id |
| ChannelWorker.PrecomputeStores | web/dist/libs/datamanager/editor_src_lib_AudioUltra_Media_SplitChannelWorker_ts.js:93-97 | a precompute message replies nothing and stores the split under `data` |
| ChannelWorker.RepliesAndWrites | web/dist/libs/datamanager/editor_src_lib_AudioUltra_Media_SplitChannelWorker_ts.js:104-125 | at most one reply, only for compute and getStorage, with the request's event id; only store and precompute change storage; getStorage replies with the storage |
| ChannelWorker.Messenger.RunSplit | web/dist/libs/datamanager/editor_src_lib_AudioUltra_Media_SplitChannelWorker_ts.js:189-200 | the callbacks' split of a readable payload, none when it cannot be made |
| ChannelWorker.Messenger.Receive | web/dist/libs/datamanager/editor_src_lib_AudioUltra_Media_SplitChannelWorker_ts.js:104-125 | the listener's new storage and posted replies are those of `Handle` |
| Minimap.SelectedRegionIndex | web/libs/editor/src/components/Timeline/Views/Frames/Minimap.tsx:15-19 | 0 with no selection or when its id is not found; else the index of the first region with that id |
| Minimap.WindowTop | web/libs/editor/src/components/Timeline/Views/Frames/Minimap.tsx:35-38 | the first row shown never passes the end of the list |
| Minimap.WindowBounds | web/libs/editor/src/components/Timeline/Views/Frames/Minimap.tsx:35-47 | the window has min(16, length) rows, lies inside the list, keeps each region's id and colour in order, and contains a valid selected index |
| Minimap.WindowPulledBack | web/libs/editor/src/components/Timeline/Views/Frames/Minimap.tsx:35-38 | when fewer than 16 rows run from one above the selection to the end, the window starts at max(length - 16, 0) |
| Minimap.WindowStartsAboveSelection | web/libs/editor/src/components/Timeline/Views/Frames/Minimap.tsx:35-38 | with enough regions after it, the window starts one row above the selection |
| Minimap.ConnectionWidths | web/libs/editor/src/components/Timeline/Views/Frames/Minimap.tsx:61-64 | full width iff last and enabled; every other connection keeps its width |
| Minimap.AtMostOneFull | web/libs/editor/src/components/Timeline/Views/Frames/Minimap.tsx:61-64 | no two connections are drawn full width |
| Minimap.FindSelected | web/libs/editor/src/components/Timeline/Views/Frames/Minimap.tsx:22 | the first selected region's index, or -1 when none is selected |
| Minimap.SyncedTracksFirstSelected | web/libs/editor/src/components/Timeline/Views/Frames/Minimap.tsx:21-32 | after syncing, the selection is none iff no region is selected, and otherwise has the first selected region's id (an equal-id selection is kept as it was) |
| Minimap.MinimapView.SyncSelection | web/libs/editor/src/components/Timeline/Views/Frames/Minimap.tsx:21-32 | sets the synced selection and recomputes the index only when the selection changed |
| Minimap.MinimapView.SetSelectedRegion | web/libs/editor/src/components/Timeline/Views/Frames/Minimap.tsx:14-19 | a new selection recomputes the index; an unchanged one keeps it |
| Minimap.MinimapView.RegionsChanged | web/libs/editor/src/components/Timeline/Views/Frames/Minimap.tsx:15-32 | as written: a new list syncs the selection, but the index is recomputed only when the selection changes |
| Minimap.MinimapView.RegionsChangedTracked | web/libs/editor/src/components/Timeline/Views/Frames/Minimap.tsx:15-32 | corrected: the index always follows the new list |
| Minimap.TrackedWindowShowsSelection | web/libs/editor/src/components/Timeline/Views/Frames/Minimap.tsx:34-48 | with the index recomputed, the selected region is always among the rows shown |
| Minimap.StaleIndexHidesSelection | web/libs/editor/src/components/Timeline/Views/Frames/Minimap.tsx:15-19 | as written, inserting 16 regions above an unchanged selection leaves the index stale and the selected region off the minimap |
| TimelineRegionEditor.VideoRegion.SetRanges | web/libs/editor/src/components/SidePanels/DetailsPanel/TimelineRegionEditor.tsx:10 | sets start and end and records one range update |
| TimelineRegionEditor.VideoRegion.ChangeStartTime | web/libs/editor/src/components/SidePanels/DetailsPanel/TimelineRegionEditor.tsx:8-11 | nothing when the value is the current start; else the range becomes [value, end] |
| TimelineRegionEditor.VideoRegion.ChangeEndTime | web/libs/editor/src/components/SidePanels/DetailsPanel/TimelineRegionEditor.tsx:13-16 | nothing when the value is the current end; else the range becomes [start, value] |
| TimelineRegionEditor.Clamp | web/libs/editor/src/components/SidePanels/DetailsPanel/TimelineRegionEditor.tsx:43-53 | the saved value is the value or a bound; within truthy bounds it is unchanged; never above a truthy max; not below a truthy min that does not exceed the max |
| TimelineRegionEditor.ZeroBoundsIgnored | web/libs/editor/src/components/SidePanels/DetailsPanel/TimelineRegionEditor.tsx:45-49 | bounds of 0 are not enforced |
| TimelineRegionEditor.Fields | web/libs/editor/src/components/SidePanels/DetailsPanel/TimelineRegionEditor.tsx:20-35 | start bounded by [1, end], end by [start, length], duration end - start + 1; read-only exactly the field without onChange |
| TimelineRegionEditor.Field.OnChange | web/libs/editor/src/components/SidePanels/DetailsPanel/TimelineRegionEditor.tsx:43-54 | writes the clamped value back to the input and saves it through the field's handler |
| TimelineRegionEditor.StartEdited | web/libs/editor/src/components/SidePanels/DetailsPanel/TimelineRegionEditor.tsx:8-22 | an edited start with a set end stays in [1, end], so the duration stays positive |
| TimelineRegionEditor.EndEdited | web/libs/editor/src/components/SidePanels/DetailsPanel/TimelineRegionEditor.tsx:13-22 | an edited end with a start in [1, length] stays in [start, length] |
| SelectionTool.IdleSteps | web/libs/editor/src/tools/Selection.js:53-84 | when idle, moves and releases do nothing, a press starts a drag at its point, and a click acts only under the flag |
| SelectionTool.SelectingIffDragging | web/libs/editor/src/tools/Selection.js:43-84 | starting idle, `isSelecting` holds exactly while some press is not yet followed by a release or a flagged click |
| SelectionTool.PressAndMoves | web/libs/editor/src/tools/Selection.js:53-61 | a press then moves sets the start, then the end at every move |
| SelectionTool.Drag | web/libs/editor/src/tools/Selection.js:53-75 | a whole drag sets start and ends, resets, selects the area (extending it with ctrl or meta) and ends idle |
| SelectionTool.Tool.constructor | web/libs/editor/src/tools/Selection.js:28-31 | shortcut "V", group "control", not selecting |
| SelectionTool.Tool.ShouldSkipInteractions | web/libs/editor/src/tools/Selection.js:49-51 | always false |
| SelectionTool.Tool.MousedownEv | web/libs/editor/src/tools/Selection.js:53-56 | starts selecting and records the selection start |
| SelectionTool.Tool.MousemoveEv | web/libs/editor/src/tools/Selection.js:58-61 | sets the selection end only while selecting |
| SelectionTool.Tool.MouseupEv | web/libs/editor/src/tools/Selection.js:63-75 | while selecting, sets the end, resets, extends or replaces the selection, and stops selecting; else nothing |
| SelectionTool.Tool.ClickEv | web/libs/editor/src/tools/Selection.js:76-84 | under the flag, stops selecting, resets, and unselects only without ctrl or meta; else nothing |
| SelectionTool.Tool.HandleAll | web/libs/editor/src/tools/Selection.js:43-84 | a sequence of events leaves the state and effects of `Run` |
| RegionEditor.EditorFor | web/libs/editor/src/components/SidePanels/DetailsPanel/RegionEditor.tsx:54-57 | the timeline editor iff the type is "timelineregion"; the audio editor iff the flag is on and the type is "audioregion" |
| RegionEditor.NumberInputIffNumberType | web/libs/editor/src/components/SidePanels/DetailsPanel/RegionEditor.tsx:27-48 | input type "number" iff the property is a plain or optional number; "text" otherwise |
| RegionEditor.ReplaceFirstComma | web/libs/editor/src/components/SidePanels/DetailsPanel/RegionEditor.tsx:238-241 | same length; unchanged when there is no comma |
| RegionEditor.Sanitised | web/libs/editor/src/components/SidePanels/DetailsPanel/RegionEditor.tsx:228-251 | non-number text passes unchanged; number text is passed on iff it is all digits, commas and dots and does not end in a separator; trailing separators get their first comma made a dot |
| RegionEditor.TrailingCommaBecomesDot | web/libs/editor/src/components/SidePanels/DetailsPanel/RegionEditor.tsx:238-241 | "12," shows as "12." and is not passed on |
| RegionEditor.StepHundredths | web/libs/editor/src/components/SidePanels/DetailsPanel/RegionEditor.tsx:255-260 | 0.01 iff alt+shift, 10 iff shift alone, 0.1 iff alt alone, 1 otherwise |
| RegionEditor.RegionInput.UpdateValue | web/libs/editor/src/components/SidePanels/DetailsPanel/RegionEditor.tsx:218-226 | shows the value and passes it on only when safe |
| RegionEditor.RegionInput.OnChange | web/libs/editor/src/components/SidePanels/DetailsPanel/RegionEditor.tsx:228-251 | shows and passes on exactly what `Sanitised` decides |
| RegionEditor.RegionInput.OnKeyDown | web/libs/editor/src/components/SidePanels/DetailsPanel/RegionEditor.tsx:253-273 | for number inputs and the up/down arrows, steps the value by the chosen step and passes it on; otherwise nothing |
| RegionEditor.RegionInput.ValueChanged | web/libs/editor/src/components/SidePanels/DetailsPanel/RegionEditor.tsx:275-277 | a new value from the property is shown and passed on |
| RegionEditor.PropertyRegion.OnPropertyChange | web/libs/editor/src/components/SidePanels/DetailsPanel/RegionEditor.tsx:155-166 | an equal value changes nothing; a different one is set, or a rejected set is logged and swallowed |
| RegionEditor.LabelShown | web/libs/editor/src/components/SidePanels/DetailsPanel/RegionEditor.tsx:292-308 | text without "icon:" shows as itself; any text shown is the label |
| RegionEditor.IconLabel | web/libs/editor/src/components/SidePanels/DetailsPanel/RegionEditor.tsx:292-306 | "icon:<name>" shows the angle icon iff the name is "angle", else the label text |
| HeidiTips.Key | web/apps/labelstudio/src/components/HeidiTips/utils.ts:11-13 | the store key, a colon, then the collection, which can be read back |
| HeidiTips.TipCollectionEvent | web/apps/labelstudio/src/components/HeidiTips/utils.ts:15-17 | namespace, collection and event joined by dots |
| HeidiTips.TipEvent | web/apps/labelstudio/src/components/HeidiTips/utils.ts:19-31 | namespace, collection, the truthy experiment and treatment in that order, and the event, joined by dots |
| HeidiTips.TipMetadata | web/apps/labelstudio/src/components/HeidiTips/utils.ts:33-43 | params without experiment and treatment, plus content (description, else content, else ""), title, href and label, which override params |
| HeidiTips.FromEntriesLastWins | web/apps/labelstudio/src/components/HeidiTips/utils.ts:131 | a name is present iff some entry has it, and maps to its last entry's value |
| HeidiTips.DismissedIffLastItemTrue | web/apps/labelstudio/src/components/HeidiTips/utils.ts:130-135 | dismissed iff the last cookie item with the collection's key has the value "true" |
| HeidiTips.StoreCookieWellFormed | web/apps/labelstudio/src/components/HeidiTips/utils.ts:123 | setting a plain cookie keeps the store well formed, with one pair of that name |
| HeidiTips.StoredCookieReadsBack | web/apps/labelstudio/src/components/HeidiTips/utils.ts:118-135 | the cookie just set is read back with its value |
| HeidiTips.Document.AssignCookie | web/apps/labelstudio/src/components/HeidiTips/utils.ts:123 | the assigned pair replaces the stored cookie of that name, or is added last |
| HeidiTips.Document.DismissTip | web/apps/labelstudio/src/components/HeidiTips/utils.ts:111-128 | sets `<key>=true`, after which the collection reads as dismissed, and logs the dismiss event with an expiry 30 days on |
| HeidiTips.DismissalPair | web/apps/labelstudio/src/components/HeidiTips/utils.ts:118-122 | the dismissal cookie string assigns exactly `<key>=true` |
| HeidiTips.RandomTip | web/apps/labelstudio/src/components/HeidiTips/utils.ts:95-105 | null when the collection is missing or dismissed; otherwise the tip at the chosen position |
| Analytics.Payload | web/libs/core/src/lib/utils/analytics.ts:13-17 | the metadata plus `event` and `url`, which override metadata of the same name |
| Analytics.MinimalPayload | web/libs/core/src/lib/utils/analytics.test.ts:109-123 | without metadata the payload is exactly event and url |
| Analytics.Dispatch | web/libs/core/src/lib/utils/analytics.ts:20-35 | one request to `/__lsa/` unless the browser call throws; by beacon iff the browser has it |
| Analytics.Window.RegisterAnalytics | web/libs/core/src/lib/utils/analytics.ts:38-40 | installs the hook and changes nothing else |
| Analytics.Window.LogEvent | web/libs/core/src/lib/utils/analytics.ts:9-19 | nothing when analytics are disabled; else queues the payload for the idle callback |
| Analytics.Window.IdleCallback | web/libs/core/src/lib/utils/analytics.ts:20-35 | takes the oldest payload and sends what `Dispatch` sends; nothing escapes |
| Analytics.OneRequestPerEvent | web/libs/core/src/lib/utils/analytics.ts:9-36 | an enabled event leads to exactly one request carrying its event and url, unless the browser call throws |
| EditorEnv.GetData | web/dist/libs/datamanager/editor_src_env_production_js.js:18-25 | a task with truthy data is copied with only `data` replaced by its serialisation; anything else is returned as is |
| EditorEnv.GetState | web/dist/libs/datamanager/editor_src_env_production_js.js:26-32 | exactly annotations, completions and predictions of the task, all undefined for a null or undefined task |
| EditorEnv.ConfigureApplication | web/dist/libs/datamanager/editor_src_env_production_js.js:52-92 | settings default to {}; messages merge over the defaults; annotation handlers consult the legacy name only when the current one is set; other handlers fall back to the built-in ones; flags default to false only when null or undefined |
| EditorEnv.Handlers | web/dist/libs/datamanager/editor_src_env_production_js.js:76-86 | exactly the eleven fallback handler names, each the host's handler when truthy, else the built-in one |
| EditorEnv.LegacySubmitName | web/dist/libs/datamanager/editor_src_env_production_js.js:55-69 | a legacy-only `submitAnnotation` is ignored; given both, the legacy one wins |
| EditorEnv.FlagsKeepFalsyValues | web/dist/libs/datamanager/editor_src_env_production_js.js:88 | a falsy but defined flag (0) is kept, not replaced by false |
| EditorEnv.MessagesOverride | web/dist/libs/datamanager/editor_src_env_production_js.js:67 | a host message overrides the default, other defaults stay, and no other key appears |
| EditorEnv.EmptyParams | web/dist/libs/datamanager/editor_src_env_production_js.js:66-89 | empty parameters give {} settings, the default messages, the built-in handlers and both flags false |
| FeatureFlags.GetUserRepr | label_studio/core/feature_flags/utils.py:1-11 | anonymous: key str(user) and no organization, no email; otherwise exactly email, key equal to email, and the active organization creator's email or None |
| TableOfContents.WithDefaults | docs/scripts/tableOfContent.js:6-9 | min_depth 1 and max_depth 6 unless the caller gives them; the caller's options win |
| TableOfContents.TableOfContent | docs/scripts/tableOfContent.js:4-23 | the empty string for no headings; otherwise the list items in order, wrapped in one `<ol class="toc-list">` |
| TableOfContents.ItemsInOrder | docs/scripts/tableOfContent.js:18-20 | each heading's item sits between those of the headings before and after it |
| TableOfContents.LevelReadsBack | docs/scripts/tableOfContent.js:19 | an item's `toc-list-level-<n>` class gives back its heading's level |
| TableOfContents.RenderShape | docs/scripts/tableOfContent.js:22 | a non-empty result opens with `<ol class="toc-list">` and closes with `</ol>` |

## Left out

- The userscript's DOM, CSS, toast, page-blocking and script-manager calls, and its keydown
  dispatcher and URL poller (`labelstudiohelper.js:318-415`). They only drive the page. The toasts
  are kept as `Show` effects.
- The row-count setters `setTimelineEntries` and `setMinimapEntries`. They only set styles.
- `selectRegions`' timers and `await`. The loop is sequential, and the Escape handler's cancel flag
  is an input (`escape[i]`: whether Escape was pressed while step i was pending).
- `getNextRegion`'s default argument calls a misspelt `getSlectedRegion`. The model always passes
  the current region, as every caller in the script does.
- The worker's `sendMessage`, `compute`, `getStorage` and `destroy` promise plumbing, and the bundler
  runtime. Cross-thread messaging is not modelled; messages arrive one at a time.
- `channelCount` is a natural number. Non-numeric counts, and the `Float32Array` rounding of
  samples, are not modelled. Samples are of any type.
- Minimap: the step effect and pixel positions (floating point), and `visualizeLifespans`, which
  is not part of this model. A row keeps its region's keyframes instead of the lifespans.
- RegionEditor:
  - the MobX type introspection that picks the property widget. Property types are an abstract datatype;
  - `AudioRegionProperties` and the time-duration control;
  - `parseFloat` and the arrow-key float arithmetic. A parsed number is kept as its source text, and
    a stepped value as (previous value, hundredths).
- RegionEditor.LabelShown: only the icon name `angle` is looked up. Object-prototype keys such as
  `icon:toString` are not modelled.
- TimelineRegionEditor.Field.OnChange: the input's value is an integer. Decimal and non-numeric
  typing are not modelled.
- HeidiTips:
  - `loadLiveTipsCollection`, `createURL`, and the randomness of `getRandomTip`. The tips and the
    chosen position are inputs;
  - the date arithmetic and UTC text of the expiry. The current time and expiry text are inputs.
- HeidiTips.Document: the browser cookie store keeps name and value pairs only. Expiry and path are
  dropped. `DismissTip` requires a store whose names and values contain no `;`, `=` or padding, so
  reading it back is exact.
- Analytics: `requestIdleCallback` is a queue of pending payloads. The query-string and JSON encoding
  of a request are not modelled, and a request carries its payload.
- EditorEnv: `rootElement` (DOM), and `JSON.stringify`, which is an opaque function parameter.
  `params` is an object. A null `params`, which would throw, and string-valued `messages`, whose
  characters `Object.assign` would copy, are not modelled.
- FeatureFlags: the user and organization are records of the attributes the function reads.
- TableOfContents: `tocObj` (the site generator's heading extraction) is a function parameter.
- HelperActions.SelectRegionRun and BulkSpec: a region is a record of its fields as they were when
  the call began. What the host's `onClickRegion` does to `selected` and `inSelection` is not
  modelled, so the flags are read as they were at the call. The page reads `region.selected` live
  (`labelstudiohelper.js:123`), after the run's ctrl-clicks (`:268`) may have changed it.
- BulkSpecCancelled: the cancelled run's `selectRegion` decides whether to click the earlier region
  from its `selected` flag at the call. It does not promise the region ends selected, and it does
  not follow a flag changed by the run's own ctrl-clicks.

## Findings

| source | as written | input that shows it | evidently intended | confidence | as-written member | corrected member |
|---|---|---|---|---|---|---|
| web/libs/editor/src/components/Timeline/Views/Frames/Minimap.tsx:15-19 | `selectedRegionIndex` is memoised on `[selectedRegion]` only, so a new region list with the same selected region keeps the old index | the selected region first in a list; 16 regions are then inserted above it. The index stays 0 and the 16 rows shown are the inserted ones | the index follows the current list, so the selected region is always shown | medium, not executed | Minimap.StaleIndexHidesSelection | Minimap.TrackedWindowShowsSelection |
