# Timeline edit algebra of a desktop video editor

This project models the editing core of a small desktop video editor. A project is an ordered
list of clips. Each clip selects a `[start, end)` window of a source file, measured in seconds,
and the core consists of the operations that change that list and the code that turns it into a
render request. The model has six modules:

- `Clips`: the clip record, the 0.1 s guard band, and id lookup (`findIndex`).
- `Edits`: the clip-list edits of the store as functions on `seq<Clip>`, with lemmas:
  - append;
  - filter by id;
  - splice-based move;
  - bounds update;
  - split.
- `ProjectStore`: the store as a class. It holds `clips`, `activeClipId`, `currentTime`,
  `isPlaying` and `notification`. Every mutator states its whole new state through the `Edits`
  functions and keeps ids unique.
- `Timeline`: the start and end trim clamps, the trim gesture that feeds them to `updateClip`
  (class `TimelineView`), and the drop guard in front of `reorderClips`.
- `FilePanel`: the import loop. It makes one clip per selected path, in order. The name comes
  from the last `/` segment, the duration falls back to 10 s, and preview images are kept only
  when their probe returned a non-empty string.
- `Render`: `exportVideo`. It produces one input per clip, a video `trim` and an audio `atrim`
  entry per clip, and a final `concat` whose two outputs are mapped to the destination file.

Times are `real`, so the 0.1 s guard band is exact. A generated uuid is a caller-supplied id
that is not on the timeline. The file dialog and the metadata, thumbnail and waveform probes
are parameters that carry their possible outcomes (exception, null, value). The text a trim
bound becomes inside a filter entry comes from JavaScript's number-to-string conversion in the
template literal, before the transcoder sees the string; the model keeps that conversion as an
arbitrary function `num: real -> string`.

The model follows the code, including in these places where one might expect otherwise:
- `updateClip` does not clamp. Only the Timeline drag handler clamps.
- An import adds one clip per selected path, whatever the probes returned.
- A probed duration is used whenever it is non-zero. A negative probed duration is kept; only
  `0` and a missing value fall back to 10 s.
- `setActiveClip` accepts any id, including one that is not on the timeline.
- `removeClip` leaves `currentTime` as it was.

`Timeline.EndTrimOvershootsShortSource` shows a consequence of the end clamp. For a clip whose
start lies within 0.1 s of the end of its source (only possible for sources shorter than 0.1 s),
every end trim sets `end` past `sourceDuration`. The end clamp's lower bound wins over its upper
bound.

## Model

| member | source | states |
|---|---|---|
| Clips.IndexOf | src/stores/useProjectStore.ts:83 | `findIndex`: -1 exactly when the id is absent; otherwise the first position holding that id |
| Clips.IndexOfUnique | src/stores/useProjectStore.ts:83 | with unique ids, looking up the id at position k gives k |
| Edits.NewClip | src/stores/useProjectStore.ts:44-53 | the added clip: descriptor fields, the fresh id, start 0, end and sourceDuration equal to the probed duration |
| Edits.NewClipWithinBounds | src/stores/useProjectStore.ts:44-53 | a new clip satisfies the trim bounds exactly when its duration is at least the guard band |
| Edits.AddKeepsUniqueIds | src/stores/useProjectStore.ts:44-53 | appending a clip with a fresh id keeps ids unique |
| ProjectStore.Store.constructor | src/stores/useProjectStore.ts:38-43 | initial state: no clips, nothing selected, time 0, not playing, no notification |
| ProjectStore.Store.AddClip | src/stores/useProjectStore.ts:44-53 | exactly one clip appended at the end; every other field unchanged |
| Edits.Without | src/stores/useProjectStore.ts:56 | the filter never grows the list and leaves no clip with the removed id |
| Edits.WithoutMembers | src/stores/useProjectStore.ts:56 | a clip survives removal exactly when it was present and has a different id |
| Edits.WithoutConcat | src/stores/useProjectStore.ts:56 | the filter distributes over concatenation, so survivors keep their order |
| Edits.WithoutAbsent | src/stores/useProjectStore.ts:56 | removing an absent id leaves the list unchanged |
| Edits.RemoveExactlyOne | src/stores/useProjectStore.ts:56 | with unique ids, removing the id at position k drops that one clip and keeps the rest in order |
| Edits.WithoutKeepsUniqueIds | src/stores/useProjectStore.ts:56 | removal keeps ids unique |
| Edits.RemoveUndoesAdd | src/stores/useProjectStore.ts:44-58 | removing a just-added clip restores the earlier list |
| ProjectStore.Store.RemoveClip | src/stores/useProjectStore.ts:54-58 | clips become the filtered list; the selection is cleared exactly when it was the removed id; time, playing and notification unchanged |
| ProjectStore.Store.SetActiveClip | src/stores/useProjectStore.ts:59 | selects the given id (or nothing), always rewinds to 0 and stops playback |
| ProjectStore.Store.SetCurrentTime | src/stores/useProjectStore.ts:60 | sets the time, nothing else changes |
| ProjectStore.Store.SetIsPlaying | src/stores/useProjectStore.ts:61 | sets the playing flag, nothing else changes |
| ProjectStore.Store.SetNotification | src/stores/useProjectStore.ts:62 | sets the notification, nothing else changes |
| Edits.RemoveAt | src/stores/useProjectStore.ts:65 | `splice(i, 1)`: one shorter; the elements before i keep their places, the later ones shift down by one |
| Edits.InsertAt | src/stores/useProjectStore.ts:66 | `splice(j, 0, x)`: one longer, with x at j; the elements before j keep their places, the later ones shift up by one |
| Edits.Moved | src/stores/useProjectStore.ts:63-68 | reference move: position k shows the original element at MoveSource(k) |
| Edits.SpliceIsMove | src/stores/useProjectStore.ts:64-66 | removing at i and re-inserting at j is the move from i to j |
| Edits.MovedIsPermutation | src/stores/useProjectStore.ts:63-68 | a move is a permutation (same multiset) |
| Edits.MovedKeepsOthersInOrder | src/stores/useProjectStore.ts:63-68 | taking the moved clip out again leaves the other clips in their original relative order |
| Edits.MovedToSelf | src/stores/useProjectStore.ts:63-68 | a move from i to i changes nothing |
| Edits.MoveBack | src/stores/useProjectStore.ts:63-68 | moving back from j to i undoes a move from i to j |
| Edits.MoveSourceInjective | src/stores/useProjectStore.ts:63-68 | no two positions of a move show the same original position |
| Edits.MovedIds | src/stores/useProjectStore.ts:63-68 | ids move with their clips; the multiset of ids is unchanged |
| Edits.MovedKeepsUniqueIds | src/stores/useProjectStore.ts:63-68 | a move keeps ids unique |
| Edits.RemoveAtInsertAt | src/stores/useProjectStore.ts:65-66 | inserting at j then removing at j gives the list back |
| Edits.InsertAtRemoveAt | src/stores/useProjectStore.ts:65-66 | removing at i then re-inserting the same element at i gives the list back |
| ProjectStore.Store.ReorderClips | src/stores/useProjectStore.ts:63-68 | for in-range indices, clips become the move from startIndex to endIndex; everything else unchanged |
| Edits.ApplyBounds | src/stores/useProjectStore.ts:72-76 | the supplied bounds replace the old ones; duration is end - start when a bound was supplied; no other field changes |
| Edits.Updated | src/stores/useProjectStore.ts:69-81 | same length and ids; clips with another id unchanged; clips with this id get the bounds; an absent id is a no-op |
| Edits.UpdateIdempotent | src/stores/useProjectStore.ts:69-81 | sending the same update twice equals sending it once |
| Edits.UpdateKeepsUniqueIds | src/stores/useProjectStore.ts:69-81 | an update keeps ids unique |
| ProjectStore.Store.UpdateClip | src/stores/useProjectStore.ts:69-81 | clips become the updated list; everything else unchanged |
| Edits.SplitRejected | src/stores/useProjectStore.ts:97 | the split is refused when the split point `start + time` is within 0.1 of the clip's start or end, inclusive |
| Edits.FirstPart | src/stores/useProjectStore.ts:102-106 | the first part keeps the id and start, ends at the split point, and its duration is its new length |
| Edits.SecondPart | src/stores/useProjectStore.ts:108-115 | the second part has the fresh id, starts at the split point, keeps the end, and its duration is its new length |
| Edits.SplitClips | src/stores/useProjectStore.ts:82-121 | `splitClip`: the list unchanged when the id is absent or the split is refused; otherwise the clip at the found position replaced by its two parts (properties in `Edits.SplitOutcome`) |
| Edits.SplitOutcome | src/stores/useProjectStore.ts:82-121 | unchanged when the id is absent or the point is within 0.1 of an edge; otherwise one longer, earlier clips unchanged, the two parts at k and k+1, later clips shifted by one |
| Edits.SplitPartsCover | src/stores/useProjectStore.ts:97-115 | the parts are contiguous, cover the original window, are each longer than 0.1, have consistent durations summing to the original, and copy the other fields |
| Edits.SplitKeepsUniqueIds | src/stores/useProjectStore.ts:108-118 | with a fresh id for the second part, a split keeps ids unique |
| Edits.SplitKeepsBounds | src/stores/useProjectStore.ts:97-118 | a split keeps every clip within its trim bounds |
| Edits.TotalDurationConcat | src/stores/useProjectStore.ts:117-118 | the summed duration of a concatenation is the sum of the parts' summed durations |
| Edits.TotalDurationReplace | src/stores/useProjectStore.ts:117-118 | replacing a clip by two whose durations add up to its own keeps the summed duration |
| Edits.SplitKeepsTotalDuration | src/stores/useProjectStore.ts:102-118 | a split does not change the summed clip durations |
| ProjectStore.Store.SplitClip | src/stores/useProjectStore.ts:82-122 | clips become the split list; everything else unchanged |
| Timeline.ClampStart | src/components/Timeline/Timeline.tsx:40 | new start is at least 0, at most end - 0.1 when end is at least 0.1, and the request itself when in range |
| Timeline.ClampEnd | src/components/Timeline/Timeline.tsx:43 | new end is at least start + 0.1, at most sourceDuration when that fits, and the request itself when in range |
| Timeline.ClampIdempotent | src/components/Timeline/Timeline.tsx:40-43 | clamping a clamped value changes nothing |
| Timeline.ClampMonotonic | src/components/Timeline/Timeline.tsx:40-43 | a larger request never gives a smaller bound |
| Timeline.TrimUpdate | src/components/Timeline/Timeline.tsx:39-45 | a start trim sends only a start, at least 0; an end trim sends only an end, at least start + 0.1 |
| Timeline.Trimmed | src/components/Timeline/Timeline.tsx:33-46 | one mouse move on the timeline: the same number of clips with the same ids in the same order (what changes is in `Timeline.TrimmedTouchesOnlyId` and `Timeline.TrimChangesOneBound`) |
| Timeline.RequestedTime | src/components/Timeline/Timeline.tsx:34-35 | the initial value plus the horizontal distance divided by the zoom: no movement gives the initial value, moving right gives more and moving left less |
| Timeline.TrimChangesOneBound | src/components/Timeline/Timeline.tsx:39-45 | a start trim changes only start and duration; an end trim only end and duration |
| Timeline.TrimKeepsBounds | src/components/Timeline/Timeline.tsx:39-45 | a trim keeps a clip within its bounds when it was within them before |
| Timeline.TrimmedTouchesOnlyId | src/components/Timeline/Timeline.tsx:36-37 | a trim of an absent id does nothing; clips with other ids never change |
| Timeline.TrimmedKeepsBounds | src/components/Timeline/Timeline.tsx:33-46 | with unique ids, a trim keeps every clip on the timeline within bounds |
| Timeline.EndTrimOvershootsShortSource | src/components/Timeline/Timeline.tsx:43 | when start + 0.1 exceeds sourceDuration, an end trim sets end past sourceDuration |
| Timeline.TimelineView.constructor | src/components/Timeline/Timeline.tsx:7-11 | zoom 10 pixels per second, no drag, no trim |
| Timeline.TimelineView.SetPixelsPerSecond | src/components/Timeline/Timeline.tsx:65-70 | sets the zoom from the 1..100 slider |
| Timeline.TimelineView.HandleDragStart | src/components/Timeline/Timeline.tsx:13-16 | records the dragged index unless a trim is in progress |
| Timeline.TimelineView.HandleDrop | src/components/Timeline/Timeline.tsx:22-27 | moves the dragged clip only when a drag is in progress and the target differs (both indices must then be in range); always clears the drag |
| Timeline.TimelineView.StartTrim | src/components/Timeline/Timeline.tsx:29-56 | records the gesture and installs the move listener with the zoom it captures |
| Timeline.TimelineView.MouseMove | src/components/Timeline/Timeline.tsx:33-46 | clips become the trimmed list for the requested time; bounds are preserved |
| Timeline.TimelineView.MouseUp | src/components/Timeline/Timeline.tsx:48-52 | ends the trim and removes the listener |
| FilePanel.LastSlash | src/components/FilePanel/FilePanel.tsx:20 | the position of the last '/' before n, or -1 when there is none |
| FilePanel.LastSegment | src/components/FilePanel/FilePanel.tsx:20 | a slash-free suffix of the path that starts the path or follows a '/' |
| FilePanel.LastSegmentUnique | src/components/FilePanel/FilePanel.tsx:20 | any slash-free suffix that starts the path or follows a '/' is the last segment |
| FilePanel.ClipName | src/components/FilePanel/FilePanel.tsx:20 | non-empty and slash-free; "Unknown" for an empty path or one ending in '/'; otherwise the last segment |
| FilePanel.ProbedDuration | src/components/FilePanel/FilePanel.tsx:21-32 | the probed duration when the probe returned a non-zero one, 10 otherwise, so never 0 |
| FilePanel.Kept | src/components/FilePanel/FilePanel.tsx:34-51 | an artifact is kept exactly when its probe returned a non-empty string, and then it is that string |
| FilePanel.Describe | src/components/FilePanel/FilePanel.tsx:20-60 | the descriptor for one path: the path itself, source duration equal to the non-zero duration (details in `FilePanel.DescribeMeaning`) |
| FilePanel.DescribeMeaning | src/components/FilePanel/FilePanel.tsx:20-59 | the descriptor's duration is the probed value if non-zero and 10 otherwise; an artifact is present exactly when its probe returned a non-empty string |
| FilePanel.DescribeFile | src/components/FilePanel/FilePanel.tsx:19-51 | the loop body's reassignments of name, duration, thumbnail and waveform yield the specified descriptor |
| FilePanel.Imported | src/components/FilePanel/FilePanel.tsx:18-61 | one clip per path, clip j built from path j, its probes and id j |
| FilePanel.ImportFiles | src/components/FilePanel/FilePanel.tsx:18-61 | the loop appends exactly the imported clips, in path order; other state unchanged |
| FilePanel.HandleImport | src/components/FilePanel/FilePanel.tsx:6-67 | no API: alert, nothing added; dialog failure: error alert, nothing added; no selection: nothing added; otherwise one clip per path |
| Render.NatText | electron/ffmpeg/processor.ts:136 | an index prints as decimal digits without leading zeros |
| Render.DecimalRoundTrip | electron/ffmpeg/processor.ts:136 | reading the printed index back gives the index |
| Render.NatTextInjective | electron/ffmpeg/processor.ts:136 | different indices print differently |
| Render.PadLabelsDistinct | electron/ffmpeg/processor.ts:136-141 | the labels `[vi]` and `[ai]` are distinct across streams and indices |
| Render.TrimFilter | electron/ffmpeg/processor.ts:136-139 | `[i:v]trim=start=…:end=…,setpts=PTS-STARTPTS[vi]` and the audio `atrim`/`asetpts` counterpart, with the bounds converted by `num` (shape over all clips in `Render.FilterGraphShape`) |
| Render.TrimEntriesShape | electron/ffmpeg/processor.ts:134-142 | clip i's video trim is entry 2i and its audio trim is entry 2i+1 |
| Render.ConcatInputs | electron/ffmpeg/processor.ts:141 | the joined concat inputs of n clips end with clip n-1's `[v(n-1)][a(n-1)]` |
| Render.ConcatFilter | electron/ffmpeg/processor.ts:145 | the concat entry starts with the joined inputs of every clip and ends with `:v=1:a=1[outv][outa]` |
| Render.FilterGraph | electron/ffmpeg/processor.ts:131-145 | the filter graph is non-empty and its last entry is the concat of all clips |
| Render.FilterGraphShape | electron/ffmpeg/processor.ts:131-145 | 2n+1 entries: for each clip in order, the video trim then the audio trim of its [start, end) window, then the concat last |
| Render.ExportVideo | electron/ffmpeg/processor.ts:121-150 | input i is clip i's path; the filter graph is the specified one; outputs map `[outv]` and `[outa]` to the single output path |

## Left out

- Playback synchronisation with the video element, and time formatting, are not part of this model.
- Thumbnail and waveform generation, the transcoder binary lookup, progress events and the
  promise lifecycle around a render are not part of this model. Their results enter only as probe
  parameters.
- The inter-process handlers, dialogs, window setup, type declarations, toolbar, toast and app
  layout are not part of this model. The dialog's result is a parameter of `HandleImport`.
- uuid generation: each new id is a caller-supplied id that is not on the timeline. Its randomness is not modelled.
- Floating-point arithmetic, NaN and infinities: times are exact reals, so rounding in
  `start + time` or `end - start` is not captured.
- JavaScript's number-to-string conversion of `start` and `end` in the filter template literals:
  `num` is an arbitrary function.
- Console logging, and the text of the alerts.
- ProjectStore.Store.ReorderClips: requires both indices in range. Its only caller, the
  timeline's drop handler, does not ensure this (see the next line). The source behaves
  differently in each out-of-range case, and the model captures none of them:
  - a `startIndex` at or past the end removes nothing, so `undefined` is inserted at `endIndex`;
  - an in-range `startIndex` with an `endIndex` at or past the end moves the clip to the end,
    because `splice` clamps the insertion point to the length;
  - a negative index counts from the end of the list.
- Timeline.TimelineView.HandleDrop: requires the dragged index and the target to be in range
  whenever a move happens, and so excludes a stale dragged index. Only a drag start and a drop
  reset `draggedIndex` (src/components/Timeline/Timeline.tsx:13-27); there is no drag-end
  handler. A drag that is cancelled, or dropped outside any clip, leaves the index set. After a
  removal shortens the list, a later drop on a clip, such as a file dragged in from the desktop,
  passes that out-of-range index to `reorderClips`. `splice` then removes nothing and inserts
  `undefined` into the clip list. The model does not capture this path.
- ProjectStore.Store.UpdateClip: the update carries only `start` and `end`. The source accepts
  any partial clip (even a new id), and only bound updates are ever sent.
- Timeline.TimelineView.StartTrim: a second press replaces the one listener the model keeps. The
  source would register a second window listener beside the first.
- Timeline.TimelineView.MouseMove: the listener reads the store synchronously. React's batching
  and re-rendering are not modelled.
- Timeline.TimelineView.SetPixelsPerSecond: the slider value is taken to be in 1..100; `parseInt` on other text is not modelled.
- FilePanel.HandleImport: the per-file probes and fresh ids are given up front. The
  interleaving of awaits with other events is not modelled.
