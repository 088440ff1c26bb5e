# gencut timeline core, in Dafny

gencut is a browser video editor with one timeline track and a chat
assistant that edits the timeline through function calls. This project
models the parts of its front end that decide what the timeline holds and
what is played or exported:

- **Timeline edits** (`src/app/page.js`). Dropping media adds a clip and
  re-sorts the track. A drop while a clip drag is recorded moves that
  clip. The page never starts that branch on purpose: `handleClipDragStart`
  is attached to no element and clips are not `draggable`, so the branch
  runs only when some other drop (a file from the desktop, say) follows a
  clip mouse-down whose drag was never cleared. Dragging a clip is meant to
  clamp its start into the project, but as written the window listeners
  act on the drag recorded before the mouse went down (see "## Findings").
  A cut splits a clip in two around a hidden copy of its media. There are
  also move and delete, and the media swap that follows a video transform.
- **Playback** (`src/app/page.js`). The first clip that covers a time is
  found. The video element (its `src`, position and paused flag) is
  brought in line with that clip. The animation tick advances the
  playhead.
- **The selection range** (`src/app/page.js`). Dragging moves the start
  and end cursors or the playhead. The effect that lists the clips
  overlapping the range is modelled too.
- **The assistant loop** (`handleSendMessage`, `src/app/page.js`). The
  server's answers are a given sequence. The page logs each function
  call, performs it on the timeline and sends a `continue_task` request,
  until an answer that is not a call ends the exchange.
- **The video player** (`src/components/VideoPlayer.jsx`). Export plans
  the segments (clips, with black gaps between them) and builds the
  concatenation list; it is proved against a specification function.
  Cut and Delete act on the selected clip, and a button toggles play.

Times are `real`: the editor only adds, subtracts and compares them.
Identifiers, object URLs and the transformed media's id come from the
clock, the browser or the encoder, and are parameters. Each handler reads
the clips and media of the render it belongs to, but writes through a
state updater that sees the latest state. The model keeps those two apart
(`view` and `tracks`), because the assistant loop runs many edits against
one render.

Modules:
- `Js`: JavaScript built-ins with their language semantics (`slice`,
  `Math.ceil`, `includes`, `trim`, decimal rendering).
- `Timeline`: data and track edits.
- `Playback`.
- `Selection`.
- `Export`.
- `Assistant`.
- `Controls`: the player's buttons.

## Model

| member | source | states |
|---|---|---|
| Js.Ceil | src/app/page.js:349 | `Math.ceil(x)` is the least integer not below `x` |
| Js.Abs | src/app/page.js:236 | `Math.abs` is non-negative and is `x` or `-x` |
| Js.RelIndex | src/app/page.js:347-352 | an index argument of `slice` counts back from the end when negative and is clamped to `[0, len]` |
| Js.Slice | src/app/page.js:347-352 | `s.slice(b, e)` is the piece between the two normalised indexes, empty when they cross |
| Js.SliceFrom | src/app/page.js:362-364 | `s.slice(b)` is the suffix from the normalised index |
| Js.SliceSplit | src/app/page.js:347-364 | for every split index, even negative or beyond the end, `slice(0, k)` followed by `slice(k)` gives back the array |
| Js.IncludesFacts | src/app/page.js:231 | a URL includes itself; the empty `src` includes only the empty string |
| Js.TrimStart | src/app/page.js:428-430 | drops exactly the leading white space |
| Js.TrimEnd | src/app/page.js:428-430 | drops exactly the trailing white space |
| Js.Trim | src/app/page.js:428-430 | `trim()` is the piece of the input with only white space before and after it in the input and none at either of its own ends, so exactly the leading and trailing white space is removed; it is empty exactly when the input is all white space |
| Js.TrimPadded | src/app/page.js:428-430 | the piece kept by the two-step definition starts where the leading white space ends and is followed by white space only |
| Js.TrimFacts | src/app/page.js:428-430 | the same three facts, for the two-step definition |
| Js.IncludesPiece | src/app/page.js:231 | a piece taken at any offset is included |
| Js.DecimalString | src/components/VideoPlayer.jsx:107-109 | a non-negative integer renders as a non-empty string of decimal digits that denotes that integer, with no leading zero |
| Timeline.FindClip | src/app/page.js:334 | the index of the first clip whose key matches, or the length when none does |
| Timeline.FindMedia | src/app/page.js:96 | the index of the first media with the id, or the length when none has it |
| Timeline.CountMatching | src/app/page.js:378 | the number of matching clips is zero exactly when no clip matches |
| Timeline.InsertPosition | src/app/page.js:110 | a stable insertion puts the clip after the clips that start no later and before the first that starts later |
| Timeline.InsertAt | src/app/page.js:110 | inserting is splicing the clip in at its `InsertPosition` |
| Timeline.InsertPermutes | src/app/page.js:110 | inserting adds the clip and loses nothing (multisets) |
| Timeline.SortByStart | src/app/page.js:110 | the sort by start is a sorted permutation of its input |
| Timeline.InsertSorted | src/app/page.js:110 | inserting into a sorted track keeps it sorted |
| Timeline.InsertAtEnd | src/app/page.js:110 | a clip that starts no earlier than every clip goes last |
| Timeline.SortSortedIsIdentity | src/app/page.js:125 | sorting an already sorted track changes nothing |
| Timeline.InsertStable | src/app/page.js:110 | into a sorted track, the inserted clip comes last among the clips with its start |
| Timeline.SortStable | src/app/page.js:110 | the sort is stable: the clips sharing any one start keep their order |
| Timeline.Flatten | src/components/VideoPlayer.jsx:56 | `flat()` of a single track is that track |
| Timeline.FlattenAppend | src/components/VideoPlayer.jsx:56 | `flat()` distributes over concatenation |
| Timeline.DroppedClip | src/app/page.js:97-106 | the dropped clip takes the raw drop position, the dragged media's duration, offset 0 and the listed media's annotations |
| Timeline.DropMedia | src/app/page.js:89-111 | a drop of listed media adds exactly that one clip (multisets), leaves the track sorted and, into a sorted track, splices it in after the clips that start no later; unlisted media throws and changes nothing |
| Timeline.SortAppend | src/app/page.js:110 | sorting a track with one clip appended inserts the clip into the sorted track |
| Timeline.Retime | src/app/page.js:122-124 | clips with the id are replaced, all others kept in place |
| Timeline.DropMove | src/app/page.js:112-126 | the result is sorted and a permutation (multisets) of the track in which every clip with the dragged id is the dragged clip with its start at the drop position floored at 0; every clip with another id stays |
| Timeline.DragStart | src/app/page.js:187-193 | the dragged start is the wanted start when that is in range, `projectDuration - duration` when the wanted start is beyond it and the clip fits, and 0 when the wanted start is negative or the clip does not fit |
| Timeline.DragAsWritten | src/app/page.js:160-210 | the listeners a clip mouse-down registers act on the drag from before the press, so the pressed clip does not move, while the drag just pressed would move it to `DragStart` |
| Timeline.DragMove | src/app/page.js:180-201 | a drag changes only the start of the clips with the dragged id, to `DragStart`, in place and without re-sorting; no drag changes nothing |
| Timeline.SplitNotes | src/app/page.js:347-364 | each annotation array's two halves rejoin to the original, the first being `min(k, length)` long |
| Timeline.CreateMediaCopy | src/app/page.js:300-330 | an unlisted original adds nothing and yields nothing; a listed one appends a hidden copy with its duration, thumbnails, type and derived names, and yields the copy's id |
| Timeline.SplitAt | src/app/page.js:376-383 | replacing each matching clip by two grows the track by the number of matches, and no match changes nothing |
| Timeline.SplitAtUnique | src/app/page.js:376-383 | with unique ids, the clip is replaced in place by the two halves |
| Timeline.FirstHalf | src/app/page.js:341-353 | the first half keeps start, media and offset, lasts `cutPoint` and takes the annotations before `ceil(cutPoint)` |
| Timeline.SecondHalf | src/app/page.js:355-371 | the second half starts at the cut, ends where the clip ended, reads `cutPoint` further into its media and takes the rest of the annotations |
| Timeline.CutClip | src/app/page.js:332-387 | a cut of an id not in the view changes nothing; a clip without annotations throws and changes nothing; otherwise the status is applied, the track grows by the number of clips with the id and the media list by the copy |
| Timeline.CutUnique | src/app/page.js:332-387 | with the view equal to the latest track and unique ids, the result is the track with the clip replaced in place by its halves, the second playing the copy |
| Timeline.HalvesOfCut | src/app/page.js:341-371 | the two halves tile the clip, offsets `o` and `o + p`, annotations rejoin |
| Timeline.CutSplitsInPlace | src/app/page.js:332-387 | a cut grows the track by one, keeps every other clip where it was, puts the two `Halves` at the clip's index and appends a hidden copy of the media with the same duration |
| Timeline.ReplacedAt | src/app/page.js:377-383 | splicing two clips in at `i` leaves the prefix and shifts the suffix by one |
| Timeline.MovedClip | src/app/page.js:397-403 | the moved clip keeps id, media, duration and offset, takes the unclamped start and loses its annotations |
| Timeline.MoveInTrack | src/app/page.js:409-418 | the move keeps the track's length and order and replaces only clips with the id |
| Timeline.Snapshot.constructor | src/app/page.js:391 | the render's view of track 0 |
| Timeline.Snapshot.MoveClip | src/app/page.js:389-419 | an id not in the view changes nothing; otherwise the view's clip gets the new start in place and the latest track gets `MovedClip` for that id |
| Timeline.RemoveMatching | src/app/page.js:147 | `filter` keeps exactly the non-matching clips, in order |
| Timeline.DeleteClip | src/app/page.js:145-149 | delete keeps exactly the clips whose id differs, in their order; an id no clip has changes nothing |
| Timeline.NothingRemoved | src/app/page.js:147 | filtering out a key no clip has returns the track unchanged |
| Timeline.SwapMedia | src/app/page.js:506-512 | the swap changes only `mediaId`, only of the clips with the id, on every track |
| Playback.FindClipAtTime | src/app/page.js:213-221 | the result is the first clip, in track then clip order, whose closed interval holds the time, and none exactly when no clip does |
| Playback.FlattenAround | src/app/page.js:214-219 | the flattened tracks are the tracks before, the track, and the tracks after |
| Playback.Surface.constructor | src/components/VideoPlayer.jsx:230-236 | a fresh video element has no source, position 0 and is paused |
| Playback.Surface.Load | src/app/page.js:233 | `load()` keeps the source, rewinds to 0 and pauses |
| Playback.Surface.Play | src/app/page.js:240 | `play()` unpauses |
| Playback.Surface.Pause | src/app/page.js:245 | `pause()` pauses |
| Playback.UpdateVideoPlayback | src/app/page.js:223-251 | the clip is `findClipAtTime`'s; with no clip the element ends detached, rewound and paused; with unlisted media it is untouched; otherwise the source is rebound only when it does not include the URL, the element is reseeked to `time - start + offset` only when more than 0.1 s off, ends within 0.1 s of it, and plays only when playback is on |
| Playback.Advance | src/app/page.js:652-659 | the tick adds the elapsed time and continues exactly when that stays before the end; at the end it goes back to 0 and stops |
| Playback.Clock.constructor | src/app/page.js:643 | the effect starts with the clock's reading |
| Playback.Clock.Animate | src/app/page.js:646-661 | a frame when not playing changes nothing; when playing it records the reading and moves the playhead as `Advance` says, forward and before the end or back to 0 and stopped |
| Selection.ClampTime | src/app/page.js:257-260 | a scrub time is clamped into `[0, projectDuration]` and kept when already inside |
| Selection.MouseMove | src/app/page.js:272-291 | the start cursor follows the mouse but never passes the end cursor, else the end cursor follows it but never passes the start, else the playhead goes to the mouse; the other values stay |
| Selection.MouseMoveKeepsRange | src/app/page.js:283-290 | a mouse move keeps `0 <= start <= end <= projectDuration` and puts the playhead inside the project |
| Selection.MediaName | src/app/page.js:690 | the media's name, or "Unknown" when the media is missing or its name empty |
| Selection.ClipsOf | src/app/page.js:687-691 | the rows' clips, in order |
| Selection.ClipsInRange | src/app/page.js:680-694 | the rows are exactly the track's clips that overlap the range, each as often as in the track (multisets), in track order (a subsequence), each with `MediaName` |
| Selection.WiderRangeKeepsClips | src/app/page.js:682-686 | widening the range never loses a clip |
| Export.MediaOf | src/components/VideoPlayer.jsx:74 | `find` by id yields a listed media with the id exactly when one exists |
| Export.Lead | src/components/VideoPlayer.jsx:62-68 | before a clip there is a gap exactly when the clip starts after the cursor, a single one lasting `start - cursor` |
| Export.PlanSegments | src/components/VideoPlayer.jsx:51-86 | the segment loop yields `Plan`: the sorted clips laid out from time 0 |
| Export.LayOut | src/components/VideoPlayer.jsx:58-86 | the loop over sorted clips yields `Segments` from cursor 0 |
| Export.LayOutStep | src/components/VideoPlayer.jsx:58-78 | one turn moves the next clip's gap and part from the segments to come to the segments laid out |
| Export.LayOutEnd | src/components/VideoPlayer.jsx:81-86 | after the last clip only the closing gap, if any, is left |
| Export.PartsOfAppend | src/components/VideoPlayer.jsx:70-75 | the clips of concatenated segment lists are the concatenated clips |
| Export.SegmentsKeepClips | src/components/VideoPlayer.jsx:58-78 | the clip segments are exactly the input clips, in order |
| Export.LeadThenPart | src/components/VideoPlayer.jsx:62-75 | a clip's gap and part contribute that clip alone |
| Export.LeadHasNoParts | src/components/VideoPlayer.jsx:62-68 | a gap holds no clip |
| Export.PlanKeepsClips | src/components/VideoPlayer.jsx:56-75 | every clip of every track appears exactly once as a clip segment (multisets), in a stable sort by start |
| Export.GapsArePositive | src/components/VideoPlayer.jsx:53-86 | every gap segment has a positive length |
| Export.TotalLengthAppend | src/components/VideoPlayer.jsx:96-124 | playing two segment lists one after the other lasts the sum |
| Export.TiledLength | src/components/VideoPlayer.jsx:53-86 | for clips that do not overlap and end within the project, the segments last exactly `projectDuration` |
| Export.LeadThenPartLength | src/components/VideoPlayer.jsx:62-77 | a clip's gap and part span from the cursor to the clip's end |
| Export.TiledPlacesClips | src/components/VideoPlayer.jsx:58-78 | for such clips, each clip segment begins in the export where the clip begins on the timeline |
| Export.FileListStep | src/components/VideoPlayer.jsx:93-137 | the list is the first segment's line, then the rest numbered on |
| Export.FileListExtend | src/components/VideoPlayer.jsx:93-137 | writing one more line keeps what is written, followed by the rest of the list, equal to the whole list |
| Export.LinesDistinct | src/components/VideoPlayer.jsx:107-134 | lines for different segment numbers name different files, so no segment file overwrites another |
| Export.SameLineSameNumber | src/components/VideoPlayer.jsx:107-134 | two equal lines render the same number |
| Export.NewlinesAppend | src/components/VideoPlayer.jsx:109 | line feeds of a concatenation add up |
| Export.NoNewlines | src/components/VideoPlayer.jsx:109 | a string without line feeds has none |
| Export.FileListLines | src/components/VideoPlayer.jsx:89-138 | the list has exactly one line per segment |
| Export.BuildFileList | src/components/VideoPlayer.jsx:89-138 | the loop throws at the first clip whose media is missing, and otherwise writes `file gap_i.mp4` or `file clip_i.mp4` for each segment in order, with one input per segment |
| Export.HandleDownload | src/components/VideoPlayer.jsx:42-187 | without a loaded encoder nothing happens; otherwise the list of `Plan` is written or the attempt throws at a missing media, and the loading flag ends cleared |
| Assistant.NoCards | src/app/page.js:441 | the history without card entries: every other entry is kept |
| Assistant.NoCardsAppend | src/app/page.js:441 | the filter distributes over concatenation, so with `NoCardsOne` the kept entries keep their order and repeats |
| Assistant.NoCardsOne | src/app/page.js:441 | a single entry is dropped exactly when it is a card |
| Assistant.SelectedMedia | src/app/page.js:460-462 | the media of the view's clip with the id exists exactly when the clip and its media are both found |
| Assistant.Transform | src/app/page.js:500-514 | a transform of a clip whose media has a URL swaps that clip's media (`SwapMedia`); otherwise nothing changes |
| Assistant.Perform | src/app/page.js:488-597 | one call: `cutClip` is `CutClip` on the view; `moveClip` of an id in the view writes its start into the view and is `MoveInTrack`, and of another id changes nothing; `deleteClip` is `DeleteClip`; a transform is `Transform`; `trim_video` returns early when the clip's media is not found and is otherwise `SwapMedia`; unknown names change nothing; only `moveClip` writes the view |
| Assistant.Converse | src/app/page.js:467-625 | the exchange keeps at least one track and sends no more continue requests than there are answers |
| Assistant.ConverseShape | src/app/page.js:470-625 | the continued answers are all well-formed calls; the ending is the message, the other type, the failure or the early return of the first answer that is not, or pending when all are calls; two entries are logged per call |
| Assistant.ShapedCons | src/app/page.js:470-615 | one more performed call in front keeps that shape |
| Assistant.LogsCallsCons | src/app/page.js:474-485 | one more call in front keeps the two-entries-per-call log |
| Assistant.AuditEntries | src/app/page.js:474-485 | the log holds, for call `j` in answer order, the "Executing" entry at `2j` and the card at `2j + 1` |
| Assistant.ConverseUnfold | src/app/page.js:470-615 | a performed call logs its two entries, then the rest of the exchange follows from the new timeline |
| Assistant.PlainCallsTail | src/app/page.js:470 | a run of calls minus its first is still a run of calls |
| Assistant.CallsThenReply | src/app/page.js:470-625 | `k` calls, none of them `trim_video`, then a message end with that message after exactly `k` continue requests; no request follows the message |
| Assistant.ReplyAfterCalls | src/app/page.js:435-625 | for `k` calls (none of them `trim_video`) then a message, the log grows by `2k + 2` entries and `k` continue requests follow the first |
| Assistant.UnknownCallsChangeNothing | src/app/page.js:488-597 | calls of names the page does not know leave the timeline and the view unchanged |
| Assistant.Exchange | src/app/page.js:467-625 | with the transform and `trim_video` branches corrected (as written, see `PerformAsWritten`), the loop's log, timeline, requests and ending are those of `Converse`, every continue request being the same |
| Assistant.ExchangeStep | src/app/page.js:470-615 | one turn of the loop keeps the loop's invariant |
| Assistant.SendMessage | src/app/page.js:426-640 | with the transform and `trim_video` branches corrected (as written, see `PerformAsWritten`): blank input does nothing; otherwise the log is the old log, the trimmed text, the calls' entries and the reply or apology; the first request carries the card-free history plus the text, every continue request the card-free history without it and the first answer's task id; loading is cleared only when the loop ends normally |
| Assistant.Dispatch | src/app/page.js:487-597 | with the transform and `trim_video` branches corrected (as written, see `PerformAsWritten`), the `if` chain performs the call as `Perform` says, writing the view in place for `moveClip` |
| Assistant.PerformAsWritten | src/app/page.js:500-597 | as written, every transform throws, `trim_video` returns early or throws, and every other call is `Perform` |
| Assistant.TransformAsWrittenThrows | src/app/page.js:456-465 | a transform that is meant to move a clip onto new media throws as written |
| Controls.CutSelected | src/components/VideoPlayer.jsx:190-206 | no selection does nothing; otherwise the page's cut is asked for the clip keyed like the selected one at the playhead's distance into it, and the selection is cleared |
| Controls.CutSelectedIs | src/components/VideoPlayer.jsx:199-205 | unfolding helper for `CutButtonById`: with a selection, the button's cut is `CutClip` at `currentTime - clip.start` |
| Controls.SelectedFound | src/app/page.js:334 | looking a clip of the track up by its id finds that clip when ids are unique |
| Controls.CutButtonAsWritten | src/components/VideoPlayer.jsx:204 | keyed by the absent `clip_id`, Cut finds nothing and changes nothing |
| Controls.CutButtonById | src/components/VideoPlayer.jsx:190-206 | keyed by `id`, Cut splits the selected clip in place at the playhead and appends the media copy |
| Controls.DeleteSelected | src/components/VideoPlayer.jsx:209-223 | no selection does nothing; otherwise track 0 keeps exactly the clips keyed differently from the selected one, in order (a subsequence), losing as many clips as match the key, and the selection is cleared |
| Controls.DeleteButtonAsWritten | src/components/VideoPlayer.jsx:214-222 | keyed by the absent `clip_id`, Delete empties the track |
| Controls.EveryClipMatches | src/components/VideoPlayer.jsx:221 | when every clip matches, the count of matches is the track's length |
| Controls.DeleteButtonById | src/app/page.js:133-143 | keyed by `id`, Delete is the page's `deleteClip`: the selected clip goes, the rest stay in order |
| Controls.TogglePlay | src/components/VideoPlayer.jsx:248-259 | playback flips; pausing pauses the element in place; playing runs `updateVideoPlayback` with playback still off: the current clip is the first one covering the playhead; with none the element is detached, rewound and paused; with unlisted media it is left alone; otherwise its `src` includes the media URL (rebound only when it did not), its position is within 0.1 s of the playhead's point in the media, and it is paused exactly when it was rebound or already paused, so a paused element stays paused until the next tick |

## Left out

- The encoder: the encoder's own work is not modelled. That covers loading it, every `ffmpeg.run` and `FS` call of the export, the concatenation, the download link and every transform in `src/app/utils.js`. These are foreign calls. A transform is a fresh media id given as a parameter; so is the copy's object URL.
- The network: the server's answers are a given sequence. `response.json()` and the request failing both map to a `Broken` answer, and `JSON.parse` of the arguments maps to `Args` being absent. `JSON.stringify` of the arguments is a given string.
- Assistant.SendMessage: each continue request repeats the clips-in-range context of the render, which is what the handler re-reads; the context rows are not serialised.
- Assistant.Perform: `cutClip` is not awaited; the model applies each edit fully before the next answer is read. State updates are applied in order to the latest state, as React applies queued updaters.
- Assistant.CallsThenReply: a session with a `trim_video` call, even one whose media is found, is not covered; the same holds for `Assistant.ReplyAfterCalls`. `Exchange` and `Converse` do cover such sessions.
- Assistant.ReplyAfterCalls: stated only for runs of calls without `trim_video`, as above.
- Assistant.Perform: a missing numeric argument (`cutPoint`, `start`) would be `undefined` and give `NaN` times; `Args` always carries a number.
- Timeline.Snapshot.MoveClip: the write at `page.js:406` also reaches any other holder of the same clip object (the selection, other renders); only the handler's view is modelled.
- Timeline.CutClip: its own contract gives the status and the lengths. The in-place split is stated by `CutSplitsInPlace`, which requires a view equal to the latest track and unique ids. `cutPoint` is never validated; `slice` is modelled for every integer.
- Timeline.DropMove: the contract pins the result as a sorted rearrangement of the retimed track; the order among clips that share a start is stated by `Timeline.SortStable`, not by `DropMove` itself.
- Playback.Surface.Play: the promise of `play()` and its rejection are not modelled; play unpauses at once.
- Playback.Surface.Load: the media element's load algorithm is reduced to rewinding and pausing; `src` is kept as the assigned string, not resolved to an absolute URL.
- Playback.Clock.Animate: the `requestAnimationFrame` scheduling and `performance.now()` are not modelled. The clock reading is a parameter, and one call is one frame.
- `formatTime`, `formatFileSize` and the mouse-to-time conversions (`getBoundingClientRect`): each handler takes an already converted time. `handleTimelineClick` is `ClampTime` followed by `UpdateVideoPlayback`.
- The mouse-down and mouse-up handlers that set the drag flags are not modelled: `Grip` and the optional `ClipDrag` are inputs. Which drag actually reaches `handleMouseMove` is the subject of the `DragAsWritten` finding.
- Timeline.DragMove: it is stated for whichever drag the listener sees. As written, that is the drag from before the mouse-down, or none on the first drag; `DragAsWritten` states what follows. The listeners that the stale mouse-up never removes are not modelled.
- Assistant.Dispatch: it models the `if` chain with the transform and `trim_video` findings corrected; so do `Exchange` and `SendMessage`. As written, every transform call and every `trim_video` call on a found media throws. `PerformAsWritten` states that such a call raises. The catch then logs its apology and leaves loading on. The model does not run a whole exchange through the as-written chain.
- Export.HandleDownload: the button's `disabled` guard (`VideoPlayer.jsx:285`) is not modelled; nor are the temporary file clean-up and the alert.
- Media upload and preprocessing (`src/components/MediaList.jsx`), the server (`backend/`), the socket context and `_app.js` are not part of this model. Uploaded media carry no annotation arrays, so `Media.notes` is optional.
- The project duration input (`page.js:729-735`) is not modelled; `projectDuration` is a parameter.
- Ids from `Date.now()` are parameters; colliding ids are not excluded.

## Findings

| source | as written | input that shows it | evidently intended | confidence | as-written member | corrected member |
|---|---|---|---|---|---|---|
| src/components/VideoPlayer.jsx:204 | Cut passes `clip.clip_id`, a property no clip on the page has | any selected clip created by a drop or a cut | pass `clip.id` | not executed | Controls.CutButtonAsWritten | Controls.CutButtonById |
| src/components/VideoPlayer.jsx:214-222 | Delete filters on `c.clip_id !== clip.clip_id`, both `undefined` | a selected clip in a track of page-created clips | filter on `id`, as the page's own `deleteClip` does | not executed | Controls.DeleteButtonAsWritten | Controls.DeleteButtonById |
| src/app/page.js:501 | each transform branch (also 517, 533, 549, 565) unpacks the object from `parseModifyJson` (464) with array destructuring, which throws because a plain object is not iterable | any `adjustBrightness` call | object destructuring, then the media swap at 506-512 | not executed | Assistant.TransformAsWrittenThrows | Assistant.Transform |
| src/app/page.js:588 | `trimVideo` is imported at line 9 but `src/app/utils.js` does not export it, so the call throws | a `trim_video` call on a clip whose media is listed | trim, then swap the clip's media | not executed | Assistant.PerformAsWritten | Assistant.Perform |
| src/app/page.js:176-181 | the window listeners registered at 176-177 are the render's own `handleMouseMove`/`handleMouseUp`, which read `draggingClip` and `dragStartX` from before the setters at 166-172 | the first clip drag after loading: every move returns at 181 and the clip stays put | listeners that read the drag just pressed (a ref, or an effect keyed on `draggingClip`) | not executed | Timeline.DragAsWritten | Timeline.DragMove |
