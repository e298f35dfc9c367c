# Score editor state machine

A Dafny model of the client-side state machine of the `App` component of a
small React score editor. An operator picks a student from a roster, the
component loads that student's per-class scores, the operator edits scores
(each edit only stages a value locally), and Save sends every staged edit in
one batch request and then clears the stage.

The component owns four state cells:

- `students`, the roster;
- `selectedStudent`, the selected student's id, where 0 means none;
- `scores`, the displayed list of `{scoreId, className, score}` entries;
- `scoreHash`, the staged edits, mapping each scoreId to its pending value.

Files:

- `records.dfy` (module `ScoreRecords`) holds the records exchanged with the
  server and `Flatten`. This function turns raw score records
  `{id, score, Class: {name}}` into displayed entries. It is pure, like the
  `data.map` it models.
- `editor.dfy` (module `ScoreEditor`) holds the state as one value
  (`EditorState`) and one pure step function per event. The lemmas about
  those functions are the properties. The class `Editor` keeps the four
  cells as fields and updates them in place, as the handlers do. Each of its
  methods is proved to produce exactly the state its step function gives.

Network calls are events. A response either arrived with its data
(`Arrived(data)`) or the request failed (`Failed`). The events are applied
in arrival order. The score requests and the PATCH body are returned as values.
`OnRosterResponse` and `HandleStudentClick` return the score request that the
selection effect then issues, if any. `HandleSave` returns the PATCH body.

Modelling decisions taken from the code:

- With an empty roster, `setStudents(data)` runs and `data[0].id` then
  throws. The roster is therefore stored (empty) and the selection is left
  unchanged.
- If a score record lacks `Class`, `item.Class.name` throws inside the same
  `try`. The displayed list is then left unchanged, exactly as after a failed
  request. `Flatten` returns `None` in that case.
- The selection effect depends on `selectedStudent`. It therefore re-runs
  only when the selection changes value, and its guard then skips the id 0.
  `ScoreRequestAfter` states both conditions. Clicking the student who is
  already selected issues no request.
- The staged value is the text that the number input passes to its change
  handler. It is stored verbatim. Range limits are not enforced, because
  `keepWithinRange` and `clampValueOnBlur` are false.
- Score responses are not tagged with the student they were requested for.
  A late response for an earlier selection therefore replaces the view
  (`LateResponseWins`). The model keeps this behaviour and adds no guard.
- Staged edits are never filtered by the current student. An edit made
  before switching students is sent by the next save
  (`StaleEditSentAfterSwitch`). So the stage can hold keys that are not in
  the displayed list. The code does not keep the stage's keys within the
  displayed scores.
- Clicks come only from the rendered roster, so a click names a roster
  student's id. Under that condition, once the roster is non-empty the
  selection stays on one of its students across any sequence of events
  (`RunKeepsSelectionInRoster`).

## Model

| member | source | states |
|---|---|---|
| ScoreRecords.Flatten | src/App.js:45-50 | a successful flattening has as many entries as the response has records |
| ScoreRecords.FlattenDefined | src/App.js:45-55 | the flattening succeeds exactly when every record carries its `Class` (otherwise `item.Class.name` throws and the catch is taken) |
| ScoreRecords.FlattenAt | src/App.js:45-50 | entry i is built from record i: `scoreId = id`, `className = Class.name`, `score = score` (order is preserved) |
| ScoreEditor.MountRequestsNoScores | src/App.js:24 | the mount state has selection 0, so the selection effect issues no score request |
| ScoreEditor.ScoreRequestOnlyForNewSelection | src/App.js:75-78 | a score request is issued exactly when the selection changed to a non-zero id, and it names that id |
| ScoreEditor.RosterSelectsFirst | src/App.js:32-36 | a non-empty roster is stored and the first student's id is selected; scores and stage are untouched |
| ScoreEditor.EmptyOrFailedRosterSelectsNone | src/App.js:24-39 | from the mount state, an empty or failed roster response leaves the roster empty, the selection 0 and no score request |
| ScoreEditor.ScoresReplaceList | src/App.js:42-52 | a successful load makes the displayed list exactly the flattened response, entry by entry in order; roster, selection and stage are untouched |
| ScoreEditor.ScoresLoadForgetsPrevious | src/App.js:52 | replace, not merge: the list after a load does not depend on the list before it |
| ScoreEditor.FailedScoresKeepState | src/App.js:42-56 | a failed request, or a record without `Class`, leaves the whole state (the displayed list included) unchanged |
| ScoreEditor.StageWritesOneKey | src/App.js:87-92 | staging adds or overwrites only the given key with the verbatim value; every other key and every other cell is unchanged |
| ScoreEditor.StageOverwrites | src/App.js:87-92 | staging v1 then v2 under one key is the same as staging v2 alone |
| ScoreEditor.StageDistinctKeysCommute | src/App.js:87-92 | stagings of different keys commute |
| ScoreEditor.ClickKeepsStage | src/App.js:83-85 | a click changes only the selection; staged edits, roster and scores survive |
| ScoreEditor.SaveSendsStageAndResets | src/App.js:58-99 | save sends the whole stage as `{scores: stage}` and leaves the stage empty, with nothing else changed and no dependence on the request's outcome |
| ScoreEditor.SecondSaveSendsNothing | src/App.js:94-99 | two saves in a row: the second sends an empty map |
| ScoreEditor.StaleEditSentAfterSwitch | src/App.js:83-99 | an edit staged before switching students is in the next save's body |
| ScoreEditor.LateResponseWins | src/App.js:42-56 | with requests for a then b, if a's response arrives last then a's scores are displayed while b is selected |
| ScoreEditor.ExampleSession | src/App.js:32-99 | roster of Ann(1) and Bo(2), then the scores of student 1, one edit to "85" and a save: the selection is 1, the body is `{10: "85"}` and the stage is reset |
| ScoreEditor.StepKeepsSelectionInRoster | src/App.js:32-36 | every event keeps the selection on a student of a non-empty roster, provided a click names a student of the roster (the list of students is the only place clicks come from, src/App.js:118-124) |
| ScoreEditor.RunKeepsSelectionInRoster | src/App.js:24-99 | the same invariant holds after any feasible sequence of events, applied in order |
| ScoreEditor.SessionSelectionInRoster | src/App.js:24-36 | from mount, after any feasible session with a non-empty roster, the selected id is the id of one of the roster's students |
| ScoreEditor.Editor.constructor | src/App.js:24-27 | the four cells start as no roster, selection 0, no scores and an empty stage |
| ScoreEditor.Editor.OnRosterResponse | src/App.js:32-40 | the new state is `RosterArrived` of the old one, and the returned score request is the one the selection effect issues |
| ScoreEditor.Editor.OnScoresResponse | src/App.js:42-56 | the new state is `ScoresArrived` of the old one |
| ScoreEditor.Editor.HandleStudentClick | src/App.js:83-85 | the new state is `StudentClicked` of the old one, and the returned score request is the one the selection effect issues |
| ScoreEditor.Editor.HandleScoreChange | src/App.js:87-92 | the stage is updated in place under the key, as `ScoreChanged` states |
| ScoreEditor.Editor.HandleSave | src/App.js:94-99 | returns the old stage as the PATCH body and empties the stage, as `Saved` states |

## Left out

- Rendering, layout, theme, icons and the colour-mode switch (src/App.js:101-166) are presentation only.
- The HTTP calls, their URLs and the host are external I/O. Each response is an `Arrived(data)` or `Failed` event.
- The roster is requested once, at mount (src/App.js:71-73). That request is not represented, and the model accepts a roster response in any state.
- The PATCH response is never read, and its failure is only logged. No state changes when it arrives, so it has no event.
- Error logging to the console is an output only.
- The scheduling of React hooks is not modelled: batching of updates, render timing and the bail-out when the stage object is set to itself. The stage is treated as one mutable map, updated in place. Only the effect's re-run on a change of selection is kept.
- Overlapping requests are not interleaved. Responses are applied as events in arrival order, and no stale-response guard is added.
- Responses of an unexpected shape are not modelled, for example a roster element with no `id` or a body that is not an array. Ids and scores are integers, and 0 is the only falsy id. Scores are only copied, never computed with.
- The staged value is not parsed or clamped. It is the input's text, kept as an opaque string.
