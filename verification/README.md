# Midnight Dial — a verified model of the dial, the session and the mood evaluator

The widget lets a user dial up to five emoji on an animated rotary dial, then shows a
canned message chosen by the mood of what was dialed. This project models its three
pieces of logic in Dafny and proves what they promise:

- `Responses` (src/utils/responses.ts): the nine-glyph catalog, the four response lists
  and `getResponse`. The function walks the dialed glyphs and keeps a score (positives
  minus negatives) and a chaotic count. It picks a category by a fixed priority chain and
  answers one string of that category. An empty dial gets the sentinel
  "The line is silent...". `GetResponse` is the imperative walk. It is proved equal to
  the specification `Respond`, and lemmas about `Respond`, `Score`, `ChaoticCount` and
  `Category` state what the evaluator promises.
- `Dial` (src/components/RotaryDial.tsx): slot angles and the turn that brings a slot
  to the finger stop, in whole degrees. The class `RotaryDial` models `handleSlotClick`
  as three steps: the click (refused while locked or rotating), reaching the stop (emits
  `onDial` once) and springing back (clears `isRotating`).
- `Dialer` (src/components/RotaryDialer.tsx): the class `RotaryDialer` has the
  component's four state fields. It also has `timers`, the 2000 ms completions still
  scheduled, each holding the glyph list its closure captured. Its methods are
  `handleDial`, `processDialing`, the timer firing, the auto-process effect and
  `handleReset`. The composed methods (`ClickSlot`, `StrokeReachesStop`, `StrokeReturns`,
  `TimerFires`, `ResetPressed`) drive the session and its dial together, as the rendered
  widget allows. They keep the invariant `Inv`, which includes "at most five glyphs".

Randomness is injected. `draw` stands for `Math.random() > 0.7` in `handleDial`.
`pick` stands for `Math.floor(Math.random() * options.length)` in `getResponse`.

Two behaviours of the code are modelled as written:

- The early-exit completion evaluates the list from before the glyph just dialed. The
  `processDialing` created inside `handleDial` closes over the old `dialedEmojis`.
  `EarlyAnswerCanMissLastGlyph` shows this can change the category. The auto-process
  effect evaluates the full list.
- `handleReset` does not cancel a scheduled completion. Such a completion still writes
  a response into the emptied session; the client method `ResetDoesNotCancelCompletion`
  walks through this. Through the rendered widget, though, the reset button exists only
  while a response is shown. At that moment no completion is pending (`ResetPressed`
  ensures `old(timers) == []`), so the overwrite cannot be reached by clicking.

The catalog literals are the UTF-8 glyphs of the source file, written with `\U{…}`
escapes. The dizzy face and the rain cloud are multi-code-point strings. In the source
text each of these two has lost one byte, the last byte of U+200D and of U+FE0F. Those
two code points are therefore reconstructed: the emoji sequences they belong to admit no other reading. The source
fields `char` and `label` are reserved words in Dafny, so they are named `glyph` and
`name` here.

## Model

| member | source | states |
|---|---|---|
| `Responses.Options` | src/utils/responses.ts:21-51 | every category's response list holds at least four strings, so it is never empty |
| `Responses.FindSpec` | src/utils/responses.ts:60 | `find` gives None exactly when no catalog entry has the glyph; otherwise it gives the first entry with that glyph |
| `Responses.FindResolvesEntry` | src/utils/responses.ts:60 | in a catalog with distinct glyphs, looking up an entry's glyph finds that very entry |
| `Responses.CatalogCharsDistinct` | src/utils/responses.ts:9-18 | the catalog has nine entries with pairwise distinct glyphs |
| `Responses.KindOfCatalogGlyph` | src/utils/responses.ts:60 | every catalog glyph resolves to the type of its own entry |
| `Responses.Respond` | src/utils/responses.ts:53-84 | an empty dial answers the silent-line sentinel; any other dial answers an element of its category's list |
| `Responses.GetResponse` | src/utils/responses.ts:53-84 | the loop's running score and chaotic count equal the tallies of the prefix walked; the result is `Respond`, so it is the sentinel for an empty dial and a member of the category's list otherwise |
| `Responses.TallyStep` | src/utils/responses.ts:59-66 | one more glyph changes the score by +1 for a positive and -1 for a negative entry; the chaotic count rises by 1 for a chaotic entry; an unknown glyph changes nothing |
| `Responses.CountStep` | src/utils/responses.ts:59-66 | appending a glyph raises only the tally of its own type, by one |
| `Responses.CountAppend` | src/utils/responses.ts:59-66 | the tally of a concatenation is the sum of the tallies of its parts |
| `Responses.CountPermutation` | src/utils/responses.ts:59-66 | two dials with the same glyphs in any order have the same tallies |
| `Responses.CategoryOrderIndependent` | src/utils/responses.ts:59-79 | the score, the chaotic count and the category depend only on the multiset of glyphs, not on their order |
| `Responses.UnknownGlyphsCountNothing` | src/utils/responses.ts:61 | glyphs missing from the catalog add to no tally |
| `Responses.UnknownOnlyIsNeutral` | src/utils/responses.ts:59-79 | a non-empty dial of unknown glyphs only has score 0 and chaotic count 0; it is answered from the neutral list |
| `Responses.NeutralAndUnknownContributeNothing` | src/utils/responses.ts:59-66 | a neutral or unknown glyph changes neither the score nor the chaotic count |
| `Responses.CategoryCases` | src/utils/responses.ts:69-79 | chaotic exactly when the chaotic count is at least 2, whatever the score; otherwise positive exactly when score > 1, negative exactly when score < -1, neutral exactly when -1 <= score <= 1 |
| `Responses.CatalogGlyphHits` | src/utils/responses.ts:59-65 | a catalog glyph counts towards its own type and towards no other |
| `Responses.ThreePositivesArePositive` | src/utils/responses.ts:59-79 | smile, sparkles and fire score 3 and are positive |
| `Responses.ThreeNegativesAreNegative` | src/utils/responses.ts:59-79 | pensive, frustrated and rain score -3 and are negative |
| `Responses.TwoDizzyFacesAreChaotic` | src/utils/responses.ts:59-79 | two dizzy faces and a smile have chaotic count 2 and are chaotic |
| `Responses.TwoNeutralsAreNeutral` | src/utils/responses.ts:59-79 | sleepy and thought score 0 and are neutral |
| `Dial.SlotAngle` | src/components/RotaryDial.tsx:26-28 | every one of the nine catalog slots lies between -285 and -45 degrees: on a 240-degree arc running counter-clockwise from -45 (about half past one) to -285 (about half past five) |
| `Dial.SlotAnglesDecrease` | src/components/RotaryDial.tsx:26-28 | later slots sit at strictly smaller angles, 30 degrees per slot, so no two slots coincide |
| `Dial.RotationNeeded` | src/components/RotaryDial.tsx:21-37 | the turn brings the slot exactly onto the 60-degree stop; it equals 105 + 30·index and is positive for every slot index |
| `Dial.RotationUnderFullTurn` | src/components/RotaryDial.tsx:21-37 | for the nine catalog slots the turn lies between 105 and 345 degrees, under a full turn |
| `Dial.RotaryDial.constructor` | src/components/RotaryDial.tsx:9 | a new dial is not rotating, has no stroke in flight and rests at angle 0 |
| `Dial.RotaryDial.HandleSlotClick` | src/components/RotaryDial.tsx:29-37 | a click is accepted exactly when the dial is neither locked nor rotating; a refused click changes nothing; an accepted one sets `isRotating` and starts turning that slot's glyph by `RotationNeeded(index)` |
| `Dial.RotaryDial.ReachStop` | src/components/RotaryDial.tsx:39-47 | reaching the stop emits the clicked glyph, and only a turning stroke can emit; the stroke then springs back, so each accepted click emits once; the dial stays rotating |
| `Dial.RotaryDial.SpringBack` | src/components/RotaryDial.tsx:49-61 | after the pause and the spring back the dial rests at 0 and `isRotating` is false |
| `Dialer.EarlyExitNeedsThree` | src/components/RotaryDialer.tsx:24 | below three glyphs no draw starts processing; from three on, the draw alone decides |
| `Dialer.EarlyAnswerCanMissLastGlyph` | src/components/RotaryDialer.tsx:21-32 | the list an early completion evaluates can have a different category from the full list: smile+sparkles is positive, smile+sparkles+pensive is neutral |
| `Dialer.RotaryDialer.constructor` | src/components/RotaryDialer.tsx:8-11 | a new session is empty, not processing, unanswered, shows the instruction, has no completion scheduled and satisfies `Inv` |
| `Dialer.RotaryDialer.ProcessDialing` | src/components/RotaryDialer.tsx:28-36 | sets `isProcessing` and schedules one completion over the captured list; nothing else changes |
| `Dialer.RotaryDialer.HandleDial` | src/components/RotaryDialer.tsx:18-27 | appends the glyph at the end, leaving earlier entries unchanged, and hides the instruction; exactly when the new length is at least 3 and the draw succeeds it schedules a completion over the list from before the append |
| `Dialer.RotaryDialer.AutoProcess` | src/components/RotaryDialer.tsx:13-17 | fires exactly when there are at least five glyphs, nothing is processing and there is no response; it then schedules a completion over the full list |
| `Dialer.RotaryDialer.Complete` | src/components/RotaryDialer.tsx:31-35 | the oldest scheduled completion sets the response to `getResponse` of its captured list and clears `isProcessing`, whatever happened to the session since |
| `Dialer.RotaryDialer.HandleReset` | src/components/RotaryDialer.tsx:37-41 | clears the response and the glyphs and unlocks; keeps `showInstruction` and every scheduled completion |
| `Dialer.RotaryDialer.ClickSlot` | src/components/RotaryDialer.tsx:127-129 | the dial receives the lock `isProcessing or length >= 5`; a click is accepted exactly when that lock is off and the dial is not rotating; a refused click leaves the dial's stroke, `isRotating` and rotation as they were; `Inv` (at most five glyphs) is kept |
| `Dialer.RotaryDialer.StrokeReachesStop` | src/components/RotaryDialer.tsx:12-27 | the emitted glyph is appended and the effect runs. An early exit schedules a completion over the old list. Reaching five glyphs without one schedules it over the full list. Otherwise nothing is scheduled. The dial holds its rotation while it springs back. `Inv` is kept |
| `Dialer.RotaryDialer.StrokeReturns` | src/components/RotaryDial.tsx:49-61 | the stroke ends and the dial is free; `Inv` is kept |
| `Dialer.RotaryDialer.TimerFires` | src/components/RotaryDialer.tsx:31-35 | in the widget the completion answers its captured list, never with the silent sentinel, and leaves nothing scheduled and nothing processing; the glyphs, the instruction flag and the dial are unchanged; `Inv` is kept |
| `Dialer.RotaryDialer.ResetPressed` | src/components/RotaryDialer.tsx:37-41 | the reset reachable from the response card finds no pending completion; it empties and unlocks the session and remounts an idle dial; `Inv` is kept |
| `Dialer.ResetDoesNotCancelCompletion` | src/components/RotaryDialer.tsx:31-41 | `handleReset` on its own does not cancel a scheduled completion: after an early exit at the third glyph and a reset, the completion still writes a response (the answer for the first two glyphs) into the emptied, unlocked session |

## Left out

- Rendering, styling and framer-motion animation: the easing and spring parameters,
  `AnimatePresence`, the glow pulses and the header. Each awaited animation is one
  discrete step.
- The polar-to-cartesian slot placement with `Math.cos` and `Math.sin`
  (src/components/RotaryDial.tsx:103-105), which is floating point.
- `Math.random`: replaced by the injected `draw` and `pick`. Uniformity of the pick is
  not modelled.
- Real time: the 2000 ms settle delay and the 100 ms pause are steps without
  durations. Completions fire in scheduling order, because they all share one delay.
- React scheduling beyond the effect's trigger condition. The composed methods assume
  React 18's automatic batching: the state updates of one handler are applied together
  before the effect runs.
- Clicks on the dial during its 0.5 s exit animation, after a response has appeared. The
  model treats the dial as gone as soon as a response exists.
- `Dial.RotaryDial.ReachStop`: the click handler's `onDial` is the `handleDial` of the
  render in which the click happened. The model appends to the current list. The two
  are the same list, because `Inv` rules out any change to the session while a stroke
  is turning.
- src/components/ResponseCard.tsx (splits the answer for a staggered animation) and
  src/components/DialedEmojis.tsx (displays the list) are not part of this model.
