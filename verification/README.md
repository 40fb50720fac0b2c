# Be My Valentine: a verified model of the game rules

"Be My Valentine" is a small browser toy: a landing page, three mini-games
and a final reveal with a downloadable calendar invitation. This project
models the rule state behind it in Dafny and proves what the code promises:

- **Game 1, cupid arrow** (`CupidGame`, `cupid.dfy`): a face bounces across
  the sky and the player shoots heart arrows at it. Three hits within thirty
  seconds win. The closure state of `createCupidLoop` is the class
  `CupidLoop`, and one animation frame is one call of `Frame`.
- **Game 2, beach kisses** (`KissesGame`, `kisses.dfy`): a head pops out of
  the sand and the player fires kisses at it. Eight hits within twenty
  seconds win, and quick hits build a combo. The closure state of
  `createKissesLoop` is the class `KissesLoop`. The float-text expiry is the
  method `RemoveExpired`, which keeps the reverse-index splice loop.
- **Game 3, letter puzzle** (`LetterPuzzle`, `puzzle.dfy`): letter tiles
  are dragged from a shuffled tray into the slots of "WOULD YOU BE MY
  VALENTINE?". Each React state update is a pure function on a `Puzzle`
  value. The tray is built by the in-place Fisher-Yates method
  `ShuffleInPlace`.
- **Screen progression and calendar** (`AppFlow`, `app.dfy`): the `App`
  component's handlers are methods of the class `App`. `Next` specifies the
  wiring of each event. The calendar text is ten CRLF-joined content lines,
  as in section 3.1 of RFC 5545.

Two helper modules hold shared definitions. `Geometry` (`geometry.dfy`) has
the countdown clock, the clamp and the disc hit test. `Subsequences`
(`subsequences.dfy`) defines "occurs in order within".

Nondeterminism and the browser are parameters. A draw of `Math.random()` is
a `real` in [0, 1), and `Math.floor(r * n)` is `(r * n).Floor`. Results of
`Math.sin`, `Math.cos`, `Math.atan2` and `Math.sqrt` are passed in as
values. A frame's timestamp and the canvas size are method parameters.
Callbacks (`onWin`, `onTimeUp`, hits, timers set) come back as
out-parameters that say whether, or how often, each one fired.

Behaviours the code has and the model keeps:

- Dropping a tile onto an occupied slot overwrites it.
- Dragging a slot onto itself leaves it empty, because the target is written
  first and the source is cleared after it. So the puzzle does not conserve
  letters.
- In the cupid game several arrows can hit in one frame. The score can then
  pass three, and `onWin` is called once for every hit that leaves the score at
  three or more.

## Model

| member | source | states |
|---|---|---|
| Geometry.Clamp | src/levels/level1Cupid.ts:260 | the result lies in [lo, hi], equals the input when the input is in range, and equals the violated bound otherwise |
| Geometry.TimeLeft | src/levels/level2Kisses.ts:119-120 | seconds left are never negative and never above the duration once the clock has started; zero exactly when the elapsed time has reached the duration, and otherwise duration minus elapsed seconds |
| Geometry.DiscInSquare | src/levels/level2Kisses.ts:84-91 | a point in the closed hit disc lies in the disc's bounding square |
| LetterPuzzle.Letters | src/levels/level3Puzzle.tsx:13 | removing whitespace never lengthens the text and leaves no whitespace character |
| LetterPuzzle.LettersOfWords | src/levels/level3Puzzle.tsx:13 | removing whitespace from five space-free words separated by single spaces gives the words run together |
| LetterPuzzle.PhraseLetters | src/levels/level3Puzzle.tsx:9-13 | the phrase has 26 characters and its letters are the 22 characters of WOULDYOUBEMYVALENTINE? in order |
| LetterPuzzle.Split | src/levels/level3Puzzle.tsx:14 | one single-character string per character, in order |
| LetterPuzzle.Pick | src/levels/level3Puzzle.tsx:16 | `Math.floor(Math.random() * n)` is a valid index below n |
| LetterPuzzle.FisherYatesPermutes | src/levels/level3Puzzle.tsx:15-18 | every suffix of the swap loop keeps the length and the multiset of tiles |
| LetterPuzzle.ShuffledIsPermutation | src/levels/level3Puzzle.tsx:15-18 | for any sequence of draws the shuffle returns a permutation of its input |
| LetterPuzzle.ShuffleInPlace | src/levels/level3Puzzle.tsx:15-18 | the in-place swap loop leaves the array equal to the shuffle of its old contents |
| LetterPuzzle.TrayLetters | src/levels/level3Puzzle.tsx:12-19 | the tray has 22 entries, is a permutation of the phrase's letters, and each entry is one non-whitespace character |
| LetterPuzzle.InitialSlots | src/levels/level3Puzzle.tsx:22-24 | one slot per phrase character, index equal to position, " " at spaces and "" elsewhere |
| LetterPuzzle.InitialPuzzleValid | src/levels/level3Puzzle.tsx:32-36 | the mounted state satisfies the puzzle invariant and is not yet solved |
| LetterPuzzle.Compact | src/levels/level3Puzzle.tsx:69 | the filtered tray keeps exactly the non-empty entries: same multiset without "", in their original order |
| LetterPuzzle.IndexOf | src/levels/level3Puzzle.tsx:82 | -1 exactly when the value is absent, otherwise the first position holding it |
| LetterPuzzle.Upper | src/levels/level3Puzzle.tsx:54 | uppercasing keeps the length, maps each lower-case ASCII letter to its upper-case letter (code point minus 32), leaves no lower-case ASCII letter and changes nothing else |
| LetterPuzzle.PutInSlot | src/levels/level3Puzzle.tsx:49-66 | a space slot changes nothing; otherwise the target gets the uppercased text (even if occupied), the drag source (tray entry or slot) is emptied, the drag is reset, and every other slot and tray entry is unchanged; a slot dropped on itself ends empty |
| LetterPuzzle.ReturnedTray | src/levels/level3Puzzle.tsx:69 | the new tray ends with the returned text; before it come only non-empty entries, in their old order; its contents are the old non-empty entries plus the returned text |
| LetterPuzzle.ReturnToTray | src/levels/level3Puzzle.tsx:68-72 | the tray becomes the compacted tray with the text appended; exactly that slot is emptied, every other slot and every slot index is unchanged, and the drag is reset |
| LetterPuzzle.OpenSlots | src/levels/level3Puzzle.tsx:76-78 | the hint candidates are exactly the empty slots not at a space |
| LetterPuzzle.HintTarget | src/levels/level3Puzzle.tsx:76-80 | no target exactly when no slot is open; otherwise the target is the index of an open slot |
| LetterPuzzle.UseHint | src/levels/level3Puzzle.tsx:74-87 | a no-op when three hints are used, when no slot is open, or when the letter is missing from the tray; it changes the state exactly when those checks pass, and then fills the target with its phrase letter, empties the first tray entry holding that letter, leaves everything else alone and spends one hint, never passing three |
| LetterPuzzle.HandleSlotDrop | src/levels/level3Puzzle.tsx:89-97 | empty drag data or a space slot only resets the drag; otherwise the drop is exactly `PutInSlot`: the slot receives the uppercased data, or ends empty on a self-drop, and the tray and the other slots change only as `PutInSlot` states |
| LetterPuzzle.HandleTrayDrop | src/levels/level3Puzzle.tsx:99-109 | a tile returns only when dragged from an in-range, non-empty slot: that slot empties and the tray becomes the returned tray of that text (the compacted entries, then the text); otherwise only the drag is reset; no other slot changes and slot indices stay put |
| LetterPuzzle.TrayDragStart | src/levels/level3Puzzle.tsx:187-197 | only a rendered, non-empty tray tile becomes the drag source; nothing else changes |
| LetterPuzzle.SlotDragStart | src/levels/level3Puzzle.tsx:146-153 | the drag source becomes the slot exactly when the slot exists and holds a letter (not empty, not a space); otherwise the drag is kept; nothing else changes |
| LetterPuzzle.WinCheck | src/levels/level3Puzzle.tsx:39-47 | `onWin` fires exactly when the puzzle is solved and not yet won; `won` becomes true when solved and never goes back |
| LetterPuzzle.SlotDropKeepsValid | src/levels/level3Puzzle.tsx:89-97 | a slot drop keeps space slots " ", slot indices and the other invariants |
| LetterPuzzle.SlotDragKeepsValid | src/levels/level3Puzzle.tsx:146-153 | a slot drag never picks up a space slot |
| LetterPuzzle.HintTargetOpen | src/levels/level3Puzzle.tsx:76-80 | in a consistent puzzle the hint's target is an open slot at its own position, never a space of the phrase |
| LetterPuzzle.HintKeepsValid | src/levels/level3Puzzle.tsx:74-87 | a hint never writes a space slot and keeps the hint count at most three |
| LetterPuzzle.TrayDropKeepsValid | src/levels/level3Puzzle.tsx:99-109 | returning a tile to the tray keeps space slots " ", slot indices and the other invariants |
| LetterPuzzle.ApplyKeepsValid | src/levels/level3Puzzle.tsx:89-197 | every handler keeps the invariant and leaves `won` alone |
| LetterPuzzle.StepKeepsValid | src/levels/level3Puzzle.tsx:39-153 | every event followed by the win check keeps the invariant (spaces fixed, indices fixed, at most three hints, won implies solved); `onWin` fires only on the step that wins; a won puzzle no longer changes |
| LetterPuzzle.WinFiresAtMostOnce | src/levels/level3Puzzle.tsx:39-117 | over any run of events `onWin` fires at most once, never after the puzzle was won, and only into a won, solved state |
| KissesGame.HeadHit | src/levels/level2Kisses.ts:84-92 | a hidden head is never hit; a hit lies in the head's square; a kiss at the head's centre hits a visible head |
| KissesGame.Unexpired | src/levels/level2Kisses.ts:267-284 | the survivors are exactly the texts at most 900 ms old, in their original relative order |
| KissesGame.UnexpiredCounts | src/levels/level2Kisses.ts:267-284 | every unexpired text survives as often as it occurs, and every expired text disappears |
| KissesGame.CollectExpired | src/levels/level2Kisses.ts:267-273 | the collected indices are exactly the positions of the expired texts, in ascending order |
| KissesGame.RemoveExpired | src/levels/level2Kisses.ts:267-284 | collecting expired indices in ascending order and splicing them out from the highest down leaves exactly the unexpired texts in order |
| KissesGame.KissesLoop.constructor | src/levels/level2Kisses.ts:38-47 | the initial state: 0 hits, 0 combo, 20 s left, no flags, not running, head hidden, no spawn pending |
| KissesGame.KissesLoop.Start | src/levels/level2Kisses.ts:294-304 | resets hits and combo to 0, time to 20, both flags to false, empties the kisses, hides the head, runs and requests a spawn |
| KissesGame.KissesLoop.Stop | src/levels/level2Kisses.ts:305-308 | stops the loop and changes nothing else: no game state, no clock start, no pending spawn |
| KissesGame.KissesLoop.ScheduleSpawn | src/levels/level2Kisses.ts:170-178 | a spawn timer is set only when none is pending; afterwards one is pending |
| KissesGame.KissesLoop.SpawnTimerFired | src/levels/level2Kisses.ts:174-177 | the timer callback changes only the head and the pending flag: it clears the flag, keeps the game state, the clock, the kisses and the invariant, and spawns the head as `spawnHead` does: nothing when stopped or over, otherwise a visible head for 950 to 1350 ms inside the canvas's width, standing on the sand (its top 54 to 74 units above where the sand begins, at two thirds of the height) |
| KissesGame.KissesLoop.SpawnHead | src/levels/level2Kisses.ts:75-82 | does nothing when stopped or the game is over; otherwise shows the head for 950 to 1350 ms inside the canvas's width, standing on the sand (its top 54 to 74 units above where the sand begins, at two thirds of the height) |
| KissesGame.KissesLoop.Fire | src/levels/level2Kisses.ts:94-108 | appends one active kiss at the blaster with the given velocity |
| KissesGame.KissesLoop.Draw | src/levels/level2Kisses.ts:180-284 | drawing removes exactly the expired float texts |
| KissesGame.KissesLoop.ScoreHit | src/levels/level2Kisses.ts:150-162 | a hit appends a float text at the kiss, records the hit time, adds one to the combo and the hits, hides the head, and wins (firing `onWin`) exactly at 8 hits |
| KissesGame.KissesLoop.MoveKisses | src/levels/level2Kisses.ts:142-164 | the kisses after the pass and whether one hit are exactly the reference pass `KissPass`; at most one hit per pass; each hit adds one to hits and the combo, records the hit time, hides the head; the float texts gain exactly `HitText`, the text at the scoring kiss stamped with the current time; without a hit the hit time, combo and head visibility stay; `won` holds exactly at 8 hits and `onWin` fires with the winning hit |
| KissesGame.KissesLoop.Play | src/levels/level2Kisses.ts:136-166 | a head shown past its hide time is hidden and one respawn is requested, a hit requests another; the combo resets after 1.5 s without a hit, and without a hit the hit time stays; the kisses move exactly as `KissPass` with the head visible only before its hide time; after drawing, the float texts are the unexpired old ones followed by this frame's `HitText` |
| KissesGame.KissPass | src/levels/level2Kisses.ts:142-164 | the pass keeps the number of kisses |
| KissesGame.KissPassHits | src/levels/level2Kisses.ts:142-164 | the pass scores exactly when some active kiss, after its step, is still on the canvas and on the visible head; each active kiss takes one step and is dropped exactly when it has left the canvas or is the first such kiss; inactive kisses do not change |
| KissesGame.HitText | src/levels/level2Kisses.ts:150-152 | the pass records one float text exactly when it scores, none otherwise, each stamped with the current time |
| KissesGame.HitTextAtFirstHit | src/levels/level2Kisses.ts:142-152 | the recorded text sits at the first kiss to reach the head, at its position after the step |
| KissesGame.KissesLoop.Frame | src/levels/level2Kisses.ts:117-168 | keeps combo <= hits <= 8 and won exactly at 8 hits; never changes `running`, the start time, the head's position and hide time or the pending spawn, so the clock counts from the real start; a stopped loop does nothing (game state, kisses, float texts, head visibility and hit time stay); after a win or time-up only the clock and float texts change, so `onWin` and `onTimeUp` fire once; time-up fires when, and only when, the clock reaches 0; otherwise the game goes on (no time-up), a head past its hide time is hidden with one respawn, the combo resets after 1.5 s without a hit, the kisses move exactly as `KissPass` (at most one hits, the first kiss to reach the head), respawns count the timeout and the hit, the hit time changes only on a hit, and the float texts are the unexpired old ones followed by the hit's `HitText` |
| CupidGame.LauncherAngle | src/levels/level1Cupid.ts:259-261 | the stored angle lies in [-85, 85] and equals the input when the input is in range |
| CupidGame.PointerMoveAngle | src/levels/level1Cupid.ts:283-292 | the pointer angle in degrees is clamped to [-85, 85] |
| CupidGame.FaceHit | src/levels/level1Cupid.ts:80-87 | a hit puts the arrow's tip (x + 8, y) inside the face's square; a tip at the face's displayed centre hits |
| CupidGame.Bounce | src/levels/level1Cupid.ts:136-145 | after a step the face lies in [0, extent - 72] when the canvas fits it; touching or passing a wall reverses the velocity and clamps to that wall; a free step just moves |
| CupidGame.CupidLoop.constructor | src/levels/level1Cupid.ts:38-64 | the initial state: score 0, 30 s left, no flags, not running, no arrows, angle 0, face moving right at 2 per frame |
| CupidGame.CupidLoop.Start | src/levels/level1Cupid.ts:264-272 | resets the score to 0, time to 30, both flags to false, empties the arrows and runs; face and angle are kept |
| CupidGame.CupidLoop.Stop | src/levels/level1Cupid.ts:273-276 | stops the loop |
| CupidGame.CupidLoop.FaceImageLoaded | src/levels/level1Cupid.ts:73-78 | the face is placed in the middle 60% of the width (inside [0, w - 72] on canvases at least 360 wide) and between 25% and 60% of the height, moving sideways at speed 2 |
| CupidGame.CupidLoop.SetAngle | src/levels/level1Cupid.ts:259-261 | stores the clamped angle |
| CupidGame.CupidLoop.Shoot | src/levels/level1Cupid.ts:89-96 | appends one active arrow at the launcher, with velocity from the angle's sine and cosine |
| CupidGame.CupidLoop.MoveArrows | src/levels/level1Cupid.ts:147-164 | the hit count is the number of active arrows that, after their step, are on the canvas and on the face; each hit adds exactly one to the score; `won` holds exactly at score 3 or more; `onWin` is called once per hit that leaves the score at 3 or more; every active arrow takes one step and is dropped exactly when it leaves the canvas or hits; an inactive arrow never changes |
| CupidGame.CupidLoop.Frame | src/levels/level1Cupid.ts:111-168 | keeps won exactly at score >= 3; never changes `running`, the start time or the launcher angle, so the clock counts from the real start; a stopped loop does nothing (game state, arrows, face, velocities and display height stay); after a win or time-up only the clock changes (face, velocities, display height and arrows stay), so `onTimeUp` fires once; otherwise the face bounces inside the canvas with reversed velocity at a wall, the display height follows the sine offset, and arrows move, drop out or score against the displayed face as in `MoveArrows`; the frame requests as many further frames as `FrameRequests` says |
| CupidGame.OverCallsDouble | src/levels/level1Cupid.ts:117-122 | as written, the number of `loop` calls per frame after the game ends is 2^k after k frames, which outgrows every linear bound |
| CupidGame.OverCallsAfterTen | src/levels/level1Cupid.ts:117-122 | ten frames after the game ends, one frame runs `loop` 1024 times |
| CupidGame.CountHits | src/levels/level1Cupid.ts:147-164 | there are never more hits than arrows |
| CupidGame.CountHitsZero | src/levels/level1Cupid.ts:147-164 | a pass scores nothing exactly when no arrow reaches the face |
| CupidGame.FrameRequests | src/levels/level1Cupid.ts:111-168 | as written, a stopped loop requests no frame, a running one that is over requests twice the intended number, a running one that is playing requests the intended number |
| CupidGame.FrameRequestsIntended | src/levels/level1Cupid.ts:124-168 | one request exactly while running |
| CupidGame.CallsAfter | src/levels/level1Cupid.ts:117-122 | with at least one request per call some call keeps running; with none, nothing runs after the first frame |
| CupidGame.CupidLoop.State | src/levels/level1Cupid.ts:69-71 | the reported copy of a consistent state says won exactly at score 3 or more and never negative time |
| KissesGame.KissesLoop.State | src/levels/level2Kisses.ts:71-73 | the reported copy of a consistent state has combo <= hits <= 8, won exactly at 8 hits and never negative time |
| LetterPuzzle.Apply | src/levels/level3Puzzle.tsx:89-197 | a won puzzle ignores every event; no handler changes `won` |
| LetterPuzzle.Step | src/levels/level3Puzzle.tsx:39-47 | once won, an event changes nothing and `onWin` does not fire; `onWin` fires exactly on the step that turns the puzzle won |
| LetterPuzzle.Run | src/levels/level3Puzzle.tsx:39-197 | over any run of events `onWin` fires at most once, only if the puzzle was not won at the start, and then the run ends won |
| CupidGame.IntendedCallsSteady | src/levels/level1Cupid.ts:124-130 | with one request per call, as in the other branches, exactly one `loop` call runs per frame |
| AppFlow.Next | src/App.tsx:163-278 | every event keeps the state consistent; restart on a game screen returns to the initial state; the reveal is entered only by game 3's win on the game 3 screen; the progress counter rises only by one, through the next button, clearing the overlay; an overlay is raised only by game 1's or game 2's win, on its own screen, without changing screen or progress |
| AppFlow.RunKeepsValid | src/App.tsx:157-278 | every run of events keeps game screen n at progress n and each overlay on its game |
| AppFlow.StepStage | src/App.tsx:163-193 | one event advances the progression by at most one stage, and only through the next milestone event |
| AppFlow.RunPassesMilestones | src/App.tsx:163-278 | a run that ends at a later stage contains every milestone between the two stages, in order |
| AppFlow.RevealNeedsAllWins | src/App.tsx:179-261 | from the landing page the reveal is reached only by a run containing start, win 1, next, win 2, next, win 3 in that order |
| AppFlow.App.constructor | src/App.tsx:158-161 | the initial state is the landing page, progress 1, no overlay |
| AppFlow.App.HandleRestart | src/App.tsx:163-167 | restart returns to exactly the initial state |
| AppFlow.App.HandleWin1 | src/App.tsx:169-172 | raises overlay 1 and changes nothing else |
| AppFlow.App.HandleWin2 | src/App.tsx:174-177 | raises overlay 2 and changes nothing else |
| AppFlow.App.HandleWin3 | src/App.tsx:179-181 | shows the reveal and changes nothing else |
| AppFlow.App.GoToGame2 | src/App.tsx:183-187 | game 2 screen, progress 2, no overlay |
| AppFlow.App.GoToGame3 | src/App.tsx:189-193 | game 3 screen, progress 3, no overlay |
| AppFlow.App.OnStart | src/App.tsx:222 | the landing page's start shows game 1 |
| AppFlow.App.Dispatch | src/App.tsx:195-278 | routing an event to its rendered handler moves the state exactly as `Next` does, so the state stays consistent |
| AppFlow.Join | src/App.tsx:57 | joining no lines gives the empty text; a joined text starts with its first line |
| AppFlow.JoinLast | src/App.tsx:57 | a joined text of two or more lines is the join of all but the last, a separator, and the last line, with no separator after it |
| AppFlow.SplitThenJoin | src/App.tsx:57 | cutting any text at its CRLFs and joining the pieces with CRLF gives the text back |
| AppFlow.JoinThenSplit | src/App.tsx:57 | lines without carriage returns, joined with CRLF and cut again, come back unchanged |
| AppFlow.TextEscape | src/App.tsx:54 | escaping never shortens a value |
| AppFlow.EscapeConcat | src/App.tsx:54 | escaping a concatenation escapes each part |
| AppFlow.EscapePlain | src/App.tsx:54 | a value without commas, semicolons and backslashes is its own escaped form |
| AppFlow.EscapeThenUnescape | src/App.tsx:54 | reading an escaped TEXT value back gives the original value |
| AppFlow.LocationIsEscapedAddress | src/App.tsx:54 | the LOCATION value is the street address with both commas backslash-escaped, as section 3.3.11 of RFC 5545 requires, and reads back as the address |
| AppFlow.IcsLinesHaveNoCr | src/App.tsx:46-56 | none of the ten content lines contains a carriage return |
| AppFlow.CalendarShape | src/App.tsx:46-57 | two or more lines without carriage returns, joined with CRLF, start with the first line, end with a CRLF and the last line, and cut back into the same lines |
| AppFlow.IcsLinesFrame | src/App.tsx:46-56 | the calendar has ten lines, the first BEGIN:VCALENDAR and the last END:VCALENDAR |
| AppFlow.IcsContentShape | src/App.tsx:46-57 | the calendar text begins with its first line, ends with a CRLF and its last line (END:VCALENDAR) with no trailing CRLF, and cuts at its CRLFs into exactly the ten lines |

## Left out

- Canvas drawing is not modelled: gradients, clip paths, images, hearts and the text of the score display. `KissesLoop.Draw` keeps only the float-text expiry.
- Frame scheduling is not modelled: `requestAnimationFrame`, `cancelAnimationFrame` and the frame id. `Frame` is one call of `loop`, and `Stop` only clears `running`. The cupid `Frame` reports how many frames it requests.
- `setTimeout` is not modelled. The kisses `Frame` reports how many respawn timers it would set, `ScheduleSpawn` reports whether it set one, and `SpawnTimerFired` is the callback. The timer delays are random, so they are not modelled.
- Image loading is not modelled. The cupid face is placed by `FaceImageLoaded`, the promise callback of `start`, which may run at any later point.
- `performance.now()`, `Math.random()`, `Math.sin`, `Math.cos`, `Math.atan2` and `Math.sqrt` are parameters. So is the pointer-to-velocity normalisation in `fire` and `shoot`: `KissesLoop.Fire` takes the velocity, and `CupidLoop.Shoot` takes the sine and cosine of the angle.
- Coordinates and times are exact reals, not IEEE doubles. Rounding is not modelled.
- KissesGame.KissesLoop.Frame: reports the number of hits but not the arguments passed to `onHit` (position and combo).
- CupidGame.CupidLoop.Frame: reports the number of hits but not the arguments passed to `onHit`.
- LetterPuzzle.Upper: covers ASCII letters only. `String.prototype.toUpperCase` also maps other Unicode letters.
- LetterPuzzle.Letters: treats only ASCII whitespace as `\s`. The JavaScript class also matches Unicode spaces, and the phrase contains none.
- LetterPuzzle.Apply: React runs the win-check effect after each render, so the model runs `WinCheck` after every event. Each handler reads the state of the latest render.
- AppFlow.Next: accepts restart on a game screen even while a win overlay covers the restart button. This is more permissive than the rendered page.
- AppFlow.TextEscape: escapes commas, semicolons and backslashes only. The newline escape of section 3.3.11 of RFC 5545 is not modelled, since no calendar line contains a newline.
- The calendar download is not modelled: `downloadIcs` (Blob, object URL, anchor click). Nor are the reveal screen's own UI flags.
- `GameCanvas` is not part of this model: resizing, pointer forwarding and its status overlay. Neither are `HeartParticles`, `MusicPlayer` or the Web Audio sounds.
- The sparkle sound played by `handleWin1`, `handleWin2` and the puzzle's win effect is not modelled.

## Findings

| source | as written | input that shows it | evidently intended | confidence | as-written member | corrected member |
|---|---|---|---|---|---|---|
| src/levels/level1Cupid.ts:117-122 | when the game is over (won or time up), `loop` calls `requestAnimationFrame(loop)` twice, at lines 118 and 120 | run out of time in game 1: `onTimeUp` only sets the canvas status (src/components/GameCanvas.tsx:60-62), so the loop keeps running until a restart, and each pending callback requests two more, so k frames later `loop` and `draw` run 2^k times in one frame | one request per call, as in the other branches (lines 128 and 167) and in the kisses loop | not executed; high | CupidGame.OverCallsDouble | CupidGame.IntendedCallsSteady |

`CupidLoop.Frame` models one call of `loop` and leaves frame scheduling out,
so the finding is stated on the request counts alone. `FrameRequests` is the
count as written and `FrameRequestsIntended` the corrected count; `Frame`
returns its count, which is `FrameRequests`. A win does not keep the doubling
going for long: the page's new `onWin` handler re-runs the canvas effect, whose
cleanup calls `stop` (src/components/GameCanvas.tsx:87-91). The re-run effect
then starts a new loop behind the win overlay (src/components/GameCanvas.tsx:44-66,
with its dependencies at line 91; `handleWin1` at src/App.tsx:169 is a new
function on every render), and that loop times out 30 s later and doubles too.
