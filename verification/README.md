# Slime desktop pet — a Dafny model of its core

The program is a small always-on-top desktop pet (`main.py`, PyQt6). A
sprite wanders around the screen. It can be dragged. A click opens an input
row, and the text typed there goes to an OpenAI-compatible chat endpoint on
a worker thread. The reply scrolls through a speech bubble and is then
cleared by a timer. A tray menu renames the pet, edits the API
configuration (with a model-list fetch), shows the chat history and clears
it.

This project models the core of that program as pure Dafny:

- `PetState` (module `Pet`) is everything the widget's callbacks read and
  write.
- Every Qt callback is a pure transition. The outside work it sets going is
  returned as a list of `Effect`s: a one-shot clear timer, the chat worker,
  a config or history write, the history file's deletion, or the end of
  the process after an uncaught exception.
- A timer firing or the worker finishing comes back as an `Event`.
- `PetMachine.Run` folds the callbacks over any stream of events. Every
  callback runs on the one GUI thread.
- Module `Text` models the Python string operations used: `strip`,
  `rstrip`, `endswith`, `in`, `split`, `replace`, slicing and `str(int)`.
  `Text.Join` is the reference definition that `replace` is proved
  against.
- Module `Urls` models the two URL rewrites of the configuration dialog.
- Module `ModelList` models the model-list fetch.
- Module `Chat` models:
  - the worker's request payload and reply text;
  - the 10- and 50-entry history windows;
  - the history viewer's text.
- Module `Motion` models the wander geometry. That includes the exact
  integer step `int(2*d/dist)`, derived without square roots.
- Module `PetProperties` proves what holds across several callbacks.

Quirks of the program that the model keeps:

- A new target below the pet (`dy > 0`) faces front (row 0) when the
  vertical offset dominates or ties.
- A press starts a drag even when one is in progress.
- A left release always ends the drag.
- The move handler looks only at `is_dragging`, because
  `Qt.MouseButton.LeftButton` is always true.
- When a drag, the open input row or a pending request gates the wander
  tick, the tick stops the walk but keeps the target.
- `get_config` returns no `pet_name`. Saving the configuration dialog
  therefore forgets the name, and later prompts fall back to `桌宠`.
- Rename, clear-history, toggle and the missing-API bubble leave the
  bubble's scroll offset and timer flag as they were.
- A won coin toss on a screen smaller than the window makes
  `random.randint` raise `ValueError` inside the timer slot. Nothing
  catches it, so PyQt ends the process; the model returns the `Crash`
  effect for it.

## Model

| member | source | states |
|---|---|---|
| Chat.PayloadMessages | main.py:47 | the payload is the system prompt followed by every context entry in order, with role names `user`/`assistant` |
| Chat.ReplyText | main.py:56-67 | a 200 reply is emitted unchanged; an HTTP error starts `API错误(`, ends `...` and is bounded by the status digits plus 50 characters; an exception starts `网络异常: ` and is bounded likewise |
| Chat.ApiErrorRoundTrip | main.py:61-65 | the HTTP-error text can be read back into exactly the status code and the first 50 characters of `error.message` (or the raw body when there is none) |
| Chat.NetworkErrorRoundTrip | main.py:66-67 | the exception text can be read back into exactly the first 50 characters of the exception message |
| Chat.Context | main.py:599 | the request carries the last `min(10, len)` history entries, as a suffix of the history |
| Chat.Persisted | main.py:658-660 | what is saved is the last `min(50, len)` history entries, as a suffix of the history |
| Chat.TranscriptAppend | main.py:84-87 | the viewer text of a concatenated history is the concatenation of the two texts |
| Chat.HistoryText | main.py:84-87 | the loop builds the recursive transcript (one `【speaker】: content` paragraph per entry in order); an empty history gives `""` and the text ends with the last entry's paragraph |
| ModelList.ExtractIds | main.py:195 | a string is among the ids exactly when some listing element is an object whose `id` is that string; there are never more ids than elements |
| ModelList.ExtractIdsAppend | main.py:195 | the ids of two listings one after the other are the ids of the first followed by those of the second, so order and duplicates are kept |
| ModelList.ExtractIdsOne | main.py:195 | a single element yields its `id` when it is an object that has one, and nothing otherwise |
| ModelList.ListingShapesAgree | main.py:188-193 | a bare list and an object holding the same list under `data` give the same ids; an object without `data` gives none |
| ModelList.LexLeMeaning | main.py:199 | `a <= b` holds exactly when `a` is a prefix of `b` or, at the first code point where they differ, `a`'s is smaller |
| ModelList.LexLeTotal | main.py:199 | any two strings are ordered one way or the other |
| ModelList.Insert | main.py:199 | insertion adds exactly one copy of the element (multiset), has one more element, and keeps a sorted list sorted |
| ModelList.SortIds | main.py:199 | the result is sorted by Python's string order and is a permutation of the ids |
| ModelList.ListingRequest | main.py:165-182 | no request is made exactly when the stripped URL or key is blank; otherwise the request URL is the listing URL of the stripped chat URL, ending in `/models` |
| ModelList.FetchModels | main.py:163-210 | for each response: the blank-field warning; no ids gives the `获取到数据，但未找到模型 ID 列表` warning, otherwise a sorted permutation of the ids with the `成功获取 N 个模型` count; an HTTP error gives the status and the first 200 characters of the message; an exception gives `连接异常: ` and its text |
| Urls.NormalizeChatUrl | main.py:214-235 | the result is stripped; it is empty exactly when the input is blank; a URL holding `/chat/completions` and not ending in `/models` is kept; every other non-blank URL ends in `/chat/completions`; outside the `/models` case the result extends the stripped input; a `/models` URL has every `/models` replaced; a URL with neither gets the path completion below |
| Urls.ReplaceModelsPath | main.py:219-220 | replacing every `/models` of a URL ending in `/models` yields a URL ending in `/chat/completions` with no surrounding whitespace |
| Urls.CompleteChatPath | main.py:222-235 | a URL ending in `/` gets `chat/completions` when it has `v1/` and `v1/chat/completions` otherwise; any other URL gets `/` and then `chat/completions` when it has `v1/` or ends in `v1`, else `v1/chat/completions`; the result ends in `/chat/completions` |
| Urls.SlashedHasV1 | main.py:223-231 | after the added `/`, a URL holds `v1/` exactly when it held `v1/` already or ended in `v1` |
| Urls.NormalizeChatUrlIdempotent | main.py:214-235 | correcting an already corrected URL changes nothing |
| Urls.ModelsUrl | main.py:175-182 | the listing URL ends in `/models` and the part before it is a prefix of the chat URL: cut at the first `/chat/completions`; else cut at the first `/v1` (keeping `/v1`); else with all trailing slashes dropped |
| Urls.ModelsBesideChat | main.py:175-176 | the stem is the text before the first `/chat/completions` and holds no occurrence of it |
| Urls.ModelsUnderV1 | main.py:177-178 | the stem is the text before the first `/v1`, and `/v1/models` follows it |
| Urls.ModelsAtRoot | main.py:179-182 | everything dropped from the URL is `/`, and the kept stem does not end in `/` |
| Urls.ChatAndModelsUrlsCorrespond | main.py:175-176 | for a base URL `p`, the listing URL of `p/chat/completions` is `p/models`, and saving `p/models` as the chat URL gives back `p/chat/completions` |
| Text.ReplaceAllIsJoinSplit | main.py:592 | `replace` of a non-empty pattern equals splitting on it and joining with the replacement |
| Text.ReplaceAllKeepsSuffix | main.py:219-220 | replacing an unbordered pattern that ends the string leaves a string ending in the replacement |
| Motion.DirectionCode | main.py:267 | front, left, right and back are sprite rows 0, 1, 2 and 3, and no other facing has those rows |
| Motion.DirectionCodeInjective | main.py:267 | distinct facings use distinct sprite rows |
| Motion.FacingCode | main.py:491-494 | the row of the facing chosen for offsets `dx`, `dy` is 2 or 1 by the sign of `dx` when it dominates, else 0 or 3 by the sign of `dy` |
| Motion.Facing | main.py:489-494 | right or left exactly when the horizontal offset dominates, by the sign of dx; front or back otherwise (ties vertical), front exactly when dy > 0 |
| Motion.StepComponent | main.py:503-511 | the component `v` is the truncation toward zero of `2*d/sqrt(d²+o²)`: `v²(d²+o²) <= 4d² < (abs(v)+1)²(d²+o²)`, with the sign of `d`, and at most 2 and at most abs(d) in size |
| Motion.ThreeSquaresNotSquare | main.py:510-511 | `3a² = b²` has no solution with `a ≠ 0`, so the truncation never meets the boundary of a component of size 1 |
| Motion.StepTowardProgress | main.py:500-512 | a step never overshoots on either axis and strictly decreases the squared distance to the target |
| Motion.FacingMatchesStep | main.py:489-512 | the facing chosen for a target is the direction of the first step toward it |
| Motion.StepTowardStaysOnScreen | main.py:500-512 | a step between two on-screen positions stays on screen |
| Pet.MaxScroll | main.py:454 | the scroll range is the text height beyond the 40-pixel view, or 0 when the text fits |
| Pet.PersonaPrompt | main.py:590-592 | the prompt is the template (or the fallback) split on `{char}` and joined with the pet's name (or `桌宠`); a template without `{char}` is sent unchanged |
| Pet.Init | main.py:249-346 | the pet starts at the screen centre, walking, facing front on frame 1, with nothing pending, an empty input text, zero drag points and the loaded history; the configuration is the loaded one (or the default); a missing name becomes the stripped answer, or `萌萌` when the prompt is cancelled or blank, and is then saved |
| Pet.AnimationTick | main.py:437-470 | only the frame, scroll offset and timer flag change; the frame cycles 0-1-2 while walking and rests on 1 otherwise; below the range an idle bubble scrolls by exactly one and arms nothing; the scroll never advances otherwise; the flag is never reset; the 5 s clear timer is armed exactly when the flag turns on, and, while the flag is off, always once an idle bubble has scrolled to its end |
| Pet.WalkStep | main.py:500-512 | within two pixels the pet snaps onto the target, drops it and stops; otherwise only the position changes, by the truncated 2-pixel step toward the target, and the squared distance strictly decreases |
| Pet.WanderTick | main.py:472-512 | a drag, open input or pending request only stop the walk (the target is kept); a lost toss with no target stops the walk; a won toss on a screen too small for the window changes no field and ends the process, and only that case has an effect; a won toss faces the drawn target and takes the first step as `WalkStep` does; a new target is on screen when the draw is one `randint` can make; only position, target, walking and facing ever change |
| Pet.Press | main.py:515-521 | a left press starts a drag at the global position and records the pointer's offset on the window, with no guard; other buttons change nothing |
| Pet.DragMove | main.py:523-530 | while dragging, the window keeps the recorded offset from the pointer and the target is dropped; otherwise nothing changes |
| Pet.ToggleInput | main.py:548-564 | the input row flips and the bubble empties; opening it also stops the walk, faces front on frame 1 and drops the target |
| Pet.Release | main.py:532-546 | a left release always ends the drag; under 5 pixels (Manhattan) it is a click that toggles the input; otherwise it drops the target and stops the walk |
| Pet.SendMessage | main.py:566-576 | a blank message does nothing; a missing key or URL only shows the "set up the API" bubble and hides the input; otherwise the chat starts |
| Pet.StartChat | main.py:578-601 | the history gains exactly the user entry; the input clears and hides; thinking starts with a fresh bubble; one worker starts with the configured URL and key, the model or `gpt-3.5-turbo`, the prompt with every `{char}` replaced by the name, and the last 10 entries ending with the new message |
| Pet.OnAiFinished | main.py:603-611 | thinking ends; the reply fills a fresh bubble and joins the history as an assistant entry; one write saves the last `min(50, len)` entries |
| Pet.ClearBubble | main.py:615-620 | a pending request blocks the clear; otherwise the bubble, scroll offset and timer flag reset |
| Pet.RenamePet | main.py:623-632 | a cancelled or blank name changes nothing; otherwise the stripped name is stored and saved, announced in the bubble, and a 3 s clear is armed |
| Pet.ClearHistory | main.py:662-668 | the history empties, the file is deleted, and `历史已清除` shows with a 2 s clear armed |
| Pet.ApplyConfigDialog | main.py:639-643 | cancelling changes nothing; saving stores the corrected URL, the stripped key, the model and the prompt, with no pet name, and writes them |
| Pet.HistoryDialogText | main.py:634-637 | the viewer shows the transcript of the history, naming the pet as configured or `桌宠` |
| PetProperties.RunKeepsFrame | main.py:437-442 | over any run of events the sprite frame stays in 0..2 |
| PetProperties.RunHistoryCount | main.py:566-611 | over any run that does not clear the history, it grows by exactly one entry per worker started plus one per reply received |
| PetProperties.ClickTogglesInput | main.py:515-564 | a press and a release at the same spot flip the input row, end the drag, empty the bubble and set nothing going |
| PetProperties.MovesKeepPress | main.py:523-530 | pointer moves never change the press point, the drag flag or the input row |
| PetProperties.DragNeverToggles | main.py:515-546 | a press, any moves, and a release 5 or more pixels away leave the input row alone, end the drag, drop the target and stop the walk |
| PetProperties.SendThenReply | main.py:566-611 | sending with the API configured and then receiving the outcome starts one worker; afterwards nothing is pending, the bubble is the reply text (the content itself on success), the history has grown by exactly the exchange, and the one write holds at most 50 entries ending with it |
| PetProperties.PayloadEndsWithMessage | main.py:47 | the payload of a sent message is the persona prompt as system message followed by at most ten history messages, ending with the user's new text |
| PetProperties.ExchangeRecorded | main.py:587-609 | a started chat and its reply add exactly the user and assistant entries, which end what is saved |
| PetProperties.ConfigDialogForgetsName | main.py:237-242 | after saving the dialog the name is gone, and the persona prompt is the template split on `{char}` and joined with `桌宠` |
| PetProperties.ConfigDialogResaveStable | main.py:639-643 | saving the dialog again with the URL it stored leaves the state as it is |
| PetProperties.ClearBubbleIdempotent | main.py:615-620 | firing the clear timer twice is firing it once; it does nothing while thinking or on an already-clear bubble |
| PetProperties.RenameNamesPet | main.py:623-632 | after a confirmed rename the viewer and the next persona prompt use the stripped name, and confirming it again changes nothing |
| PetProperties.ClearHistoryForgetsAll | main.py:662-668 | after clearing, the viewer is empty, clearing again repeats the same state and effects, and the next exchange is all that gets saved |
| PetProperties.InitAsksNameOnce | main.py:340-346 | a start from the configuration the first start saved asks for no name and writes nothing |
| PetProperties.TicksArmAtMostOnce | main.py:456-468 | animation ticks alone arm the clear timer at most once, never again once the flag is set, and only while setting it |
| PetProperties.TicksRevealThenArm | main.py:445-468 | an idle bubble at a fixed text height has scrolled by exactly k pixels with nothing armed after each of the first k ticks up to the end of its range, and after one more tick the clear timer has been armed exactly once |
| PetProperties.TicksScrollFirst | main.py:456-458 | until the end of the text is in view, k ticks scroll the idle bubble by exactly k pixels and arm no timer |
| PetProperties.FacingMatchesFirstStep | main.py:479-512 | on a won toss the pet takes the drawn target, walks, and its first step goes the way it faces |
| PetProperties.WalkReachesTarget | main.py:500-512 | with nothing holding it back, more ticks than the squared distance bring the pet exactly onto its target, drop the target and stop the walk, and when both ends are on screen every position on the way is on screen |
| PetProperties.WalkStaysOnScreen | main.py:479-512 | from an on-screen position with an on-screen target (or none), any number of lost-toss ticks keep the pet on screen |
| PetMachine.Dispatch | main.py:256-263 | mouse events, typing and the clear timer set nothing going, and a wander tick sets going at most the end of the process |
| PetMachine.RunCons | main.py:256-263 | the event loop runs one callback to completion, then the remaining events from the state it left, keeping effects in order |
| PetMachine.FoldAppend | main.py:256-263 | running two event streams one after the other is running their concatenation |
| PetProperties.OnlyReturnStartsWorkers | main.py:319 | only the Return key starts a chat request, and one event starts at most one |
| PetProperties.AtRestStays | main.py:479-497 | with no target, nothing holding it back and the walk already stopped, lost tosses leave the state unchanged |

## Left out

- Painting (`paintEvent`, the sprite sheet, the bubble drawing) and the
  window flags are not modelled: they produce pixels, not state.
- Text measurement is not modelled. `QFontMetrics.boundingRect`'s height
  of the wrapped bubble text is a parameter of each animation tick.
- Events after a `Crash` effect are not excluded: the process has ended,
  and a caller of `PetMachine.Run` drops what follows it.
- Randomness is not modelled either. `random.random() < 0.05` is a boolean
  parameter of each wander tick, and `random.randint`'s draw is a point
  parameter. `Pet.WanderTick` states the on-screen property only for draws
  `randint` can make.
- Threads and timers are effects, not concurrency. Starting the worker and
  `QTimer.singleShot` are returned as effects. Their results come back as
  events, in whatever order the event stream gives. Several pending
  one-shot timers are not tracked.
- The HTTP exchange, JSON decoding and all file I/O are represented by
  outcome datatypes (`Chat.Outcome`, `ModelList.ModelsResponse`) and
  write/delete effects.
- Reading `config.json` and `history.json` at start-up is an input of
  `Pet.Init`. A malformed history file yielding `[]` is the caller's choice
  of that input.
- Non-string ids cannot be represented. A listing element is an object
  with a string `"id"`, an object without one, or any other value. An id
  of another JSON type, which would make `sorted` raise on a mixed list,
  cannot be written down.
- Python floating point is not modelled. `Motion.StepComponent` is the
  exact truncation of the real quotient `2*d/dist`. A component of size 1
  would sit on its boundary only if `3*d*d == o*o`, which is impossible
  for `d != 0`. Double rounding of a quotient just below 1 up to 1.0 would
  need coordinates far beyond any screen, and that case is not modelled.
- The input-row widgets (focus, placeholder, history button) and the tray
  icon are not modelled. The history dialog's `exec()` and the config
  dialog's fields are inputs.
- `Pet.ApplyConfigDialog` does not model the model combo's contents. The
  chosen model text is an input.
